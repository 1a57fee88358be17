/** The resume upload form of frontend/src/UploadSection.jsx: the list of
    uploaded PDF files, which one is selected for analysis, the job
    description, and what the form hands to the analysis when submitted. */
module Upload {
  import opened Outcomes
  import opened Text
  import opened Lists
  import Api

  /** A browser `File`, reduced to what the form looks at. */
  datatype UploadFile = UploadFile(name: string, mimeType: string)

  predicate IsPdf(f: UploadFile) {
    f.mimeType == "application/pdf"
  }

  datatype Form = Form(files: seq<UploadFile>, selected: nat, jobDescription: string)

  const Initial := Form([], 0, "")

  /** The selection points at an uploaded file, or is zero when there is
      none. */
  predicate Valid(u: Form) {
    u.selected < |u.files| || u.selected == 0
  }

  lemma InitialValid()
    ensures Valid(Initial) && Initial.selected == 0
  {
  }

  /** The form after a file chooser closed, and whether the user was told
      that some of the chosen files were dropped. */
  datatype Added = Added(form: Form, warned: bool)

  /** `handleFileChange`: the chosen PDFs are appended in order; anything
      else is dropped with a warning. The selection does not move. */
  function AddFiles(u: Form, chosen: seq<UploadFile>): (r: Added)
    ensures r.form.files == u.files + Kept(chosen, IsPdf)
    ensures r.warned <==> exists i :: 0 <= i < |chosen| && !IsPdf(chosen[i])
    ensures r.form.selected == u.selected && r.form.jobDescription == u.jobDescription
    ensures Valid(u) ==> Valid(r.form)
  {
    var pdfs := Kept(chosen, IsPdf);
    KeptDropsIffSomeRejected(chosen, IsPdf);
    var files := if |pdfs| > 0 then u.files + pdfs else u.files;
    assert pdfs == [] ==> files == u.files + pdfs;
    Added(u.(files := files), |pdfs| != |chosen|)
  }

  /** Picking a file with its radio button. */
  function Select(u: Form, index: nat): (r: Form)
    requires index < |u.files|
    ensures r.files == u.files && r.jobDescription == u.jobDescription
    ensures Valid(r) && r.selected < |r.files| && r.files[r.selected] == u.files[index]
  {
    u.(selected := index)
  }

  /** `removeFile` as written: the file goes, and the selection is only
      adjusted when it pointed at or beyond the old last position. Removing
      a file in front of the selection leaves the index where it was, so it
      now points at the file that followed the selected one. */
  function RemoveFileAsWritten(u: Form, index: int): (r: Form)
    ensures r.files == RemoveAt(u.files, index) && r.jobDescription == u.jobDescription
    ensures u.selected < |u.files| - 1 ==> r.selected == u.selected
    ensures u.selected >= |u.files| - 1 ==> r.selected == if |u.files| >= 2 then |u.files| - 2 else 0
    ensures Valid(u) ==> Valid(r)
  {
    var files := RemoveAt(u.files, index);
    if u.selected >= |u.files| - 1 then
      u.(files := files, selected := if |u.files| - 2 > 0 then |u.files| - 2 else 0)
    else
      u.(files := files)
  }

  /** Removing a file in front of the selected one silently selects the
      file after it. */
  lemma RemoveBeforeSelectionSelectsNext(u: Form, index: int)
    requires Valid(u) && 0 <= index < u.selected < |u.files| - 1
    ensures var r := RemoveFileAsWritten(u, index);
      Valid(r) && r.files[r.selected] == u.files[u.selected + 1]
  {
  }

  /** Three uploads a, b, c with b selected: removing a leaves c selected. */
  lemma RemoveFirstOfThree(a: UploadFile, b: UploadFile, c: UploadFile, job: string)
    requires b != c
    ensures var r := RemoveFileAsWritten(Form([a, b, c], 1, job), 0);
      r.files == [b, c] && r.files[r.selected] == c && r.files[r.selected] != b
  {
    RemoveBeforeSelectionSelectsNext(Form([a, b, c], 1, job), 0);
  }

  /** `removeFile` with the selection following its file: an index in front
      of the selection moves down with it, and removing the last file while
      it is selected selects the new last one. */
  function RemoveFile(u: Form, index: int): (r: Form)
    ensures r.files == RemoveAt(u.files, index) && r.jobDescription == u.jobDescription
    ensures Valid(u) ==> Valid(r)
  {
    var files := RemoveAt(u.files, index);
    var selected :=
      if 0 <= index < u.selected then u.selected - 1
      else if u.selected >= |files| then (if |files| - 1 > 0 then |files| - 1 else 0)
      else u.selected;
    u.(files := files, selected := selected)
  }

  /** Removing any file other than the selected one keeps the same file
      selected. */
  lemma RemoveFileKeepsSelection(u: Form, index: int)
    requires Valid(u) && 0 <= index < |u.files| && index != u.selected
    ensures var r := RemoveFile(u, index);
      r.selected < |r.files| && r.files[r.selected] == u.files[u.selected]
  {
  }

  /** Both versions agree except when a file in front of the selection is
      removed. */
  lemma RemoveFileAgreesElsewhere(u: Form, index: int)
    requires Valid(u) && 0 <= index < |u.files| && !(index < u.selected < |u.files| - 1)
    ensures RemoveFile(u, index) == RemoveFileAsWritten(u, index)
  {
  }

  // ---------------------------------------------------------------------
  // Submitting

  const NoResume := "Please upload at least one resume"
  const ShortJobDescription := "Please enter a job description (at least 50 characters)"

  /** What `onAnalyze` receives: the file, the job description and the file
      name. */
  datatype Submission = Submission(file: UploadFile, jobDescription: string, filename: string)

  /** JavaScript's `String.length`: the number of UTF-16 code units, two for
      a character outside the Basic Multilingual Plane and one otherwise. */
  function Utf16Length(s: string): (n: nat)
    ensures |s| <= n <= 2 * |s|
    ensures (forall i :: 0 <= i < |s| ==> s[i] as int < 0x1_0000) ==> n == |s|
    decreases |s|
  {
    if s == [] then 0
    else (if s[0] as int < 0x1_0000 then 1 else 2) + Utf16Length(s[1..])
  }

  lemma {:induction false} Utf16LengthAppend(a: string, b: string)
    ensures Utf16Length(a + b) == Utf16Length(a) + Utf16Length(b)
    decreases |a|
  {
    if a == [] {
      assert a + b == b;
    } else {
      assert (a + b)[0] == a[0] && (a + b)[1..] == a[1..] + b;
      Utf16LengthAppend(a[1..], b);
    }
  }

  /** A string of `k` copies of one character outside the Basic
      Multilingual Plane is `2 * k` code units long. */
  lemma {:induction false} Utf16LengthAstral(c: char, k: nat)
    requires c as int >= 0x1_0000
    ensures Utf16Length(seq(k, _ => c)) == 2 * k
    decreases k
  {
    if k > 0 {
      assert seq(k, _ => c) == [c] + seq(k - 1, _ => c);
      Utf16LengthAppend([c], seq(k - 1, _ => c));
      Utf16LengthAstral(c, k - 1);
      assert [c][1..] == [];
    }
  }
  /** `handleSubmit`: no file is refused first; then a job description that
      is blank or shorter than fifty UTF-16 code units (JavaScript's
      `length`), counted before trimming. */
  function Submit(u: Form): (r: Result<Submission, string>)
    requires Valid(u)
    ensures u.files == [] ==> r == Err(NoResume)
    ensures u.files != [] && (Trim(u.jobDescription) == [] || Utf16Length(u.jobDescription) < 50) ==>
      r == Err(ShortJobDescription)
    ensures r.Ok? <==> u.files != [] && !AllSpace(u.jobDescription) && Utf16Length(u.jobDescription) >= 50
    ensures r.Ok? ==>
      && r.value.file == u.files[u.selected]
      && r.value.filename == r.value.file.name
      && r.value.jobDescription == u.jobDescription
  {
    if u.files == [] then Err(NoResume)
    else if Trim(u.jobDescription) == [] || Utf16Length(u.jobDescription) < 50 then Err(ShortJobDescription)
    else
      var f := u.files[u.selected];
      Ok(Submission(f, u.jobDescription, f.name))
  }

  /** The form counts trailing blanks that the server's `len(strip())`
      guard does not: a short description padded to fifty characters is
      submitted and then refused. */
  lemma PaddedJobPassesFormOnly(u: Form, v: string, pad: string)
    requires Valid(u) && u.files != []
    requires v != [] && Trim(v) == v && |v| < 50
    requires AllSpace(pad) && |v| + |pad| >= 50
    ensures Submit(u.(jobDescription := v + pad)).Ok?
    ensures Api.TooShort(v + pad, 50)
  {
    assert !AllSpace(v) by {
      assert Trim(v) != [];
    }
    TrimStartAppend(v, pad);
    TrimEndPadded(TrimStart(v), pad);
    assert Trim(v + pad) == Trim(v);
    assert !AllSpace(v + pad) by {
      var i :| 0 <= i < |v| && !IsSpace(v[i]);
      assert (v + pad)[i] == v[i];
    }
  }

  /** Twenty-five emoji are fifty code units to the form, so a file and
      such a description are submitted. */
  lemma AstralJobPassesForm(u: Form)
    requires Valid(u) && u.files != []
    ensures var job := seq(25, _ => '\U{1F600}');
      |job| == 25 && Submit(u.(jobDescription := job)).Ok?
  {
    var job := seq(25, _ => '\U{1F600}');
    Utf16LengthAstral('\U{1F600}', 25);
    assert !IsSpace(job[0]);
  }

  // ---------------------------------------------------------------------
  // Display

  /** `analysisHistory.slice(-5).reverse()`: the five most recent entries,
      newest first. */
  function RecentHistory<T>(history: seq<T>): (r: seq<T>)
    ensures |r| == if |history| < 5 then |history| else 5
    ensures forall i :: 0 <= i < |r| ==> r[i] == history[|history| - 1 - i]
  {
    var recent := if |history| < 5 then history else history[|history| - 5..];
    Reverse(recent)
  }

  function Reverse<T>(xs: seq<T>): (r: seq<T>)
    ensures |r| == |xs|
    ensures forall i :: 0 <= i < |xs| ==> r[i] == xs[|xs| - 1 - i]
  {
    if xs == [] then [] else Reverse(xs[1..]) + [xs[0]]
  }

  const SelectedLead := "Analyze Selected ("

  /** The submit button's caption: with several files it shows the
      one-based position of the selected file and the number of files. */
  function SubmitLabel(u: Form): (r: string)
    requires Valid(u)
    ensures |u.files| <= 1 ==> r == "Analyze Resume"
    ensures |u.files| > 1 ==>
      && SelectedLead <= r && |r| > |SelectedLead| && r[|r| - 1] == ')'
      && Counter(r[|SelectedLead|..|r| - 1]) == Some((u.selected + 1, |u.files|))
  {
    if |u.files| > 1 then
      var position, count := IntText(u.selected + 1), IntText(|u.files|);
      var r := SelectedLead + position + "/" + count + ")";
      assert r[|SelectedLead|..|r| - 1] == position + ['/'] + count;
      CounterOf(u.selected + 1, |u.files|);
      r
    else "Analyze Resume"
  }

  predicate Digits(s: string) {
    s != [] && forall i :: 0 <= i < |s| ==> '0' <= s[i] <= '9'
  }

  /** Reads a "position/count" counter: two decimal numbers around one
      '/'. */
  function Counter(s: string): Option<(int, int)> {
    var parts := Split(s, '/');
    if |parts| == 2 && Digits(parts[0]) && Digits(parts[1])
    then Some((IntValue(parts[0]), IntValue(parts[1])))
    else None
  }

  lemma CounterOf(a: nat, b: nat)
    ensures Counter(NatText(a) + ['/'] + NatText(b)) == Some((a, b))
  {
    var x, y := NatText(a), NatText(b);
    SplitAppend(x, y, '/');
    SplitNoSeparator(x, '/');
    SplitNoSeparator(y, '/');
    NatTextRoundTrip(a);
    NatTextRoundTrip(b);
  }

  /** The position read back from the caption names the selected file, and
      the count read back is the number of files. */
  lemma SubmitLabelPositionInRange(u: Form)
    requires Valid(u) && |u.files| > 1
    ensures var r := SubmitLabel(u);
      var c := Counter(r[|SelectedLead|..|r| - 1]);
      c.Some? && 1 <= c.value.0 <= c.value.1 == |u.files|
      && u.files[c.value.0 - 1] == u.files[u.selected]
  {
  }
}
