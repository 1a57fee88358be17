/** The string-formatting rules the resume export and the resume preview
    share: the title fallback, contact and link lines, the date range, the
    company, degree and certification lines, the skills lines and the name
    of the saved file. */
module ResumeFormat {
  import opened Text
  import opened Resume

  const Separator := " | "

  /** `fullName || 'Your Name'`. */
  function Title(p: PersonalInfo): (r: string)
    ensures r != []
    ensures p.fullName != [] ==> r == p.fullName
    ensures p.fullName == [] ==> r == "Your Name"
  {
    if p.fullName != "" then p.fullName else "Your Name"
  }

  /** `[email, phone, location].filter(Boolean).join(' | ')`. */
  function ContactLine(p: PersonalInfo): string {
    Join(NonEmpty([p.email, p.phone, p.location]), Separator)
  }

  /** `[linkedin, portfolio].filter(Boolean).join(' | ')`. */
  function LinksLine(p: PersonalInfo): string {
    Join(NonEmpty([p.linkedin, p.portfolio]), Separator)
  }

  predicate HasLinks(p: PersonalInfo) { p.linkedin != "" || p.portfolio != "" }

  /** The contact line is empty exactly when e-mail, phone and location all
      are, shows a lone filled field as is, and otherwise shows the filled
      fields in the order e-mail, phone, location, separated by " | ". */
  lemma ContactLineShape(p: PersonalInfo)
    ensures ContactLine(p) == [] <==> p.email == [] && p.phone == [] && p.location == []
    ensures p.email != [] && p.phone != [] && p.location != [] ==>
      ContactLine(p) == p.email + " | " + p.phone + " | " + p.location
    ensures p.email != [] && p.phone == [] && p.location == [] ==> ContactLine(p) == p.email
    ensures p.email == [] && p.phone != [] && p.location == [] ==> ContactLine(p) == p.phone
    ensures p.email == [] && p.phone == [] && p.location != [] ==> ContactLine(p) == p.location
    ensures p.email != [] && p.phone == [] && p.location != [] ==>
      ContactLine(p) == p.email + " | " + p.location
    ensures p.email != [] && p.phone != [] && p.location == [] ==>
      ContactLine(p) == p.email + " | " + p.phone
    ensures p.email == [] && p.phone != [] && p.location != [] ==>
      ContactLine(p) == p.phone + " | " + p.location
  {
    var xs := [p.email, p.phone, p.location];
    assert xs[1..] == [p.phone, p.location];
    assert xs[1..][1..] == [p.location];
    assert xs[1..][1..][1..] == [];
    var tail := if p.location != [] then [p.location] else [];
    assert NonEmpty(xs[1..][1..]) == tail;
    var mid := (if p.phone != [] then [p.phone] else []) + tail;
    assert NonEmpty(xs[1..]) == mid;
    assert NonEmpty(xs) == (if p.email != [] then [p.email] else []) + mid;
    var all := [p.email, p.phone, p.location];
    assert all[1..] == [p.phone, p.location] && all[1..][1..] == [p.location];
    assert Join(all[1..][1..], Separator) == p.location;
    assert Join(all[1..], Separator) == p.phone + Separator + p.location;
    assert Join(all, Separator) == p.email + Separator + (p.phone + Separator + p.location);
    assert p.email + Separator + (p.phone + Separator + p.location)
        == p.email + " | " + p.phone + " | " + p.location;
    if p.email != [] && p.phone != [] && p.location != [] {
      assert NonEmpty(xs) == all;
    }
    var two := [p.email, p.location];
    assert two[1..] == [p.location];
    assert Join(two[1..], Separator) == p.location;
    var ep := [p.email, p.phone];
    assert ep[1..] == [p.phone];
    assert Join(ep[1..], Separator) == p.phone;
    var pl := [p.phone, p.location];
    assert pl[1..] == [p.location];
    assert Join(pl[1..], Separator) == p.location;
    if p.email != [] && p.phone != [] && p.location == [] {
      assert NonEmpty(xs) == ep;
    }
    if p.email == [] && p.phone != [] && p.location != [] {
      assert NonEmpty(xs) == pl;
    }
  }

  /** The experience date range; an ongoing position shows "Present" instead
      of the end date. */
  function DateRange(e: Experience): string {
    if e.current then e.startDate + " - Present" else e.startDate + " - " + e.endDate
  }

  /** The end date of an ongoing position never shows: changing it leaves the
      date range unchanged. */
  lemma DateRangeIgnoresEndDateWhenCurrent(e: Experience, end: string)
    requires e.current
    ensures DateRange(e.(endDate := end)) == DateRange(e)
    ensures DateRange(e) == e.startDate + " - Present"
  {
  }

  /** The export prints `position || 'Position'` for the role. */
  function PositionLabel(e: Experience): (r: string)
    ensures r != []
    ensures e.position != [] ==> r == e.position
  {
    if e.position != "" then e.position else "Position"
  }

  /** `company` plus `", location"` when the location is filled in. */
  function CompanyLine(e: Experience): (r: string)
    ensures e.company <= r
    ensures e.location != [] ==> EndsWith(r, ", " + e.location)
    ensures |r| == |e.company| + (if e.location == [] then 0 else 2 + |e.location|)
  {
    e.company + (if e.location != "" then ", " + e.location else "")
  }

  /** `degree`, then `" in field"`, then `" - GPA: gpa"`, each optional part
      present only when filled in. */
  function DegreeLine(e: Education): (r: string)
    ensures e.degree <= r
    ensures e.gpa != [] ==> EndsWith(r, " - GPA: " + e.gpa)
    ensures e.gpa == [] && e.field != [] ==> EndsWith(r, " in " + e.field)
    ensures e.field != [] ==> e.degree + " in " + e.field <= r
    ensures r == [] <==> e.degree == [] && e.field == [] && e.gpa == []
    ensures |r| == |e.degree| + (if e.field == [] then 0 else 4 + |e.field|)
                               + (if e.gpa == [] then 0 else 8 + |e.gpa|)
  {
    e.degree
      + (if e.field != "" then " in " + e.field else "")
      + (if e.gpa != "" then " - GPA: " + e.gpa else "")
  }

  /** `name - issuer` (issuer defaulting to "Issuer") plus `" (date)"` when a
      date is filled in. */
  function CertificationLine(c: Certification): (r: string)
    ensures c.name + " - " + (if c.issuer != [] then c.issuer else "Issuer") <= r
    ensures c.date != [] ==> EndsWith(r, " (" + c.date + ")")
    ensures c.date == [] ==> EndsWith(r, if c.issuer != [] then c.issuer else "Issuer")
    ensures |r| == |c.name| + 3 + (if c.issuer == [] then 6 else |c.issuer|)
                               + (if c.date == [] then 0 else 3 + |c.date|)
  {
    c.name + " - " + (if c.issuer != "" then c.issuer else "Issuer")
      + (if c.date != "" then " (" + c.date + ")" else "")
  }

  /** The skill categories in the order both renderings list them. */
  datatype SkillCategory = TechnicalSkills | ToolSkills | SoftSkills | LanguageSkills

  const SkillOrder := [TechnicalSkills, ToolSkills, SoftSkills, LanguageSkills]

  function SkillLabel(c: SkillCategory): string {
    match c
    case TechnicalSkills => "Technical"
    case ToolSkills => "Tools"
    case SoftSkills => "Soft Skills"
    case LanguageSkills => "Languages"
  }

  function SkillValue(s: Skills, c: SkillCategory): string {
    match c
    case TechnicalSkills => s.technical
    case ToolSkills => s.tools
    case SoftSkills => s.soft
    case LanguageSkills => s.languages
  }

  /** The categories that are filled in, in the fixed order. */
  function FilledCategories(s: Skills): seq<SkillCategory> {
    (if s.technical != "" then [TechnicalSkills] else [])
      + (if s.tools != "" then [ToolSkills] else [])
      + (if s.soft != "" then [SoftSkills] else [])
      + (if s.languages != "" then [LanguageSkills] else [])
  }

  function SkillLine(s: Skills, c: SkillCategory): string {
    SkillLabel(c) + ": " + SkillValue(s, c)
  }

  predicate HasSkills(s: Skills) {
    s.technical != "" || s.tools != "" || s.soft != "" || s.languages != ""
  }

  /** The export's `skillsText`: one `Label: value` line per filled
      category. */
  function SkillLines(s: Skills): (r: seq<string>)
    ensures |r| == |FilledCategories(s)| <= 4
    ensures forall k :: 0 <= k < |r| ==> r[k] == SkillLine(s, FilledCategories(s)[k])
    ensures r == [] <==> !HasSkills(s)
  {
    var cs := FilledCategories(s);
    seq(|cs|, k requires 0 <= k < |cs| => SkillLine(s, cs[k]))
  }

  /** The filled categories keep the fixed order Technical, Tools, Soft
      Skills, Languages: each is filled, none is listed twice, and every
      filled one is listed. */
  lemma FilledCategoriesOrdered(s: Skills)
    ensures forall k :: 0 <= k < |FilledCategories(s)| ==> SkillValue(s, FilledCategories(s)[k]) != []
    ensures forall c :: c in SkillOrder && SkillValue(s, c) != [] ==> c in FilledCategories(s)
    ensures forall j, k :: 0 <= j < k < |FilledCategories(s)| ==>
      Rank(FilledCategories(s)[j]) < Rank(FilledCategories(s)[k])
  {
  }

  function Rank(c: SkillCategory): nat {
    match c
    case TechnicalSkills => 0
    case ToolSkills => 1
    case SoftSkills => 2
    case LanguageSkills => 3
  }

  /** `fullName.replace(/\s+/g, '_') || 'Resume'` followed by `.pdf`. */
  function FileName(fullName: string): (r: string)
    ensures EndsWith(r, ".pdf")
    ensures NoSpace(r)
    ensures fullName == [] ==> r == "Resume.pdf"
    ensures fullName != [] && NoSpace(fullName) ==> r == fullName + ".pdf"
  {
    var base := ReplaceSpaceRuns(fullName, '_');
    assert NoSpace(fullName) ==> base == fullName by {
      if NoSpace(fullName) { ReplaceSpaceRunsNoSpace(fullName, '_'); }
    }
    (if base != "" then base else "Resume") + ".pdf"
  }

  /** A name made of words separated by single blanks is saved with the
      blanks turned into underscores. */
  lemma FileNameJoinsWords(words: seq<string>)
    requires words != []
    requires forall i :: 0 <= i < |words| ==> words[i] != [] && NoSpace(words[i])
    ensures FileName(Join(words, " ")) == Join(words, "_") + ".pdf"
  {
    ReplaceJoinedWords(words);
  }

  lemma {:induction false} ReplaceJoinedWords(words: seq<string>)
    requires words != []
    requires forall i :: 0 <= i < |words| ==> words[i] != [] && NoSpace(words[i])
    ensures ReplaceSpaceRuns(Join(words, " "), '_') == Join(words, "_") != []
    decreases |words|
  {
    if |words| == 1 {
      ReplaceSpaceRunsNoSpace(words[0], '_');
    } else {
      var rest := Join(words[1..], " ");
      ReplaceJoinedWords(words[1..]);
      assert rest != [] && !IsSpace(rest[0]) by {
        JoinStartsWithFirst(words[1..], " ");
        assert rest[0] == words[1][0];
      }
      assert TrimStart(" " + rest) == rest;
      assert ReplaceSpaceRuns(" " + rest, '_') == "_" + Join(words[1..], "_");
      ReplaceAfterWord(words[0], " " + rest);
      assert Join(words, " ") == words[0] + (" " + rest);
    }
  }

  /** A word without whitespace is copied unchanged in front of whatever
      the rest becomes. */
  lemma {:induction false} ReplaceAfterWord(w: string, rest: string)
    requires NoSpace(w)
    ensures ReplaceSpaceRuns(w + rest, '_') == w + ReplaceSpaceRuns(rest, '_')
    decreases |w|
  {
    if w != [] {
      assert (w + rest)[0] == w[0] && (w + rest)[1..] == w[1..] + rest;
      ReplaceAfterWord(w[1..], rest);
    } else {
      assert w + rest == rest;
    }
  }

  lemma JoinStartsWithFirst(parts: seq<string>, sep: string)
    requires parts != []
    ensures parts[0] <= Join(parts, sep)
  {
  }
}
