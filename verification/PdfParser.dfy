/** Text normalisation applied to everything extracted from an uploaded PDF
    (`PDFParser._clean_text`, backend/pdf_parser.py). Opening the PDF and
    reading its pages is done by PyMuPDF and is not part of this model. */
module PdfParser {
  import opened Text

  /** Python's `\w` restricted to ASCII: letters, digits and underscore. */
  predicate IsWordChar(c: char) {
    ('a' <= c <= 'z') || ('A' <= c <= 'Z') || ('0' <= c <= '9') || c == '_'
  }

  /** The characters the cleaner keeps: word characters, whitespace and
      `. , ; : ( ) - @`. */
  predicate Permitted(c: char) {
    IsWordChar(c) || IsSpace(c) || c == '.' || c == ',' || c == ';' || c == ':'
    || c == '(' || c == ')' || c == '-' || c == '@'
  }

  /** `re.sub(r'[^\w\s.,;:()\-@]', '', s)`. */
  function DropSpecial(s: string): (r: string)
    ensures |r| <= |s|
    ensures forall i :: 0 <= i < |r| ==> Permitted(r[i])
    decreases |s|
  {
    if s == [] then []
    else if Permitted(s[0]) then [s[0]] + DropSpecial(s[1..])
    else DropSpecial(s[1..])
  }

  /** Every permitted character survives as often as it occurs, and no
      other character survives at all. */
  lemma {:induction false} DropSpecialCounts(s: string)
    ensures forall c :: multiset(DropSpecial(s))[c] == if Permitted(c) then multiset(s)[c] else 0
    decreases |s|
  {
    if s != [] {
      assert s == [s[0]] + s[1..];
      DropSpecialCounts(s[1..]);
    }
  }

  /** `_clean_text`: collapse every whitespace run to one space, drop the
      characters that are not permitted, then strip. */
  function Clean(text: string): (r: string)
    ensures |r| <= |text|
    ensures r != [] ==> r[0] != ' ' && r[|r| - 1] != ' '
    ensures forall i :: 0 <= i < |r| ==> Permitted(r[i]) && (IsSpace(r[i]) ==> r[i] == ' ')
    ensures r == [] <==> AllSpace(DropSpecial(text))
  {
    var collapsed := ReplaceSpaceRuns(text, ' ');
    var kept := DropSpecial(collapsed);
    DropSpecialKeepsSpaces(collapsed);
    TrimKeepsChars(kept);
    CleanEmptiness(text);
    Trim(kept)
  }

  /** Trimming keeps the character-level guarantees of its input. */
  lemma TrimKeepsChars(s: string)
    requires forall i :: 0 <= i < |s| ==> Permitted(s[i]) && (IsSpace(s[i]) ==> s[i] == ' ')
    ensures forall i :: 0 <= i < |Trim(s)| ==> Permitted(Trim(s)[i]) && (IsSpace(Trim(s)[i]) ==> Trim(s)[i] == ' ')
  {
    var t := TrimStart(s);
    var r := Trim(s);
    var off := |s| - |t|;
    assert r == TrimEnd(t) == t[..|r|];
    assert t == s[off..];
    forall i | 0 <= i < |r| ensures r[i] == s[off + i] {
      assert r[i] == t[i];
      assert t[i] == s[off + i];
    }
  }

  /** Dropping characters never turns a space into other whitespace. */
  lemma {:induction false} DropSpecialKeepsSpaces(s: string)
    requires forall i :: 0 <= i < |s| && IsSpace(s[i]) ==> s[i] == ' '
    ensures forall i :: 0 <= i < |DropSpecial(s)| && IsSpace(DropSpecial(s)[i]) ==> DropSpecial(s)[i] == ' '
    decreases |s|
  {
    if s != [] {
      assert forall i :: 0 <= i < |s[1..]| ==> s[1..][i] == s[i + 1];
      DropSpecialKeepsSpaces(s[1..]);
    }
  }

  lemma CleanEmptiness(text: string)
    ensures Trim(DropSpecial(ReplaceSpaceRuns(text, ' '))) == [] <==> AllSpace(DropSpecial(text))
  {
    var collapsed := ReplaceSpaceRuns(text, ' ');
    ReplaceSpaceRunsKeepsVisible(text, ' ');
    VisibleDropSpecial(collapsed);
    VisibleDropSpecial(text);
    AllSpaceIffNoVisible(DropSpecial(collapsed));
    AllSpaceIffNoVisible(DropSpecial(text));
  }

  lemma {:induction false} AllSpaceIffNoVisible(s: string)
    ensures AllSpace(s) <==> Visible(s) == []
    decreases |s|
  {
    if s != [] {
      AllSpaceIffNoVisible(s[1..]);
      assert AllSpace(s) <==> IsSpace(s[0]) && AllSpace(s[1..]);
    }
  }

  /** Dropping characters commutes with keeping only the visible ones. */
  lemma {:induction false} VisibleDropSpecial(s: string)
    ensures Visible(DropSpecial(s)) == DropSpecial(Visible(s))
    decreases |s|
  {
    if s != [] {
      VisibleDropSpecial(s[1..]);
      if Permitted(s[0]) {
        assert ([s[0]] + DropSpecial(s[1..]))[1..] == DropSpecial(s[1..]);
      }
      if !IsSpace(s[0]) {
        assert ([s[0]] + Visible(s[1..]))[1..] == Visible(s[1..]);
      }
    }
  }

  lemma {:induction false} VisibleAppend(a: string, b: string)
    ensures Visible(a + b) == Visible(a) + Visible(b)
    decreases |a|
  {
    if a == [] {
      assert a + b == b;
    } else {
      assert (a + b)[0] == a[0] && (a + b)[1..] == a[1..] + b;
      VisibleAppend(a[1..], b);
    }
  }

  lemma {:induction false} VisibleTrimEnd(s: string)
    ensures Visible(TrimEnd(s)) == Visible(s)
    decreases |s|
  {
    if s != [] && IsSpace(s[|s| - 1]) {
      var init := s[..|s| - 1];
      VisibleTrimEnd(init);
      assert s == init + [s[|s| - 1]];
      VisibleAppend(init, [s[|s| - 1]]);
      assert Visible([s[|s| - 1]]) == [];
    }
  }

  lemma VisibleTrim(s: string)
    ensures Visible(Trim(s)) == Visible(s)
  {
    VisibleTrimStart(s);
    VisibleTrimEnd(TrimStart(s));
  }

  /** Cleaning keeps every permitted visible character of the input, in
      order, and nothing else: whitespace handling only decides where the
      single spaces go. */
  lemma CleanKeepsVisible(text: string)
    ensures Visible(Clean(text)) == DropSpecial(Visible(text))
  {
    var collapsed := ReplaceSpaceRuns(text, ' ');
    ReplaceSpaceRunsKeepsVisible(text, ' ');
    VisibleDropSpecial(collapsed);
    VisibleTrim(DropSpecial(collapsed));
  }

  lemma {:induction false} DropSpecialSubseq(s: string)
    ensures Subseq(DropSpecial(s), s)
    decreases |s|
  {
    if s != [] {
      DropSpecialSubseq(s[1..]);
      var r := DropSpecial(s);
      if Permitted(s[0]) {
        assert r[0] == s[0] && r[1..] == DropSpecial(s[1..]);
      }
    }
  }

  /** The cleaned text is what is left of the whitespace-collapsed input
      after deleting characters. */
  lemma CleanIsSubseqOfCollapsed(text: string)
    ensures Subseq(Clean(text), ReplaceSpaceRuns(text, ' '))
  {
    var collapsed := ReplaceSpaceRuns(text, ' ');
    var kept := DropSpecial(collapsed);
    DropSpecialSubseq(collapsed);
    var start := TrimStart(kept);
    SubseqPrefix(Trim(kept), start);
    SubseqSuffix(start, kept);
    SubseqTrans(Trim(kept), start, kept);
    SubseqTrans(Trim(kept), kept, collapsed);
  }

  // ---------------------------------------------------------------------
  // Already-clean text

  /** Text the cleaner would be expected to leave alone: only permitted
      characters, single spaces as the only whitespace, and none at either
      end. */
  predicate IsClean(t: string) {
    && (forall i :: 0 <= i < |t| ==> Permitted(t[i]) && (IsSpace(t[i]) ==> t[i] == ' '))
    && (forall i :: 0 <= i < |t| - 1 ==> !(t[i] == ' ' && t[i + 1] == ' '))
    && (t != [] ==> t[0] != ' ' && t[|t| - 1] != ' ')
  }

  /** Single spaces with no neighbours are left alone by the collapsing. */
  lemma {:induction false} CollapseSingleSpaces(t: string)
    requires forall i :: 0 <= i < |t| && IsSpace(t[i]) ==> t[i] == ' '
    requires forall i :: 0 <= i < |t| - 1 ==> !(t[i] == ' ' && t[i + 1] == ' ')
    ensures ReplaceSpaceRuns(t, ' ') == t
    decreases |t|
  {
    if t != [] {
      var tail := t[1..];
      assert forall i :: 0 <= i < |tail| ==> tail[i] == t[i + 1];
      CollapseSingleSpaces(tail);
      if IsSpace(t[0]) {
        assert tail == [] || !IsSpace(tail[0]);
        assert TrimStart(tail) == tail;
        assert TrimStart(t) == tail;
        assert ReplaceSpaceRuns(t, ' ') == [' '] + ReplaceSpaceRuns(tail, ' ');
      } else {
        assert ReplaceSpaceRuns(t, ' ') == [t[0]] + ReplaceSpaceRuns(tail, ' ');
      }
      assert t == [t[0]] + tail;
    }
  }

  lemma {:induction false} DropSpecialPermitted(t: string)
    requires forall i :: 0 <= i < |t| ==> Permitted(t[i])
    ensures DropSpecial(t) == t
    decreases |t|
  {
    if t != [] {
      DropSpecialPermitted(t[1..]);
      assert t == [t[0]] + t[1..];
    }
  }

  /** Clean text is a fixed point of the cleaner. */
  lemma CleanFixesCleanText(t: string)
    requires IsClean(t)
    ensures Clean(t) == t
  {
    CollapseSingleSpaces(t);
    DropSpecialPermitted(t);
    assert TrimStart(t) == t;
    assert TrimEnd(t) == t;
  }

  // ---------------------------------------------------------------------
  // Whitespace is collapsed before characters are dropped

  lemma DropBetweenSpaces(a: char, x: char, b: char)
    requires Permitted(a) && Permitted(b) && !Permitted(x)
    ensures DropSpecial([a, ' ', x, ' ', b]) == [a, ' ', ' ', b]
  {
    assert DropSpecial([b]) == [b] by { assert [b][1..] == []; }
    assert DropSpecial([' ', b]) == [' ', b] by { assert [' ', b][1..] == [b]; }
    assert DropSpecial([x, ' ', b]) == [' ', b] by { assert [x, ' ', b][1..] == [' ', b]; }
    assert DropSpecial([' ', x, ' ', b]) == [' ', ' ', b] by { assert [' ', x, ' ', b][1..] == [x, ' ', b]; }
    assert [a, ' ', x, ' ', b][1..] == [' ', x, ' ', b];
  }

  lemma CollapseDoubleSpace(a: char, b: char)
    requires !IsSpace(a) && !IsSpace(b)
    ensures ReplaceSpaceRuns([a, ' ', ' ', b], ' ') == [a, ' ', b]
  {
    var once := [a, ' ', ' ', b];
    assert once[1..] == [' ', ' ', b];
    assert TrimStart([b]) == [b];
    assert TrimStart([' ', b]) == [b] by { assert [' ', b][1..] == [b]; }
    assert TrimStart([' ', ' ', b]) == [b] by { assert [' ', ' ', b][1..] == [' ', b]; }
    assert ReplaceSpaceRuns([b], ' ') == [b] by { assert [b][1..] == []; }
  }

  lemma CleanGap(a: char, x: char, b: char)
    requires Permitted(a) && !IsSpace(a) && Permitted(b) && !IsSpace(b) && !Permitted(x)
    ensures Clean([a, ' ', x, ' ', b]) == [a, ' ', ' ', b]
  {
    var t := [a, ' ', x, ' ', b];
    var once := [a, ' ', ' ', b];
    CollapseSingleSpaces(t);
    DropBetweenSpaces(a, x, b);
    assert DropSpecial(ReplaceSpaceRuns(t, ' ')) == once;
    TrimUnpadded(once);
  }

  /** Text that neither starts nor ends with whitespace is its own trim. */
  lemma TrimUnpadded(s: string)
    requires s != [] && !IsSpace(s[0]) && !IsSpace(s[|s| - 1])
    ensures Trim(s) == s
  {
    assert TrimStart(s) == s;
    assert TrimEnd(s) == s;
  }

  lemma CleanDoubleSpace(a: char, b: char)
    requires Permitted(a) && !IsSpace(a) && Permitted(b) && !IsSpace(b)
    ensures Clean([a, ' ', ' ', b]) == [a, ' ', b]
  {
    CollapseDoubleSpace(a, b);
    var twice := [a, ' ', b];
    DropSpecialPermitted(twice);
    assert TrimStart(twice) == twice;
    assert TrimEnd(twice) == twice;
  }

  /** A dropped character between two spaces leaves a double space
      behind (for example "a $ b" cleans to "a  b"), so the result is not
      clean text and cleaning is not idempotent: a second pass gives "a b". */
  lemma CleanCanLeaveDoubleSpace(a: char, x: char, b: char)
    requires Permitted(a) && !IsSpace(a) && Permitted(b) && !IsSpace(b) && !Permitted(x)
    ensures Clean([a, ' ', x, ' ', b]) == [a, ' ', ' ', b]
    ensures !IsClean(Clean([a, ' ', x, ' ', b]))
    ensures Clean(Clean([a, ' ', x, ' ', b])) == [a, ' ', b]
  {
    CleanGap(a, x, b);
    CleanDoubleSpace(a, b);
    var once := [a, ' ', ' ', b];
    assert once[1] == ' ' && once[2] == ' ';
  }
}
