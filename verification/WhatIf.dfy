/** The what-if simulator of frontend/src/WhatIfSimulator.jsx: how the
    comma-separated skill fields become lists, the request it posts, and
    how a score change is shown. */
module WhatIf {
  import opened Outcomes
  import opened Text
  import opened Lists
  import AiAnalyzer

  predicate Named(s: string) {
    s != []
  }

  /** `s.split(',').map(s => s.trim()).filter(s => s)`. */
  function ParseSkills(input: string): (r: seq<string>)
    ensures forall i :: 0 <= i < |r| ==> r[i] != [] && ',' !in r[i] && Trim(r[i]) == r[i]
  {
    var pieces := Split(input, ',');
    var r := Collect(pieces, Trim, Named);
    forall i | 0 <= i < |r| ensures ',' !in r[i] && Trim(r[i]) == r[i] {
      var j :| 0 <= j < |pieces| && r[i] == Trim(pieces[j]);
      TrimKeepsOwnChars(pieces[j]);
      TrimOfStripped(r[i]);
    }
    r
  }

  /** A string without whitespace at either end trims to itself. */
  lemma TrimOfStripped(s: string)
    requires s != [] ==> !IsSpace(s[0]) && !IsSpace(s[|s| - 1])
    ensures Trim(s) == s
  {
    if s != [] {
      assert TrimStart(s) == s;
      assert TrimEnd(s) == s;
    }
  }

  /** A skill list in the form the field produces: named, trimmed and free
      of commas. */
  predicate WellFormed(skills: seq<string>) {
    forall i :: 0 <= i < |skills| ==> skills[i] != [] && ',' !in skills[i] && Trim(skills[i]) == skills[i]
  }

  /** Every comma-separated piece that is not blank once trimmed is among
      the parsed skills. */
  lemma ParseSkillsKeepsPiece(input: string, j: nat)
    requires j < |Split(input, ',')| && Trim(Split(input, ',')[j]) != []
    ensures Trim(Split(input, ',')[j]) in ParseSkills(input)
  {
    CollectKeeps(Split(input, ','), Trim, Named, j);
  }

  /** Parsing two lists joined by a comma gives the two parsed lists one
      after the other, in order. */
  lemma ParseSkillsAppend(a: string, b: string)
    ensures ParseSkills(a + [','] + b) == ParseSkills(a) + ParseSkills(b)
  {
    SplitAppend(a, b, ',');
    CollectAppend(Split(a, ','), Split(b, ','), Trim, Named);
  }

  /** A leading blank on the first piece does not change the parsed list. */
  lemma ParseIgnoresLeadingBlank(x: string)
    ensures ParseSkills([' '] + x) == ParseSkills(x)
  {
    var ps := Split(x, ',');
    assert ([' '] + x)[0] != ',' && ([' '] + x)[1..] == x;
    var qs := Split([' '] + x, ',');
    assert qs == [[' '] + ps[0]] + ps[1..];
    assert ps == [ps[0]] + ps[1..];
    CollectAppend([[' '] + ps[0]], ps[1..], Trim, Named);
    CollectAppend([ps[0]], ps[1..], Trim, Named);
    TrimLeadingBlank(ps[0]);
  }

  /** One named skill followed by ", " and more text parses to that skill
      followed by whatever the rest parses to. */
  lemma ParseLeadingSkill(first: string, rest: string)
    requires first != [] && ',' !in first && Trim(first) == first
    ensures ParseSkills(first + ", " + rest) == [first] + ParseSkills(rest)
  {
    var tail := [' '] + rest;
    assert first + ", " + rest == first + [','] + tail;
    SplitAppend(first, tail, ',');
    SplitNoSeparator(first, ',');
    CollectAppend([first], Split(tail, ','), Trim, Named);
    assert Collect([first], Trim, Named) == [first] by {
      assert [first][1..] == [];
    }
    ParseIgnoresLeadingBlank(rest);
  }

  /** Text without commas is at most one skill: itself once trimmed. */
  lemma ParseOneSkill(s: string)
    requires ',' !in s && Trim(s) == s
    ensures ParseSkills(s) == if s == [] then [] else [s]
  {
    SplitNoSeparator(s, ',');
    assert [s][1..] == [];
  }

  /** Typing a list back in, separated by ", ", parses to the same list. */
  lemma {:induction false} ParseSkillsJoin(skills: seq<string>)
    requires WellFormed(skills)
    ensures ParseSkills(Join(skills, ", ")) == skills
    decreases |skills|
  {
    if skills == [] {
      ParseOneSkill([]);
    } else if |skills| == 1 {
      ParseOneSkill(skills[0]);
    } else {
      ParseSkillsJoin(skills[1..]);
      ParseJoinStep(skills);
    }
  }

  lemma ParseJoinStep(skills: seq<string>)
    requires |skills| >= 2 && WellFormed(skills)
    requires ParseSkills(Join(skills[1..], ", ")) == skills[1..]
    ensures ParseSkills(Join(skills, ", ")) == skills
  {
    var first, tail := skills[0], skills[1..];
    var rest := Join(tail, ", ");
    assert first != [] && ',' !in first && Trim(first) == first;
    assert Join(skills, ", ") == first + ", " + rest by {
      JoinUnfolds(skills, ", ");
    }
    assert ParseSkills(first + ", " + rest) == [first] + tail by {
      ParseLeadingSkill(first, rest);
    }
    ConsTail(skills);
  }

  lemma ConsTail<T>(s: seq<T>)
    requires s != []
    ensures [s[0]] + s[1..] == s
  {
  }

  lemma JoinUnfolds(parts: seq<string>, sep: string)
    requires |parts| >= 2
    ensures Join(parts, sep) == parts[0] + sep + Join(parts[1..], sep)
  {
  }

  /** The analyzer lists the requested skills joined by ", " after its
      "Adding skills: " label; reading that list back gives exactly the
      skills the field produced. */
  lemma AddedSkillsReadBack(addInput: string, removeSkills: seq<string>, experience: string)
    requires ParseSkills(addInput) != []
    ensures var mods := AiAnalyzer.Modifications(ParseSkills(addInput), removeSkills, experience);
      mods[0] == "Adding skills: " + Join(ParseSkills(addInput), ", ")
      && ParseSkills(mods[0][|"Adding skills: "|..]) == ParseSkills(addInput)
  {
    var mods := AiAnalyzer.Modifications(ParseSkills(addInput), removeSkills, experience);
    assert mods[0][|"Adding skills: "|..] == Join(ParseSkills(addInput), ", ");
    ParseSkillsJoin(ParseSkills(addInput));
  }

  // ---------------------------------------------------------------------
  // Running a simulation

  const NoAnalysis := "Please analyze a resume first"

  /** The body posted to `/api/whatif-simulation`. */
  datatype Request = Request(resumeText: string, jobDescription: string,
                             addSkills: seq<string>, removeSkills: seq<string>,
                             addExperience: string, originalScore: int)

  /** `runSimulation` up to the request. Without an analysed resume and job
      description it stops with an alert; a missing score is sent as 0. */
  function RunSimulation(resumeText: string, jobDescription: string, addInput: string,
                         removeInput: string, addExperience: string, originalScore: Option<int>)
    : (r: Result<Request, string>)
    ensures r.Ok? <==> resumeText != [] && jobDescription != []
    ensures r.Err? ==> r.error == NoAnalysis
    ensures r.Ok? ==>
      && r.value.resumeText == resumeText && r.value.jobDescription == jobDescription
      && r.value.addSkills == ParseSkills(addInput) && r.value.removeSkills == ParseSkills(removeInput)
      && r.value.addExperience == addExperience
      && (originalScore.Some? ==> r.value.originalScore == originalScore.value)
      && (originalScore.None? ==> r.value.originalScore == 0)
  {
    if resumeText == [] || jobDescription == [] then Err(NoAnalysis)
    else Ok(Request(resumeText, jobDescription, ParseSkills(addInput), ParseSkills(removeInput),
                    addExperience, originalScore.GetOr(0)))
  }

  /** A field holding only commas and blanks asks for no change. */
  lemma BlankFieldAsksNothing(input: string)
    requires forall i :: 0 <= i < |input| ==> input[i] == ',' || IsSpace(input[i])
    ensures ParseSkills(input) == []
  {
    var pieces := Split(input, ',');
    var r := ParseSkills(input);
    if r != [] {
      var j :| 0 <= j < |pieces| && r[0] == Trim(pieces[j]);
      JoinSplit(input, ',');
      PieceOfSplit(input, ',', j);
      assert AllSpace(pieces[j]) by {
        forall k | 0 <= k < |pieces[j]| ensures IsSpace(pieces[j][k]) {
          assert pieces[j][k] in input;
          assert pieces[j][k] != ',';
        }
      }
      assert false;
    }
  }

  /** Every piece of a split is made of characters of the input. */
  lemma {:induction false} PieceOfSplit(s: string, sep: char, j: nat)
    requires j < |Split(s, sep)|
    ensures forall k :: 0 <= k < |Split(s, sep)[j]| ==> Split(s, sep)[j][k] in s
    decreases |s|
  {
    if s != [] {
      var rest := Split(s[1..], sep);
      if s[0] == sep {
        if j > 0 { PieceOfSplit(s[1..], sep, j - 1); }
      } else if j == 0 {
        PieceOfSplit(s[1..], sep, 0);
      } else {
        PieceOfSplit(s[1..], sep, j);
      }
    }
  }

  // ---------------------------------------------------------------------
  // Showing the result

  /** `getChangeColor`. */
  function ChangeColor(change: int): string {
    if change > 0 then "text-green-600" else if change < 0 then "text-red-600" else "text-gray-600"
  }

  /** `getChangeIcon`. */
  function ChangeIcon(change: int): string {
    if change > 0 then "↑" else if change < 0 then "↓" else "→"
  }

  /** The "Great Choice!" banner. */
  predicate ShowsImprovement(change: int) {
    change > 0
  }

  /** The "Not Recommended" banner. */
  predicate ShowsWarning(change: int) {
    change < 0
  }

  /** Colour, arrow and banners tell the same story: at most one banner is
      shown, the green up-arrow goes with the improvement banner, the red
      down-arrow with the warning, and a grey sideways arrow with neither. */
  lemma ChangeIndicatorsAgree(change: int)
    ensures !(ShowsImprovement(change) && ShowsWarning(change))
    ensures ChangeIcon(change) == "↑" <==> ShowsImprovement(change)
    ensures ChangeIcon(change) == "↓" <==> ShowsWarning(change)
    ensures ChangeColor(change) == "text-green-600" <==> ChangeIcon(change) == "↑"
    ensures ChangeColor(change) == "text-red-600" <==> ChangeIcon(change) == "↓"
    ensures ChangeColor(change) == "text-gray-600" <==> !ShowsImprovement(change) && !ShowsWarning(change)
  {
  }

  /** When the model cannot be reached the analyzer reports a gain of five
      points, so the simulator always recommends the change. */
  lemma FallbackRecommends(originalScore: int)
    ensures var change := AiAnalyzer.WhatIfResult(None, originalScore)["score_change"].n;
      ShowsImprovement(change) && !ShowsWarning(change) && ChangeIcon(change) == "↑"
  {
  }
}
