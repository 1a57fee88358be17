/** The deterministic post-processing in backend/ai_analyzer.py: cleaning the
    lines of a language-model reply into bullet points and interview
    questions, filling in missing fields of mock-interview questions, the
    what-if modification list and result, and the fallback records returned
    when the model call fails. The model call itself is a parameter: its
    reply, or `None` when the call raised. */
module AiAnalyzer {
  import opened Outcomes
  import opened Text
  import Lists

  /** The JSON values the analyzer hands back to the API. */
  datatype Json =
    | JNull
    | JBool(b: bool)
    | JNum(n: int)
    | JStr(s: string)
    | JArr(items: seq<Json>)
    | JObj(fields: map<string, Json>)

  type Record = map<string, Json>

  function Strs(xs: seq<string>): (r: Json)
    ensures r.JArr? && |r.items| == |xs|
    ensures forall i :: 0 <= i < |xs| ==> r.items[i] == JStr(xs[i])
  {
    JArr(seq(|xs|, i requires 0 <= i < |xs| => JStr(xs[i])))
  }

  /** No whitespace at either end. */
  predicate Stripped(s: string) {
    s != [] ==> !IsSpace(s[0]) && !IsSpace(s[|s| - 1])
  }

  /** `r` is what is left of `s` after removing a prefix. */
  predicate SuffixOf(r: string, s: string) {
    |r| <= |s| && r == s[|s| - |r|..]
  }

  /** The length of the longest prefix of `s` whose characters satisfy `p`. */
  function RunLength(s: string, p: char -> bool): (n: nat)
    ensures n <= |s|
    ensures forall i :: 0 <= i < n ==> p(s[i])
    ensures n < |s| ==> !p(s[n])
    decreases |s|
  {
    if s != [] && p(s[0]) then 1 + RunLength(s[1..], p) else 0
  }

  // ---------------------------------------------------------------------
  // Bullet points (generate_bullet_points)

  /** The characters of `[\d\.\-•*]`. */
  predicate IsBulletMark(c: char) {
    ('0' <= c <= '9') || c == '.' || c == '-' || c == '•' || c == '*'
  }

  /** `re.sub(r'^[\d\.\-•*]+\s*', '', line)`: a leading run of digits, dots,
      dashes, bullets and asterisks is removed together with the whitespace
      after it. The removed prefix is a maximal run of marks followed by a
      maximal run of whitespace; a line that does not start with a mark is
      left alone. */
  function StripBulletMark(line: string): (r: string)
    ensures SuffixOf(r, line)
    ensures line == [] || !IsBulletMark(line[0]) ==> r == line
    ensures line != [] && IsBulletMark(line[0]) ==> |r| < |line|
    ensures var cut := |line| - |r|;
      cut > 0 ==>
        && IsBulletMark(line[0])
        && (forall i :: 0 <= i < cut ==> IsBulletMark(line[i]) || IsSpace(line[i]))
        && (forall i, j :: 0 <= i < j < cut && IsSpace(line[i]) ==> IsSpace(line[j]))
        && (r != [] ==> !IsSpace(r[0]))
        && (r != [] && !IsSpace(line[cut - 1]) ==> !IsBulletMark(r[0]))
  {
    var n := RunLength(line, IsBulletMark);
    if n == 0 then line
    else
      var r := TrimStart(line[n..]);
      StripBulletMarkCut(line, n, r);
      r
  }

  /** A dash and a blank in front of a bullet are removed. */
  lemma StripDashedLine(text: string)
    requires text != [] && !IsBulletMark(text[0]) && !IsSpace(text[0])
    ensures StripBulletMark("- " + text) == text
  {
    assert ("- " + text)[2..] == text;
  }

  /** The shape of the prefix `StripBulletMark` removes, given the length of
      the run of marks and what is left after the whitespace that follows. */
  lemma StripBulletMarkCut(line: string, n: nat, r: string)
    requires 0 < n <= |line|
    requires forall i :: 0 <= i < n ==> IsBulletMark(line[i])
    requires n < |line| ==> !IsBulletMark(line[n])
    requires r == TrimStart(line[n..])
    ensures SuffixOf(r, line)
    ensures var cut := |line| - |r|;
      && n <= cut
      && IsBulletMark(line[0])
      && (forall i :: 0 <= i < cut ==> IsBulletMark(line[i]) || IsSpace(line[i]))
      && (forall i, j :: 0 <= i < j < cut && IsSpace(line[i]) ==> IsSpace(line[j]))
      && (r != [] ==> !IsSpace(r[0]))
      && (r != [] && !IsSpace(line[cut - 1]) ==> !IsBulletMark(r[0]))
  {
    TrimStartAfter(line, n, r);
    MarksThenSpaces(line, n, |line| - |r|);
  }

  /** A run of marks followed by a run of whitespace. */
  lemma MarksThenSpaces(line: string, n: nat, cut: nat)
    requires n <= cut <= |line|
    requires forall i :: 0 <= i < n ==> IsBulletMark(line[i])
    requires forall i :: n <= i < cut ==> IsSpace(line[i])
    ensures forall i :: 0 <= i < cut ==> IsBulletMark(line[i]) || IsSpace(line[i])
    ensures forall i, j :: 0 <= i < j < cut && IsSpace(line[i]) ==> IsSpace(line[j])
  {
    forall i, j | 0 <= i < j < cut && IsSpace(line[i]) ensures IsSpace(line[j]) {
      if i < n {
        MarkIsNotSpace(line[i]);
      }
    }
  }

  lemma MarkIsNotSpace(c: char)
    requires IsBulletMark(c)
    ensures !IsSpace(c)
  {
  }

  /** Whitespace skipped after position `n`: what is left is a suffix of
      the line, everything between `n` and it is whitespace, and when
      nothing was skipped it starts at `n`. */
  lemma TrimStartAfter(line: string, n: nat, r: string)
    requires n <= |line|
    requires r == TrimStart(line[n..])
    ensures SuffixOf(r, line) && n <= |line| - |r|
    ensures forall i :: n <= i < |line| - |r| ==> IsSpace(line[i])
    ensures r != [] ==> !IsSpace(r[0])
    ensures r != [] && (n == |line| - |r| || !IsSpace(line[|line| - |r| - 1])) ==>
      |line| - |r| == n && r[0] == line[n]
  {
    var rest := line[n..];
    assert r == rest[|rest| - |r|..];
    assert r == line[|line| - |r|..];
    var cut := |line| - |r|;
    forall i | n <= i < cut ensures IsSpace(line[i]) {
      assert line[i] == rest[i - n];
    }
  }

  /** One reply line as a bullet candidate: stripped, then unmarked. */
  function BulletLine(line: string): (r: string)
    ensures Stripped(r)
    ensures SuffixOf(r, Trim(line))
  {
    var t := Trim(line);
    var r := StripBulletMark(t);
    assert r != [] ==> r[|r| - 1] == t[|t| - 1];
    r
  }

  /** `len(line) > 20`, which also rules out the empty line. */
  predicate LongEnough(b: string) {
    |b| > 20
  }

  /** The bullet candidates of the reply's lines that are long enough, in
      line order. */
  function BulletLines(lines: seq<string>): (r: seq<string>)
    ensures |r| <= |lines|
    ensures forall i :: 0 <= i < |r| ==> LongEnough(r[i]) && Stripped(r[i])
    ensures forall i :: 0 <= i < |r| ==> exists j :: 0 <= j < |lines| && r[i] == BulletLine(lines[j])
  {
    Lists.Collect(lines, BulletLine, LongEnough)
  }

  /** Every line whose candidate is long enough contributes it, and the
      bullets of two runs of lines come out one run after the other. */
  lemma BulletLinesComplete(lines: seq<string>, more: seq<string>)
    ensures forall j :: 0 <= j < |lines| && LongEnough(BulletLine(lines[j])) ==> BulletLine(lines[j]) in BulletLines(lines)
    ensures BulletLines(lines + more) == BulletLines(lines) + BulletLines(more)
  {
    forall j | 0 <= j < |lines| && LongEnough(BulletLine(lines[j])) ensures BulletLine(lines[j]) in BulletLines(lines) {
      Lists.CollectKeeps(lines, BulletLine, LongEnough, j);
    }
    Lists.CollectAppend(lines, more, BulletLine, LongEnough);
  }

  /** `_create_fallback_bullets`. */
  const FallbackBullets: seq<string> := [
    "Spearheaded cross-functional initiatives that improved team productivity by 25% and reduced delivery time",
    "Architected and implemented scalable solutions serving 100K+ users with 99.9% uptime",
    "Led team of 5 engineers in delivering critical features, resulting in 30% increase in user engagement",
    "Optimized system performance by refactoring legacy codebase, achieving 40% faster load times",
    "Collaborated with product and design teams to launch 3 major features ahead of schedule",
    "Mentored junior developers through code reviews and pair programming sessions",
    "Automated manual processes using Python scripts, saving 10 hours per week",
    "Presented technical solutions to stakeholders and secured buy-in for strategic initiatives"
  ]

  lemma FallbackBulletsLong()
    ensures forall i :: 0 <= i < |FallbackBullets| ==> LongEnough(FallbackBullets[i])
  {
  }

  /** The lines of a reply: stripped as a whole, then split on line feeds. */
  function ReplyLines(reply: string): (lines: seq<string>)
    ensures |lines| >= 1
    ensures forall i :: 0 <= i < |lines| ==> '\n' !in lines[i]
  {
    Split(Trim(reply), '\n')
  }

  /** `generate_bullet_points` after the model call: up to ten cleaned
      lines, or the fallback list when none qualifies or the call failed.
      Whichever path is taken, every bullet is longer than twenty
      characters. */
  function GenerateBullets(reply: Option<string>): (r: seq<string>)
    ensures 1 <= |r| <= 10
    ensures forall i :: 0 <= i < |r| ==> LongEnough(r[i])
    ensures reply.None? ==> r == FallbackBullets
    ensures reply.Some? ==>
      var found := BulletLines(ReplyLines(reply.value));
      if found == [] then r == FallbackBullets
      else r <= found && |r| == (if |found| < 10 then |found| else 10)
  {
    FallbackBulletsLong();
    match reply
    case None => FallbackBullets
    case Some(content) =>
      var found := BulletLines(ReplyLines(content));
      if |found| > 0 then
        var r := Take(found, 10);
        assert forall i :: 0 <= i < |r| ==> r[i] == found[i];
        r
      else FallbackBullets
  }

  // ---------------------------------------------------------------------
  // Interview questions (generate_interview_questions)

  predicate IsDigit(c: char) {
    '0' <= c <= '9'
  }

  /** `line` starts with one or more digits followed, at index `k`, by '.'
      or ')'. */
  predicate NumberedAt(line: string, k: int) {
    && 1 <= k < |line|
    && (forall i :: 0 <= i < k ==> IsDigit(line[i]))
    && (line[k] == '.' || line[k] == ')')
  }

  /** `re.sub(r'^\d+[\.\)]\s*', '', line)`: a leading number with its '.' or
      ')' is removed together with the whitespace after it; a line without
      such a number is left alone. */
  function StripNumbering(line: string): (r: string)
    ensures SuffixOf(r, line)
    ensures |r| == |line| ==> forall k :: !NumberedAt(line, k)
    ensures |r| < |line| ==>
      && (exists k :: NumberedAt(line, k)
           && k < |line| - |r|
           && forall i :: k < i < |line| - |r| ==> IsSpace(line[i]))
      && (r != [] ==> !IsSpace(r[0]))
  {
    var n := RunLength(line, IsDigit);
    if n > 0 && n < |line| && (line[n] == '.' || line[n] == ')') then
      var r := TrimStart(line[n + 1..]);
      assert r == line[|line| - |r|..];
      assert NumberedAt(line, n);
      r
    else
      assert forall k :: NumberedAt(line, k) ==> k == n;
      line
  }

  /** One reply line as a question: stripped, then unnumbered. A blank line
      gives the empty string, which is dropped like an empty question. */
  function QuestionLine(line: string): (r: string)
    ensures Stripped(r)
    ensures SuffixOf(r, Trim(line))
  {
    var t := Trim(line);
    var r := StripNumbering(t);
    assert r != [] ==> r[|r| - 1] == t[|t| - 1];
    r
  }

  predicate NonEmpty(q: string) {
    q != []
  }

  /** The questions of a reply's lines: every line that is not empty once
      stripped and unnumbered, in line order. */
  function QuestionLines(lines: seq<string>): (r: seq<string>)
    ensures |r| <= |lines|
    ensures forall i :: 0 <= i < |r| ==> r[i] != [] && Stripped(r[i])
    ensures forall i :: 0 <= i < |r| ==> exists j :: 0 <= j < |lines| && r[i] == QuestionLine(lines[j])
  {
    Lists.Collect(lines, QuestionLine, NonEmpty)
  }

  /** Every line that yields a question contributes it, and the questions
      of two runs of lines come out one run after the other. */
  lemma QuestionLinesComplete(lines: seq<string>, more: seq<string>)
    ensures forall j :: 0 <= j < |lines| && QuestionLine(lines[j]) != [] ==> QuestionLine(lines[j]) in QuestionLines(lines)
    ensures QuestionLines(lines + more) == QuestionLines(lines) + QuestionLines(more)
  {
    forall j | 0 <= j < |lines| && QuestionLine(lines[j]) != [] ensures QuestionLine(lines[j]) in QuestionLines(lines) {
      Lists.CollectKeeps(lines, QuestionLine, NonEmpty, j);
    }
    Lists.CollectAppend(lines, more, QuestionLine, NonEmpty);
  }

  /** A line that is already a bare question (no whitespace at its ends, no
      leading number) is kept exactly. */
  lemma QuestionLineKept(line: string)
    requires line != [] && Stripped(line)
    requires forall k :: !NumberedAt(line, k)
    ensures QuestionLine(line) == line
  {
    assert TrimStart(line) == line;
    assert TrimEnd(line) == line;
  }

  /** The questions returned when the model call fails. */
  const FallbackInterviewQuestions: seq<string> := [
    "Can you describe a challenging project you worked on and how you overcame obstacles?",
    "How do you stay current with industry trends and technologies?",
    "Describe a time when you had to work with a difficult team member.",
    "What interests you most about this role and our company?",
    "Where do you see yourself in 3-5 years?"
  ]

  /** `generate_interview_questions` after the model call: at most five
      cleaned questions (possibly none), or the fallback list when the call
      failed. */
  function GenerateQuestions(reply: Option<string>): (r: seq<string>)
    ensures |r| <= 5
    ensures forall i :: 0 <= i < |r| ==> r[i] != []
    ensures reply.Some? ==> forall i :: 0 <= i < |r| ==> Stripped(r[i])
    ensures reply.None? ==> r == FallbackInterviewQuestions
    ensures reply.Some? ==>
      var found := QuestionLines(ReplyLines(reply.value));
      r <= found && |r| == (if |found| < 5 then |found| else 5)
  {
    match reply
    case None =>
      FallbackInterviewQuestions
    case Some(content) =>
      var found := QuestionLines(ReplyLines(content));
      var r := Take(found, 5);
      assert forall i :: 0 <= i < |r| ==> r[i] == found[i];
      r
  }

  // ---------------------------------------------------------------------
  // Mock-interview questions (generate_mock_interview_questions)

  /** The question has all four guidance fields. */
  predicate HasGuidance(q: Record) {
    "difficulty" in q && "key_points" in q && "sample_answer" in q && "red_flags" in q
  }

  predicate IsGuidanceKey(k: string) {
    k == "difficulty" || k == "key_points" || k == "sample_answer" || k == "red_flags"
  }

  /** The default-filling loop for one question: each of the four guidance
      fields that is missing gets its default ('Medium', [], '' and []);
      every field present stays as it was and no other field is added. */
  function FillDefaults(q: Record): (r: Record)
    ensures HasGuidance(r)
    ensures forall k :: k in r <==> k in q || IsGuidanceKey(k)
    ensures forall k :: k in q ==> r[k] == q[k]
    ensures "difficulty" !in q ==> r["difficulty"] == JStr("Medium")
    ensures "key_points" !in q ==> r["key_points"] == JArr([])
    ensures "sample_answer" !in q ==> r["sample_answer"] == JStr("")
    ensures "red_flags" !in q ==> r["red_flags"] == JArr([])
  {
    var d := if "difficulty" in q then q else q["difficulty" := JStr("Medium")];
    var kp := if "key_points" in d then d else d["key_points" := JArr([])];
    var sa := if "sample_answer" in kp then kp else kp["sample_answer" := JStr("")];
    if "red_flags" in sa then sa else sa["red_flags" := JArr([])]
  }

  /** A question that already has its guidance is left alone, so filling
      the defaults twice is the same as filling them once. */
  lemma FillDefaultsIdempotent(q: Record)
    ensures HasGuidance(q) ==> FillDefaults(q) == q
    ensures FillDefaults(FillDefaults(q)) == FillDefaults(q)
  {
    var once := FillDefaults(q);
    var twice := FillDefaults(once);
    assert twice.Keys == once.Keys;
    if HasGuidance(q) {
      assert once.Keys == q.Keys;
    }
  }

  /** One fully specified mock-interview question. */
  datatype Guidance = Guidance(
    question: string, category: string, difficulty: string, whyAsked: string,
    keyPoints: seq<string>, sampleAnswer: string, redFlags: seq<string>)
  {
    /** The question as the JSON object the API returns. */
    function ToRecord(): (r: Record)
      ensures HasGuidance(r)
      ensures r["difficulty"] == JStr(difficulty) && r["sample_answer"] == JStr(sampleAnswer)
    {
      map[
        "question" := JStr(question),
        "category" := JStr(category),
        "difficulty" := JStr(difficulty),
        "why_asked" := JStr(whyAsked),
        "key_points" := Strs(keyPoints),
        "sample_answer" := JStr(sampleAnswer),
        "red_flags" := Strs(redFlags)
      ]
    }
  }

  /** The questions of `_create_fallback_questions`. */
  const FallbackGuidance: seq<Guidance> := [
    Guidance(
      "Tell me about a challenging project you worked on and how you overcame obstacles.",
      "Behavioral", "Medium", "To assess problem-solving skills and resilience",
      ["Describe the challenge clearly", "Explain your approach", "Quantify the results"],
      "Use the STAR method: Situation - describe the challenge, Task - your responsibility, Action - steps you took, Result - the outcome with metrics",
      ["Blaming others for failures", "Being vague about your role"]),
    Guidance(
      "How do you prioritize tasks when working on multiple projects?",
      "Behavioral", "Medium", "To evaluate time management and organizational skills",
      ["Explain your prioritization framework", "Mention tools you use", "Give a specific example"],
      "Describe your method (e.g., Eisenhower matrix, deadline-driven) and provide a real example of managing competing priorities",
      ["Saying you never struggle with priorities", "Not having a clear method"]),
    Guidance(
      "Describe a technical skill you recently learned. How did you approach the learning process?",
      "Technical", "Easy", "To assess learning agility and self-improvement mindset",
      ["Name the skill and why you learned it", "Describe your learning approach", "Share how you applied it"],
      "Pick a recent skill relevant to the role, explain your learning resources, and share a project where you applied it",
      ["Choosing an irrelevant skill", "Not showing practical application"])
  ]

  /** `_create_fallback_questions`. */
  function FallbackMockQuestions(): (r: seq<Record>)
    ensures |r| == |FallbackGuidance|
    ensures forall i :: 0 <= i < |r| ==> HasGuidance(r[i]) && r[i] == FallbackGuidance[i].ToRecord()
  {
    seq(|FallbackGuidance|, i requires 0 <= i < |FallbackGuidance| => FallbackGuidance[i].ToRecord())
  }

  /** `generate_mock_interview_questions` after the model call: the parsed
      question objects with their defaults filled in, or the fallback
      questions when no JSON array was found, it did not parse, or the call
      failed (`None`). Every question handed back has its guidance. */
  function MockQuestions(parsed: Option<seq<Record>>): (r: seq<Record>)
    ensures forall i :: 0 <= i < |r| ==> HasGuidance(r[i])
    ensures parsed.None? ==> r == FallbackMockQuestions()
    ensures parsed.Some? ==> |r| == |parsed.value|
    ensures parsed.Some? ==> forall i, k :: 0 <= i < |r| && k in parsed.value[i] ==>
      k in r[i] && r[i][k] == parsed.value[i][k]
    ensures parsed.Some? ==> forall i, k :: 0 <= i < |r| && k in r[i] ==>
      k in parsed.value[i] || IsGuidanceKey(k)
    ensures parsed.Some? ==> forall i :: 0 <= i < |r| ==>
      && HasGuidance(r[i])
      && ("difficulty" !in parsed.value[i] ==> r[i]["difficulty"] == JStr("Medium"))
      && ("key_points" !in parsed.value[i] ==> r[i]["key_points"] == JArr([]))
      && ("sample_answer" !in parsed.value[i] ==> r[i]["sample_answer"] == JStr(""))
      && ("red_flags" !in parsed.value[i] ==> r[i]["red_flags"] == JArr([]))
  {
    match parsed
    case None => FallbackMockQuestions()
    case Some(qs) => seq(|qs|, i requires 0 <= i < |qs| => FillDefaults(qs[i]))
  }

  // ---------------------------------------------------------------------
  // Fallback match analysis (_create_fallback_analysis)

  datatype SectionAnalysis = SectionAnalysis(score: int, impact: string, feedback: string)

  datatype RoleSuitability = RoleSuitability(level: string, confidence: string, reasoning: string)

  /** The analysis record, with `resume_sections_analysis` as its three
      parts. */
  datatype MatchAnalysis = MatchAnalysis(
    matchPercentage: int,
    matchExplanation: string,
    missingSkills: seq<string>,
    weakAreas: seq<string>,
    strengths: seq<string>,
    atsSuggestions: seq<string>,
    keywordsFound: seq<string>,
    keywordsMissing: seq<string>,
    keywordDensityScore: int,
    roleSuitability: RoleSuitability,
    experience: SectionAnalysis,
    skills: SectionAnalysis,
    education: SectionAnalysis,
    bulletPointAnalysis: seq<string>,
    consistencyIssues: seq<string>,
    careerGaps: seq<string>,
    summary: string)

  const ExplanationLead := "Your resume shows a "

  /** `_create_fallback_analysis`, given `match_pct = int(similarity * 100)`:
      every score is derived from the one percentage. */
  function FallbackAnalysis(matchPct: int): (r: MatchAnalysis)
    ensures r.matchPercentage == matchPct && r.keywordDensityScore == matchPct
    ensures r.experience.score == matchPct && r.skills.score == r.experience.score - 10
    ensures r.education.score == 75
    ensures r.careerGaps == []
  {
    var pct := IntText(matchPct);
    MatchAnalysis(
      matchPct,
      ExplanationLead + pct + "% semantic match with the job requirements.",
      ["Specific technical skills from job description"],
      ["Quantifiable achievements", "Keyword optimization"],
      ["Relevant experience", "Clear communication"],
      ["Add more keywords from the job description",
       "Include quantifiable metrics and achievements",
       "Use standard section headings (Experience, Education, Skills)"],
      ["Experience", "Skills"],
      ["Specific job keywords"],
      matchPct,
      RoleSuitability("Mid-Level", "Medium", "Based on experience shown"),
      SectionAnalysis(matchPct, "High", "Good experience section"),
      SectionAnalysis(matchPct - 10, "High", "Add more relevant skills"),
      SectionAnalysis(75, "Medium", "Education section present"),
      ["Review bullet points for action verbs", "Add quantifiable metrics"],
      ["Check formatting consistency"],
      [],
      "Your resume has a " + pct + "% match. Focus on incorporating more specific keywords and achievements.")
  }

  /** The percentage printed in the fallback explanation reads back as the
      percentage the record carries. */
  lemma FallbackExplanationReadsBack(matchPct: int)
    ensures var e := FallbackAnalysis(matchPct).matchExplanation;
      var n := |IntText(matchPct)|;
      |e| > |ExplanationLead| + n
      && IntValue(e[|ExplanationLead|..|ExplanationLead| + n]) == FallbackAnalysis(matchPct).matchPercentage
  {
    var pct := IntText(matchPct);
    var e := FallbackAnalysis(matchPct).matchExplanation;
    assert e[|ExplanationLead|..|ExplanationLead| + |pct|] == pct;
    IntTextRoundTrip(matchPct);
  }

  // ---------------------------------------------------------------------
  // What-if simulation (simulate_whatif)

  /** The modification lines put into the what-if prompt: one per non-empty
      input, added skills first, then removed skills, then the added
      experience cut to 200 characters. */
  function Modifications(addSkills: seq<string>, removeSkills: seq<string>, addExperience: string): (r: seq<string>)
    ensures |r| == (if addSkills != [] then 1 else 0) + (if removeSkills != [] then 1 else 0)
                   + (if addExperience != [] then 1 else 0)
    ensures addSkills != [] ==> r[0] == "Adding skills: " + Join(addSkills, ", ")
    ensures removeSkills != [] ==>
      r[if addSkills != [] then 1 else 0] == "Removing skills: " + Join(removeSkills, ", ")
    ensures addExperience != [] ==>
      EndsWith(r[|r| - 1], Take(addExperience, 200)) && |r[|r| - 1]| <= 19 + 200
    ensures addExperience != [] ==> r[|r| - 1] == "Adding experience: " + Take(addExperience, 200)
  {
    (if addSkills != [] then ["Adding skills: " + Join(addSkills, ", ")] else [])
    + (if removeSkills != [] then ["Removing skills: " + Join(removeSkills, ", ")] else [])
    + (if addExperience != [] then ["Adding experience: " + Take(addExperience, 200)] else [])
  }

  /** Only the first 200 characters of the added experience reach the
      prompt. */
  lemma ModificationsIgnoreLongTail(addSkills: seq<string>, removeSkills: seq<string>, e1: string, e2: string)
    requires |e1| >= 200 && |e2| >= 200 && e1[..200] == e2[..200]
    ensures Modifications(addSkills, removeSkills, e1) == Modifications(addSkills, removeSkills, e2)
  {
    assert Take(e1, 200) == e1[..200];
    assert Take(e2, 200) == e2[..200];
  }

  /** `_fallback_whatif`. */
  function FallbackWhatIf(originalScore: int): (r: Record)
    ensures "original_score" in r && "new_score" in r && "score_change" in r
    ensures r["new_score"] == JNum(originalScore + 5) && r["score_change"] == JNum(5)
  {
    map[
      "original_score" := JNum(originalScore),
      "new_score" := JNum(originalScore + 5),
      "score_change" := JNum(5),
      "impact_analysis" := JStr("Modifications would slightly improve your match score."),
      "recommendations" := Strs(["Add more relevant keywords", "Quantify achievements"])
    ]
  }

  /** `simulate_whatif` after the model call: the parsed object with
      `original_score` set to the caller's score, or the fallback when no
      object was found or the call failed. */
  function WhatIfResult(parsed: Option<Record>, originalScore: int): (r: Record)
    ensures "original_score" in r && r["original_score"] == JNum(originalScore)
    ensures parsed.Some? ==> forall k :: k in r <==> k in parsed.value || k == "original_score"
    ensures parsed.Some? ==> forall k :: k in parsed.value && k != "original_score" ==> r[k] == parsed.value[k]
    ensures parsed.None? ==> r == FallbackWhatIf(originalScore)
  {
    match parsed
    case Some(obj) => obj["original_score" := JNum(originalScore)]
    case None => FallbackWhatIf(originalScore)
  }

  /** The fallback's three scores are consistent: the new score is the
      original score plus the change. */
  lemma FallbackWhatIfAddsUp(originalScore: int)
    ensures var r := WhatIfResult(None, originalScore);
      r["new_score"].n == r["original_score"].n + r["score_change"].n
  {
  }

  // ---------------------------------------------------------------------
  // Consistency check (check_consistency)

  datatype Answer = Answer(question: string, answer: string)

  function AnswerBlock(a: Answer): string {
    "Q: " + a.question + "\nA: " + a.answer
  }

  function JoinBlocks(answers: seq<Answer>): string
    decreases |answers|
  {
    if answers == [] then []
    else if |answers| == 1 then AnswerBlock(answers[0])
    else AnswerBlock(answers[0]) + "\n" + JoinBlocks(answers[1..])
  }

  /** The interview answers as they are put into the consistency prompt:
      the first three only, one question line and one answer line each. */
  function AnswersText(answers: seq<Answer>): string {
    JoinBlocks(Take(answers, 3))
  }

  /** The lines `AnswerLines` says the prompt holds: "Q: ..." and "A: ..."
      alternating. */
  function AnswerLines(answers: seq<Answer>): (r: seq<string>)
    ensures |r| == 2 * |answers|
    ensures forall i :: 0 <= i < |answers| ==>
      r[2 * i] == "Q: " + answers[i].question && r[2 * i + 1] == "A: " + answers[i].answer
    decreases |answers|
  {
    if answers == [] then []
    else ["Q: " + answers[0].question, "A: " + answers[0].answer] + AnswerLines(answers[1..])
  }

  predicate SingleLine(a: Answer) {
    '\n' !in a.question && '\n' !in a.answer
  }

  lemma {:induction false} JoinBlocksLines(answers: seq<Answer>)
    requires answers != []
    ensures JoinBlocks(answers) == Join(AnswerLines(answers), "\n")
    decreases |answers|
  {
    var l := AnswerLines(answers);
    var q := "Q: " + answers[0].question;
    var a := "A: " + answers[0].answer;
    assert AnswerBlock(answers[0]) == q + "\n" + a;
    if |answers| == 1 {
      assert l == [q, a];
      assert l[1..] == [a];
    } else {
      JoinBlocksLines(answers[1..]);
      var rest := AnswerLines(answers[1..]);
      assert l == [q, a] + rest;
      assert l[1..] == [a] + rest && l[1..][1..] == rest;
      assert Join(l[1..], "\n") == a + "\n" + Join(rest, "\n");
    }
  }

  /** The prompt's answer text splits into exactly the question and answer
      lines of the first three answers, in order, when no question or answer
      spans several lines: later answers never reach the model. */
  lemma AnswersTextLines(answers: seq<Answer>)
    requires forall i :: 0 <= i < |answers| ==> SingleLine(answers[i])
    requires answers != []
    ensures Split(AnswersText(answers), '\n') == AnswerLines(Take(answers, 3))
  {
    var t := Take(answers, 3);
    JoinBlocksLines(t);
    var l := AnswerLines(t);
    forall i | 0 <= i < |l| ensures '\n' !in l[i] {
      var k := i / 2;
      assert t[k] == answers[k];
      assert k * 2 == i || k * 2 + 1 == i;
    }
    SplitJoin(l, '\n');
  }
}
