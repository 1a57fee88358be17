/** The resume–interview consistency screen of
    frontend/src/ConsistencyCheck.jsx: an editable list of question and
    answer pairs, the request it sends, and how the verdict is coloured. */
module Consistency {
  import opened Outcomes
  import opened Text
  import opened Lists
  import opened ScoreBands
  import AiAnalyzer

  type Answer = AiAnalyzer.Answer

  const Blank: Answer := AiAnalyzer.Answer("", "")

  /** The screen opens with one blank pair. */
  const Initial: seq<Answer> := [Blank]

  /** `addAnswer`: a blank pair at the end. */
  function AddAnswer(qs: seq<Answer>): (r: seq<Answer>)
    ensures |r| == |qs| + 1 && r[..|qs|] == qs && r[|qs|] == Blank
  {
    qs + [Blank]
  }

  /** The Remove button is only rendered while more than one pair is
      listed. */
  predicate CanRemove(qs: seq<Answer>) {
    |qs| > 1
  }

  /** `removeAnswer`: the pair at `index` leaves, the others keep their
      order. */
  function RemoveAnswer(qs: seq<Answer>, index: nat): (r: seq<Answer>)
    requires CanRemove(qs) && index < |qs|
    ensures |r| == |qs| - 1 >= 1
    ensures forall i :: 0 <= i < |r| ==> r[i] == (if i < index then qs[i] else qs[i + 1])
  {
    RemoveAt(qs, index)
  }

  /** Removing a pair and putting it back where it was restores the list. */
  lemma RemoveAnswerUndone(qs: seq<Answer>, index: nat)
    requires CanRemove(qs) && index < |qs|
    ensures InsertAt(RemoveAnswer(qs, index), index, qs[index]) == qs
  {
    RemoveInsert(qs, index);
  }

  datatype Field = Question | AnswerText

  /** `updateAnswer(index, field, value)`: one field of one pair changes. */
  function UpdateAnswer(qs: seq<Answer>, index: nat, field: Field, value: string): (r: seq<Answer>)
    requires index < |qs|
    ensures |r| == |qs|
    ensures forall i :: 0 <= i < |qs| && i != index ==> r[i] == qs[i]
    ensures field == Question ==> r[index].question == value && r[index].answer == qs[index].answer
    ensures field == AnswerText ==> r[index].answer == value && r[index].question == qs[index].question
  {
    var a := qs[index];
    qs[index := match field
      case Question => a.(question := value)
      case AnswerText => a.(answer := value)]
  }

  /** What the user can do to the list: the "Add Another Q&A" button, typing
      into a field of a listed pair, or a pair's Remove button. */
  datatype Edit = Add | Update(index: nat, field: Field, value: string) | Remove(index: nat)

  /** One edit as the screen applies it. An edit on a pair that is not
      listed, or a Remove while the button is not rendered, cannot be made,
      and leaves the list as it is. */
  function ApplyEdit(qs: seq<Answer>, e: Edit): seq<Answer> {
    match e
    case Add => AddAnswer(qs)
    case Update(i, f, v) => if i < |qs| then UpdateAnswer(qs, i, f, v) else qs
    case Remove(i) => if CanRemove(qs) && i < |qs| then RemoveAnswer(qs, i) else qs
  }

  /** The list after a session of edits, first to last. */
  function ApplyEdits(qs: seq<Answer>, edits: seq<Edit>): seq<Answer>
    decreases |edits|
  {
    if edits == [] then qs else ApplyEdits(ApplyEdit(qs, edits[0]), edits[1..])
  }

  /** Every edit the screen offers leaves at least one pair listed. */
  lemma EditsKeepOnePair(qs: seq<Answer>, index: nat, field: Field, value: string)
    requires |qs| >= 1
    ensures |AddAnswer(qs)| >= 1
    ensures index < |qs| ==> |UpdateAnswer(qs, index, field, value)| >= 1
    ensures CanRemove(qs) && index < |qs| ==> |RemoveAnswer(qs, index)| >= 1
    ensures |ApplyEdit(qs, Add)| >= 1 && |ApplyEdit(qs, Update(index, field, value))| >= 1
      && |ApplyEdit(qs, Remove(index))| >= 1
  {
  }

  /** Whatever the user does, starting from the screen's initial list, the
      list never becomes empty. */
  lemma {:induction false} SessionKeepsOnePair(qs: seq<Answer>, edits: seq<Edit>)
    requires |qs| >= 1
    ensures |ApplyEdits(qs, edits)| >= 1
    decreases |edits|
  {
    if edits != [] {
      var e := edits[0];
      match e {
        case Add =>
        case Update(i, f, v) => EditsKeepOnePair(qs, i, f, v);
        case Remove(i) =>
      }
      SessionKeepsOnePair(ApplyEdit(qs, e), edits[1..]);
    }
  }

  lemma InitialSessionKeepsOnePair(edits: seq<Edit>)
    ensures |ApplyEdits(Initial, edits)| >= 1
  {
    SessionKeepsOnePair(Initial, edits);
  }

  /** `a.question.trim() && a.answer.trim()`. */
  predicate Filled(a: Answer) {
    Trim(a.question) != [] && Trim(a.answer) != []
  }

  const NoAnswers := "Please add at least one interview Q&A"
  const NoResumeYet := "No resume analyzed yet. Using interview answers only for consistency check."

  /** The body posted to `/api/consistency-check`. */
  datatype Request = Request(resumeText: string, answers: seq<Answer>)

  /** `checkConsistency` up to the request: only filled pairs are sent, in
      their order; with none it stops with an alert; a missing resume text
      is replaced by a placeholder. The button that runs it is disabled
      while there is no resume text (ConsistencyCheck.jsx:118), so the
      placeholder is only reached by calling the handler directly. */
  function CheckRequest(resumeText: string, qs: seq<Answer>): (r: Result<Request, string>)
    ensures r.Ok? <==> exists i :: 0 <= i < |qs| && Filled(qs[i])
    ensures r.Err? ==> r.error == NoAnswers
    ensures r.Ok? ==>
      && r.value.answers == Kept(qs, Filled)
      && r.value.answers != []
      && (resumeText != [] ==> r.value.resumeText == resumeText)
      && (resumeText == [] ==> r.value.resumeText == NoResumeYet)
  {
    var valid := Kept(qs, Filled);
    if valid == [] then Err(NoAnswers)
    else
      assert valid[0] in qs && Filled(valid[0]);
      Ok(Request(if resumeText != [] then resumeText else NoResumeYet, valid))
  }

  /** The analyzer's prompt holds, line by line, the first three filled
      pairs the screen sent; pairs past the third are never read. */
  lemma PromptHoldsFirstThreeFilled(resumeText: string, qs: seq<Answer>)
    requires forall i :: 0 <= i < |qs| ==> AiAnalyzer.SingleLine(qs[i])
    requires CheckRequest(resumeText, qs).Ok?
    ensures var sent := CheckRequest(resumeText, qs).value.answers;
      Split(AiAnalyzer.AnswersText(sent), '\n') == AiAnalyzer.AnswerLines(Take(Kept(qs, Filled), 3))
  {
    var sent := Kept(qs, Filled);
    forall i | 0 <= i < |sent| ensures AiAnalyzer.SingleLine(sent[i]) {
      assert sent[i] in qs;
    }
    AiAnalyzer.AnswersTextLines(sent);
  }

  // ---------------------------------------------------------------------
  // The verdict

  /** `getConsistencyColor`. */
  function ConsistencyColor(score: int): (c: string)
    ensures score >= 80 ==> c == "text-green-400"
    ensures 60 <= score < 80 ==> c == "text-yellow-400"
    ensures score < 60 ==> c == "text-red-400"
  {
    TextColor(BandOf(score))
  }

  /** `getSeverityColor`: "High" is red, "Medium" yellow, anything else
      (including "Low" and a missing severity) blue. */
  function SeverityColor(severity: string): string {
    if severity == "High" then "bg-red-500/10 text-red-300 border-red-500/30"
    else if severity == "Medium" then "bg-yellow-500/10 text-yellow-300 border-yellow-500/30"
    else "bg-blue-500/10 text-blue-300 border-blue-500/30"
  }

  /** Three severities, three distinct looks; anything the analyzer labels
      other than "High" or "Medium" (a missing severity included) looks like
      "Low". */
  lemma SeverityColorsDistinct(severity: string)
    ensures SeverityColor("High") != SeverityColor("Medium")
    ensures SeverityColor("High") != SeverityColor("Low") && SeverityColor("Medium") != SeverityColor("Low")
    ensures severity != "High" && severity != "Medium" ==> SeverityColor(severity) == SeverityColor("Low")
  {
  }

  /** The part of the analyzer's verdict the screen's banner reads. */
  datatype Verdict = Verdict(overallConsistency: int, contradictions: seq<string>)

  /** The "Strong Consistency!" banner. */
  predicate ShowsStrongConsistency(v: Verdict) {
    v.overallConsistency >= 80 && |v.contradictions| == 0
  }

  /** The banner only appears alongside a green score, and never next to a
      listed contradiction. */
  lemma StrongConsistencyIsGreen(v: Verdict)
    requires ShowsStrongConsistency(v)
    ensures ConsistencyColor(v.overallConsistency) == "text-green-400"
    ensures v.contradictions == []
  {
  }

  /** The analyzer's fallback verdict: 80 with no contradictions. */
  const FallbackVerdict := Verdict(80, [])

  /** When the model cannot be reached the screen congratulates the user. */
  lemma FallbackShowsStrongConsistency()
    ensures ShowsStrongConsistency(FallbackVerdict)
    ensures BandOf(FallbackVerdict.overallConsistency) == Green
  {
  }
}
