/** The voice interview screen of frontend/src/VoiceInterview.jsx: a fixed
    round of five practice questions, the transcript the speech recogniser
    fills, and the request that asks for feedback on an answer. */
module Voice {
  import opened Outcomes
  import opened Text
  import opened ScoreBands
  import AiAnalyzer

  const SampleQuestions: seq<string> := [
    "Tell me about your most challenging project and how you handled it.",
    "Describe a time when you had to work with a difficult team member.",
    "What interests you most about this role and our company?",
    "How do you stay current with industry trends and technologies?",
    "Walk me through your approach to solving complex technical problems."
  ]

  /** The screen's state: which sample question is current, the question
      text set by the last move (empty before the first), the transcript and
      the last feedback received. */
  datatype Screen = Screen(questionIndex: nat, currentQuestion: string, transcript: string,
                           feedback: Option<AiAnalyzer.Record>)

  const Initial := Screen(0, "", "", None)

  /** The index names a sample question, and the question text is either
      unset or that question. */
  predicate Valid(s: Screen) {
    s.questionIndex < |SampleQuestions|
    && (s.currentQuestion == [] || s.currentQuestion == SampleQuestions[s.questionIndex])
  }

  lemma InitialValid()
    ensures Valid(Initial)
  {
  }

  /** `currentQuestion || sampleQuestions[questionIndex]`: the question shown
      and sent. */
  function ShownQuestion(s: Screen): (q: string)
    requires s.questionIndex < |SampleQuestions|
    ensures Valid(s) ==> q == SampleQuestions[s.questionIndex]
  {
    if s.currentQuestion != [] then s.currentQuestion else SampleQuestions[s.questionIndex]
  }

  /** `nextQuestion`: the following sample question, wrapping after the
      fifth, with a fresh transcript and no feedback. */
  function NextQuestion(s: Screen): (r: Screen)
    ensures r.questionIndex == (s.questionIndex + 1) % |SampleQuestions|
    ensures Valid(r) && r.currentQuestion == SampleQuestions[r.questionIndex]
    ensures r.transcript == [] && r.feedback == None
  {
    var i := (s.questionIndex + 1) % |SampleQuestions|;
    Screen(i, SampleQuestions[i], "", None)
  }

  /** `n` presses of the Next Question button. */
  function Advance(s: Screen, n: nat): Screen
    decreases n
  {
    if n == 0 then s else NextQuestion(Advance(s, n - 1))
  }

  lemma {:induction false} AdvanceIndex(s: Screen, n: nat)
    requires s.questionIndex < |SampleQuestions|
    ensures Advance(s, n).questionIndex == (s.questionIndex + n) % |SampleQuestions|
    decreases n
  {
    if n > 0 {
      AdvanceIndex(s, n - 1);
    }
  }

  /** After `n` presses the screen shows the question `n` places further
      round the list. */
  lemma AdvanceShows(s: Screen, n: nat)
    requires Valid(s) && n > 0
    ensures Valid(Advance(s, n))
    ensures ShownQuestion(Advance(s, n)) == SampleQuestions[(s.questionIndex + n) % |SampleQuestions|]
  {
    AdvanceIndex(s, n);
  }

  /** The index arithmetic of a round of five. */
  lemma Wrap(i: int, n: int)
    requires 0 <= i < 5 && 0 < n <= 5
    ensures (i + n) % 5 == (if i + n < 5 then i + n else i + n - 5)
  {
  }

  /** Five presses come back to the question the screen started on. */
  lemma RoundComesBack(s: Screen)
    requires Valid(s)
    ensures ShownQuestion(Advance(s, |SampleQuestions|)) == ShownQuestion(s)
  {
    var n := |SampleQuestions|;
    assert n == 5;
    AdvanceShows(s, n);
    Wrap(s.questionIndex, 5);
  }

  /** Within one round of presses each sample question is shown: after the
      press that brings the index to `k`, question `k` is on screen. */
  lemma RoundShowsEveryQuestion(s: Screen, k: nat)
    requires Valid(s) && k < |SampleQuestions|
    ensures var n := if k > s.questionIndex then k - s.questionIndex else k + |SampleQuestions| - s.questionIndex;
      0 < n <= |SampleQuestions| && ShownQuestion(Advance(s, n)) == SampleQuestions[k]
  {
    var m := |SampleQuestions|;
    var n := if k > s.questionIndex then k - s.questionIndex else k + m - s.questionIndex;
    assert m == 5;
    AdvanceShows(s, n);
    Wrap(s.questionIndex, n);
  }

  // ---------------------------------------------------------------------
  // The transcript

  /** One entry of the recogniser's result list. */
  datatype SpeechResult = SpeechResult(text: string, isFinal: bool)

  /** The text an `onresult` event adds: each final result followed by a
      blank; interim results are only previewed. */
  function FinalText(results: seq<SpeechResult>): (t: string)
    ensures (forall i :: 0 <= i < |results| ==> !results[i].isFinal) ==> t == []
    decreases |results|
  {
    if results == [] then []
    else
      var rest := FinalText(results[1..]);
      if results[0].isFinal then results[0].text + " " + rest else rest
  }

  /** The `onresult` handler: the new final text is appended. */
  function OnResult(s: Screen, results: seq<SpeechResult>, resultIndex: nat): (r: Screen)
    ensures s.transcript <= r.transcript
    ensures r.transcript == s.transcript
      + FinalText(if resultIndex <= |results| then results[resultIndex..] else [])
    ensures r.questionIndex == s.questionIndex && r.currentQuestion == s.currentQuestion
      && r.feedback == s.feedback
  {
    var added := if resultIndex <= |results| then results[resultIndex..] else [];
    s.(transcript := s.transcript + FinalText(added))
  }

  /** An event whose one new result is final appends that result's text and
      a space; results before the event's index are not read again. */
  lemma OnResultOneFinal(s: Screen, earlier: seq<SpeechResult>, text: string)
    ensures OnResult(s, earlier + [SpeechResult(text, true)], |earlier|).transcript
      == s.transcript + text + " "
  {
    var results := earlier + [SpeechResult(text, true)];
    assert results[|earlier|..] == [SpeechResult(text, true)];
    assert FinalText([SpeechResult(text, true)]) == text + " " by {
      assert [SpeechResult(text, true)][1..] == [];
    }
  }

  /** An event whose new results are all interim leaves the transcript as it
      was. */
  lemma OnResultInterimOnly(s: Screen, earlier: seq<SpeechResult>, interim: seq<SpeechResult>)
    requires forall i :: 0 <= i < |interim| ==> !interim[i].isFinal
    ensures OnResult(s, earlier + interim, |earlier|) == s
  {
    assert (earlier + interim)[|earlier|..] == interim;
  }

  /** Final results delivered over two events add the same text as when
      delivered in one. */
  lemma {:induction false} FinalTextAppend(a: seq<SpeechResult>, b: seq<SpeechResult>)
    ensures FinalText(a + b) == FinalText(a) + FinalText(b)
    decreases |a|
  {
    if a == [] {
      assert a + b == b;
    } else {
      assert (a + b)[0] == a[0] && (a + b)[1..] == a[1..] + b;
      FinalTextAppend(a[1..], b);
    }
  }

  // ---------------------------------------------------------------------
  // Asking for feedback

  const NoAnswer := "Please record an answer first"

  /** The body posted to `/api/voice-interview`. */
  datatype Request = Request(transcript: string, question: string, jobDescription: string, resumeText: string)

  /** `analyzeAnswer` up to the request: a blank transcript is refused;
      otherwise the transcript goes out as recorded with the question on
      screen. */
  function AnalyzeAnswer(s: Screen, jobDescription: string, resumeText: string): (r: Result<Request, string>)
    requires Valid(s)
    ensures r.Ok? <==> !AllSpace(s.transcript)
    ensures r.Err? ==> r.error == NoAnswer
    ensures r.Ok? ==>
      && r.value.transcript == s.transcript
      && r.value.question == SampleQuestions[s.questionIndex]
      && r.value.jobDescription == jobDescription && r.value.resumeText == resumeText
  {
    if Trim(s.transcript) == [] then Err(NoAnswer)
    else Ok(Request(s.transcript, ShownQuestion(s), jobDescription, resumeText))
  }

  /** Moving on clears the transcript, so an answer is never sent against
      the next question. */
  lemma NextQuestionNeedsNewAnswer(s: Screen, jobDescription: string, resumeText: string)
    ensures AnalyzeAnswer(NextQuestion(s), jobDescription, resumeText) == Err(NoAnswer)
  {
  }

  /** `getScoreColor`: the same bands and classes as the consistency
      screen. */
  function ScoreColor(score: int): (c: string)
    ensures score >= 80 ==> c == "text-green-400"
    ensures 60 <= score < 80 ==> c == "text-yellow-400"
    ensures score < 60 ==> c == "text-red-400"
  {
    TextColor(BandOf(score))
  }
}
