/** The request guards of the FastAPI handlers in backend/main.py and the way
    each handler maps failures to HTTP errors. Everything a handler does
    between its guards and its response (saving the upload, PDF extraction,
    embeddings, the model call) is a parameter: its outcome, with the message
    of the exception it raised when it failed. */
module Api {
  import opened Outcomes
  import opened Text
  import AiAnalyzer

  datatype HttpError = HttpError(status: int, detail: string)

  /** How a handler body can stop early: a guard raising `HTTPException`,
      or any other exception with its message. */
  datatype Failure = Refused(error: HttpError) | Crashed(message: string)

  /** `except HTTPException: raise` followed by `except Exception as e:
      raise HTTPException(status_code=500, detail=f"{prefix}{e}")`. */
  function Respond<T>(outcome: Result<T, Failure>, prefix: string): (r: Result<T, HttpError>)
    ensures r.Ok? <==> outcome.Ok?
    ensures outcome.Ok? ==> r.value == outcome.value
    ensures outcome.Err? && outcome.error.Refused? ==> r.error == outcome.error.error
    ensures outcome.Err? && outcome.error.Crashed? ==>
      r.error.status == 500 && r.error.detail == prefix + outcome.error.message
  {
    match outcome
    case Ok(v) => Ok(v)
    case Err(Refused(e)) => Err(e)
    case Err(Crashed(m)) => Err(HttpError(500, prefix + m))
  }

  /** `not s or len(s.strip()) < n`. */
  predicate TooShort(s: string, n: nat) {
    s == [] || |Trim(s)| < n
  }

  function BadRequest(detail: string): HttpError {
    HttpError(400, detail)
  }

  const NotPdf := "Only PDF files are supported"
  const ShortJob := "Job description is too short"
  const NoText := "Could not extract sufficient text from PDF"
  const ShortExperience := "Experience description is too short"
  const NoJobTitle := "Job title is required"
  const NoSkills := "Missing skills list is required"
  const ShortResume := "Resume text is too short"

  // ---------------------------------------------------------------------
  // POST /api/analyze

  /** The analysis response: whatever the analysis produced, plus the first
      thousand characters of the resume text and of the job description. */
  datatype AnalyzeResponse<A> = AnalyzeResponse(analysis: A, resumeText: string, jobDescription: string)

  /** The body of `analyze_resume` inside its `try`. `extracted` is the text
      PyMuPDF read from the saved upload (or the exception that stopped it),
      and `analysis` the outcome of the embedding, the model call and the
      building of the response fields. */
  function AnalyzeBody<A>(filename: string, jobDescription: string,
                          extracted: Result<string, string>, analysis: Result<A, string>): Result<AnalyzeResponse<A>, Failure>
  {
    if !EndsWith(filename, ".pdf") then Err(Refused(BadRequest(NotPdf)))
    else if TooShort(jobDescription, 50) then Err(Refused(BadRequest(ShortJob)))
    else match extracted
      case Err(m) => Err(Crashed(m))
      case Ok(text) =>
        if TooShort(text, 100) then Err(Refused(BadRequest(NoText)))
        else match analysis
          case Err(m) => Err(Crashed(m))
          case Ok(a) => Ok(AnalyzeResponse(a, Take(text, 1000), Take(jobDescription, 1000)))
  }

  /** `POST /api/analyze`. The file name is checked first (case-sensitively),
      then the job description, then the extracted text; a response is only
      produced when all three pass and nothing downstream failed, and it
      carries at most the first thousand characters of each text. */
  function Analyze<A>(filename: string, jobDescription: string,
                      extracted: Result<string, string>, analysis: Result<A, string>): (r: Result<AnalyzeResponse<A>, HttpError>)
    ensures !EndsWith(filename, ".pdf") ==> r == Err(BadRequest(NotPdf))
    ensures EndsWith(filename, ".pdf") && TooShort(jobDescription, 50) ==> r == Err(BadRequest(ShortJob))
    ensures EndsWith(filename, ".pdf") && !TooShort(jobDescription, 50) && extracted.Err? ==>
      r == Err(HttpError(500, "Analysis failed: " + extracted.error))
    ensures (EndsWith(filename, ".pdf") && !TooShort(jobDescription, 50)
             && extracted.Ok? && TooShort(extracted.value, 100)) ==> r == Err(BadRequest(NoText))
    ensures (EndsWith(filename, ".pdf") && !TooShort(jobDescription, 50)
             && extracted.Ok? && !TooShort(extracted.value, 100) && analysis.Err?) ==>
      r == Err(HttpError(500, "Analysis failed: " + analysis.error))
    ensures r.Ok? <==>
      EndsWith(filename, ".pdf") && !TooShort(jobDescription, 50)
      && extracted.Ok? && !TooShort(extracted.value, 100) && analysis.Ok?
    ensures r.Ok? ==>
      && r.value.analysis == analysis.value
      && r.value.resumeText <= extracted.value && |r.value.resumeText| == Min(|extracted.value|, 1000)
      && r.value.jobDescription <= jobDescription && |r.value.jobDescription| == Min(|jobDescription|, 1000)
    ensures r.Err? ==> r.error.status == 400 || r.error.status == 500
    ensures r.Err? && r.error.status == 500 ==> StartsWith(r.error.detail, "Analysis failed: ")
  {
    Respond(AnalyzeBody(filename, jobDescription, extracted, analysis), "Analysis failed: ")
  }

  function Min(a: int, b: int): int {
    if a < b then a else b
  }

  predicate StartsWith(s: string, prefix: string) {
    |prefix| <= |s| && s[..|prefix|] == prefix
  }

  /** The extension check is case-sensitive: an upload named "CV.PDF" is
      refused whatever it holds. */
  lemma UppercasePdfRefused<A>(jobDescription: string, extracted: Result<string, string>, analysis: Result<A, string>)
    ensures Analyze("CV.PDF", jobDescription, extracted, analysis) == Err(HttpError(400, NotPdf))
  {
    assert "CV.PDF"[2..] != ".pdf" by {
      assert "CV.PDF"[2..][1] == 'P';
    }
  }

  // ---------------------------------------------------------------------
  // POST /api/bullet-points, /api/interview-questions,
  // /api/learning-roadmap and /api/mock-interview

  /** `POST /api/bullet-points`: the experience must hold at least twenty
      non-blank-edged characters, then a job title is required; the bullets
      come from the analyzer, which never raises. */
  function BulletPoints(experience: string, jobTitle: string, reply: Option<string>): (r: Result<seq<string>, HttpError>)
    ensures r.Ok? <==> !TooShort(experience, 20) && jobTitle != []
    ensures TooShort(experience, 20) ==> r == Err(BadRequest(ShortExperience))
    ensures !TooShort(experience, 20) && jobTitle == [] ==> r == Err(BadRequest(NoJobTitle))
    ensures r.Ok? ==> r.value == AiAnalyzer.GenerateBullets(reply) && 1 <= |r.value| <= 10
  {
    var body: Result<seq<string>, Failure> :=
      if TooShort(experience, 20) then Err(Refused(BadRequest(ShortExperience)))
      else if jobTitle == [] then Err(Refused(BadRequest(NoJobTitle)))
      else Ok(AiAnalyzer.GenerateBullets(reply));
    Respond(body, "Generation failed: ")
  }

  /** `POST /api/interview-questions`. */
  function InterviewQuestions(text: string, reply: Option<string>): (r: Result<seq<string>, HttpError>)
    ensures r.Ok? <==> !TooShort(text, 50)
    ensures r.Err? ==> r.error == BadRequest(ShortJob)
    ensures r.Ok? ==> r.value == AiAnalyzer.GenerateQuestions(reply) && |r.value| <= 5
  {
    var body: Result<seq<string>, Failure> :=
      if TooShort(text, 50) then Err(Refused(BadRequest(ShortJob)))
      else Ok(AiAnalyzer.GenerateQuestions(reply));
    Respond(body, "Generation failed: ")
  }

  /** `POST /api/learning-roadmap`: an empty skills list is refused; the
      roadmap itself is a parameter. */
  function LearningRoadmap<R>(missingSkills: seq<string>, roadmap: Result<R, string>): (r: Result<R, HttpError>)
    ensures r.Ok? <==> missingSkills != [] && roadmap.Ok?
    ensures missingSkills == [] ==> r == Err(BadRequest(NoSkills))
    ensures missingSkills != [] && roadmap.Err? ==>
      r == Err(HttpError(500, "Roadmap generation failed: " + roadmap.error))
  {
    var body: Result<R, Failure> :=
      if missingSkills == [] then Err(Refused(BadRequest(NoSkills)))
      else match roadmap
        case Ok(v) => Ok(v)
        case Err(m) => Err(Crashed(m));
    Respond(body, "Roadmap generation failed: ")
  }

  /** `POST /api/mock-interview`: the resume text is checked before the job
      description. */
  function MockInterview(resumeText: string, jobDescription: string, parsed: Option<seq<AiAnalyzer.Record>>)
    : (r: Result<seq<AiAnalyzer.Record>, HttpError>)
    ensures r.Ok? <==> !TooShort(resumeText, 100) && !TooShort(jobDescription, 50)
    ensures TooShort(resumeText, 100) ==> r == Err(BadRequest(ShortResume))
    ensures !TooShort(resumeText, 100) && TooShort(jobDescription, 50) ==> r == Err(BadRequest(ShortJob))
    ensures r.Ok? ==> forall i :: 0 <= i < |r.value| ==> AiAnalyzer.HasGuidance(r.value[i])
    ensures r.Ok? ==> r.value == AiAnalyzer.MockQuestions(parsed)
  {
    var body: Result<seq<AiAnalyzer.Record>, Failure> :=
      if TooShort(resumeText, 100) then Err(Refused(BadRequest(ShortResume)))
      else if TooShort(jobDescription, 50) then Err(Refused(BadRequest(ShortJob)))
      else Ok(AiAnalyzer.MockQuestions(parsed));
    Respond(body, "Mock interview generation failed: ")
  }

  /** Whitespace never counts towards a length guard: padding a text with
      blanks does not change whether it is too short. */
  lemma PaddingDoesNotHelp(s: string, pad: string, n: nat)
    requires AllSpace(pad) && n > 0
    ensures TooShort(pad + s + pad, n) == TooShort(s, n)
  {
    TrimPadded(s, pad);
  }
}
