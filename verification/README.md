# Career Compass: resume builder, analyzer post-processing and form logic in Dafny

This project models the deterministic core of Career Compass, a resume
analysis web application made of a React front end and a FastAPI back end.

- **Resume builder.** The builder's PDF export is modelled as a layout
  program run by a small pagination engine:
  - the text runs it draws;
  - their fonts and columns;
  - the near-bottom limits at 250, 260 and 270 that start a new page.

  The form edits that feed the export are modelled too, and so is the
  on-screen preview, which renders the same form separately.
- **Back-end text processing.** The PDF text cleaner, plus the
  post-processing the analyzer applies to language-model replies:
  - bullet and question cleaning;
  - default filling for mock interview questions;
  - the what-if modification list and result;
  - the fallback records returned when the model cannot be reached.
- **API guards.** The guard clauses of the FastAPI handlers and how they map
  failures to HTTP errors.
- **Front-end form logic.** The state and validation of four screens:
  - the upload form (PDF filter, selection, submit checks, history window);
  - the consistency check (Q&A list, valid-answer filter, colour classes,
    success banner);
  - the what-if simulator (comma-list parsing, run guard, change
    indicators);
  - the voice interview (question cycling, analyse guard, transcript
    accumulation).

Modules and files:

| file | module | models |
|---|---|---|
| `Outcomes.dfy` | `Outcomes` | `Option` and `Result` |
| `Lists.dfy` | `Lists` | remove/insert at an index, filters, filter-then-map |
| `Text.dfy` | `Text` | whitespace, `strip`/`trim`, `split`/`join`, run collapsing, decimal text |
| `Resume.dfy` | `Resume` | the builder's form record and `updateField`/`addSection`/`removeSection` |
| `ResumeFormat.dfy` | `ResumeFormat` | the string formats shared by export and preview |
| `Layout.dfy` | `Layout` | the pagination engine (cursor, page breaks, reading order) |
| `ResumeExport.dfy` | `ResumeExport` | `exportToPDF` as a layout program, and its pagination theorem |
| `ExportFacts.dfy` | `ExportFacts` | header, headings, ignored entries, overflow of unchecked lines |
| `ResumePreview.dfy` | `ResumePreview` | the preview and where it agrees or disagrees with the PDF |
| `PdfParser.dfy` | `PdfParser` | `PDFParser._clean_text` |
| `AiAnalyzer.dfy` | `AiAnalyzer` | reply post-processing and fallback records of `ai_analyzer.py` |
| `Api.dfy` | `Api` | guards and error mapping of the handlers in `main.py` |
| `ScoreBands.dfy` | `ScoreBands` | the 80/60 colour bands shared by two screens |
| `Upload.dfy` | `Upload` | `UploadSection.jsx` |
| `Consistency.dfy` | `Consistency` | `ConsistencyCheck.jsx` |
| `WhatIf.dfy` | `WhatIf` | `WhatIfSimulator.jsx` |
| `Voice.dfy` | `Voice` | `VoiceInterview.jsx` |

## Modelling choices

- **Wrapping.** jsPDF's `splitTextToSize` is a parameter, `wrap`, of every
  export function that needs it. Every property of the export holds for
  every `wrap`.
- **External inputs as parameters.** The language model's reply, the parsed
  JSON and the text PyMuPDF extracted are parameters. So is the exception
  message of anything that failed downstream of a guard. The model covers
  what the code does with each of them.
- **Whitespace.** Python's `\s`/`strip()` and JavaScript's `\s`/`trim()` are
  modelled with the ASCII whitespace set (space, tab, newline, carriage
  return, vertical tab, form feed). `\w` is modelled as ASCII letters,
  digits and `_`.
- **String lengths.** Python's `len` counts characters, so the server's
  guards use the sequence length. JavaScript's `length` counts UTF-16 code
  units, so the upload form's fifty-character check uses
  `Upload.Utf16Length`, which counts two for a character outside the Basic
  Multilingual Plane.
- **How the export lays out a page** (frontend/src/ResumeBuilder.jsx):
  - *Header.* The contact line is always drawn, even when it is empty.
    The cursor then advances by 7, after the 10 that follows the title
    (lines 80-91; `ExportFacts.ExportHeader`).
  - *Page-break checks.* Only some lines are checked against the page
    bottom:
    - the experience, education, skills, projects and certifications
      headings, at 250 (lines 113, 153, 187, 212, 249);
    - project names, at 260 (line 223);
    - responsibility bullets and skill lines, at 270 (lines 139, 201).

    The summary heading (lines 99-105) and all other lines are drawn
    wherever the cursor is, so a long list can run off the page
    (`ExportFacts.CertificationsRunOffThePage`).
  - *Order of runs on a page.* The date range and the graduation date are
    drawn at the same y as the line to their left (lines 126-129, 166-168).
    The model therefore proves reading order: page, then y, then x,
    strictly increasing.
  - *Project links.* The projects block never draws a link line (lines
    211-246); only the preview shows it.
  - *Summary.* All wrapped summary lines go to a single `doc.text` call
    (line 108), which the model keeps as one run holding the line list.

## Model

| member | source | states |
|---|---|---|
| Resume.UpdateField | frontend/src/ResumeBuilder.jsx:38-49 | the addressed field reads back the new value, every other field of the form is unchanged, and no section changes length |
| Resume.AddSection | frontend/src/ResumeBuilder.jsx:51-62 | exactly the named section gains its blank template at the end; personal info, skills and the other sections are unchanged |
| Resume.RemoveSection | frontend/src/ResumeBuilder.jsx:64-69 | exactly entry `index` of the named section is removed, the other entries keep their order, everything else is unchanged |
| Resume.AddThenRemoveLast | frontend/src/ResumeBuilder.jsx:51-69 | adding an entry and removing the last one restores the form |
| Resume.RemoveKeepsSectionNonEmpty | frontend/src/ResumeBuilder.jsx:369 | with the Remove button offered only for sections of two or more entries, a removal never empties a section |
| ResumeFormat.Title | frontend/src/ResumeBuilder.jsx:80 | the title is the full name, or "Your Name" when the name is empty |
| ResumeFormat.ContactLineShape | frontend/src/ResumeBuilder.jsx:85-89 | the contact line is empty exactly when e-mail, phone and location are all empty; a lone filled field shows as is; any two or all three show in the order e-mail, phone, location, separated by " \| " |
| ResumeFormat.DateRangeIgnoresEndDateWhenCurrent | frontend/src/ResumeBuilder.jsx:128 | for an ongoing position the end date never shows and the range reads "start - Present" |
| ResumeFormat.PositionLabel | frontend/src/ResumeBuilder.jsx:126 | the role printed is never empty and is the position when one is given |
| ResumeFormat.CompanyLine | frontend/src/ResumeBuilder.jsx:133 | the company line starts with the company, is exactly the company when no location is given, and otherwise ends with ", location" |
| ResumeFormat.DegreeLine | frontend/src/ResumeBuilder.jsx:172 | the degree line starts with the degree, ends with " - GPA: gpa" when a GPA is given, holds "degree in field" whenever a field is given, and is empty only when all three are empty |
| ResumeFormat.CertificationLine | frontend/src/ResumeBuilder.jsx:262 | the line starts with "name - " and the issuer, or "Issuer" when there is none, and ends with " (date)" when dated |
| ResumeFormat.SkillLines | frontend/src/ResumeBuilder.jsx:179-184 | one "Label: value" line per filled category, at most four, none exactly when no category is filled |
| ResumeFormat.FilledCategoriesOrdered | frontend/src/ResumeBuilder.jsx:179-184 | the listed categories are exactly the filled ones, in the fixed order Technical, Tools, Soft Skills, Languages |
| ResumeFormat.FileName | frontend/src/ResumeBuilder.jsx:268 | the saved name ends in ".pdf", contains no whitespace, is "Resume.pdf" for an empty name and the name plus ".pdf" when it has no whitespace |
| ResumeFormat.FileNameJoinsWords | frontend/src/ResumeBuilder.jsx:268 | a name of words separated by single spaces is saved as the words joined by "_" plus ".pdf" |
| ResumeFormat.ReplaceJoinedWords | frontend/src/ResumeBuilder.jsx:268 | replacing the whitespace runs of space-separated words with "_" joins the words with "_" |
| Layout.Place | frontend/src/ResumeBuilder.jsx:113-116 | a page starts exactly when the cursor is below the row's limit; then it is exactly one page further and back at the top margin, otherwise nothing moves; afterwards the cursor is at or above the limit |
| Layout.RunDrawsCells | frontend/src/ResumeBuilder.jsx:71-269 | pagination decides only where text lands: the drawn runs are exactly the requested cells in program order |
| Layout.RunOrdered | frontend/src/ResumeBuilder.jsx:71-269 | a well-formed program run from the top margin draws its runs in strict reading order (page, then y, then x), never below a checked limit and never above the top margin |
| Layout.RunUnguardedLines | frontend/src/ResumeBuilder.jsx:258-265 | unchecked single-cell rows of equal advance draw the k-th run k advances lower on the same page, however far down that is |
| Layout.PagesAdvanceByOne | frontend/src/ResumeBuilder.jsx:113-116 | consecutive runs are at most one page apart, and a run on a new page sits at the top margin |
| ResumeExport.ProgramBounded | frontend/src/ResumeBuilder.jsx:71-269 | the export's program is well formed and its limits are at most 270 |
| ResumeExport.ExportPaginates | frontend/src/ResumeBuilder.jsx:113-116 | the exported runs start on the first page, are in reading order, respect their 250/260/270 limits and never start above the top margin |
| ExportFacts.ExportHeader | frontend/src/ResumeBuilder.jsx:78-97 | the document opens with the title at y 20 on page one, the contact line at 30 (drawn even when empty), the links line at 37 when LinkedIn or a portfolio is given, and leaves the cursor at 37 or 44 |
| ExportFacts.ExportHeadings | frontend/src/ResumeBuilder.jsx:99-266 | the runs in the heading font are exactly the titles of the sections the form has content for, in the export's order |
| ExportFacts.ExportIgnoresBlankEntries | frontend/src/ResumeBuilder.jsx:122-123 | removing every entry whose company, institution or name is blank leaves the drawn document unchanged |
| ExportFacts.AddSectionKeepsExport | frontend/src/ResumeBuilder.jsx:51-62 | appending a blank entry never changes the exported document |
| ExportFacts.CertificationsRunOffThePage | frontend/src/ResumeBuilder.jsx:258-265 | with only certifications, the k-th one is drawn at 44 + 7k on page one, and with 38 or more the last ones lie below the 297 mm page |
| ResumePreview.PreviewHeadings | frontend/src/ResumeBuilder.jsx:664-741 | the preview shows a section heading exactly for the sections with content, in the same order |
| ResumePreview.HeadingsAgree | frontend/src/ResumeBuilder.jsx:664-741 | the preview's headings equal the headings the PDF draws, for every form and every wrapping |
| ResumePreview.HeaderAgrees | frontend/src/ResumeBuilder.jsx:653-660 | preview and PDF show the same title, contact line and links line |
| ResumePreview.PreviewStartsWith | frontend/src/ResumeBuilder.jsx:652-669 | the preview opens with its header followed by the summary block |
| ResumePreview.MissingRoleDiffers | frontend/src/ResumeBuilder.jsx:677 | for an entry without a role the PDF prints "Position" while the preview shows an empty title |
| ResumePreview.ExportIgnoresProjectLinks | frontend/src/ResumeBuilder.jsx:221-245 | changing or clearing project links never changes the PDF |
| ResumePreview.PreviewShowsProjectLink | frontend/src/ResumeBuilder.jsx:726 | the preview shows a project's link exactly when it is non-empty |
| ResumePreview.ExportStartsWith | frontend/src/ResumeBuilder.jsx:78-110 | the PDF's runs begin with the runs of its header and summary |
| ResumePreview.SummaryWrappingDiffers | frontend/src/ResumeBuilder.jsx:107-108 | the preview renders the summary as one paragraph while the PDF draws the wrapped lines |
| PdfParser.DropSpecial | backend/pdf_parser.py:43 | the filter never lengthens its input and keeps only word characters, whitespace and `. , ; : ( ) - @` |
| PdfParser.DropSpecialCounts | backend/pdf_parser.py:43 | each permitted character survives exactly as often as it occurs in the input; every other character is gone |
| PdfParser.Clean | backend/pdf_parser.py:38-44 | the result is no longer than the input, has no space at either end, holds only permitted characters with every whitespace a plain space, and is empty exactly when the filtered input is all whitespace |
| PdfParser.CleanKeepsVisible | backend/pdf_parser.py:41-44 | the non-whitespace characters of the result are exactly the permitted non-whitespace characters of the input, in order |
| PdfParser.CleanIsSubseqOfCollapsed | backend/pdf_parser.py:41-44 | the result is a subsequence of the input with its whitespace runs collapsed |
| PdfParser.CleanFixesCleanText | backend/pdf_parser.py:41-44 | text that is already clean (permitted characters, single spaces, none at the ends) is left unchanged |
| PdfParser.CleanCanLeaveDoubleSpace | backend/pdf_parser.py:41-43 | deleting a character between two spaces leaves a double space, so cleaning twice differs from cleaning once |
| AiAnalyzer.StripBulletMark | backend/ai_analyzer.py:120 | the result is what follows the maximal leading run of digits, dots, dashes, bullets and stars plus the whitespace after it; a line starting with a mark always gets shorter, and a line without one is unchanged |
| AiAnalyzer.StripDashedLine | backend/ai_analyzer.py:120 | "- " in front of a line of text is removed, leaving exactly the text |
| AiAnalyzer.BulletLines | backend/ai_analyzer.py:116-122 | every kept bullet is longer than 20 characters, has no whitespace at either end, and is the cleaned form of some reply line |
| AiAnalyzer.BulletLinesComplete | backend/ai_analyzer.py:116-122 | every line whose cleaned form is long enough is kept, and lines are kept in reply order |
| AiAnalyzer.GenerateBullets | backend/ai_analyzer.py:116-140 | between 1 and 10 bullets, all long enough; the first min(found, 10) kept bullets when any qualify, the eight fallback bullets otherwise or when the call failed |
| AiAnalyzer.FallbackBulletsLong | backend/ai_analyzer.py:130-140 | every fallback bullet passes the length filter |
| AiAnalyzer.StripNumbering | backend/ai_analyzer.py:174 | the result is the line without a leading "digits then . or ) then whitespace" prefix when there is one, and the line itself otherwise |
| AiAnalyzer.QuestionLines | backend/ai_analyzer.py:169-176 | every kept question is non-empty, has no whitespace at either end and is the cleaned form of some reply line |
| AiAnalyzer.QuestionLineKept | backend/ai_analyzer.py:173-176 | a non-empty line with no surrounding whitespace and no leading number is kept exactly as written |
| AiAnalyzer.QuestionLinesComplete | backend/ai_analyzer.py:169-176 | every line with a non-empty cleaned form is kept, in reply order |
| AiAnalyzer.GenerateQuestions | backend/ai_analyzer.py:169-188 | at most five non-empty questions: the first min(found, 5) cleaned lines of a reply, the five fallback questions when the call failed |
| AiAnalyzer.FillDefaults | backend/ai_analyzer.py:284-292 | afterwards the four guidance keys are present; missing ones get "Medium", [], "" and []; keys already present keep their values and no other key appears |
| AiAnalyzer.FillDefaultsIdempotent | backend/ai_analyzer.py:284-292 | a question that already has guidance is unchanged, so filling twice is filling once |
| AiAnalyzer.MockQuestions | backend/ai_analyzer.py:280-302 | every returned question has guidance; a parsed list keeps its length and each question's keys and values, and a missing difficulty, key points, sample answer or red flags becomes "Medium", [], "" or [] respectively; no reply gives the fallback questions |
| AiAnalyzer.FallbackMockQuestions | backend/ai_analyzer.py:331-360 | one record per built-in question, each carrying its difficulty and sample answer and all four guidance keys |
| AiAnalyzer.FallbackAnalysis | backend/ai_analyzer.py:362-393 | match percentage, keyword density and experience score all equal the given percentage, the skills score is 10 lower, education is 75, there are no career gaps |
| AiAnalyzer.FallbackExplanationReadsBack | backend/ai_analyzer.py:367 | the number inside the fallback explanation reads back as the match percentage |
| AiAnalyzer.Modifications | backend/ai_analyzer.py:564-570 | one entry per non-empty input, in the order add, remove, experience; the skill entries list the skills joined by ", "; the experience entry is "Adding experience: " followed by its first 200 characters |
| AiAnalyzer.ModificationsIgnoreLongTail | backend/ai_analyzer.py:570 | two experience texts that agree on their first 200 characters give the same modification list |
| AiAnalyzer.WhatIfResult | backend/ai_analyzer.py:599-604 | the result always carries the caller's original score; a parsed reply keeps all its other keys and values; no reply gives the fallback |
| AiAnalyzer.FallbackWhatIf | backend/ai_analyzer.py:655-662 | the fallback's new score is the original plus 5 and its change is 5 |
| AiAnalyzer.FallbackWhatIfAddsUp | backend/ai_analyzer.py:655-662 | in the fallback, new score = original score + score change |
| AiAnalyzer.AnswersTextLines | backend/ai_analyzer.py:444 | for single-line answers, the prompt's lines are "Q: …"/"A: …" for the first three answers only |
| Api.Respond | backend/main.py:135-139 | a guard's HTTP error passes through unchanged; any other failure becomes a 500 whose detail is the handler's prefix plus the message |
| Api.Analyze | backend/main.py:78-139 | the file name is checked first, then the job description, then the extracted text; a short extracted text is a 400 "no text" error, and a failed extraction or analysis is a 500 carrying "Analysis failed: " and its message; a response exists exactly when all pass and nothing failed, and carries the first min(n, 1000) characters of each text |
| Api.UppercasePdfRefused | backend/main.py:78-79 | the extension check is case-sensitive: "CV.PDF" is refused whatever else is sent |
| Api.BulletPoints | backend/main.py:161-165 | a response exactly when the stripped experience has 20 or more characters and a job title is given, with the experience checked first |
| Api.InterviewQuestions | backend/main.py:193-194 | a response exactly when the stripped text has 50 or more characters |
| Api.LearningRoadmap | backend/main.py:219-220 | an empty skills list is refused with 400; a roadmap failure becomes a 500 with the roadmap prefix |
| Api.MockInterview | backend/main.py:249-260 | the resume text (100) is checked before the job description (50); the response is exactly the analyzer's mock questions, each with guidance |
| Api.PaddingDoesNotHelp | backend/main.py:81-82 | padding a text with whitespace never changes whether it is too short |
| ScoreBands.BandOf | frontend/src/ConsistencyCheck.jsx:51-55 | green exactly from 80, yellow exactly from 60 below 80, red exactly below 60 |
| ScoreBands.BandMonotone | frontend/src/ConsistencyCheck.jsx:51-55 | a higher score never falls in a worse band |
| Upload.AddFiles | frontend/src/UploadSection.jsx:8-19 | the chosen PDFs are appended after the existing files in order; the warning fires exactly when some chosen file is not a PDF; the selection stays valid |
| Upload.Select | frontend/src/UploadSection.jsx:142 | picking a listed file selects exactly that file and changes nothing else |
| Upload.RemoveFileAsWritten | frontend/src/UploadSection.jsx:21-26 | the file at the index is removed; the selection is clamped to max(0, n - 2) only when it was at or past n - 1, otherwise unchanged; it stays in bounds |
| Upload.RemoveBeforeSelectionSelectsNext | frontend/src/UploadSection.jsx:21-26 | removing a file in front of the selection selects the file after the one that was selected |
| Upload.RemoveFirstOfThree | frontend/src/UploadSection.jsx:21-26 | with files a, b, c and b selected, removing a leaves c selected |
| Upload.RemoveFile | frontend/src/UploadSection.jsx:21-26 | the corrected removal removes the file at the index and keeps the selection in bounds |
| Upload.RemoveFileKeepsSelection | frontend/src/UploadSection.jsx:21-26 | removing any file other than the selected one keeps the same file selected |
| Upload.RemoveFileAgreesElsewhere | frontend/src/UploadSection.jsx:21-26 | the corrected removal agrees with the code except when a file in front of the selection is removed |
| Upload.Submit | frontend/src/UploadSection.jsx:28-43 | no files is refused first, then a blank job description or one under 50 UTF-16 code units (JavaScript's `length`, before trimming); on success the selected file, its name and the description are handed on |
| Upload.AstralJobPassesForm | frontend/src/UploadSection.jsx:36 | twenty-five emoji count as fifty units, so such a description is submitted |
| Upload.Utf16LengthAppend | frontend/src/UploadSection.jsx:36 | the code-unit length of two joined texts is the sum of their lengths |
| Upload.PaddedJobPassesFormOnly | frontend/src/UploadSection.jsx:36 | a short description padded with blanks to 50 characters passes the form but fails the server's stripped-length guard |
| Upload.RecentHistory | frontend/src/UploadSection.jsx:57 | at most the five most recent records, newest first |
| Upload.SubmitLabel | frontend/src/UploadSection.jsx:195 | "Analyze Resume" for at most one file; otherwise "Analyze Selected (" and ")" around a counter that reads back as the one-based position of the selected file and the file count |
| Upload.CounterOf | frontend/src/UploadSection.jsx:195 | a counter written as two decimal numbers around "/" reads back as those two numbers |
| Upload.SubmitLabelPositionInRange | frontend/src/UploadSection.jsx:195 | the position read back from the caption is between 1 and the count read back, which is the number of files, and names the selected file |
| Consistency.AddAnswer | frontend/src/ConsistencyCheck.jsx:11-13 | the list gains exactly one blank pair at the end, the rest unchanged |
| Consistency.RemoveAnswer | frontend/src/ConsistencyCheck.jsx:15-17 | exactly the pair at the index is removed, the others keep their order, and at least one pair remains |
| Consistency.RemoveAnswerUndone | frontend/src/ConsistencyCheck.jsx:15-17 | putting the removed pair back at its index restores the list |
| Consistency.UpdateAnswer | frontend/src/ConsistencyCheck.jsx:19-23 | only the named field of the indexed pair changes |
| Consistency.EditsKeepOnePair | frontend/src/ConsistencyCheck.jsx:11-24 | with Remove offered only for two or more pairs (line 82), no single add, edit or remove empties a non-empty list |
| Consistency.SessionKeepsOnePair | frontend/src/ConsistencyCheck.jsx:11-24 | any sequence of the edits the screen offers keeps a non-empty list non-empty |
| Consistency.InitialSessionKeepsOnePair | frontend/src/ConsistencyCheck.jsx:5-24 | from the screen's opening list of one blank pair, no session of edits ever empties the list |
| Consistency.CheckRequest | frontend/src/ConsistencyCheck.jsx:25-33 | a request exactly when some pair has both sides non-blank; it carries exactly those pairs in order, and the resume text or the placeholder when it is empty |
| Consistency.PromptHoldsFirstThreeFilled | frontend/src/ConsistencyCheck.jsx:26 | the analyzer's prompt holds exactly the first three filled pairs the screen sent |
| Consistency.ConsistencyColor | frontend/src/ConsistencyCheck.jsx:51-55 | green from 80, yellow from 60, red below |
| Consistency.SeverityColorsDistinct | frontend/src/ConsistencyCheck.jsx:57-61 | "High", "Medium" and "Low" look different, and any other or missing severity looks like "Low" |
| Consistency.StrongConsistencyIsGreen | frontend/src/ConsistencyCheck.jsx:210 | the success banner appears only with a green score and no contradictions |
| Consistency.FallbackShowsStrongConsistency | backend/ai_analyzer.py:622-629 | the analyzer's fallback verdict (80, no contradictions) shows the success banner |
| WhatIf.ParseSkills | frontend/src/WhatIfSimulator.jsx:22-23 | every parsed skill is non-empty, comma-free and trimmed |
| WhatIf.ParseSkillsKeepsPiece | frontend/src/WhatIfSimulator.jsx:22-23 | every comma-separated piece that is not blank once trimmed appears, trimmed, among the parsed skills |
| WhatIf.ParseSkillsAppend | frontend/src/WhatIfSimulator.jsx:22-23 | two inputs joined by a comma parse to the two parsed lists one after the other |
| WhatIf.ParseSkillsJoin | frontend/src/WhatIfSimulator.jsx:22-23 | a well-formed skill list typed back in, separated by ", ", parses to the same list, in order |
| WhatIf.BlankFieldAsksNothing | frontend/src/WhatIfSimulator.jsx:22-23 | a field holding only commas and whitespace parses to no skills |
| WhatIf.AddedSkillsReadBack | backend/ai_analyzer.py:565-566 | the analyzer's "Adding skills: " entry parses back to exactly the skills the field produced |
| WhatIf.RunSimulation | frontend/src/WhatIfSimulator.jsx:11-26 | a request exactly when resume text and job description are both present; it carries the parsed lists, the experience and the score or 0 |
| WhatIf.ChangeIndicatorsAgree | frontend/src/WhatIfSimulator.jsx:36-161 | the two banners never show together; the up arrow shows exactly with the improvement banner and the green class, the down arrow exactly with the warning and the red class, and the grey class exactly when neither banner shows |
| WhatIf.FallbackRecommends | backend/ai_analyzer.py:655-662 | the analyzer's fallback result always shows the improvement banner |
| Voice.NextQuestion | frontend/src/VoiceInterview.jsx:82-87 | the index moves to (i + 1) mod 5, the question text is that sample question, transcript and feedback are cleared |
| Voice.ShownQuestion | frontend/src/VoiceInterview.jsx:69 | on a consistent screen the question shown and sent is the sample question at the index |
| Voice.AdvanceIndex | frontend/src/VoiceInterview.jsx:83 | after n presses the index is (i + n) mod 5 |
| Voice.RoundComesBack | frontend/src/VoiceInterview.jsx:83 | five presses return to the starting question |
| Voice.RoundShowsEveryQuestion | frontend/src/VoiceInterview.jsx:13-19 | within five presses every sample question is shown |
| Voice.OnResult | frontend/src/VoiceInterview.jsx:32-46 | the transcript grows by exactly the final text of the results from the event's index on; the question and feedback are untouched |
| Voice.OnResultOneFinal | frontend/src/VoiceInterview.jsx:32-46 | an event whose one new result is final appends that text and a space |
| Voice.OnResultInterimOnly | frontend/src/VoiceInterview.jsx:32-46 | an event whose new results are all interim leaves the screen unchanged |
| Voice.FinalTextAppend | frontend/src/VoiceInterview.jsx:36-45 | final results delivered over two events add the same text as in one |
| Voice.AnalyzeAnswer | frontend/src/VoiceInterview.jsx:59-72 | a request exactly when the transcript is not blank; it carries the transcript as recorded and the sample question at the index |
| Voice.NextQuestionNeedsNewAnswer | frontend/src/VoiceInterview.jsx:85 | right after moving on, analysing is refused until a new answer is recorded |
| Voice.ScoreColor | frontend/src/VoiceInterview.jsx:89-93 | green from 80, yellow from 60, red below |

## Left out

- jsPDF itself: font metrics, `splitTextToSize` (a parameter), fonts as
  anything but a bold flag and a size, and saving the file.
- React rendering, hooks, routing and the purely presentational components.
- Browser APIs: `alert`, the file chooser, the Web Speech API's start and
  stop. Only its `onresult` accumulation is modelled.
- Network: axios calls and their failure alerts; FastAPI routing, CORS and
  temporary-file handling.
- The language model call, the prompt text, and the `re.search`/`json.loads`
  that find JSON in a reply. The reply, or the parsed record, is a
  parameter.
- PyMuPDF text extraction. The extracted text, or the exception, is a
  parameter of `Api.Analyze`.
- Floating point: embeddings, cosine similarity, `int(similarity * 100)` and
  `round`. `AiAnalyzer.FallbackAnalysis` takes the integer percentage.
- The voice-answer, consistency, recruiter-lens and career-switch analyzer
  calls. Only their fallback results are used where a screen's property
  depends on them.
- The learning roadmap's content. It is a parameter of `Api.LearningRoadmap`.
- Mock-interview JSON whose elements are not objects. The model takes a list
  of records.
- Python's Unicode-aware `\w`, `\s`, `\d` and `strip()`, and JavaScript's
  Unicode `\s` and `trim()`: the model uses the ASCII sets, so text with
  non-ASCII letters, digits or whitespace is outside it. This includes the
  separators \x1c-\x1f, which Python's `\s` and `strip()` treat as
  whitespace: `_clean_text("a\x1cb")` gives "a b" (backend/pdf_parser.py:41),
  while `PdfParser.Clean` drops the separator and gives "ab". It also
  includes non-ASCII digits, which the `\d` of the bullet and numbering
  patterns matches (backend/ai_analyzer.py:120, 174) and which
  `AiAnalyzer.IsBulletMark` does not.
- ResumeExport.PageWidth: is 210 millimetres, while jsPDF's A4 width is
  595.28 points, about 210.0016 millimetres (ResumeBuilder.jsx:76). The
  model's date columns are about 0.0016 millimetres left of the PDF's, and
  its wrap widths are narrower by the same amount. Every wrap-dependent
  property holds for any `wrap`, so none depends on this.
- The upload history's 80/60 colour classes: purely presentational.
- AiAnalyzer.GenerateBullets: does not claim the fallback bullets have no
  surrounding whitespace, only that they pass the length filter.
- AiAnalyzer.GenerateQuestions: states that questions have no surrounding
  whitespace only for questions taken from a reply, not for the fallback
  list.
- WhatIf.RunSimulation: the score is an optional integer, so JavaScript's
  other falsy values (NaN, an empty string) are not modelled.
- Interim speech results: the screen only previews them, and the model
  only states that they add nothing to the transcript
  (`Voice.OnResultInterimOnly`).

## Findings

| source | as written | input that shows it | evidently intended | confidence | as-written member | corrected member |
|---|---|---|---|---|---|---|
| frontend/src/UploadSection.jsx:21-26 | after removing a file, the selected index is only adjusted when it was at or past the old last position | files a, b, c with b selected; remove a: the list becomes b, c and index 1 now selects c | the selection follows its file: an index in front of it moves it down by one | not executed | Upload.RemoveFileAsWritten, Upload.RemoveFirstOfThree | Upload.RemoveFile, Upload.RemoveFileKeepsSelection |
