/** The resume builder's PDF export (`exportToPDF` in
    frontend/src/ResumeBuilder.jsx) as a layout program for the pagination
    engine: which text runs are drawn, in which font, at which column, how
    far each moves the cursor, and which of them are checked against a
    near-bottom limit before they are drawn.

    jsPDF's `splitTextToSize(text, width)` depends on font metrics the model
    does not have; it is a parameter `wrap` of every function that needs it,
    and every property here holds whatever it returns. */
module ResumeExport {
  import opened Outcomes
  import opened Text
  import opened Resume
  import opened ResumeFormat
  import opened Layout
  import opened Lists

  /** `doc.splitTextToSize(text, width)`. */
  type Wrap = (string, int) -> seq<string>

  const LineHeight := 7
  const Margin := 20
  /** jsPDF's default page is A4 portrait. jsPDF stores its width as
      595.28 points, about 210.0016 millimetres; the model rounds the
      width and height to the nominal 210 by 297 millimetres. */
  const PageWidth := 210
  const PageHeight := 297
  const TextWidth := PageWidth - 2 * Margin
  const BulletWidth := PageWidth - 2 * Margin - 5
  const DateX := PageWidth - Margin - 50
  const GraduationX := PageWidth - Margin - 30
  const BulletX := Margin + 5
  const TitleAdvance := 10

  /** The near-bottom limits: a section heading needs the cursor at 250 or
      above, a project name at 260 or above, a bullet or skills line at 270
      or above. Every other line is drawn wherever the cursor is. */
  const HeadingLimit := 250
  const ProjectLimit := 260
  const LineLimit := 270

  /** The bullet the export prefixes to responsibilities: the UTF-8 bytes of
      U+2022 followed by a space, read back as three Windows-1252 characters,
      as ResumeBuilder.jsx spells it. */
  const BulletPrefix := "\U{00E2}\U{20AC}\U{00A2} "

  const TitleStyle := Style(true, 20)
  const HeadingStyle := Style(true, 12)
  const EntryStyle := Style(true, 11)
  const DateStyle := Style(false, 11)
  const BodyStyle := Style(false, 10)

  function Line(x: int, text: string, style: Style): Cell {
    Cell(x, [text], style)
  }

  function Heading(title: string): Step {
    Row(Some(HeadingLimit), [Line(Margin, title, HeadingStyle)], LineHeight)
  }

  /** A repeatable section: a heading and the kept entries when at least one
      entry is kept, nothing otherwise. */
  function SectionBlock<T>(title: string, xs: seq<T>, keep: T -> bool, body: T -> seq<Step>): seq<Step> {
    if AnyKept(xs, keep) then [Heading(title)] + ForEachKept(xs, keep, body) else []
  }

  function Header(p: PersonalInfo): seq<Step> {
    [ Row(None, [Line(Margin, Title(p), TitleStyle)], TitleAdvance),
      Row(None, [Line(Margin, ContactLine(p), BodyStyle)], LineHeight) ]
    + (if HasLinks(p) then [Row(None, [Line(Margin, LinksLine(p), BodyStyle)], LineHeight)] else [])
  }

  function SummaryPart(p: PersonalInfo, wrap: Wrap): seq<Step> {
    if p.summary == "" then []
    else
      var lines := wrap(p.summary, TextWidth);
      [ Gap(5),
        Row(None, [Line(Margin, "PROFESSIONAL SUMMARY", HeadingStyle)], LineHeight),
        Row(None, [Cell(Margin, lines, BodyStyle)], |lines| * LineHeight + 5) ]
  }

  /** One row per wrapped line, each checked against the line limit. */
  function GuardedLines(x: int, prefix: string, lines: seq<string>): seq<Step> {
    seq(|lines|, k requires 0 <= k < |lines| =>
      Row(Some(LineLimit), [Line(x, prefix + lines[k], BodyStyle)], LineHeight))
  }

  function ExperienceEntry(e: Experience, wrap: Wrap): seq<Step> {
    [ Row(None, [Line(Margin, PositionLabel(e), EntryStyle), Line(DateX, DateRange(e), DateStyle)], LineHeight),
      Row(None, [Line(Margin, CompanyLine(e), BodyStyle)], LineHeight) ]
    + (if e.responsibilities != "" then GuardedLines(BulletX, BulletPrefix, wrap(e.responsibilities, BulletWidth)) else [])
    + [Gap(3)]
  }

  function EducationEntry(e: Education): seq<Step> {
    [ Row(None, [Line(Margin, e.institution, EntryStyle), Line(GraduationX, e.graduationDate, DateStyle)], LineHeight),
      Row(None, [Line(Margin, DegreeLine(e), BodyStyle)], LineHeight + 3) ]
  }

  function SkillRows(lines: seq<string>, wrap: Wrap): seq<Step>
    decreases |lines|
  {
    if lines == [] then []
    else GuardedLines(Margin, "", wrap(lines[0], TextWidth)) + SkillRows(lines[1..], wrap)
  }

  function SkillsPart(s: Skills, wrap: Wrap): seq<Step> {
    var lines := SkillLines(s);
    if lines == [] then [] else [Heading("SKILLS")] + SkillRows(lines, wrap)
  }

  /** A project's description block moves the cursor by its line count and
      then by the entry gap of 3; without a description only the gap
      remains. */
  function ProjectEntry(p: Project, wrap: Wrap): seq<Step> {
    [Row(Some(ProjectLimit), [Line(Margin, p.name, EntryStyle)], LineHeight)]
    + (if p.technologies != "" then [Row(None, [Line(Margin, "Technologies: " + p.technologies, BodyStyle)], LineHeight)] else [])
    + (if p.description != "" then
         var lines := wrap(p.description, TextWidth);
         [Row(None, [Cell(Margin, lines, BodyStyle)], |lines| * LineHeight + 3)]
       else [Gap(3)])
  }

  function CertificationEntry(c: Certification): seq<Step> {
    [Row(None, [Line(Margin, CertificationLine(c), BodyStyle)], LineHeight)]
  }

  function ExperiencePart(xs: seq<Experience>, wrap: Wrap): seq<Step> {
    SectionBlock("EXPERIENCE", xs, ExperienceQualifies, e => ExperienceEntry(e, wrap))
  }

  function EducationPart(xs: seq<Education>): seq<Step> {
    SectionBlock("EDUCATION", xs, EducationQualifies, EducationEntry)
  }

  function ProjectsPart(xs: seq<Project>, wrap: Wrap): seq<Step> {
    SectionBlock("PROJECTS", xs, ProjectQualifies, p => ProjectEntry(p, wrap))
  }

  function CertificationsPart(xs: seq<Certification>): seq<Step> {
    SectionBlock("CERTIFICATIONS", xs, CertificationQualifies, CertificationEntry)
  }

  /** The whole export, section by section in the order exportToPDF draws them. */
  function Program(form: ResumeForm, wrap: Wrap): seq<Step> {
    Header(form.personalInfo)
    + SummaryPart(form.personalInfo, wrap)
    + ExperiencePart(form.experience, wrap)
    + EducationPart(form.education)
    + SkillsPart(form.skills, wrap)
    + ProjectsPart(form.projects, wrap)
    + CertificationsPart(form.certifications)
  }

  /** The drawn document: every text run with its page and position. */
  function Export(form: ResumeForm, wrap: Wrap): Trace {
    Run(Program(form, wrap), Cursor(0, Top))
  }

  /** The name the document is saved under. */
  function ExportFileName(form: ResumeForm): string {
    FileName(form.personalInfo.fullName)
  }

  // ---------------------------------------------------------------------
  // Shape of the program

  /** Every limit in `steps` is at most `bound`. */
  predicate LimitsAtMost(steps: seq<Step>, bound: int) {
    forall i :: 0 <= i < |steps| && steps[i].Row? && steps[i].limit.Some? ==> steps[i].limit.value <= bound
  }

  /** A piece of the program that satisfies the engine's assumptions and
      whose limits are at most the bullet-and-skills limit. */
  predicate Bounded(steps: seq<Step>) {
    WellFormed(steps) && LimitsAtMost(steps, LineLimit)
  }

  /** No run uses the heading font. */
  predicate Plain(steps: seq<Step>) {
    forall i, k :: 0 <= i < |steps| && steps[i].Row? && 0 <= k < |steps[i].cells| ==>
      steps[i].cells[k].style != HeadingStyle
  }

  /** What an entry of a repeatable section is: bounded and without
      headings. */
  predicate Sound(steps: seq<Step>) {
    Bounded(steps) && Plain(steps)
  }

  lemma BoundedAppend(a: seq<Step>, b: seq<Step>)
    requires Bounded(a) && Bounded(b)
    ensures Bounded(a + b)
  {
    WellFormedAppend(a, b);
    forall i | 0 <= i < |a + b| && (a + b)[i].Row? && (a + b)[i].limit.Some?
      ensures (a + b)[i].limit.value <= LineLimit
    {
      if i >= |a| { assert (a + b)[i] == b[i - |a|]; }
    }
  }

  lemma SoundAppend(a: seq<Step>, b: seq<Step>)
    requires Sound(a) && Sound(b)
    ensures Sound(a + b)
  {
    BoundedAppend(a, b);
    forall i, k | 0 <= i < |a + b| && (a + b)[i].Row? && 0 <= k < |(a + b)[i].cells|
      ensures (a + b)[i].cells[k].style != HeadingStyle
    {
      if i >= |a| { assert (a + b)[i] == b[i - |a|]; }
    }
  }

  lemma {:induction false} ForEachKeptSound<T>(xs: seq<T>, keep: T -> bool, body: T -> seq<Step>)
    requires forall i :: 0 <= i < |xs| ==> Sound(body(xs[i]))
    ensures Sound(ForEachKept(xs, keep, body))
    decreases |xs|
  {
    if xs != [] {
      ForEachKeptSound(xs[1..], keep, body);
      assert Sound(if keep(xs[0]) then body(xs[0]) else []);
      SoundAppend(if keep(xs[0]) then body(xs[0]) else [], ForEachKept(xs[1..], keep, body));
    }
  }

  lemma GuardedLinesSound(x: int, prefix: string, lines: seq<string>)
    ensures Sound(GuardedLines(x, prefix, lines))
  {
  }

  lemma ExperienceEntrySound(e: Experience, wrap: Wrap)
    ensures Sound(ExperienceEntry(e, wrap))
  {
    var head := [ Row(None, [Line(Margin, PositionLabel(e), EntryStyle), Line(DateX, DateRange(e), DateStyle)], LineHeight),
                  Row(None, [Line(Margin, CompanyLine(e), BodyStyle)], LineHeight) ];
    var bullets := if e.responsibilities != "" then GuardedLines(BulletX, BulletPrefix, wrap(e.responsibilities, BulletWidth)) else [];
    GuardedLinesSound(BulletX, BulletPrefix, wrap(e.responsibilities, BulletWidth));
    assert Sound(head);
    SoundAppend(head, bullets);
    assert Sound([Gap(3)]);
    SoundAppend(head + bullets, [Gap(3)]);
  }

  lemma ProjectEntrySound(p: Project, wrap: Wrap)
    ensures Sound(ProjectEntry(p, wrap))
  {
    var name := [Row(Some(ProjectLimit), [Line(Margin, p.name, EntryStyle)], LineHeight)];
    var tech := if p.technologies != "" then [Row(None, [Line(Margin, "Technologies: " + p.technologies, BodyStyle)], LineHeight)] else [];
    var desc := if p.description != "" then
                  var lines := wrap(p.description, TextWidth);
                  [Row(None, [Cell(Margin, lines, BodyStyle)], |lines| * LineHeight + 3)]
                else [Gap(3)];
    assert Sound(name) && Sound(tech) && Sound(desc);
    SoundAppend(name, tech);
    SoundAppend(name + tech, desc);
  }

  lemma {:induction false} SkillRowsSound(lines: seq<string>, wrap: Wrap)
    ensures Sound(SkillRows(lines, wrap))
    decreases |lines|
  {
    if lines != [] {
      GuardedLinesSound(Margin, "", wrap(lines[0], TextWidth));
      SkillRowsSound(lines[1..], wrap);
      SoundAppend(GuardedLines(Margin, "", wrap(lines[0], TextWidth)), SkillRows(lines[1..], wrap));
    }
  }

  lemma SectionBounded<T>(title: string, xs: seq<T>, keep: T -> bool, body: T -> seq<Step>)
    requires forall i :: 0 <= i < |xs| ==> Sound(body(xs[i]))
    ensures Bounded(SectionBlock(title, xs, keep, body))
  {
    ForEachKeptSound(xs, keep, body);
    BoundedAppend([Heading(title)], ForEachKept(xs, keep, body));
  }

  lemma HeaderBounded(p: PersonalInfo, wrap: Wrap)
    ensures Bounded(Header(p))
    ensures Bounded(SummaryPart(p, wrap))
  {
  }

  lemma ExperiencePartBounded(xs: seq<Experience>, wrap: Wrap)
    ensures Bounded(ExperiencePart(xs, wrap))
  {
    forall e | e in xs ensures Sound(ExperienceEntry(e, wrap)) {
      ExperienceEntrySound(e, wrap);
    }
    SectionBounded("EXPERIENCE", xs, ExperienceQualifies, e => ExperienceEntry(e, wrap));
  }

  lemma EducationPartBounded(xs: seq<Education>)
    ensures Bounded(EducationPart(xs))
  {
    SectionBounded("EDUCATION", xs, EducationQualifies, EducationEntry);
  }

  lemma SkillsPartBounded(s: Skills, wrap: Wrap)
    ensures Bounded(SkillsPart(s, wrap))
  {
    SkillRowsSound(SkillLines(s), wrap);
    BoundedAppend([Heading("SKILLS")], SkillRows(SkillLines(s), wrap));
  }

  lemma ProjectsPartBounded(xs: seq<Project>, wrap: Wrap)
    ensures Bounded(ProjectsPart(xs, wrap))
  {
    forall q | q in xs ensures Sound(ProjectEntry(q, wrap)) {
      ProjectEntrySound(q, wrap);
    }
    SectionBounded("PROJECTS", xs, ProjectQualifies, q => ProjectEntry(q, wrap));
  }

  lemma CertificationsPartBounded(xs: seq<Certification>)
    ensures Bounded(CertificationsPart(xs))
  {
    SectionBounded("CERTIFICATIONS", xs, CertificationQualifies, CertificationEntry);
  }

  lemma ProgramBounded(form: ResumeForm, wrap: Wrap)
    ensures Bounded(Program(form, wrap))
  {
    HeaderBounded(form.personalInfo, wrap);
    ExperiencePartBounded(form.experience, wrap);
    EducationPartBounded(form.education);
    SkillsPartBounded(form.skills, wrap);
    ProjectsPartBounded(form.projects, wrap);
    CertificationsPartBounded(form.certifications);
    var a := Header(form.personalInfo);
    var b := SummaryPart(form.personalInfo, wrap);
    var c := ExperiencePart(form.experience, wrap);
    var d := EducationPart(form.education);
    var e := SkillsPart(form.skills, wrap);
    var f := ProjectsPart(form.projects, wrap);
    var g := CertificationsPart(form.certifications);
    BoundedAppend(a, b);
    BoundedAppend(a + b, c);
    BoundedAppend(a + b + c, d);
    BoundedAppend(a + b + c + d, e);
    BoundedAppend(a + b + c + d + e, f);
    BoundedAppend(a + b + c + d + e + f, g);
  }

  /** A drawn run's limit is the limit of the row that drew it. */
  lemma {:induction false} RunKeepsLimits(steps: seq<Step>, cur: Cursor, bound: int)
    requires LimitsAtMost(steps, bound)
    ensures forall i :: 0 <= i < |Run(steps, cur).emissions| && Run(steps, cur).emissions[i].limit.Some? ==>
      Run(steps, cur).emissions[i].limit.value <= bound
    decreases |steps|
  {
    if steps != [] {
      var first := Exec(steps[0], cur);
      assert LimitsAtMost(steps[1..], bound) by {
        forall i | 0 <= i < |steps[1..]| && steps[1..][i].Row? && steps[1..][i].limit.Some?
          ensures steps[1..][i].limit.value <= bound
        {
          assert steps[1..][i] == steps[i + 1];
        }
      }
      RunKeepsLimits(steps[1..], first.cursor, bound);
      var a: seq<Emission> := first.emissions;
      var b: seq<Emission> := Run(steps[1..], first.cursor).emissions;
      assert Run(steps, cur).emissions == a + b;
      forall i | 0 <= i < |a + b| && (a + b)[i].limit.Some? ensures (a + b)[i].limit.value <= bound {
        if i >= |a| { assert (a + b)[i] == b[i - |a|]; }
      }
    }
  }

  /** The export's page layout: text runs are drawn in reading order, every
      page after the first starts at the top margin, a checked run (section
      heading, project name, bullet, skills line) never starts below its
      limit, and nothing is drawn above the top margin. */
  lemma ExportPaginates(form: ResumeForm, wrap: Wrap)
    ensures var es := Export(form, wrap).emissions;
      && InReadingOrder(es)
      && WithinLimits(es)
      && BelowTopMargin(es)
      && (es != [] ==> es[0].page == 0)
      && (forall i :: 0 <= i < |es| && es[i].limit.Some? ==> es[i].y <= LineLimit)
  {
    ProgramBounded(form, wrap);
    RunOrdered(Program(form, wrap), Cursor(0, Top));
    RunKeepsLimits(Program(form, wrap), Cursor(0, Top), LineLimit);
  }
}
