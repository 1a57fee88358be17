/** The resume builder's on-screen preview (the non-editing branch of the
    component in frontend/src/ResumeBuilder.jsx) as the list of text blocks
    it renders, top to bottom, and how it compares with the PDF export.

    The two renderings are written separately in ResumeBuilder.jsx. They agree on
    the header, the sections shown and their order; they disagree on an
    experience entry without a role, on project links, on wrapping and on
    empty responsibilities and descriptions. */
module ResumePreview {
  import opened Outcomes
  import opened Text
  import opened Lists
  import opened Resume
  import opened ResumeFormat
  import opened Layout
  import opened ResumeExport
  import opened ExportFacts

  /** What a block is rendered as: the name heading, the contact and link
      lines, a section heading, an entry's bold title, its date, body text
      or a project link. */
  datatype Kind = NameKind | ContactKind | LinksKind | HeadingKind | EntryTitleKind | DateKind | BodyKind | LinkKind

  datatype Block = Block(kind: Kind, text: string)

  function PreviewHeader(p: PersonalInfo): seq<Block> {
    [Block(NameKind, Title(p)), Block(ContactKind, ContactLine(p))]
    + (if HasLinks(p) then [Block(LinksKind, LinksLine(p))] else [])
  }

  /** The summary is one paragraph; the browser wraps it. */
  function PreviewSummary(p: PersonalInfo): seq<Block> {
    if p.summary == "" then []
    else [Block(HeadingKind, "PROFESSIONAL SUMMARY"), Block(BodyKind, p.summary)]
  }

  /** An experience entry shows the role as typed, even when empty, and its
      responsibilities as one paragraph, even when empty. */
  function PreviewExperience(e: Experience): seq<Block> {
    [ Block(EntryTitleKind, e.position), Block(DateKind, DateRange(e)),
      Block(BodyKind, CompanyLine(e)), Block(BodyKind, e.responsibilities) ]
  }

  function PreviewEducation(e: Education): seq<Block> {
    [Block(EntryTitleKind, e.institution), Block(DateKind, e.graduationDate), Block(BodyKind, DegreeLine(e))]
  }

  function PreviewSkills(s: Skills): seq<Block> {
    var lines := SkillLines(s);
    if !HasSkills(s) then []
    else [Block(HeadingKind, "SKILLS")] + seq(|lines|, k requires 0 <= k < |lines| => Block(BodyKind, lines[k]))
  }

  /** A project shows its description paragraph even when empty, and its link
      when one is filled in. */
  function PreviewProject(q: Project): seq<Block> {
    [Block(EntryTitleKind, q.name)]
    + (if q.technologies != "" then [Block(BodyKind, "Technologies: " + q.technologies)] else [])
    + [Block(BodyKind, q.description)]
    + (if q.link != "" then [Block(LinkKind, q.link)] else [])
  }

  function PreviewCertification(c: Certification): seq<Block> {
    [Block(BodyKind, CertificationLine(c))]
  }

  function PreviewSection<T>(title: string, xs: seq<T>, keep: T -> bool, body: T -> seq<Block>): seq<Block> {
    if AnyKept(xs, keep) then [Block(HeadingKind, title)] + ForEachKept(xs, keep, body) else []
  }

  function Preview(form: ResumeForm): seq<Block> {
    PreviewHeader(form.personalInfo)
    + PreviewSummary(form.personalInfo)
    + PreviewSection("EXPERIENCE", form.experience, ExperienceQualifies, PreviewExperience)
    + PreviewSection("EDUCATION", form.education, EducationQualifies, PreviewEducation)
    + PreviewSkills(form.skills)
    + PreviewSection("PROJECTS", form.projects, ProjectQualifies, PreviewProject)
    + PreviewSection("CERTIFICATIONS", form.certifications, CertificationQualifies, PreviewCertification)
  }

  // ---------------------------------------------------------------------
  // Headings

  /** The texts of the section headings, in order. */
  function HeadingTexts(bs: seq<Block>): seq<string>
    decreases |bs|
  {
    if bs == [] then []
    else (if bs[0].kind == HeadingKind then [bs[0].text] else []) + HeadingTexts(bs[1..])
  }

  lemma {:induction false} HeadingTextsAppend(a: seq<Block>, b: seq<Block>)
    ensures HeadingTexts(a + b) == HeadingTexts(a) + HeadingTexts(b)
    decreases |a|
  {
    if a == [] {
      assert a + b == b;
    } else {
      assert (a + b)[0] == a[0];
      assert (a + b)[1..] == a[1..] + b;
      HeadingTextsAppend(a[1..], b);
    }
  }

  predicate NoHeadingBlocks(bs: seq<Block>) {
    forall i :: 0 <= i < |bs| ==> bs[i].kind != HeadingKind
  }

  lemma {:induction false} NoHeadingBlocksHaveNoTexts(bs: seq<Block>)
    requires NoHeadingBlocks(bs)
    ensures HeadingTexts(bs) == []
    decreases |bs|
  {
    if bs != [] {
      NoHeadingBlocksHaveNoTexts(bs[1..]);
    }
  }

  lemma {:induction false} ForEachKeptNoHeadings<T>(xs: seq<T>, keep: T -> bool, body: T -> seq<Block>)
    requires forall i :: 0 <= i < |xs| ==> NoHeadingBlocks(body(xs[i]))
    ensures NoHeadingBlocks(ForEachKept(xs, keep, body))
    decreases |xs|
  {
    if xs != [] {
      ForEachKeptNoHeadings(xs[1..], keep, body);
      var a: seq<Block> := if keep(xs[0]) then body(xs[0]) else [];
      var b: seq<Block> := ForEachKept(xs[1..], keep, body);
      forall i | 0 <= i < |a + b| ensures (a + b)[i].kind != HeadingKind {
        if i >= |a| { assert (a + b)[i] == b[i - |a|]; }
      }
    }
  }

  lemma PreviewSectionHeadings<T>(title: string, xs: seq<T>, keep: T -> bool, body: T -> seq<Block>)
    requires forall i :: 0 <= i < |xs| ==> NoHeadingBlocks(body(xs[i]))
    ensures HeadingTexts(PreviewSection(title, xs, keep, body)) == Titled(AnyKept(xs, keep), title)
  {
    if AnyKept(xs, keep) {
      ForEachKeptNoHeadings(xs, keep, body);
      NoHeadingBlocksHaveNoTexts(ForEachKept(xs, keep, body));
      HeadingTextsAppend([Block(HeadingKind, title)], ForEachKept(xs, keep, body));
      assert [Block(HeadingKind, title)][1..] == [];
    }
  }

  lemma PreviewTopHeadings(p: PersonalInfo)
    ensures HeadingTexts(PreviewHeader(p)) == []
    ensures HeadingTexts(PreviewSummary(p)) == Titled(p.summary != "", "PROFESSIONAL SUMMARY")
  {
    NoHeadingBlocksHaveNoTexts(PreviewHeader(p));
    if p.summary != "" {
      var h := Block(HeadingKind, "PROFESSIONAL SUMMARY");
      var body := Block(BodyKind, p.summary);
      assert PreviewSummary(p) == [h] + [body];
      HeadingTextsAppend([h], [body]);
      assert [h][1..] == [] && [body][1..] == [];
    }
  }

  lemma PreviewSkillsHeadings(s: Skills)
    ensures HeadingTexts(PreviewSkills(s)) == Titled(HasSkills(s), "SKILLS")
  {
    if HasSkills(s) {
      var lines := SkillLines(s);
      var body := seq(|lines|, k requires 0 <= k < |lines| => Block(BodyKind, lines[k]));
      NoHeadingBlocksHaveNoTexts(body);
      HeadingTextsAppend([Block(HeadingKind, "SKILLS")], body);
      assert [Block(HeadingKind, "SKILLS")][1..] == [];
    }
  }

  lemma PreviewExperienceHeadings(xs: seq<Experience>)
    ensures HeadingTexts(PreviewSection("EXPERIENCE", xs, ExperienceQualifies, PreviewExperience))
      == Titled(exists e :: e in xs && e.company != "", "EXPERIENCE")
  {
    PreviewSectionHeadings("EXPERIENCE", xs, ExperienceQualifies, PreviewExperience);
  }

  lemma PreviewEducationHeadings(xs: seq<Education>)
    ensures HeadingTexts(PreviewSection("EDUCATION", xs, EducationQualifies, PreviewEducation))
      == Titled(exists e :: e in xs && e.institution != "", "EDUCATION")
  {
    PreviewSectionHeadings("EDUCATION", xs, EducationQualifies, PreviewEducation);
  }

  lemma PreviewProjectsHeadings(xs: seq<Project>)
    ensures HeadingTexts(PreviewSection("PROJECTS", xs, ProjectQualifies, PreviewProject))
      == Titled(exists q :: q in xs && q.name != "", "PROJECTS")
  {
    forall i | 0 <= i < |xs| ensures NoHeadingBlocks(PreviewProject(xs[i])) {
    }
    PreviewSectionHeadings("PROJECTS", xs, ProjectQualifies, PreviewProject);
  }

  lemma PreviewCertificationsHeadings(xs: seq<Certification>)
    ensures HeadingTexts(PreviewSection("CERTIFICATIONS", xs, CertificationQualifies, PreviewCertification))
      == Titled(exists c :: c in xs && c.name != "", "CERTIFICATIONS")
  {
    PreviewSectionHeadings("CERTIFICATIONS", xs, CertificationQualifies, PreviewCertification);
  }

  lemma PreviewHeadingsByPart(form: ResumeForm)
    ensures HeadingTexts(Preview(form))
      == HeadingTexts(PreviewSummary(form.personalInfo))
       + HeadingTexts(PreviewSection("EXPERIENCE", form.experience, ExperienceQualifies, PreviewExperience))
       + HeadingTexts(PreviewSection("EDUCATION", form.education, EducationQualifies, PreviewEducation))
       + HeadingTexts(PreviewSkills(form.skills))
       + HeadingTexts(PreviewSection("PROJECTS", form.projects, ProjectQualifies, PreviewProject))
       + HeadingTexts(PreviewSection("CERTIFICATIONS", form.certifications, CertificationQualifies, PreviewCertification))
  {
    var a := PreviewHeader(form.personalInfo);
    var b := PreviewSummary(form.personalInfo);
    var c := PreviewSection("EXPERIENCE", form.experience, ExperienceQualifies, PreviewExperience);
    var d := PreviewSection("EDUCATION", form.education, EducationQualifies, PreviewEducation);
    var e := PreviewSkills(form.skills);
    var f := PreviewSection("PROJECTS", form.projects, ProjectQualifies, PreviewProject);
    var g := PreviewSection("CERTIFICATIONS", form.certifications, CertificationQualifies, PreviewCertification);
    PreviewTopHeadings(form.personalInfo);
    HeadingTextsAppend(a, b);
    assert HeadingTexts(a + b) == HeadingTexts(b);
    HeadingTextsAppend(a + b, c);
    HeadingTextsAppend(a + b + c, d);
    HeadingTextsAppend(a + b + c + d, e);
    HeadingTextsAppend(a + b + c + d + e, f);
    HeadingTextsAppend(a + b + c + d + e + f, g);
  }

  /** The preview shows a heading exactly for the sections the resume has
      content for, in the fixed order. */
  lemma PreviewHeadings(form: ResumeForm)
    ensures HeadingTexts(Preview(form)) == SectionTitles(form)
  {
    PreviewHeadingsByPart(form);
    PreviewTopHeadings(form.personalInfo);
    PreviewSkillsHeadings(form.skills);
    PreviewExperienceHeadings(form.experience);
    PreviewEducationHeadings(form.education);
    PreviewProjectsHeadings(form.projects);
    PreviewCertificationsHeadings(form.certifications);
  }

  /** What the user sees before exporting has the same section headings, in
      the same order, as the PDF. */
  lemma HeadingsAgree(form: ResumeForm, wrap: Wrap)
    ensures HeadingTexts(Preview(form)) == Headings(Contents(Export(form, wrap).emissions))
  {
    PreviewHeadings(form);
    ExportHeadings(form, wrap);
  }

  /** The header agrees too: name (or "Your Name"), contact line, and the
      links line exactly when the PDF draws one. */
  lemma HeaderAgrees(form: ResumeForm, wrap: Wrap)
    ensures var p := form.personalInfo;
      var bs := Preview(form);
      var es := Export(form, wrap).emissions;
      && |bs| >= 2 && |es| >= 2
      && bs[0] == Block(NameKind, Title(p)) && es[0].text == [bs[0].text]
      && bs[1] == Block(ContactKind, ContactLine(p)) && es[1].text == [bs[1].text]
      && (HasLinks(p) ==> |bs| >= 3 && |es| >= 3 && bs[2] == Block(LinksKind, LinksLine(p)) && es[2].text == [bs[2].text])
  {
    ExportHeader(form, wrap);
    PreviewStartsWith(form);
  }

  /** The preview opens with its header, summary included. */
  lemma PreviewStartsWith(form: ResumeForm)
    ensures PreviewHeader(form.personalInfo) + PreviewSummary(form.personalInfo) <= Preview(form)
  {
    var a := PreviewHeader(form.personalInfo);
    var b := PreviewSummary(form.personalInfo);
    var c := PreviewSection("EXPERIENCE", form.experience, ExperienceQualifies, PreviewExperience);
    var d := PreviewSection("EDUCATION", form.education, EducationQualifies, PreviewEducation);
    var e := PreviewSkills(form.skills);
    var f := PreviewSection("PROJECTS", form.projects, ProjectQualifies, PreviewProject);
    var g := PreviewSection("CERTIFICATIONS", form.certifications, CertificationQualifies, PreviewCertification);
    assert a + b <= a + b + c;
    assert a + b + c <= a + b + c + d;
    assert a + b + c + d <= a + b + c + d + e;
    assert a + b + c + d + e <= a + b + c + d + e + f;
    assert a + b + c + d + e + f <= a + b + c + d + e + f + g;
  }

  // ---------------------------------------------------------------------
  // Where the two renderings part ways

  /** An experience entry with a company but no role: the PDF prints
      "Position" where the preview prints an empty title. */
  lemma MissingRoleDiffers(e: Experience, wrap: Wrap)
    requires ExperienceQualifies(e) && e.position == ""
    ensures ExperienceEntry(e, wrap)[0].cells[0].text == ["Position"]
    ensures PreviewExperience(e)[0] == Block(EntryTitleKind, "")
  {
  }

  /** The PDF never shows a project's link, so changing or clearing links
      leaves the document unchanged, while the preview shows each named
      project's link when it is filled in. */
  function WithoutLinks(xs: seq<Project>): (r: seq<Project>)
    ensures |r| == |xs|
    ensures forall i :: 0 <= i < |xs| ==> r[i] == xs[i].(link := "")
  {
    seq(|xs|, i requires 0 <= i < |xs| => xs[i].(link := ""))
  }

  lemma {:induction false} ProjectEntriesIgnoreLinks(xs: seq<Project>, wrap: Wrap)
    ensures ForEachKept(WithoutLinks(xs), ProjectQualifies, q => ProjectEntry(q, wrap))
         == ForEachKept(xs, ProjectQualifies, q => ProjectEntry(q, wrap))
    ensures AnyKept(WithoutLinks(xs), ProjectQualifies) <==> AnyKept(xs, ProjectQualifies)
    decreases |xs|
  {
    if xs != [] {
      assert WithoutLinks(xs)[1..] == WithoutLinks(xs[1..]);
      ProjectEntriesIgnoreLinks(xs[1..], wrap);
      assert ProjectEntry(WithoutLinks(xs)[0], wrap) == ProjectEntry(xs[0], wrap);
    }
    if AnyKept(xs, ProjectQualifies) {
      var i :| 0 <= i < |xs| && ProjectQualifies(xs[i]);
      assert ProjectQualifies(WithoutLinks(xs)[i]);
    }
  }

  lemma ExportIgnoresProjectLinks(form: ResumeForm, wrap: Wrap)
    ensures Export(form.(projects := WithoutLinks(form.projects)), wrap) == Export(form, wrap)
  {
    ProjectEntriesIgnoreLinks(form.projects, wrap);
    assert ProjectsPart(WithoutLinks(form.projects), wrap) == ProjectsPart(form.projects, wrap);
    assert Program(form.(projects := WithoutLinks(form.projects)), wrap) == Program(form, wrap);
  }

  lemma PreviewShowsProjectLink(q: Project)
    ensures Block(LinkKind, q.link) in PreviewProject(q) <==> q.link != ""
  {
  }

  /** The preview hands the whole summary to the browser as one paragraph; the
      PDF draws the wrapped lines. */
  lemma SummaryWrappingDiffers(form: ResumeForm, wrap: Wrap)
    requires form.personalInfo.summary != ""
    ensures var p := form.personalInfo;
      var n := if HasLinks(p) then 3 else 2;
      && |Preview(form)| > n + 1
      && Preview(form)[n + 1] == Block(BodyKind, p.summary)
      && |Export(form, wrap).emissions| > n + 1
      && Export(form, wrap).emissions[n + 1].text == wrap(p.summary, TextWidth)
  {
    var p := form.personalInfo;
    var n := if HasLinks(p) then 3 else 2;
    PreviewStartsWith(form);
    assert (PreviewHeader(p) + PreviewSummary(p))[n + 1] == Block(BodyKind, p.summary);
    ExportStartsWith(form, wrap);
    SummaryRun(p, wrap);
  }

  lemma ExportStartsWith(form: ResumeForm, wrap: Wrap)
    ensures Run(Header(form.personalInfo) + SummaryPart(form.personalInfo, wrap), Cursor(0, Top)).emissions
         <= Export(form, wrap).emissions
  {
    var p := form.personalInfo;
    var a := Header(p);
    var b := SummaryPart(p, wrap);
    var c := ExperiencePart(form.experience, wrap);
    var d := EducationPart(form.education);
    var e := SkillsPart(form.skills, wrap);
    var f := ProjectsPart(form.projects, wrap);
    var g := CertificationsPart(form.certifications);
    var start := Cursor(0, Top);
    RunPrefix(a + b, c, start);
    RunPrefix(a + b + c, d, start);
    RunPrefix(a + b + c + d, e, start);
    RunPrefix(a + b + c + d + e, f, start);
    RunPrefix(a + b + c + d + e + f, g, start);
    assert Program(form, wrap) == a + b + c + d + e + f + g;
  }

  lemma SummaryRun(p: PersonalInfo, wrap: Wrap)
    requires p.summary != ""
    ensures var n := if HasLinks(p) then 3 else 2;
      var es := Run(Header(p) + SummaryPart(p, wrap), Cursor(0, Top)).emissions;
      |es| == n + 2 && es[n + 1].text == wrap(p.summary, TextWidth)
  {
    var lines := wrap(p.summary, TextWidth);
    var g := Gap(5);
    var r1 := Row(None, [Line(Margin, "PROFESSIONAL SUMMARY", HeadingStyle)], LineHeight);
    var r2 := Row(None, [Cell(Margin, lines, BodyStyle)], |lines| * LineHeight + 5);
    assert SummaryPart(p, wrap) == [g] + [r1] + [r2];
    HeaderRun(p);
    var c0 := Run(Header(p), Cursor(0, Top)).cursor;
    RunAppend(Header(p), [g] + [r1] + [r2], Cursor(0, Top));
    RunOne(g, c0);
    var c1 := Exec(g, c0).cursor;
    RunOne(r1, c1);
    var c2 := Exec(r1, c1).cursor;
    RunOne(r2, c2);
    RunAppend([g], [r1], c0);
    RunAppend([g] + [r1], [r2], c0);
  }
}
