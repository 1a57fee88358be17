/** What the resume export promises about its output: the header it always
    draws, the section headings it draws and in which order, its
    indifference to entries whose key field is blank, and its failure to
    break the page inside the unchecked certification list. */
module ExportFacts {
  import opened Outcomes
  import opened Text
  import opened Resume
  import opened ResumeFormat
  import opened Layout
  import opened ResumeExport
  import opened Lists

  // ---------------------------------------------------------------------
  // Header

  /** The document always opens with the title (the name, or "Your Name")
      at the top margin of the first page and the contact line 10 below it,
      even when the contact line is empty; the links line follows 7 below
      when a LinkedIn or portfolio address is filled in. The header leaves
      the cursor at 37, or at 44 with a links line. */
  lemma ExportHeader(form: ResumeForm, wrap: Wrap)
    ensures var p := form.personalInfo;
      var es := Export(form, wrap).emissions;
      && |es| >= 2
      && es[0] == Emission(0, 20, Margin, [Title(p)], TitleStyle, None)
      && es[1] == Emission(0, 30, Margin, [ContactLine(p)], BodyStyle, None)
      && (HasLinks(p) ==> |es| >= 3 && es[2] == Emission(0, 37, Margin, [LinksLine(p)], BodyStyle, None))
      && Run(Header(p), Cursor(0, Top)).cursor == Cursor(0, if HasLinks(p) then 44 else 37)
  {
    var p := form.personalInfo;
    var a := Header(p);
    var b := SummaryPart(p, wrap);
    var c := ExperiencePart(form.experience, wrap);
    var d := EducationPart(form.education);
    var e := SkillsPart(form.skills, wrap);
    var f := ProjectsPart(form.projects, wrap);
    var g := CertificationsPart(form.certifications);
    var start := Cursor(0, Top);
    RunPrefix(a, b, start);
    RunPrefix(a + b, c, start);
    RunPrefix(a + b + c, d, start);
    RunPrefix(a + b + c + d, e, start);
    RunPrefix(a + b + c + d + e, f, start);
    RunPrefix(a + b + c + d + e + f, g, start);
    assert Program(form, wrap) == a + b + c + d + e + f + g;
    HeaderRun(p);
  }

  lemma HeaderRun(p: PersonalInfo)
    ensures var t := Run(Header(p), Cursor(0, Top));
      && |t.emissions| == (if HasLinks(p) then 3 else 2)
      && t.emissions[0] == Emission(0, 20, Margin, [Title(p)], TitleStyle, None)
      && t.emissions[1] == Emission(0, 30, Margin, [ContactLine(p)], BodyStyle, None)
      && (HasLinks(p) ==> t.emissions[2] == Emission(0, 37, Margin, [LinksLine(p)], BodyStyle, None))
      && t.cursor == Cursor(0, if HasLinks(p) then 44 else 37)
  {
    var r1 := Row(None, [Line(Margin, Title(p), TitleStyle)], TitleAdvance);
    var r2 := Row(None, [Line(Margin, ContactLine(p), BodyStyle)], LineHeight);
    var r3 := Row(None, [Line(Margin, LinksLine(p), BodyStyle)], LineHeight);
    RunOne(r1, Cursor(0, 20));
    RunOne(r2, Cursor(0, 30));
    RunOne(r3, Cursor(0, 37));
    RunAppend([r1], [r2], Cursor(0, 20));
    if HasLinks(p) {
      assert Header(p) == [r1] + [r2] + [r3];
      RunAppend([r1] + [r2], [r3], Cursor(0, 20));
    } else {
      assert Header(p) == [r1] + [r2];
    }
  }

  // ---------------------------------------------------------------------
  // Section headings

  /** The text of the runs drawn in the heading font, in order. */
  function Headings(cells: seq<Cell>): seq<string>
    decreases |cells|
  {
    if cells == [] then []
    else (if cells[0].style == HeadingStyle then cells[0].text else []) + Headings(cells[1..])
  }

  /** The sections the resume has content for, in the order the export
      lists them. */
  function SectionTitles(form: ResumeForm): seq<string> {
    Titled(form.personalInfo.summary != "", "PROFESSIONAL SUMMARY")
    + Titled(exists e :: e in form.experience && e.company != "", "EXPERIENCE")
    + Titled(exists e :: e in form.education && e.institution != "", "EDUCATION")
    + Titled(HasSkills(form.skills), "SKILLS")
    + Titled(exists q :: q in form.projects && q.name != "", "PROJECTS")
    + Titled(exists c :: c in form.certifications && c.name != "", "CERTIFICATIONS")
  }

  function Titled(present: bool, title: string): seq<string> {
    if present then [title] else []
  }

  lemma {:induction false} HeadingsAppend(a: seq<Cell>, b: seq<Cell>)
    ensures Headings(a + b) == Headings(a) + Headings(b)
    decreases |a|
  {
    if a == [] {
      assert a + b == b;
    } else {
      assert (a + b)[0] == a[0];
      assert (a + b)[1..] == a[1..] + b;
      HeadingsAppend(a[1..], b);
    }
  }

  lemma {:induction false} PlainHasNoHeadings(steps: seq<Step>)
    requires Plain(steps)
    ensures Headings(CellsOf(steps)) == []
    decreases |steps|
  {
    if steps != [] {
      var first := if steps[0].Row? then steps[0].cells else [];
      assert Headings(first) == [] by {
        PlainCellsHaveNoHeadings(first);
      }
      assert Plain(steps[1..]) by {
        forall i, k | 0 <= i < |steps[1..]| && steps[1..][i].Row? && 0 <= k < |steps[1..][i].cells|
          ensures steps[1..][i].cells[k].style != HeadingStyle
        {
          assert steps[1..][i] == steps[i + 1];
        }
      }
      PlainHasNoHeadings(steps[1..]);
      HeadingsAppend(first, CellsOf(steps[1..]));
    }
  }

  lemma {:induction false} PlainCellsHaveNoHeadings(cells: seq<Cell>)
    requires forall k :: 0 <= k < |cells| ==> cells[k].style != HeadingStyle
    ensures Headings(cells) == []
    decreases |cells|
  {
    if cells != [] {
      PlainCellsHaveNoHeadings(cells[1..]);
    }
  }

  lemma SectionHeadings<T>(title: string, xs: seq<T>, keep: T -> bool, body: T -> seq<Step>)
    requires forall i :: 0 <= i < |xs| ==> Sound(body(xs[i]))
    ensures Headings(CellsOf(SectionBlock(title, xs, keep, body))) == Titled(AnyKept(xs, keep), title)
  {
    if AnyKept(xs, keep) {
      var entries := ForEachKept(xs, keep, body);
      ForEachKeptSound(xs, keep, body);
      PlainHasNoHeadings(entries);
      CellsOfAppend([Heading(title)], entries);
      CellsOfOne(Heading(title));
      HeadingsAppend([Line(Margin, title, HeadingStyle)], CellsOf(entries));
    }
  }

  lemma HeaderHeadings(p: PersonalInfo, wrap: Wrap)
    ensures Headings(CellsOf(Header(p))) == []
    ensures Headings(CellsOf(SummaryPart(p, wrap))) == Titled(p.summary != "", "PROFESSIONAL SUMMARY")
  {
    assert Plain(Header(p));
    PlainHasNoHeadings(Header(p));
    if p.summary != "" {
      var lines := wrap(p.summary, TextWidth);
      var g := Gap(5);
      var r1 := Row(None, [Line(Margin, "PROFESSIONAL SUMMARY", HeadingStyle)], LineHeight);
      var r2 := Row(None, [Cell(Margin, lines, BodyStyle)], |lines| * LineHeight + 5);
      assert SummaryPart(p, wrap) == [g] + [r1] + [r2];
      CellsOfOne(g);
      CellsOfOne(r1);
      CellsOfOne(r2);
      CellsOfAppend([g], [r1]);
      CellsOfAppend([g] + [r1], [r2]);
      var c1 := Line(Margin, "PROFESSIONAL SUMMARY", HeadingStyle);
      var c2 := Cell(Margin, lines, BodyStyle);
      assert CellsOf(SummaryPart(p, wrap)) == [c1] + [c2];
      HeadingsAppend([c1], [c2]);
      assert [c1][1..] == [] && [c2][1..] == [];
    }
  }

  lemma SkillsHeadings(s: Skills, wrap: Wrap)
    ensures Headings(CellsOf(SkillsPart(s, wrap))) == Titled(HasSkills(s), "SKILLS")
  {
    if HasSkills(s) {
      var rows := SkillRows(SkillLines(s), wrap);
      SkillRowsSound(SkillLines(s), wrap);
      PlainHasNoHeadings(rows);
      CellsOfAppend([Heading("SKILLS")], rows);
      CellsOfOne(Heading("SKILLS"));
      HeadingsAppend([Line(Margin, "SKILLS", HeadingStyle)], CellsOf(rows));
    }
  }

  lemma EntryHeadings(form: ResumeForm, wrap: Wrap)
    ensures Headings(CellsOf(ExperiencePart(form.experience, wrap)))
      == Titled(exists e :: e in form.experience && e.company != "", "EXPERIENCE")
    ensures Headings(CellsOf(EducationPart(form.education)))
      == Titled(exists e :: e in form.education && e.institution != "", "EDUCATION")
    ensures Headings(CellsOf(ProjectsPart(form.projects, wrap)))
      == Titled(exists q :: q in form.projects && q.name != "", "PROJECTS")
    ensures Headings(CellsOf(CertificationsPart(form.certifications)))
      == Titled(exists c :: c in form.certifications && c.name != "", "CERTIFICATIONS")
  {
    forall e | e in form.experience ensures Sound(ExperienceEntry(e, wrap)) {
      ExperienceEntrySound(e, wrap);
    }
    forall q | q in form.projects ensures Sound(ProjectEntry(q, wrap)) {
      ProjectEntrySound(q, wrap);
    }
    SectionHeadings("EXPERIENCE", form.experience, ExperienceQualifies, e => ExperienceEntry(e, wrap));
    SectionHeadings("EDUCATION", form.education, EducationQualifies, EducationEntry);
    SectionHeadings("PROJECTS", form.projects, ProjectQualifies, q => ProjectEntry(q, wrap));
    SectionHeadings("CERTIFICATIONS", form.certifications, CertificationQualifies, CertificationEntry);
  }

  lemma HeadingsOfAppend(a: seq<Step>, b: seq<Step>)
    ensures Headings(CellsOf(a + b)) == Headings(CellsOf(a)) + Headings(CellsOf(b))
  {
    CellsOfAppend(a, b);
    HeadingsAppend(CellsOf(a), CellsOf(b));
  }

  lemma ProgramHeadings(form: ResumeForm, wrap: Wrap)
    ensures Headings(CellsOf(Program(form, wrap)))
      == Headings(CellsOf(SummaryPart(form.personalInfo, wrap)))
       + Headings(CellsOf(ExperiencePart(form.experience, wrap)))
       + Headings(CellsOf(EducationPart(form.education)))
       + Headings(CellsOf(SkillsPart(form.skills, wrap)))
       + Headings(CellsOf(ProjectsPart(form.projects, wrap)))
       + Headings(CellsOf(CertificationsPart(form.certifications)))
  {
    var a := Header(form.personalInfo);
    var b := SummaryPart(form.personalInfo, wrap);
    var c := ExperiencePart(form.experience, wrap);
    var d := EducationPart(form.education);
    var e := SkillsPart(form.skills, wrap);
    var f := ProjectsPart(form.projects, wrap);
    var g := CertificationsPart(form.certifications);
    HeaderHeadings(form.personalInfo, wrap);
    HeadingsOfAppend(a, b);
    assert Headings(CellsOf(a + b)) == Headings(CellsOf(b));
    HeadingsOfAppend(a + b, c);
    HeadingsOfAppend(a + b + c, d);
    HeadingsOfAppend(a + b + c + d, e);
    HeadingsOfAppend(a + b + c + d + e, f);
    HeadingsOfAppend(a + b + c + d + e + f, g);
  }

  /** The export draws exactly one heading per section the resume has content
      for, in the fixed order Summary, Experience, Education, Skills,
      Projects, Certifications, and no heading for a section without
      content. */
  lemma ExportHeadings(form: ResumeForm, wrap: Wrap)
    ensures Headings(Contents(Export(form, wrap).emissions)) == SectionTitles(form)
  {
    var prog := Program(form, wrap);
    RunDrawsCells(prog, Cursor(0, Top));
    assert Contents(Export(form, wrap).emissions) == CellsOf(prog);
    ProgramHeadings(form, wrap);
    HeaderHeadings(form.personalInfo, wrap);
    SkillsHeadings(form.skills, wrap);
    EntryHeadings(form, wrap);

  }

  // ---------------------------------------------------------------------
  // Entries with a blank key field

  /** The form with every entry whose key field is blank removed. */
  function Compact(form: ResumeForm): ResumeForm {
    form.(experience := Kept(form.experience, ExperienceQualifies),
          education := Kept(form.education, EducationQualifies),
          projects := Kept(form.projects, ProjectQualifies),
          certifications := Kept(form.certifications, CertificationQualifies))
  }

  lemma SectionIgnoresDropped<T>(title: string, xs: seq<T>, keep: T -> bool, body: T -> seq<Step>)
    ensures SectionBlock(title, Kept(xs, keep), keep, body) == SectionBlock(title, xs, keep, body)
  {
    ForEachKeptIgnoresDropped(xs, keep, body);
  }

  /** Entries whose company, institution or name is blank leave no trace in
      the PDF: removing all of them gives the same document. */
  lemma ExportIgnoresBlankEntries(form: ResumeForm, wrap: Wrap)
    ensures Export(Compact(form), wrap) == Export(form, wrap)
  {
    SectionIgnoresDropped("EXPERIENCE", form.experience, ExperienceQualifies, e => ExperienceEntry(e, wrap));
    SectionIgnoresDropped("EDUCATION", form.education, EducationQualifies, EducationEntry);
    SectionIgnoresDropped("PROJECTS", form.projects, ProjectQualifies, q => ProjectEntry(q, wrap));
    SectionIgnoresDropped("CERTIFICATIONS", form.certifications, CertificationQualifies, CertificationEntry);
    assert Program(Compact(form), wrap) == Program(form, wrap);
  }

  /** "Add Experience" (or Education, Project, Certification) appends a
      blank entry, which changes nothing in the PDF. */
  lemma AddSectionKeepsExport(form: ResumeForm, s: Section, wrap: Wrap)
    ensures Export(AddSection(form, s), wrap) == Export(form, wrap)
  {
    KeptAppendDropped(form.experience, BlankExperience, ExperienceQualifies);
    KeptAppendDropped(form.education, BlankEducation, EducationQualifies);
    KeptAppendDropped(form.projects, BlankProject, ProjectQualifies);
    KeptAppendDropped(form.certifications, BlankCertification, CertificationQualifies);
    assert Compact(AddSection(form, s)) == Compact(form);
    ExportIgnoresBlankEntries(AddSection(form, s), wrap);
    ExportIgnoresBlankEntries(form, wrap);
  }

  // ---------------------------------------------------------------------
  // The unchecked certification list

  /** A resume with certifications and nothing else: no links, no summary,
      no experience, education, skills or projects to show, and every
      certification named. */
  predicate OnlyCertifications(form: ResumeForm) {
    && !HasLinks(form.personalInfo)
    && form.personalInfo.summary == ""
    && (forall i :: 0 <= i < |form.experience| ==> form.experience[i].company == "")
    && (forall i :: 0 <= i < |form.education| ==> form.education[i].institution == "")
    && !HasSkills(form.skills)
    && (forall i :: 0 <= i < |form.projects| ==> form.projects[i].name == "")
    && |form.certifications| > 0
    && (forall i :: 0 <= i < |form.certifications| ==> form.certifications[i].name != "")
  }

  function CertificationRow(c: Certification): Step {
    Row(None, [Line(Margin, CertificationLine(c), BodyStyle)], LineHeight)
  }

  lemma {:induction false} ForEachKeptAllCertifications(xs: seq<Certification>)
    requires forall i :: 0 <= i < |xs| ==> xs[i].name != ""
    ensures ForEachKept(xs, CertificationQualifies, CertificationEntry)
      == seq(|xs|, k requires 0 <= k < |xs| => CertificationRow(xs[k]))
    decreases |xs|
  {
    if xs != [] {
      ForEachKeptAllCertifications(xs[1..]);
    }
  }

  /** Certification lines are never checked against a limit, so a long list
      keeps going down the first page: the k-th certification is drawn at
      44 + 7k on page one, and with 38 or more certifications the last lines
      fall below the bottom edge of the 297 mm page. */
  lemma CertificationsRunOffThePage(form: ResumeForm, wrap: Wrap)
    requires OnlyCertifications(form)
    ensures var es := Export(form, wrap).emissions;
      var cs := form.certifications;
      && |es| == 3 + |cs|
      && (forall k :: 0 <= k < |cs| ==>
            es[3 + k] == Emission(0, 44 + 7 * k, Margin, [CertificationLine(cs[k])], BodyStyle, None))
      && (|cs| >= 38 ==> es[40].page == 0 && es[40].y > PageHeight)
  {
    var cs := form.certifications;
    var rows := seq(|cs|, k requires 0 <= k < |cs| => CertificationRow(cs[k]));
    var head := Header(form.personalInfo) + [Heading("CERTIFICATIONS")];
    OnlyCertificationsProgram(form, wrap);
    CertificationsHeadRun(form.personalInfo);
    RunAppend(head, rows, Cursor(0, Top));
    RunUnguardedLines(rows, Cursor(0, 44), LineHeight);
  }

  /** With only certifications to show, the program is the header, the
      section heading and one row per certification. */
  lemma OnlyCertificationsProgram(form: ResumeForm, wrap: Wrap)
    requires OnlyCertifications(form)
    ensures var cs := form.certifications;
      Program(form, wrap) == Header(form.personalInfo) + [Heading("CERTIFICATIONS")]
        + seq(|cs|, k requires 0 <= k < |cs| => CertificationRow(cs[k]))
  {
    var cs := form.certifications;
    ForEachKeptAllCertifications(cs);
    assert AnyKept(cs, CertificationQualifies) by {
      assert CertificationQualifies(cs[0]);
    }
  }

  /** Without links, the header and one heading end at 44 on page one. */
  lemma CertificationsHeadRun(p: PersonalInfo)
    requires !HasLinks(p)
    ensures var t := Run(Header(p) + [Heading("CERTIFICATIONS")], Cursor(0, Top));
      |t.emissions| == 3 && t.cursor == Cursor(0, 44)
  {
    HeaderRun(p);
    RunOne(Heading("CERTIFICATIONS"), Cursor(0, 37));
    RunAppend(Header(p), [Heading("CERTIFICATIONS")], Cursor(0, Top));
  }
}
