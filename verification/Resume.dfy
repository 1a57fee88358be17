/** The resume builder's form record (frontend/src/ResumeBuilder.jsx) and the
    three edits the form performs on it: `updateField`, `addSection` and
    `removeSection`. */
module Resume {
  import opened Outcomes
  import Lists

  datatype PersonalInfo = PersonalInfo(
    fullName: string, email: string, phone: string, location: string,
    linkedin: string, portfolio: string, summary: string)

  datatype Experience = Experience(
    company: string, position: string, location: string, startDate: string,
    endDate: string, current: bool, responsibilities: string)

  datatype Education = Education(
    institution: string, degree: string, field: string, location: string,
    graduationDate: string, gpa: string)

  datatype Skills = Skills(technical: string, soft: string, languages: string, tools: string)

  datatype Project = Project(name: string, technologies: string, description: string, link: string)

  datatype Certification = Certification(name: string, issuer: string, date: string)

  datatype ResumeForm = ResumeForm(
    personalInfo: PersonalInfo,
    experience: seq<Experience>,
    education: seq<Education>,
    skills: Skills,
    projects: seq<Project>,
    certifications: seq<Certification>)

  /** The blank templates `addSection` appends. */
  const BlankExperience := Experience("", "", "", "", "", false, "")
  const BlankEducation := Education("", "", "", "", "", "")
  const BlankProject := Project("", "", "", "")
  const BlankCertification := Certification("", "", "")

  /** The state the builder starts in: one blank entry per repeatable section. */
  const InitialForm := ResumeForm(
    PersonalInfo("", "", "", "", "", "", ""),
    [BlankExperience], [BlankEducation], Skills("", "", "", ""),
    [BlankProject], [BlankCertification])

  /** The entries whose key field is filled in are the ones the export and the
      preview render. */
  predicate ExperienceQualifies(e: Experience) { e.company != "" }
  predicate EducationQualifies(e: Education) { e.institution != "" }
  predicate ProjectQualifies(p: Project) { p.name != "" }
  predicate CertificationQualifies(c: Certification) { c.name != "" }

  /** The repeatable sections. */
  datatype Section = ExperienceSection | EducationSection | ProjectsSection | CertificationsSection

  /** Every editable field of the form, addressed the way `updateField`
      addresses it: a section, an entry index for repeatable sections, and a
      field name. */
  datatype PersonalField = FullName | Email | Phone | PersonalLocation | LinkedIn | Portfolio | Summary
  datatype SkillField = Technical | Soft | Languages | Tools
  datatype ExperienceField = Company | Position | ExperienceLocation | StartDate | EndDate | Current | Responsibilities
  datatype EducationField = Institution | Degree | StudyField | EducationLocation | GraduationDate | Gpa
  datatype ProjectField = ProjectName | Technologies | Description | Link
  datatype CertificationField = CertificationName | Issuer | CertificationDate

  datatype FieldRef =
    | PersonalRef(pf: PersonalField)
    | SkillRef(sf: SkillField)
    | ExperienceRef(ei: nat, ef: ExperienceField)
    | EducationRef(di: nat, df: EducationField)
    | ProjectRef(pi: nat, prf: ProjectField)
    | CertificationRef(ci: nat, cf: CertificationField)

  /** A field holds text, except the experience "currently working here" box. */
  datatype Value = Text(s: string) | Checked(b: bool)

  predicate IsFlag(r: FieldRef) { r.ExperienceRef? && r.ef == Current }

  /** The value kind the form's inputs pass for a field. */
  predicate Fits(r: FieldRef, v: Value) { IsFlag(r) <==> v.Checked? }

  function GetPersonal(p: PersonalInfo, f: PersonalField): string {
    match f
    case FullName => p.fullName
    case Email => p.email
    case Phone => p.phone
    case PersonalLocation => p.location
    case LinkedIn => p.linkedin
    case Portfolio => p.portfolio
    case Summary => p.summary
  }

  function SetPersonal(p: PersonalInfo, f: PersonalField, v: string): PersonalInfo {
    match f
    case FullName => p.(fullName := v)
    case Email => p.(email := v)
    case Phone => p.(phone := v)
    case PersonalLocation => p.(location := v)
    case LinkedIn => p.(linkedin := v)
    case Portfolio => p.(portfolio := v)
    case Summary => p.(summary := v)
  }

  function GetSkill(s: Skills, f: SkillField): string {
    match f
    case Technical => s.technical
    case Soft => s.soft
    case Languages => s.languages
    case Tools => s.tools
  }

  function SetSkill(s: Skills, f: SkillField, v: string): Skills {
    match f
    case Technical => s.(technical := v)
    case Soft => s.(soft := v)
    case Languages => s.(languages := v)
    case Tools => s.(tools := v)
  }

  function GetExperience(e: Experience, f: ExperienceField): Value {
    match f
    case Company => Text(e.company)
    case Position => Text(e.position)
    case ExperienceLocation => Text(e.location)
    case StartDate => Text(e.startDate)
    case EndDate => Text(e.endDate)
    case Current => Checked(e.current)
    case Responsibilities => Text(e.responsibilities)
  }

  function SetExperience(e: Experience, f: ExperienceField, v: Value): Experience
    requires (f == Current) <==> v.Checked?
  {
    match f
    case Company => e.(company := v.s)
    case Position => e.(position := v.s)
    case ExperienceLocation => e.(location := v.s)
    case StartDate => e.(startDate := v.s)
    case EndDate => e.(endDate := v.s)
    case Current => e.(current := v.b)
    case Responsibilities => e.(responsibilities := v.s)
  }

  function GetEducation(e: Education, f: EducationField): string {
    match f
    case Institution => e.institution
    case Degree => e.degree
    case StudyField => e.field
    case EducationLocation => e.location
    case GraduationDate => e.graduationDate
    case Gpa => e.gpa
  }

  function SetEducation(e: Education, f: EducationField, v: string): Education {
    match f
    case Institution => e.(institution := v)
    case Degree => e.(degree := v)
    case StudyField => e.(field := v)
    case EducationLocation => e.(location := v)
    case GraduationDate => e.(graduationDate := v)
    case Gpa => e.(gpa := v)
  }

  function GetProject(p: Project, f: ProjectField): string {
    match f
    case ProjectName => p.name
    case Technologies => p.technologies
    case Description => p.description
    case Link => p.link
  }

  function SetProject(p: Project, f: ProjectField, v: string): Project {
    match f
    case ProjectName => p.(name := v)
    case Technologies => p.(technologies := v)
    case Description => p.(description := v)
    case Link => p.(link := v)
  }

  function GetCertification(c: Certification, f: CertificationField): string {
    match f
    case CertificationName => c.name
    case Issuer => c.issuer
    case CertificationDate => c.date
  }

  function SetCertification(c: Certification, f: CertificationField, v: string): Certification {
    match f
    case CertificationName => c.(name := v)
    case Issuer => c.(issuer := v)
    case CertificationDate => c.(date := v)
  }

  /** The value a field currently holds; `None` for an entry index past the
      end of its section. */
  function Get(form: ResumeForm, r: FieldRef): Option<Value> {
    match r
    case PersonalRef(f) => Some(Text(GetPersonal(form.personalInfo, f)))
    case SkillRef(f) => Some(Text(GetSkill(form.skills, f)))
    case ExperienceRef(i, f) =>
      if i < |form.experience| then Some(GetExperience(form.experience[i], f)) else None
    case EducationRef(i, f) =>
      if i < |form.education| then Some(Text(GetEducation(form.education[i], f))) else None
    case ProjectRef(i, f) =>
      if i < |form.projects| then Some(Text(GetProject(form.projects[i], f))) else None
    case CertificationRef(i, f) =>
      if i < |form.certifications| then Some(Text(GetCertification(form.certifications[i], f))) else None
  }

  /** The number of entries in each repeatable section. */
  function Shape(form: ResumeForm): (nat, nat, nat, nat) {
    (|form.experience|, |form.education|, |form.projects|, |form.certifications|)
  }

  /** `updateField(section, index, field, value)`. The form only ever edits an
      entry it is displaying, so the index is in range (ResumeBuilder.jsx throws on
      `updated[index][field]` otherwise). */
  function UpdateField(form: ResumeForm, r: FieldRef, v: Value): (result: ResumeForm)
    requires Fits(r, v) && Get(form, r).Some?
    ensures Get(result, r) == Some(v)
    ensures forall q :: q != r ==> Get(result, q) == Get(form, q)
    ensures Shape(result) == Shape(form)
  {
    match r
    case PersonalRef(f) => form.(personalInfo := SetPersonal(form.personalInfo, f, v.s))
    case SkillRef(f) => form.(skills := SetSkill(form.skills, f, v.s))
    case ExperienceRef(i, f) =>
      form.(experience := form.experience[i := SetExperience(form.experience[i], f, v)])
    case EducationRef(i, f) =>
      form.(education := form.education[i := SetEducation(form.education[i], f, v.s)])
    case ProjectRef(i, f) =>
      form.(projects := form.projects[i := SetProject(form.projects[i], f, v.s)])
    case CertificationRef(i, f) =>
      form.(certifications := form.certifications[i := SetCertification(form.certifications[i], f, v.s)])
  }

  /** `addSection(section)`: append that section's blank template. */
  function AddSection(form: ResumeForm, s: Section): (result: ResumeForm)
    ensures result.personalInfo == form.personalInfo && result.skills == form.skills
    ensures result.experience == if s == ExperienceSection then form.experience + [BlankExperience] else form.experience
    ensures result.education == if s == EducationSection then form.education + [BlankEducation] else form.education
    ensures result.projects == if s == ProjectsSection then form.projects + [BlankProject] else form.projects
    ensures result.certifications == if s == CertificationsSection then form.certifications + [BlankCertification] else form.certifications
  {
    match s
    case ExperienceSection => form.(experience := form.experience + [BlankExperience])
    case EducationSection => form.(education := form.education + [BlankEducation])
    case ProjectsSection => form.(projects := form.projects + [BlankProject])
    case CertificationsSection => form.(certifications := form.certifications + [BlankCertification])
  }

  /** `removeSection(section, index)`: drop entry `index` of that section and
      keep everything else. */
  function RemoveSection(form: ResumeForm, s: Section, index: int): (result: ResumeForm)
    ensures result.personalInfo == form.personalInfo && result.skills == form.skills
    ensures result.experience == if s == ExperienceSection then Lists.RemoveAt(form.experience, index) else form.experience
    ensures result.education == if s == EducationSection then Lists.RemoveAt(form.education, index) else form.education
    ensures result.projects == if s == ProjectsSection then Lists.RemoveAt(form.projects, index) else form.projects
    ensures result.certifications == if s == CertificationsSection then Lists.RemoveAt(form.certifications, index) else form.certifications
  {
    match s
    case ExperienceSection => form.(experience := Lists.RemoveAt(form.experience, index))
    case EducationSection => form.(education := Lists.RemoveAt(form.education, index))
    case ProjectsSection => form.(projects := Lists.RemoveAt(form.projects, index))
    case CertificationsSection => form.(certifications := Lists.RemoveAt(form.certifications, index))
  }

  function SectionLength(form: ResumeForm, s: Section): nat {
    match s
    case ExperienceSection => |form.experience|
    case EducationSection => |form.education|
    case ProjectsSection => |form.projects|
    case CertificationsSection => |form.certifications|
  }

  /** Adding an entry and removing the last one gives back the form. */
  lemma AddThenRemoveLast(form: ResumeForm, s: Section)
    ensures RemoveSection(AddSection(form, s), s, SectionLength(form, s)) == form
  {
  }

  /** The "Remove" button is rendered only while a section has more than one
      entry, so a section edited through the form never becomes empty. */
  predicate RemoveOffered(form: ResumeForm, s: Section) {
    SectionLength(form, s) > 1
  }

  lemma RemoveKeepsSectionNonEmpty(form: ResumeForm, s: Section, index: nat)
    requires RemoveOffered(form, s) && index < SectionLength(form, s)
    ensures SectionLength(RemoveSection(form, s, index), s) == SectionLength(form, s) - 1 >= 1
  {
  }
}
