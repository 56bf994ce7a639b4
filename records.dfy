/**
 * The dictionaries that flow between the parts of the job application
 * assistant: parsed profiles with their skills and experience entries, raw
 * job postings from the job search API and normalised jobs.
 *
 * A scalar dictionary entry is a `Slot`: the key may be missing, present
 * with `None`, or present with a value.  `d.get(k)` cannot tell the first
 * two apart; `d.get(k, default)` can.  List-valued entries are plain
 * sequences, a missing list being the empty one.
 */
module Records {
  import opened Wrappers
  import Seqs

  datatype Slot<+T> = Absent | Null | Given(value: T) {

    /** `d.get(k)` */
    function Get(): (r: Option<T>)
      ensures r.Some? <==> this.Given?
    {
      match this
      case Given(v) => Some(v)
      case _ => None
    }

    /** `d.get(k, default)`: only a missing key yields the default. */
    function GetOr(default: T): (r: Option<T>)
      ensures this.Absent? ==> r == Some(default)
      ensures this.Null? ==> r == None
      ensures this.Given? ==> r == Some(this.value)
    {
      match this
      case Absent => Some(default)
      case Null => None
      case Given(v) => Some(v)
    }
  }

  /** Python truthiness of an optional string: present and non-empty. */
  predicate Truthy(s: Option<string>)
  {
    s.Some? && s.value != ""
  }

  /** Python truthiness of an optional number: present and non-zero. */
  predicate NonZero(n: Option<int>)
  {
    n.Some? && n.value != 0
  }

  /** One entry of a profile's `skills` list. */
  datatype SkillData = SkillData(
    name: Slot<string>,
    category: Slot<string>,
    level: Slot<string>,
    years: Slot<real>,
    context: Slot<string>)

  /** The truthy `name` of each skill entry, in profile order. */
  function SkillNames(skills: seq<SkillData>): (names: seq<string>)
    ensures |names| <= |skills|
    ensures forall x :: x in names <==> x != "" && exists k | 0 <= k < |skills| :: skills[k].name == Given(x)
    decreases |skills|
  {
    if skills == [] then []
    else
      var p := skills[..|skills| - 1];
      var s := skills[|skills| - 1];
      assert forall k | 0 <= k < |p| :: p[k] == skills[k];
      if s.name.Given? && s.name.value != "" then SkillNames(p) + [s.name.value] else SkillNames(p)
  }

  /** Whether a skill entry has a truthy `name`. */
  predicate HasName(s: SkillData)
  {
    s.name.Given? && s.name.value != ""
  }

  /** The text of a skill entry's `name`, empty when it has none. */
  function NameText(s: SkillData): string
  {
    if s.name.Given? then s.name.value else ""
  }

  /** The names are those of the entries with a truthy name, in profile order. */
  lemma {:induction false} SkillNamesInOrder(skills: seq<SkillData>)
    ensures SkillNames(skills) == Seqs.Map(NameText, Seqs.Filter(skills, HasName))
    decreases |skills|
  {
    if skills != [] {
      var p := skills[..|skills| - 1];
      var s := skills[|skills| - 1];
      SkillNamesInOrder(p);
      assert skills == p + [s];
      Seqs.FilterSnoc(p, s, HasName);
      if HasName(s) {
        Seqs.MapSnoc(NameText, Seqs.Filter(p, HasName), s);
      }
    }
  }

  /** One entry of a profile's `experience` list. */
  datatype ExperienceData = ExperienceData(
    title: Slot<string>,
    company: Slot<string>,
    industry: Slot<string>,
    startDate: Slot<string>,
    endDate: Slot<string>,
    responsibilities: seq<string>,
    accomplishments: seq<string>,
    skillsUsed: seq<string>)

  /** A structured profile, as produced by the resume parser or read back from the database. */
  datatype ProfileData = ProfileData(
    name: Slot<string>,
    email: Slot<string>,
    phone: Slot<string>,
    location: Slot<string>,
    summary: Slot<string>,
    linkedinUrl: Slot<string>,
    portfolioUrl: Slot<string>,
    skills: seq<SkillData>,
    experience: seq<ExperienceData>)

  /** `job_highlights["Qualifications"]`: a list, or some other non-list JSON value (with its truthiness). */
  datatype Qualifications = QualList(items: seq<string>) | QualOther(truthy: bool)

  /** The `job_highlights` object of a posting. */
  datatype Highlights = Highlights(qualifications: Slot<Qualifications>)

  /** The `job_required_experience` object of a posting. */
  datatype RequiredExperience = RequiredExperience(months: Slot<real>)

  /** A raw posting from the job search API, restricted to the keys the normaliser reads. */
  datatype RawJob = RawJob(
    jobId: Slot<string>,
    jobTitle: Slot<string>,
    employerName: Slot<string>,
    jobCity: Slot<string>,
    jobState: Slot<string>,
    jobCountry: Slot<string>,
    jobLocation: Slot<string>,
    jobIsRemote: Slot<bool>,
    jobDescription: Slot<string>,
    jobRequiredSkills: Slot<seq<string>>,
    jobHighlights: Slot<Highlights>,
    jobRequiredExperience: Slot<RequiredExperience>,
    jobMinSalary: Slot<int>,
    jobMaxSalary: Slot<int>,
    jobApplyLink: Slot<string>,
    jobGoogleLink: Slot<string>,
    jobPublisher: Slot<string>,
    jobPostedAt: Slot<string>)

  /** A job in the application's own schema (the output of the normaliser, the input of the job table). */
  datatype JobData = JobData(
    externalId: Option<string>,
    title: Option<string>,
    company: Option<string>,
    location: Option<string>,
    remote: bool,
    description: Option<string>,
    requirements: seq<string>,
    salaryMin: Option<int>,
    salaryMax: Option<int>,
    applyUrl: Option<string>,
    source: Option<string>,
    postedDate: Option<string>)
}
