/** The `Category` and `Job` models: their choices, defaults and computed properties. */
module JobModels {
  import opened Base
  import opened Text

  /** `Job.JOB_TYPE_CHOICES`. */
  datatype JobType = FullTime | PartTime | Contract | Freelance | Internship

  /** `Job.EXPERIENCE_CHOICES`. */
  datatype ExperienceLevel = EntryLevel | MidLevel | SeniorLevel | Executive

  /** `Job.STATUS_CHOICES`. */
  datatype JobStatus = Draft | Active | Paused | Closed | Expired

  /** The choices of `remote_type`. */
  datatype RemoteType = FullyRemote | Hybrid | OnSite

  /** The choices of `salary_type`. */
  datatype SalaryType = Hourly | Monthly | Yearly

  /** A row of the `categories` table; `name` and `slug` are unique columns. */
  datatype Category = Category(
    name: string,
    slug: string,
    description: string,
    icon: string,
    isActive: bool,
    createdAt: Time,
    updatedAt: Time)

  /** A row of the `jobs` table. Salaries are whole numbers; the three foreign keys
      are ids, with `category` and `posted_by` nullable. */
  datatype Job = Job(
    title: string,
    slug: string,
    description: string,
    requirements: string,
    responsibilities: string,
    benefits: string,
    location: string,
    isRemote: bool,
    remoteType: RemoteType,
    jobType: JobType,
    experienceLevel: ExperienceLevel,
    salaryMin: Option<int>,
    salaryMax: Option<int>,
    salaryCurrency: string,
    salaryType: SalaryType,
    showSalary: bool,
    status: JobStatus,
    isActive: bool,
    isFeatured: bool,
    isUrgent: bool,
    applicationUrl: string,
    applicationEmail: string,
    acceptApplications: bool,
    skillsRequired: string,
    expiresAt: Option<Time>,
    createdAt: Time,
    updatedAt: Time,
    company: CompanyId,
    category: Option<CategoryId>,
    postedBy: Option<UserId>,
    viewsCount: nat,
    applicationsCount: nat)

  /** Field defaults of `Job`. */
  const DefaultRemoteType: RemoteType := OnSite
  const DefaultJobType: JobType := FullTime
  const DefaultExperienceLevel: ExperienceLevel := MidLevel
  const DefaultSalaryCurrency: string := "USD"
  const DefaultSalaryType: SalaryType := Yearly
  const DefaultJobStatus: JobStatus := Active

  /** `is_expired`: false without an expiry date, otherwise `now > expires_at` (strictly). */
  predicate IsExpired(j: Job, now: Time) {
    j.expiresAt.Some? && now > j.expiresAt.value
  }

  /** Once a job has expired it stays expired; a job without an expiry date never expires,
      and a job is not yet expired at the very instant of its expiry date. */
  lemma ExpiryIsPermanent(j: Job, now: Time, later: Time)
    requires now <= later
    ensures IsExpired(j, now) ==> IsExpired(j, later)
    ensures j.expiresAt.None? ==> !IsExpired(j, later)
    ensures j.expiresAt == Some(later) ==> !IsExpired(j, later)
  {
  }

  /** `skills_list`: empty for an empty `skills_required`, otherwise one stripped entry per
      comma-separated piece, in order. */
  function SkillsList(skills: string): (r: seq<string>)
    ensures skills == [] ==> r == []
    ensures skills != [] ==> |r| == Occurrences(skills, ',') + 1
    ensures forall k :: 0 <= k < |r| ==> ',' !in r[k] && Trimmed(r[k])
  {
    if skills == [] then []
    else
      var pieces := Split(skills, ',');
      seq(|pieces|, k requires 0 <= k < |pieces| => Strip(pieces[k]))
  }

  /** Each entry of `skills_list` is the stripped piece between the matching commas. */
  lemma SkillsListPieces(skills: string, k: nat)
    requires skills != [] && k < |Split(skills, ',')|
    ensures SkillsList(skills)[k] == Strip(Split(skills, ',')[k])
  {
  }

  /** A skills field written as a comma-separated list of trimmed, comma-free names reads
      back as that very list. */
  lemma SkillsListRoundTrip(names: seq<string>)
    requires |names| > 0 && Join(names, ',') != []
    requires forall k :: 0 <= k < |names| ==> ',' !in names[k] && Trimmed(names[k])
    ensures SkillsList(Join(names, ',')) == names
  {
    var s := Join(names, ',');
    SplitJoin(names, ',');
    var r := SkillsList(s);
    forall k | 0 <= k < |names| ensures r[k] == names[k] {
      SkillsListPieces(s, k);
      StripTrimmed(names[k]);
    }
  }

  /** `increment_views`: the view counter goes up by exactly one and nothing else changes. */
  function IncrementViews(j: Job): (r: Job)
    ensures r.viewsCount == j.viewsCount + 1
    ensures r.(viewsCount := j.viewsCount) == j
  {
    j.(viewsCount := j.viewsCount + 1)
  }

  /** The jobs of category `c` that count for `Category.job_count`: active ones, whatever
      their status. */
  function CategoryJobs(jobs: map<JobId, Job>, c: CategoryId): set<JobId> {
    set id | id in jobs && jobs[id].category == Some(c) && jobs[id].isActive
  }

  /** `Category.job_count`. */
  function CategoryJobCount(jobs: map<JobId, Job>, c: CategoryId): nat {
    |CategoryJobs(jobs, c)|
  }

  /** `job_count` looks only at `is_active`: changing a job's status alone never changes it. */
  lemma CategoryJobCountIgnoresStatus(jobs: map<JobId, Job>, id: JobId, s: JobStatus, c: CategoryId)
    requires id in jobs
    ensures CategoryJobCount(jobs[id := jobs[id].(status := s)], c) == CategoryJobCount(jobs, c)
  {
    assert CategoryJobs(jobs[id := jobs[id].(status := s)], c) == CategoryJobs(jobs, c);
  }
}
