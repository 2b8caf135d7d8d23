/** The `Company` model: size choices, the `founded_year` bounds and `job_count`. */
module CompanyModels {
  import opened Base
  import opened JobModels

  /** `Company.SIZE_CHOICES`, plus the blank value the column allows. */
  datatype CompanySize =
    | Unspecified
    | Employees1To10
    | Employees11To50
    | Employees51To200
    | Employees201To500
    | Employees501To1000
    | Employees1000Plus

  function SizeCode(z: CompanySize): string {
    match z
    case Unspecified => ""
    case Employees1To10 => "1-10"
    case Employees11To50 => "11-50"
    case Employees51To200 => "51-200"
    case Employees201To500 => "201-500"
    case Employees501To1000 => "501-1000"
    case Employees1000Plus => "1000+"
  }

  /** The choices check on `size`: blank or one of the six codes. */
  function ParseSize(code: string): (r: Option<CompanySize>)
    ensures r.Some? ==> SizeCode(r.value) == code
  {
    if code == "" then Some(Unspecified)
    else if code == "1-10" then Some(Employees1To10)
    else if code == "11-50" then Some(Employees11To50)
    else if code == "51-200" then Some(Employees51To200)
    else if code == "201-500" then Some(Employees201To500)
    else if code == "501-1000" then Some(Employees501To1000)
    else if code == "1000+" then Some(Employees1000Plus)
    else None
  }

  lemma SizeCodeRoundTrip(z: CompanySize)
    ensures ParseSize(SizeCode(z)) == Some(z)
  {
  }

  /** A row of the `companies` table; `slug` is a unique column. */
  datatype Company = Company(
    name: string,
    slug: string,
    description: string,
    website: string,
    logoUrl: string,
    location: string,
    size: CompanySize,
    foundedYear: Option<int>,
    industry: string,
    isVerified: bool,
    email: string,
    phone: string,
    linkedinUrl: string,
    twitterUrl: string,
    facebookUrl: string,
    createdAt: Time,
    updatedAt: Time)

  const MinFoundedYear: int := 1800

  /** The validators on `founded_year`: null, or between 1800 and the year in which the
      module was loaded (`loadYear`; the bound is computed once, at import time). */
  predicate FoundedYearValid(y: Option<int>, loadYear: int) {
    y.None? || MinFoundedYear <= y.value <= loadYear
  }

  /** All jobs of company `c`. */
  function CompanyJobs(jobs: map<JobId, Job>, c: CompanyId): set<JobId> {
    set id | id in jobs && jobs[id].company == c
  }

  /** The jobs of company `c` that `job_count` and the `active_job_count` annotation count. */
  function ActiveJobs(jobs: map<JobId, Job>, c: CompanyId): set<JobId> {
    set id | id in jobs && jobs[id].company == c && jobs[id].isActive
  }

  /** `Company.job_count`, and the `active_job_count` annotation of the company views. */
  function ActiveJobCount(jobs: map<JobId, Job>, c: CompanyId): nat {
    |ActiveJobs(jobs, c)|
  }

  /** The count is at most the number of the company's jobs, and reaches it exactly when
      every job of the company is active. */
  lemma ActiveJobCountBounds(jobs: map<JobId, Job>, c: CompanyId)
    ensures ActiveJobCount(jobs, c) <= |CompanyJobs(jobs, c)|
    ensures ActiveJobCount(jobs, c) == |CompanyJobs(jobs, c)|
            <==> forall id :: id in CompanyJobs(jobs, c) ==> jobs[id].isActive
  {
    var all, active := CompanyJobs(jobs, c), ActiveJobs(jobs, c);
    SubsetCard(active, all);
    if forall id :: id in all ==> jobs[id].isActive {
      assert active == all;
    } else {
      var id :| id in all && !jobs[id].isActive;
      SubsetCard(active, all - {id});
    }
  }
}
