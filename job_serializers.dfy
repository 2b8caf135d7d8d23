/** `JobCreateUpdateSerializer` and `CategoryCreateUpdateSerializer`: which request bodies
    are valid, the row a create produces, and what an update writes, including the slug
    that is re-derived from the title (or the name). */
module JobSerializers {
  import opened Base
  import opened Text
  import opened JobModels

  /** The writable fields of `JobCreateUpdateSerializer`, each absent (`None`) or sent, as
      the request carries them: the text fields before the serializer strips them. The
      nullable columns carry a nested option: `Some(None)` sends `null`. `slug`, `is_active`,
      `posted_by`, the counters and the timestamps are not writable. */
  datatype JobInput = JobInput(
    title: Option<string>,
    description: Option<string>,
    requirements: Option<string>,
    responsibilities: Option<string>,
    benefits: Option<string>,
    company: Option<CompanyId>,
    category: Option<Option<CategoryId>>,
    location: Option<string>,
    isRemote: Option<bool>,
    remoteType: Option<RemoteType>,
    jobType: Option<JobType>,
    experienceLevel: Option<ExperienceLevel>,
    salaryMin: Option<Option<int>>,
    salaryMax: Option<Option<int>>,
    salaryCurrency: Option<string>,
    salaryType: Option<SalaryType>,
    showSalary: Option<bool>,
    status: Option<JobStatus>,
    isFeatured: Option<bool>,
    isUrgent: Option<bool>,
    applicationUrl: Option<string>,
    applicationEmail: Option<string>,
    acceptApplications: Option<bool>,
    skillsRequired: Option<string>,
    expiresAt: Option<Option<Time>>)

  /** A body that sends nothing. */
  const EmptyJobInput: JobInput := JobInput(None, None, None, None, None, None, None, None, None, None, None, None,
                                            None, None, None, None, None, None, None, None, None, None, None, None, None)

  /** `is_valid`: a full write (`partial` false: create and `PUT`) must send `title`,
      `description` and `company`, the columns without a default; `title`, `description`
      and a sent `salary_currency` (the text columns without `blank=True`) may not be blank
      once stripped (every text field is a `CharField` that trims
      surrounding whitespace before its validators run); the company and a non-null
      category must exist. */
  predicate JobInputValid(p: JobInput, partial: bool, companies: set<CompanyId>, categories: set<CategoryId>) {
    && (!partial ==> p.title.Some? && p.description.Some? && p.company.Some?)
    && (p.title.Some? ==> Strip(p.title.value) != [])
    && (p.description.Some? ==> Strip(p.description.value) != [])
    && (p.salaryCurrency.Some? ==> Strip(p.salaryCurrency.value) != [])
    && (p.company.Some? ==> p.company.value in companies)
    && (p.category.Some? && p.category.value.Some? ==> p.category.value.value in categories)
  }

  /** A partial write is valid whenever the full one is, and the empty body is a valid
      partial write. */
  lemma PartialIsWeaker(p: JobInput, companies: set<CompanyId>, categories: set<CategoryId>)
    ensures JobInputValid(p, false, companies, categories) ==> JobInputValid(p, true, companies, categories)
    ensures JobInputValid(EmptyJobInput, true, companies, categories)
    ensures !JobInputValid(EmptyJobInput, false, companies, categories)
  {
  }

  /** A title made only of whitespace strips to the blank string and is refused, on a
      full write and on a partial one. */
  lemma BlankTitleRefused(p: JobInput, partial: bool, companies: set<CompanyId>, categories: set<CategoryId>)
    requires p.title.Some? && AllSpace(p.title.value)
    ensures !JobInputValid(p, partial, companies, categories)
  {
    StripAllSpace(p.title.value);
  }

  /** A currency made only of whitespace strips to the blank string and is refused, on a
      full write and on a partial one; an absent currency takes the default `USD`. */
  lemma BlankCurrencyRefused(p: JobInput, partial: bool, companies: set<CompanyId>, categories: set<CategoryId>)
    requires p.salaryCurrency.Some? && AllSpace(p.salaryCurrency.value)
    ensures !JobInputValid(p, partial, companies, categories)
  {
    StripAllSpace(p.salaryCurrency.value);
  }

  /** `create` and `save` of a new job: the sent fields as the serializer cleaned them
      (text stripped), the model defaults for the rest, the slug derived from the stored
      title and the requesting user as poster. */
  function CreateJobRecord(p: JobInput, slugify: Slugify, caller: UserId, now: Time): (r: Job)
    requires p.title.Some? && p.company.Some?
    ensures r.title == Strip(p.title.value) && r.slug == slugify(r.title)
    ensures p.description.Some? ==> r.description == Strip(p.description.value)
    ensures r.postedBy == Some(caller) && r.company == p.company.value
    ensures r.viewsCount == 0 && r.applicationsCount == 0
    ensures r.isActive && r.createdAt == now && r.updatedAt == now
  {
    var title := Strip(p.title.value);
    Job(title, slugify(title), StripSent(p.description).GetOr(""),
        StripSent(p.requirements).GetOr(""), StripSent(p.responsibilities).GetOr(""), StripSent(p.benefits).GetOr(""),
        StripSent(p.location).GetOr(""), p.isRemote.GetOr(false), p.remoteType.GetOr(DefaultRemoteType),
        p.jobType.GetOr(DefaultJobType), p.experienceLevel.GetOr(DefaultExperienceLevel),
        p.salaryMin.GetOr(None), p.salaryMax.GetOr(None), StripSent(p.salaryCurrency).GetOr(DefaultSalaryCurrency),
        p.salaryType.GetOr(DefaultSalaryType), p.showSalary.GetOr(true), p.status.GetOr(DefaultJobStatus),
        true, p.isFeatured.GetOr(false), p.isUrgent.GetOr(false),
        StripSent(p.applicationUrl).GetOr(""), StripSent(p.applicationEmail).GetOr(""), p.acceptApplications.GetOr(true),
        StripSent(p.skillsRequired).GetOr(""), p.expiresAt.GetOr(None), now, now,
        p.company.value, p.category.GetOr(None), Some(caller), 0, 0)
  }

  /** `update` and `save` of an existing job: every sent field is written as the serializer
      cleaned it (text stripped), the slug is re-derived when a title is sent, and `auto_now`
      stamps `updated_at`. */
  function PatchJob(j: Job, p: JobInput, slugify: Slugify, now: Time): (r: Job)
    ensures p.title.Some? ==> r.title == Strip(p.title.value) && r.slug == slugify(r.title)
    ensures p.title.None? ==> r.slug == j.slug && r.title == j.title
    ensures p.description.Some? ==> r.description == Strip(p.description.value)
    ensures r.updatedAt == now
  {
    var title := StripSent(p.title);
    Job(title.GetOr(j.title),
        if title.Some? then slugify(title.value) else j.slug,
        StripSent(p.description).GetOr(j.description),
        StripSent(p.requirements).GetOr(j.requirements),
        StripSent(p.responsibilities).GetOr(j.responsibilities),
        StripSent(p.benefits).GetOr(j.benefits),
        StripSent(p.location).GetOr(j.location),
        p.isRemote.GetOr(j.isRemote),
        p.remoteType.GetOr(j.remoteType),
        p.jobType.GetOr(j.jobType),
        p.experienceLevel.GetOr(j.experienceLevel),
        p.salaryMin.GetOr(j.salaryMin),
        p.salaryMax.GetOr(j.salaryMax),
        StripSent(p.salaryCurrency).GetOr(j.salaryCurrency),
        p.salaryType.GetOr(j.salaryType),
        p.showSalary.GetOr(j.showSalary),
        p.status.GetOr(j.status),
        j.isActive,
        p.isFeatured.GetOr(j.isFeatured),
        p.isUrgent.GetOr(j.isUrgent),
        StripSent(p.applicationUrl).GetOr(j.applicationUrl),
        StripSent(p.applicationEmail).GetOr(j.applicationEmail),
        p.acceptApplications.GetOr(j.acceptApplications),
        StripSent(p.skillsRequired).GetOr(j.skillsRequired),
        p.expiresAt.GetOr(j.expiresAt),
        j.createdAt,
        now,
        p.company.GetOr(j.company),
        p.category.GetOr(j.category),
        j.postedBy,
        j.viewsCount,
        j.applicationsCount)
  }

  /** A valid body never stores a blank currency: a create stores the sent currency or
      `USD`, and an update keeps a non-blank currency non-blank. */
  lemma ValidBodyKeepsCurrency(p: JobInput, partial: bool, companies: set<CompanyId>, categories: set<CategoryId>,
                               j: Job, slugify: Slugify, caller: UserId, now: Time)
    requires JobInputValid(p, partial, companies, categories)
    ensures p.title.Some? && p.company.Some? ==> CreateJobRecord(p, slugify, caller, now).salaryCurrency != []
    ensures j.salaryCurrency != [] ==> PatchJob(j, p, slugify, now).salaryCurrency != []
  {
  }

  /** The columns no request body can reach. */
  predicate SameProtectedFields(j: Job, j': Job) {
    && j.postedBy == j'.postedBy && j.isActive == j'.isActive
    && j.viewsCount == j'.viewsCount && j.applicationsCount == j'.applicationsCount
    && j.createdAt == j'.createdAt
  }

  /** An update never changes the poster, `is_active`, the counters or `created_at`; a body
      that sends nothing changes only `updated_at`. */
  lemma PatchJobKeepsProtectedFields(j: Job, p: JobInput, slugify: Slugify, now: Time)
    ensures SameProtectedFields(j, PatchJob(j, p, slugify, now))
    ensures PatchJob(j, EmptyJobInput, slugify, now) == j.(updatedAt := now)
  {
  }

  /** Sending the same update twice has the effect of sending it once. */
  lemma PatchJobIdempotent(j: Job, p: JobInput, slugify: Slugify, now: Time, later: Time)
    ensures PatchJob(PatchJob(j, p, slugify, now), p, slugify, later) == PatchJob(j, p, slugify, later)
  {
    var once := PatchJob(j, p, slugify, now);
    assert once.slug == (if p.title.Some? then slugify(Strip(p.title.value)) else j.slug);
  }

  /** The model instance a create starts from: every column at its default, owned by the
      caller, stamped `now`. */
  function DefaultJob(company: CompanyId, caller: UserId, now: Time): Job {
    Job("", "", "", "", "", "", "", false, DefaultRemoteType, DefaultJobType, DefaultExperienceLevel,
        None, None, DefaultSalaryCurrency, DefaultSalaryType, true, DefaultJobStatus, true, false, false,
        "", "", true, "", None, now, now, company, None, Some(caller), 0, 0)
  }

  /** Create and update agree field by field: creating from a body is updating the default
      instance with that body. */
  lemma CreateIsPatchOfDefaults(p: JobInput, slugify: Slugify, caller: UserId, now: Time)
    requires p.title.Some? && p.company.Some?
    ensures CreateJobRecord(p, slugify, caller, now) == PatchJob(DefaultJob(p.company.value, caller, now), p, slugify, now)
  {
  }

  /** The writable fields of `CategoryCreateUpdateSerializer`, as the request carries them. */
  datatype CategoryInput = CategoryInput(name: Option<string>, description: Option<string>,
                                         icon: Option<string>, isActive: Option<bool>)

  /** `is_valid`: a full write must send a name; a sent name, once stripped, may not be
      blank nor be the name of another category (the `UniqueValidator` of the unique `name`
      column, which runs on the stripped value and leaves out the instance being updated). */
  predicate CategoryInputValid(p: CategoryInput, partial: bool, categories: map<CategoryId, Category>,
                               self: Option<CategoryId>) {
    && (!partial ==> p.name.Some?)
    && (p.name.Some? ==> Strip(p.name.value) != [])
    && (p.name.Some? ==> !(exists k :: k in categories && Some(k) != self && categories[k].name == Strip(p.name.value)))
  }

  /** `create` of a category: the stripped name is stored and the slug derived from it; it
      starts active unless the body says otherwise. */
  function CreateCategoryRecord(p: CategoryInput, slugify: Slugify, now: Time): (r: Category)
    requires p.name.Some?
    ensures r.name == Strip(p.name.value) && r.slug == slugify(r.name)
    ensures r.isActive == p.isActive.GetOr(true)
    ensures r.createdAt == now && r.updatedAt == now
  {
    var name := Strip(p.name.value);
    Category(name, slugify(name), StripSent(p.description).GetOr(""), StripSent(p.icon).GetOr(""),
             p.isActive.GetOr(true), now, now)
  }

  /** `update` of a category: a sent name is stored stripped and the slug follows it. */
  function PatchCategory(c: Category, p: CategoryInput, slugify: Slugify, now: Time): (r: Category)
    ensures p.name.Some? ==> r.name == Strip(p.name.value) && r.slug == slugify(r.name)
    ensures p.name.None? ==> r.name == c.name && r.slug == c.slug
    ensures r.createdAt == c.createdAt && r.updatedAt == now
  {
    var name := StripSent(p.name);
    c.(name := name.GetOr(c.name),
       slug := if name.Some? then slugify(name.value) else c.slug,
       description := StripSent(p.description).GetOr(c.description),
       icon := StripSent(p.icon).GetOr(c.icon),
       isActive := p.isActive.GetOr(c.isActive),
       updatedAt := now)
  }

  /** Creating a category is updating a blank, active one; updating twice with the same
      body is updating once. */
  lemma CategoryCreateAndPatchAgree(p: CategoryInput, c: Category, slugify: Slugify, now: Time, later: Time)
    requires p.name.Some?
    ensures CreateCategoryRecord(p, slugify, now) == PatchCategory(Category("", "", "", "", true, now, now), p, slugify, now)
    ensures PatchCategory(PatchCategory(c, p, slugify, now), p, slugify, later) == PatchCategory(c, p, slugify, later)
  {
  }

  /** A valid new name is not taken by any other category, so it never collides with the
      unique `name` column. */
  lemma ValidCategoryNameIsFree(p: CategoryInput, partial: bool, categories: map<CategoryId, Category>,
                                self: Option<CategoryId>, k: CategoryId)
    requires CategoryInputValid(p, partial, categories, self) && p.name.Some?
    requires k in categories && Some(k) != self
    ensures categories[k].name != Strip(p.name.value)
  {
  }

  /** The unique-name check sees the stripped name: `" Tech"` is refused beside an
      existing `"Tech"`, on a create and on an update of any other category. */
  lemma PaddedDuplicateNameRefused(partial: bool, categories: map<CategoryId, Category>, self: Option<CategoryId>,
                                   k: CategoryId)
    requires k in categories && Some(k) != self && categories[k].name == "Tech"
    ensures !CategoryInputValid(CategoryInput(Some(" Tech"), None, None, None), partial, categories, self)
  {
    assert " Tech" == " " + "Tech" + "";
    StripExact(" ", "Tech", "");
  }
}
