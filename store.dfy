/** The database behind the ORM: one table per model, keyed by auto-incremented ids,
    with the constraints the schema declares (unique columns, foreign keys,
    `unique_together`) and the `applications_count` bookkeeping of the model hooks.
    Cascading deletes follow the `on_delete` rules of the foreign keys. */
module Store {
  import opened Base
  import opened AuthModels
  import opened CompanyModels
  import opened JobModels
  import opened ApplicationModels

  /** `User.email` is `unique=True`. */
  predicate EmailsUnique(users: map<UserId, User>) {
    forall a, b {:trigger users[a].email, users[b].email} :: a in users && b in users && users[a].email == users[b].email ==> a == b
  }

  /** `Company.slug` is `unique=True`. */
  predicate CompanySlugsUnique(companies: map<CompanyId, Company>) {
    forall a, b {:trigger companies[a].slug, companies[b].slug} :: a in companies && b in companies && companies[a].slug == companies[b].slug ==> a == b
  }

  /** `Category.name` and `Category.slug` are both `unique=True`. */
  predicate CategoriesUnique(categories: map<CategoryId, Category>) {
    && (forall a, b {:trigger categories[a].name, categories[b].name} :: a in categories && b in categories && categories[a].name == categories[b].name ==> a == b)
    && (forall a, b {:trigger categories[a].slug, categories[b].slug} :: a in categories && b in categories && categories[a].slug == categories[b].slug ==> a == b)
  }

  /** `Job.slug` is `unique=True`. */
  predicate JobSlugsUnique(jobs: map<JobId, Job>) {
    forall a, b {:trigger jobs[a].slug, jobs[b].slug} :: a in jobs && b in jobs && jobs[a].slug == jobs[b].slug ==> a == b
  }

  predicate EmailTaken(users: map<UserId, User>, email: string) {
    exists id :: id in users && users[id].email == email
  }

  predicate CompanySlugTaken(companies: map<CompanyId, Company>, slug: string) {
    exists id :: id in companies && companies[id].slug == slug
  }

  predicate CategoryNameTaken(categories: map<CategoryId, Category>, name: string) {
    exists id :: id in categories && categories[id].name == name
  }

  predicate CategorySlugTaken(categories: map<CategoryId, Category>, slug: string) {
    exists id :: id in categories && categories[id].slug == slug
  }

  predicate JobSlugTaken(jobs: map<JobId, Job>, slug: string) {
    exists id :: id in jobs && jobs[id].slug == slug
  }

  /** The foreign keys of one job point at existing rows. */
  predicate JobRefsOk(j: Job, companies: map<CompanyId, Company>, categories: map<CategoryId, Category>,
                      users: map<UserId, User>) {
    && j.company in companies
    && (j.category.Some? ==> j.category.value in categories)
    && (j.postedBy.Some? ==> j.postedBy.value in users)
  }

  predicate JobRefsValid(jobs: map<JobId, Job>, companies: map<CompanyId, Company>,
                         categories: map<CategoryId, Category>, users: map<UserId, User>) {
    forall id :: id in jobs ==> JobRefsOk(jobs[id], companies, categories, users)
  }

  predicate AppRefsValid(apps: map<ApplicationId, Application>, jobs: map<JobId, Job>, users: map<UserId, User>) {
    forall id :: id in apps ==> apps[id].job in jobs && apps[id].applicant in users
  }

  /** `on_delete=CASCADE` from `Application.job`: deleting a job deletes its applications.
      The other jobs keep their applications, so their counters stay right. */
  function DeleteJobCascade(jobs: map<JobId, Job>, apps: map<ApplicationId, Application>, id: JobId)
    : (r: (map<JobId, Job>, map<ApplicationId, Application>))
    ensures r.0.Keys == jobs.Keys - {id}
    ensures forall k :: k in r.0 ==> r.0[k] == jobs[k]
    ensures r.1.Keys == apps.Keys - ApplicationsOf(apps, id)
    ensures forall a :: a in r.1 ==> r.1[a] == apps[a] && r.1[a].job != id
  {
    (jobs - {id}, map a | a in apps && apps[a].job != id :: apps[a])
  }

  lemma DeleteJobKeepsCounters(jobs: map<JobId, Job>, apps: map<ApplicationId, Application>, id: JobId)
    requires CountersConsistent(jobs, apps)
    ensures var (jobs', apps') := DeleteJobCascade(jobs, apps, id); CountersConsistent(jobs', apps')
  {
    var (jobs', apps') := DeleteJobCascade(jobs, apps, id);
    forall j | j in jobs' ensures jobs'[j].applicationsCount == ApplicationCount(apps', j) {
      assert ApplicationsOf(apps', j) == ApplicationsOf(apps, j);
    }
  }

  /** `on_delete=CASCADE` from `Job.company` and then from `Application.job`: deleting a
      company deletes its jobs and their applications. */
  function DeleteCompanyCascade(jobs: map<JobId, Job>, apps: map<ApplicationId, Application>, c: CompanyId)
    : (r: (map<JobId, Job>, map<ApplicationId, Application>))
    ensures r.0.Keys == jobs.Keys - CompanyJobs(jobs, c)
    ensures forall k :: k in r.0 ==> r.0[k] == jobs[k] && r.0[k].company != c
    ensures forall a :: a in r.1 <==> a in apps && apps[a].job !in CompanyJobs(jobs, c)
    ensures forall a :: a in r.1 ==> r.1[a] == apps[a]
  {
    (map k | k in jobs && jobs[k].company != c :: jobs[k],
     map a | a in apps && !(apps[a].job in jobs && jobs[apps[a].job].company == c) :: apps[a])
  }

  lemma DeleteCompanyKeepsCounters(jobs: map<JobId, Job>, apps: map<ApplicationId, Application>, c: CompanyId)
    requires CountersConsistent(jobs, apps)
    ensures var (jobs', apps') := DeleteCompanyCascade(jobs, apps, c); CountersConsistent(jobs', apps')
  {
    var (jobs', apps') := DeleteCompanyCascade(jobs, apps, c);
    forall j | j in jobs' ensures jobs'[j].applicationsCount == ApplicationCount(apps', j) {
      assert ApplicationsOf(apps', j) == ApplicationsOf(apps, j);
    }
  }

  /** Deleting a user AS THE CODE DOES IT: `Application.applicant` cascades and
      `Job.posted_by` is set to null. The cascade deletes the applications in bulk, which
      does not run `Application.delete`, so no job is recounted. */
  function DeleteUserAsWritten(jobs: map<JobId, Job>, apps: map<ApplicationId, Application>, u: UserId)
    : (r: (map<JobId, Job>, map<ApplicationId, Application>))
    ensures r.0.Keys == jobs.Keys && r.1.Keys <= apps.Keys
    ensures forall a :: a in r.1 <==> a in apps && apps[a].applicant != u
    ensures forall k :: k in jobs ==> r.0[k] == jobs[k].(postedBy := if jobs[k].postedBy == Some(u) then None else jobs[k].postedBy)
  {
    (map k | k in jobs :: ClearPoster(jobs[k], u),
     map a | a in apps && apps[a].applicant != u :: apps[a])
  }

  /** `on_delete=SET_NULL` on `Job.posted_by`. */
  function ClearPoster(j: Job, u: UserId): Job {
    if j.postedBy == Some(u) then j.(postedBy := None) else j
  }

  /** The counterexample: one job, one applicant, one application. The counter is right
      before the user is deleted and stale (still 1, with no application left) after. */
  lemma DeleteUserLeavesStaleCounter(j: Job, a: Application)
    requires j.applicationsCount == 1 && j.postedBy == None && a.job == 0 && a.applicant == 7
    ensures CountersConsistent(map[0 := j], map[0 := a])
    ensures var (jobs', apps') := DeleteUserAsWritten(map[0 := j], map[0 := a], 7);
            !CountersConsistent(jobs', apps') && jobs'[0].applicationsCount == 1 && ApplicationCount(apps', 0) == 0
  {
    assert ApplicationsOf(map[0 := a], 0) == {0};
    var (jobs', apps') := DeleteUserAsWritten(map[0 := j], map[0 := a], 7);
    assert apps' == map[];
    assert ApplicationsOf(apps', 0) == {};
  }

  /** Deleting a user with the counter kept in sync, as the `Application.delete` hook
      intends: besides the cascade and `SET_NULL`, every job is recounted. */
  function DeleteUserRecounting(jobs: map<JobId, Job>, apps: map<ApplicationId, Application>, u: UserId)
    : (r: (map<JobId, Job>, map<ApplicationId, Application>))
    ensures r.0.Keys == jobs.Keys
    ensures forall a :: a in r.1 <==> a in apps && apps[a].applicant != u
    ensures forall a :: a in r.1 ==> r.1[a] == apps[a]
    ensures forall k :: k in jobs ==>
      r.0[k] == ClearPoster(jobs[k], u).(applicationsCount := ApplicationCount(r.1, k))
  {
    var apps' := map a | a in apps && apps[a].applicant != u :: apps[a];
    (map k | k in jobs :: ClearPoster(jobs[k], u).(applicationsCount := ApplicationCount(apps', k)), apps')
  }

  /** After the recount, every counter is right. */
  lemma DeleteUserRecountingCounts(jobs: map<JobId, Job>, apps: map<ApplicationId, Application>, u: UserId)
    ensures var (jobs', apps') := DeleteUserRecounting(jobs, apps, u); CountersConsistent(jobs', apps')
  {
  }

  /** With the recount, deleting a user lowers a job's counter by the number of the user's
      applications to that job (at most one), and leaves the other counters as they were. */
  lemma DeleteUserLowersCounters(jobs: map<JobId, Job>, apps: map<ApplicationId, Application>,
                                 u: UserId, k: JobId)
    requires CountersConsistent(jobs, apps) && k in jobs
    ensures DeleteUserRecounting(jobs, apps, u).0[k].applicationsCount + |PairApplications(apps, k, u)|
              == jobs[k].applicationsCount
  {
    var apps' := DeleteUserRecounting(jobs, apps, u).1;
    ApplicantRemovalSplits(apps, apps', k, u);
  }

  /** Removing one applicant's rows splits each job's applications into those that remain
      and the applicant's own. */
  lemma ApplicantRemovalSplits(apps: map<ApplicationId, Application>, apps': map<ApplicationId, Application>,
                               k: JobId, u: UserId)
    requires forall a :: a in apps' <==> a in apps && apps[a].applicant != u
    requires forall a :: a in apps' ==> apps'[a] == apps[a]
    ensures ApplicationCount(apps, k) == ApplicationCount(apps', k) + |PairApplications(apps, k, u)|
  {
    var mine := PairApplications(apps, k, u);
    assert ApplicationsOf(apps, k) == ApplicationsOf(apps', k) + mine;
    assert ApplicationsOf(apps', k) * mine == {};
  }

  /** A snapshot of every table and id counter of the database. */
  datatype Tables = Tables(
    users: map<UserId, User>,
    companies: map<CompanyId, Company>,
    categories: map<CategoryId, Category>,
    jobs: map<JobId, Job>,
    applications: map<ApplicationId, Application>,
    nextUserId: nat,
    nextCompanyId: nat,
    nextCategoryId: nat,
    nextJobId: nat,
    nextApplicationId: nat)

  /** The schema's constraints and the counter invariant. */
  predicate Consistent(t: Tables) {
    && KeysBelow(t.users, t.nextUserId)
    && KeysBelow(t.companies, t.nextCompanyId)
    && KeysBelow(t.categories, t.nextCategoryId)
    && KeysBelow(t.jobs, t.nextJobId)
    && KeysBelow(t.applications, t.nextApplicationId)
    && EmailsUnique(t.users)
    && CompanySlugsUnique(t.companies)
    && CategoriesUnique(t.categories)
    && JobSlugsUnique(t.jobs)
    && JobRefsValid(t.jobs, t.companies, t.categories, t.users)
    && AppRefsValid(t.applications, t.jobs, t.users)
    && UniquePairs(t.applications)
    && CountersConsistent(t.jobs, t.applications)
  }

  /** Two versions of a job that agree on every column a constraint looks at: the unique
      slug and the three foreign keys. */
  predicate SameConstrained(j: Job, j': Job) {
    j.slug == j'.slug && j.company == j'.company && j.category == j'.category && j.postedBy == j'.postedBy
  }

  /** Rewriting jobs without touching their constrained columns keeps slugs unique and
      references valid. */
  lemma SameConstrainedKeepsJobs(jobs: map<JobId, Job>, jobs': map<JobId, Job>, companies: map<CompanyId, Company>,
                                 categories: map<CategoryId, Category>, users: map<UserId, User>)
    requires jobs'.Keys == jobs.Keys
    requires forall k :: k in jobs ==> SameConstrained(jobs[k], jobs'[k])
    requires JobSlugsUnique(jobs) && JobRefsValid(jobs, companies, categories, users)
    ensures JobSlugsUnique(jobs') && JobRefsValid(jobs', companies, categories, users)
  {
    forall a, b | a in jobs' && b in jobs' && jobs'[a].slug == jobs'[b].slug ensures a == b {
      assert SameConstrained(jobs[a], jobs'[a]) && SameConstrained(jobs[b], jobs'[b]);
    }
    forall k | k in jobs' ensures JobRefsOk(jobs'[k], companies, categories, users) {
      assert SameConstrained(jobs[k], jobs'[k]) && JobRefsOk(jobs[k], companies, categories, users);
    }
  }

  /** A recount touches only the counter. */
  lemma RecountSameConstrained(jobs: map<JobId, Job>, apps: map<ApplicationId, Application>, j: JobId)
    requires j in jobs
    ensures forall k :: k in jobs ==> SameConstrained(jobs[k], Recount(jobs, apps, j)[k])
  {
  }

  /** References stay valid when the referenced tables only grow. */
  lemma JobRefsWiden(jobs: map<JobId, Job>, companies: map<CompanyId, Company>, categories: map<CategoryId, Category>,
                     users: map<UserId, User>, companies': map<CompanyId, Company>,
                     categories': map<CategoryId, Category>, users': map<UserId, User>)
    requires JobRefsValid(jobs, companies, categories, users)
    requires companies.Keys <= companies'.Keys && categories.Keys <= categories'.Keys && users.Keys <= users'.Keys
    ensures JobRefsValid(jobs, companies', categories', users')
  {
    forall k | k in jobs ensures JobRefsOk(jobs[k], companies', categories', users') {
      assert JobRefsOk(jobs[k], companies, categories, users);
    }
  }

  /** A sub-table of applications keeps the pairs unique. */
  lemma SubApplicationsKeepPairs(apps: map<ApplicationId, Application>, apps': map<ApplicationId, Application>)
    requires UniquePairs(apps)
    requires forall a :: a in apps' ==> a in apps && apps'[a] == apps[a]
    ensures UniquePairs(apps')
  {
    forall a, b | a in apps' && b in apps' && apps'[a].job == apps'[b].job && apps'[a].applicant == apps'[b].applicant
      ensures a == b
    {
      assert apps'[a] == apps[a] && apps'[b] == apps[b];
    }
  }

  /** A new user with an unused email keeps the database consistent. */
  lemma InsertUserKeepsConsistent(t: Tables, u: User)
    requires Consistent(t) && !EmailTaken(t.users, u.email)
    ensures Consistent(t.(users := t.users[t.nextUserId := u], nextUserId := t.nextUserId + 1))
  {
    var users' := t.users[t.nextUserId := u];
    JobRefsWiden(t.jobs, t.companies, t.categories, t.users, t.companies, t.categories, users');
  }

  /** A job whose poster is cleared no longer refers to that user, and keeps its slug. */
  lemma ClearPosterRefs(j: Job, u: UserId, n: nat, companies: map<CompanyId, Company>,
                        categories: map<CategoryId, Category>, users: map<UserId, User>)
    requires JobRefsOk(j, companies, categories, users)
    ensures JobRefsOk(ClearPoster(j, u).(applicationsCount := n), companies, categories, users - {u})
    ensures ClearPoster(j, u).(applicationsCount := n).slug == j.slug
  {
    if j.postedBy == Some(u) {
      assert ClearPoster(j, u).(applicationsCount := n).postedBy == None;
    } else {
      assert ClearPoster(j, u) == j;
    }
  }

  /** Deleting a user with the recount keeps slugs unique and the jobs' references valid. */
  lemma DeleteUserKeepsJobs(jobs: map<JobId, Job>, apps: map<ApplicationId, Application>, u: UserId,
                            companies: map<CompanyId, Company>, categories: map<CategoryId, Category>,
                            users: map<UserId, User>)
    requires JobSlugsUnique(jobs) && JobRefsValid(jobs, companies, categories, users)
    ensures var jobs' := DeleteUserRecounting(jobs, apps, u).0;
            JobSlugsUnique(jobs') && JobRefsValid(jobs', companies, categories, users - {u})
  {
    var (jobs', apps') := DeleteUserRecounting(jobs, apps, u);
    forall k | k in jobs' ensures JobRefsOk(jobs'[k], companies, categories, users - {u}) && jobs'[k].slug == jobs[k].slug {
      ClearPosterRefs(jobs[k], u, ApplicationCount(apps', k), companies, categories, users);
    }
    forall a, b | a in jobs' && b in jobs' && jobs'[a].slug == jobs'[b].slug ensures a == b {
      assert jobs[a].slug == jobs[b].slug;
    }
  }

  /** Deleting a user with the recount keeps the applications' pairs unique and their
      references valid. */
  lemma DeleteUserKeepsApplications(jobs: map<JobId, Job>, apps: map<ApplicationId, Application>, u: UserId,
                                    users: map<UserId, User>)
    requires UniquePairs(apps) && AppRefsValid(apps, jobs, users)
    ensures var (jobs', apps') := DeleteUserRecounting(jobs, apps, u);
            UniquePairs(apps') && AppRefsValid(apps', jobs', users - {u})
  {
    var (jobs', apps') := DeleteUserRecounting(jobs, apps, u);
    SubApplicationsKeepPairs(apps, apps');
    DeleteUserKeepsAppRefs(jobs, apps, u, users);
  }

  lemma DeleteUserKeepsAppRefs(jobs: map<JobId, Job>, apps: map<ApplicationId, Application>, u: UserId,
                               users: map<UserId, User>)
    requires AppRefsValid(apps, jobs, users)
    ensures var (jobs', apps') := DeleteUserRecounting(jobs, apps, u);
            AppRefsValid(apps', jobs', users - {u})
  {
    var (jobs', apps') := DeleteUserRecounting(jobs, apps, u);
    forall a | a in apps' ensures apps'[a].job in jobs' && apps'[a].applicant in users - {u} {
      assert a in apps && apps[a].applicant != u;
      assert apps'[a] == apps[a] && apps[a].applicant in users;
    }
  }

  /** Deleting a user with the recount keeps the database consistent. */
  lemma DeleteUserKeepsConsistent(t: Tables, u: UserId)
    requires Consistent(t)
    ensures var (jobs', apps') := DeleteUserRecounting(t.jobs, t.applications, u);
            Consistent(t.(users := t.users - {u}, jobs := jobs', applications := apps'))
  {
    DeleteUserKeepsJobs(t.jobs, t.applications, u, t.companies, t.categories, t.users);
    DeleteUserKeepsApplications(t.jobs, t.applications, u, t.users);
    DeleteUserRecountingCounts(t.jobs, t.applications, u);
  }

  /** A new company with an unused slug keeps the database consistent. */
  lemma InsertCompanyKeepsConsistent(t: Tables, c: Company)
    requires Consistent(t) && !CompanySlugTaken(t.companies, c.slug)
    ensures Consistent(t.(companies := t.companies[t.nextCompanyId := c], nextCompanyId := t.nextCompanyId + 1))
  {
    var companies' := t.companies[t.nextCompanyId := c];
    JobRefsWiden(t.jobs, t.companies, t.categories, t.users, companies', t.categories, t.users);
  }

  /** Rewriting an existing company with a slug no other company has keeps the database
      consistent. */
  lemma SaveCompanyKeepsConsistent(t: Tables, id: CompanyId, c: Company)
    requires Consistent(t) && id in t.companies
    requires !(exists k :: k in t.companies && k != id && t.companies[k].slug == c.slug)
    ensures Consistent(t.(companies := t.companies[id := c]))
  {
    var companies' := t.companies[id := c];
    JobRefsWiden(t.jobs, t.companies, t.categories, t.users, companies', t.categories, t.users);
  }

  /** Deleting a company with its jobs and their applications keeps the database consistent. */
  lemma DeleteCompanyKeepsConsistent(t: Tables, id: CompanyId)
    requires Consistent(t)
    ensures var (jobs', apps') := DeleteCompanyCascade(t.jobs, t.applications, id);
            Consistent(t.(companies := t.companies - {id}, jobs := jobs', applications := apps'))
  {
    DeleteCompanyKeepsCounters(t.jobs, t.applications, id);
    DeleteCompanyKeepsRefs(t.jobs, t.applications, id, t.companies, t.categories, t.users);
    var (jobs', apps') := DeleteCompanyCascade(t.jobs, t.applications, id);
    SubApplicationsKeepPairs(t.applications, apps');
  }

  /** After the cascade no job points at the deleted company and no application at a
      deleted job. */
  lemma DeleteCompanyKeepsRefs(jobs: map<JobId, Job>, apps: map<ApplicationId, Application>, id: CompanyId,
                               companies: map<CompanyId, Company>, categories: map<CategoryId, Category>,
                               users: map<UserId, User>)
    requires JobRefsValid(jobs, companies, categories, users) && AppRefsValid(apps, jobs, users)
    ensures var (jobs', apps') := DeleteCompanyCascade(jobs, apps, id);
            JobRefsValid(jobs', companies - {id}, categories, users) && AppRefsValid(apps', jobs', users)
  {
    var (jobs', apps') := DeleteCompanyCascade(jobs, apps, id);
    forall k | k in jobs' ensures JobRefsOk(jobs'[k], companies - {id}, categories, users) {
      assert JobRefsOk(jobs[k], companies, categories, users);
    }
    forall a | a in apps' ensures apps'[a].job in jobs' && apps'[a].applicant in users {
      var j := apps[a].job;
      assert j in jobs && j !in CompanyJobs(jobs, id);
    }
  }

  /** A new category with an unused name and slug keeps the database consistent. */
  lemma InsertCategoryKeepsConsistent(t: Tables, c: Category)
    requires Consistent(t) && !CategoryNameTaken(t.categories, c.name) && !CategorySlugTaken(t.categories, c.slug)
    ensures Consistent(t.(categories := t.categories[t.nextCategoryId := c], nextCategoryId := t.nextCategoryId + 1))
  {
    var categories' := t.categories[t.nextCategoryId := c];
    JobRefsWiden(t.jobs, t.companies, t.categories, t.users, t.companies, categories', t.users);
  }

  /** A new job with an unused slug, valid references and a zero counter keeps the database
      consistent: no application can point at a fresh id. */
  lemma InsertJobKeepsConsistent(t: Tables, j: Job)
    requires Consistent(t) && !JobSlugTaken(t.jobs, j.slug)
    requires JobRefsOk(j, t.companies, t.categories, t.users) && j.applicationsCount == 0
    ensures Consistent(t.(jobs := t.jobs[t.nextJobId := j], nextJobId := t.nextJobId + 1))
  {
    var id := t.nextJobId;
    var jobs' := t.jobs[id := j];
    assert ApplicationsOf(t.applications, id) == {};
    assert CountersConsistent(jobs', t.applications) by {
      forall k | k in jobs' ensures jobs'[k].applicationsCount == ApplicationCount(t.applications, k) {
        if k != id { assert k in t.jobs; }
      }
    }
  }

  /** Rewriting jobs in place keeps the database consistent as long as no job's slug is
      another's, the references stay valid and no counter is touched. */
  lemma ReplaceJobsKeepsConsistent(t: Tables, jobs': map<JobId, Job>)
    requires Consistent(t) && jobs'.Keys == t.jobs.Keys
    requires JobSlugsUnique(jobs') && JobRefsValid(jobs', t.companies, t.categories, t.users)
    requires forall k :: k in jobs' ==> jobs'[k].applicationsCount == t.jobs[k].applicationsCount
    ensures Consistent(t.(jobs := jobs'))
  {
  }

  /** Rewriting jobs in columns no constraint looks at, counters included, keeps the
      database consistent. */
  lemma RewriteJobsKeepsConsistent(t: Tables, jobs': map<JobId, Job>)
    requires Consistent(t) && jobs'.Keys == t.jobs.Keys
    requires forall k :: k in t.jobs ==> SameConstrained(t.jobs[k], jobs'[k])
    requires forall k :: k in jobs' ==> jobs'[k].applicationsCount == t.jobs[k].applicationsCount
    ensures Consistent(t.(jobs := jobs'))
  {
    SameConstrainedKeepsJobs(t.jobs, jobs', t.companies, t.categories, t.users);
    ReplaceJobsKeepsConsistent(t, jobs');
  }

  /** Rewriting one job keeps the slugs unique when its new slug is no other job's. */
  lemma SaveJobKeepsSlugsUnique(jobs: map<JobId, Job>, id: JobId, j: Job)
    requires JobSlugsUnique(jobs) && id in jobs
    requires !(exists k :: k in jobs && k != id && jobs[k].slug == j.slug)
    ensures JobSlugsUnique(jobs[id := j])
  {
  }

  /** Rewriting one job with valid references keeps the references valid. */
  lemma SaveJobKeepsRefs(jobs: map<JobId, Job>, id: JobId, j: Job, companies: map<CompanyId, Company>,
                         categories: map<CategoryId, Category>, users: map<UserId, User>)
    requires JobRefsValid(jobs, companies, categories, users) && JobRefsOk(j, companies, categories, users)
    ensures JobRefsValid(jobs[id := j], companies, categories, users)
  {
  }

  /** Deleting a job with its applications keeps the database consistent. */
  lemma DeleteJobKeepsConsistent(t: Tables, id: JobId)
    requires Consistent(t)
    ensures var (jobs', apps') := DeleteJobCascade(t.jobs, t.applications, id);
            Consistent(t.(jobs := jobs', applications := apps'))
  {
    DeleteJobKeepsCounters(t.jobs, t.applications, id);
    DeleteJobKeepsRefs(t.jobs, t.applications, id, t.companies, t.categories, t.users);
    var (jobs', apps') := DeleteJobCascade(t.jobs, t.applications, id);
    SubApplicationsKeepPairs(t.applications, apps');
  }

  /** After the cascade the remaining jobs keep their references. */
  lemma DeleteJobKeepsRefs(jobs: map<JobId, Job>, apps: map<ApplicationId, Application>, id: JobId,
                           companies: map<CompanyId, Company>, categories: map<CategoryId, Category>,
                           users: map<UserId, User>)
    requires JobRefsValid(jobs, companies, categories, users)
    ensures JobRefsValid(DeleteJobCascade(jobs, apps, id).0, companies, categories, users)
  {
    var jobs' := DeleteJobCascade(jobs, apps, id).0;
    forall k | k in jobs' ensures JobRefsOk(jobs'[k], companies, categories, users) {
      assert JobRefsOk(jobs[k], companies, categories, users);
    }
  }

  /** `Application.save` of a new row: the insert under the next id, then the recount of its
      job; the other tables stay as they are. */
  function AddApplication(t: Tables, a: Application): (r: Tables)
    requires a.job in t.jobs
    ensures r.applications == t.applications[t.nextApplicationId := a]
    ensures r.nextApplicationId == t.nextApplicationId + 1
    ensures r.jobs == Recount(t.jobs, r.applications, a.job)
  {
    var apps' := t.applications[t.nextApplicationId := a];
    t.(applications := apps', nextApplicationId := t.nextApplicationId + 1, jobs := Recount(t.jobs, apps', a.job))
  }

  /** A new application for a fresh `(job, applicant)` pair, followed by the recount of its
      job, keeps the database consistent, and its job's counter goes up by one. */
  lemma InsertApplicationKeepsConsistent(t: Tables, a: Application)
    requires Consistent(t) && a.job in t.jobs && a.applicant in t.users
    requires !HasApplied(t.applications, a.job, a.applicant)
    ensures Consistent(AddApplication(t, a))
    ensures AddApplication(t, a).jobs[a.job].applicationsCount == t.jobs[a.job].applicationsCount + 1
  {
    InsertApplicationKeepsRows(t.jobs, t.applications, t.companies, t.categories, t.users,
                               t.nextJobId, t.nextApplicationId, a);
  }

  /** The part of the insertion that touches the jobs and the applications. */
  lemma InsertApplicationKeepsRows(jobs: map<JobId, Job>, apps: map<ApplicationId, Application>,
                                   companies: map<CompanyId, Company>, categories: map<CategoryId, Category>,
                                   users: map<UserId, User>, nextJob: nat, id: ApplicationId, a: Application)
    requires KeysBelow(jobs, nextJob) && KeysBelow(apps, id)
    requires JobSlugsUnique(jobs) && JobRefsValid(jobs, companies, categories, users)
    requires AppRefsValid(apps, jobs, users) && UniquePairs(apps) && CountersConsistent(jobs, apps)
    requires a.job in jobs && a.applicant in users && !HasApplied(apps, a.job, a.applicant)
    ensures var apps' := apps[id := a];
            var jobs' := Recount(jobs, apps', a.job);
            && KeysBelow(jobs', nextJob) && KeysBelow(apps', id + 1)
            && JobSlugsUnique(jobs') && JobRefsValid(jobs', companies, categories, users)
            && AppRefsValid(apps', jobs', users) && UniquePairs(apps') && CountersConsistent(jobs', apps')
            && jobs'[a.job].applicationsCount == jobs[a.job].applicationsCount + 1
  {
    var apps' := apps[id := a];
    var jobs' := Recount(jobs, apps', a.job);
    InsertKeepsCounters(jobs, apps, id, a);
    InsertKeepsUniquePairs(apps, id, a);
    RecountSameConstrained(jobs, apps', a.job);
    SameConstrainedKeepsJobs(jobs, jobs', companies, categories, users);
  }

  /** Rewriting applications in place keeps the database consistent as long as none of them
      changes its job or its applicant. */
  lemma ReplaceApplicationsKeepsConsistent(t: Tables, apps': map<ApplicationId, Application>)
    requires Consistent(t) && apps'.Keys == t.applications.Keys
    requires forall a :: a in apps' ==> apps'[a].job == t.applications[a].job && apps'[a].applicant == t.applications[a].applicant
    ensures Consistent(t.(applications := apps'))
  {
    SameLinksKeepCounters(t.jobs, t.applications, apps');
    SameLinksKeepPairs(t.applications, apps');
  }

  lemma SameLinksKeepCounters(jobs: map<JobId, Job>, apps: map<ApplicationId, Application>,
                              apps': map<ApplicationId, Application>)
    requires CountersConsistent(jobs, apps) && apps'.Keys == apps.Keys
    requires forall a :: a in apps' ==> apps'[a].job == apps[a].job
    ensures CountersConsistent(jobs, apps')
  {
    forall j | j in jobs ensures jobs[j].applicationsCount == ApplicationCount(apps', j) {
      assert ApplicationsOf(apps', j) == ApplicationsOf(apps, j);
    }
  }

  lemma SameLinksKeepPairs(apps: map<ApplicationId, Application>, apps': map<ApplicationId, Application>)
    requires UniquePairs(apps) && apps'.Keys == apps.Keys
    requires forall a :: a in apps' ==> apps'[a].job == apps[a].job && apps'[a].applicant == apps[a].applicant
    ensures UniquePairs(apps')
  {
    forall a, b | a in apps' && b in apps' && apps'[a].job == apps'[b].job && apps'[a].applicant == apps'[b].applicant
      ensures a == b
    {
      assert apps[a].job == apps[b].job;
    }
  }

  /** Deleting an application and recounting its job keeps the database consistent. */
  lemma DeleteApplicationKeepsConsistent(t: Tables, id: ApplicationId)
    requires Consistent(t) && id in t.applications
    ensures var apps' := t.applications - {id};
            Consistent(t.(applications := apps', jobs := Recount(t.jobs, apps', t.applications[id].job)))
  {
    var apps' := t.applications - {id};
    var jobs' := Recount(t.jobs, apps', t.applications[id].job);
    DeleteKeepsCounters(t.jobs, t.applications, id);
    RecountSameConstrained(t.jobs, apps', t.applications[id].job);
    SameConstrainedKeepsJobs(t.jobs, jobs', t.companies, t.categories, t.users);
    SubApplicationsKeepPairs(t.applications, apps');
  }

  /** The database the views and the admin work on. Every model operation replaces the
      snapshot with its successor; `Valid` is the schema's constraints on the current one. */
  class Database {
    var tables: Tables

    ghost predicate Valid()
      reads this
    {
      Consistent(tables)
    }

    constructor ()
      ensures Valid()
      ensures tables == Tables(map[], map[], map[], map[], map[], 0, 0, 0, 0, 0)
    {
      tables := Tables(map[], map[], map[], map[], map[], 0, 0, 0, 0, 0);
    }

    /** The row with a given job slug (the `lookup_field` of the job views). */
    method LookupJob(slug: string) returns (r: Option<JobId>)
      ensures r.Some? <==> JobSlugTaken(tables.jobs, slug)
      ensures r.Some? ==> r.value in tables.jobs && tables.jobs[r.value].slug == slug
    {
      var jobs := tables.jobs;
      if JobSlugTaken(jobs, slug) {
        var id :| id in jobs && jobs[id].slug == slug;
        r := Some(id);
      } else {
        r := None;
      }
    }

    /** The row with a given company slug (the `lookup_field` of the company views). */
    method LookupCompany(slug: string) returns (r: Option<CompanyId>)
      ensures r.Some? <==> CompanySlugTaken(tables.companies, slug)
      ensures r.Some? ==> r.value in tables.companies && tables.companies[r.value].slug == slug
    {
      var companies := tables.companies;
      if CompanySlugTaken(companies, slug) {
        var id :| id in companies && companies[id].slug == slug;
        r := Some(id);
      } else {
        r := None;
      }
    }

    /** `User.objects.create`: refused by the unique email column when the email is taken. */
    method InsertUser(u: User) returns (r: Option<UserId>)
      requires Valid()
      modifies this
      ensures Valid()
      ensures r.None? <==> EmailTaken(old(tables.users), u.email)
      ensures r.None? ==> tables == old(tables)
      ensures r.Some? ==> r.value == old(tables.nextUserId) && r.value !in old(tables.users)
      ensures r.Some? ==> tables == old(tables).(users := old(tables.users)[r.value := u], nextUserId := r.value + 1)
    {
      var t := tables;
      if EmailTaken(t.users, u.email) {
        return None;
      }
      InsertUserKeepsConsistent(t, u);
      r := Some(t.nextUserId);
      tables := t.(users := t.users[t.nextUserId := u], nextUserId := t.nextUserId + 1);
    }

    /** Deleting a user: their applications go (`CASCADE`), the jobs they posted lose their
        poster (`SET_NULL`), and the counters are recounted (see `DeleteUserAsWritten` for
        the code as written, which skips the recount). */
    method DeleteUser(u: UserId)
      requires Valid()
      modifies this
      ensures Valid()
      ensures var (jobs', apps') := DeleteUserRecounting(old(tables.jobs), old(tables.applications), u);
              tables == old(tables).(users := old(tables.users) - {u}, jobs := jobs', applications := apps')
    {
      var t := tables;
      DeleteUserKeepsConsistent(t, u);
      var (jobs', apps') := DeleteUserRecounting(t.jobs, t.applications, u);
      tables := t.(users := t.users - {u}, jobs := jobs', applications := apps');
    }

    /** `Company.objects.create`: refused by the unique slug column when the slug is taken. */
    method InsertCompany(c: Company) returns (r: Option<CompanyId>)
      requires Valid()
      modifies this
      ensures Valid()
      ensures r.None? <==> CompanySlugTaken(old(tables.companies), c.slug)
      ensures r.None? ==> tables == old(tables)
      ensures r.Some? ==> r.value == old(tables.nextCompanyId) && r.value !in old(tables.companies)
      ensures r.Some? ==> tables == old(tables).(companies := old(tables.companies)[r.value := c], nextCompanyId := r.value + 1)
    {
      var t := tables;
      if CompanySlugTaken(t.companies, c.slug) {
        return None;
      }
      InsertCompanyKeepsConsistent(t, c);
      r := Some(t.nextCompanyId);
      tables := t.(companies := t.companies[t.nextCompanyId := c], nextCompanyId := t.nextCompanyId + 1);
    }

    /** `instance.save()` of an existing company: refused when its slug is another's. */
    method SaveCompany(id: CompanyId, c: Company) returns (ok: bool)
      requires Valid() && id in tables.companies
      modifies this
      ensures Valid()
      ensures ok <==> !(exists k :: k in old(tables.companies) && k != id && old(tables.companies)[k].slug == c.slug)
      ensures tables == if ok then old(tables).(companies := old(tables.companies)[id := c]) else old(tables)
    {
      var t := tables;
      ok := !(exists k :: k in t.companies && k != id && t.companies[k].slug == c.slug);
      if ok {
        SaveCompanyKeepsConsistent(t, id, c);
        tables := t.(companies := t.companies[id := c]);
      }
    }

    /** `instance.delete()` of a company: its jobs and their applications go with it. */
    method DeleteCompany(id: CompanyId)
      requires Valid()
      modifies this
      ensures Valid()
      ensures var (jobs', apps') := DeleteCompanyCascade(old(tables.jobs), old(tables.applications), id);
              tables == old(tables).(companies := old(tables.companies) - {id}, jobs := jobs', applications := apps')
    {
      var t := tables;
      DeleteCompanyKeepsConsistent(t, id);
      var (jobs', apps') := DeleteCompanyCascade(t.jobs, t.applications, id);
      tables := t.(companies := t.companies - {id}, jobs := jobs', applications := apps');
    }

    /** `Category.objects.create`: refused when the name or the slug is taken. */
    method InsertCategory(c: Category) returns (r: Option<CategoryId>)
      requires Valid()
      modifies this
      ensures Valid()
      ensures r.None? <==> CategoryNameTaken(old(tables.categories), c.name) || CategorySlugTaken(old(tables.categories), c.slug)
      ensures r.None? ==> tables == old(tables)
      ensures r.Some? ==> r.value == old(tables.nextCategoryId) && r.value !in old(tables.categories)
      ensures r.Some? ==> tables == old(tables).(categories := old(tables.categories)[r.value := c], nextCategoryId := r.value + 1)
    {
      var t := tables;
      if CategoryNameTaken(t.categories, c.name) || CategorySlugTaken(t.categories, c.slug) {
        return None;
      }
      InsertCategoryKeepsConsistent(t, c);
      r := Some(t.nextCategoryId);
      tables := t.(categories := t.categories[t.nextCategoryId := c], nextCategoryId := t.nextCategoryId + 1);
    }

    /** `Job.objects.create` of a job with no applications yet: refused by the unique slug
        column when the slug is taken. */
    method InsertJob(j: Job) returns (r: Option<JobId>)
      requires Valid() && JobRefsOk(j, tables.companies, tables.categories, tables.users) && j.applicationsCount == 0
      modifies this
      ensures Valid()
      ensures r.None? <==> JobSlugTaken(old(tables.jobs), j.slug)
      ensures r.None? ==> tables == old(tables)
      ensures r.Some? ==> r.value == old(tables.nextJobId) && r.value !in old(tables.jobs)
      ensures r.Some? ==> tables == old(tables).(jobs := old(tables.jobs)[r.value := j], nextJobId := r.value + 1)
    {
      var t := tables;
      if JobSlugTaken(t.jobs, j.slug) {
        return None;
      }
      InsertJobKeepsConsistent(t, j);
      r := Some(t.nextJobId);
      tables := t.(jobs := t.jobs[t.nextJobId := j], nextJobId := t.nextJobId + 1);
    }

    /** `instance.save()` of an existing job whose counter the caller did not touch:
        refused when its slug is another job's. */
    method SaveJob(id: JobId, j: Job) returns (ok: bool)
      requires Valid() && id in tables.jobs && JobRefsOk(j, tables.companies, tables.categories, tables.users)
      requires j.applicationsCount == tables.jobs[id].applicationsCount
      modifies this
      ensures Valid()
      ensures ok <==> !(exists k :: k in old(tables.jobs) && k != id && old(tables.jobs)[k].slug == j.slug)
      ensures tables == if ok then old(tables).(jobs := old(tables.jobs)[id := j]) else old(tables)
    {
      var t := tables;
      ok := !(exists k :: k in t.jobs && k != id && t.jobs[k].slug == j.slug);
      if ok {
        SaveJobKeepsSlugsUnique(t.jobs, id, j);
        SaveJobKeepsRefs(t.jobs, id, j, t.companies, t.categories, t.users);
        ReplaceJobsKeepsConsistent(t, t.jobs[id := j]);
        tables := t.(jobs := t.jobs[id := j]);
      }
    }

    /** `increment_views`: `views_count += 1` and `save(update_fields=['views_count'])`. */
    method RecordView(id: JobId)
      requires Valid() && id in tables.jobs
      modifies this
      ensures Valid()
      ensures tables == old(tables).(jobs := old(tables.jobs)[id := JobModels.IncrementViews(old(tables.jobs)[id])])
    {
      var t := tables;
      var jobs' := t.jobs[id := JobModels.IncrementViews(t.jobs[id])];
      SameConstrainedKeepsJobs(t.jobs, jobs', t.companies, t.categories, t.users);
      ReplaceJobsKeepsConsistent(t, jobs');
      tables := t.(jobs := jobs');
    }

    /** `instance.delete()` of a job: its applications go with it. */
    method DeleteJob(id: JobId)
      requires Valid()
      modifies this
      ensures Valid()
      ensures var (jobs', apps') := DeleteJobCascade(old(tables.jobs), old(tables.applications), id);
              tables == old(tables).(jobs := jobs', applications := apps')
    {
      var t := tables;
      DeleteJobKeepsConsistent(t, id);
      var (jobs', apps') := DeleteJobCascade(t.jobs, t.applications, id);
      tables := t.(jobs := jobs', applications := apps');
    }

    /** `Application.save` of a new row: the insert (refused by `unique_together` when the
        pair exists), then the recount of its job. */
    method InsertApplication(a: Application) returns (r: Option<ApplicationId>)
      requires Valid() && a.job in tables.jobs && a.applicant in tables.users
      modifies this
      ensures Valid()
      ensures r.None? <==> HasApplied(old(tables.applications), a.job, a.applicant)
      ensures r.None? ==> tables == old(tables)
      ensures r.Some? ==> r.value == old(tables.nextApplicationId) && r.value !in old(tables.applications)
      ensures r.Some? ==> tables == AddApplication(old(tables), a)
    {
      var t := tables;
      if HasApplied(t.applications, a.job, a.applicant) {
        return None;
      }
      InsertApplicationKeepsConsistent(t, a);
      r := Some(t.nextApplicationId);
      tables := AddApplication(t, a);
    }

    /** `Application.save` of an existing row: written back, with no recount. The status
        serializer and the withdraw view never change the job or the applicant. */
    method SaveApplication(id: ApplicationId, a: Application)
      requires Valid() && id in tables.applications
      requires a.job == tables.applications[id].job && a.applicant == tables.applications[id].applicant
      modifies this
      ensures Valid()
      ensures tables == old(tables).(applications := old(tables.applications)[id := a])
    {
      var t := tables;
      ReplaceApplicationsKeepsConsistent(t, t.applications[id := a]);
      tables := t.(applications := t.applications[id := a]);
    }

    /** `Application.delete`: the delete, then the recount of its job. */
    method DeleteApplication(id: ApplicationId)
      requires Valid() && id in tables.applications
      modifies this
      ensures Valid()
      ensures tables.applications == old(tables.applications) - {id}
      ensures tables == old(tables).(applications := tables.applications,
                                     jobs := Recount(old(tables.jobs), tables.applications, old(tables.applications)[id].job))
    {
      var t := tables;
      DeleteApplicationKeepsConsistent(t, id);
      var apps' := t.applications - {id};
      tables := t.(applications := apps', jobs := Recount(t.jobs, apps', t.applications[id].job));
    }
  }
}
