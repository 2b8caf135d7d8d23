/** The job and category endpoints: the public listings and their orderings, the
    statistics, the detail view that counts views, and the create, update and delete
    views with their role and ownership checks. */
module JobViews {
  import opened Base
  import opened Text
  import opened AuthModels
  import opened CompanyModels
  import opened JobModels
  import opened Ordering
  import opened JobSerializers
  import opened JobFilters
  import opened Store

  /** The role check of `CategoryCreateView.perform_create`. */
  predicate MayCreateCategory(r: Role) {
    r == Admin
  }

  /** The role check of `JobCreateView.perform_create`. */
  predicate MayCreateJob(r: Role) {
    r == Admin || r == Employer
  }

  /** The check of `perform_update` and `perform_destroy`: admins, or the job's poster. */
  predicate MayChangeJob(r: Role, caller: UserId, j: Job) {
    r == Admin || j.postedBy == Some(caller)
  }

  /** A job whose poster was deleted can be changed by admins only; anyone who is not an
      admin may change a job exactly when they posted it. */
  lemma ChangeRights(caller: UserId, j: Job)
    ensures j.postedBy.None? ==> forall r :: MayChangeJob(r, caller, j) <==> r == Admin
    ensures forall r :: r != Admin ==> (MayChangeJob(r, caller, j) <==> j.postedBy == Some(caller))
  {
  }

  /** The filter of every public listing: `is_active=True, status='active'`. Expiry is not
      part of it. */
  predicate Listed(j: Job) {
    j.isActive && j.status == Active
  }

  function ListedJobs(jobs: map<JobId, Job>): (r: set<JobId>)
    ensures r <= jobs.Keys
  {
    set id | id in jobs && Listed(jobs[id])
  }

  /** A boolean column in a descending ordering: `true` first. */
  function TrueFirst(b: bool): int {
    if b then 0 else 1
  }

  /** `ordering = ['-is_featured', '-is_urgent', '-created_at']` of the public list. */
  function ListKey(jobs: map<JobId, Job>): JobId -> seq<int> {
    id => if id in jobs then [TrueFirst(jobs[id].isFeatured), TrueFirst(jobs[id].isUrgent), -jobs[id].createdAt] else []
  }

  /** `-created_at`. */
  function NewestFirst(jobs: map<JobId, Job>): JobId -> seq<int> {
    id => if id in jobs then [-jobs[id].createdAt] else []
  }

  /** `JobListView` before filtering: the listed jobs in the list ordering (rows that tie
      on all three columns come in an order the database chooses; this is one of them). */
  ghost function PublicJobList(jobs: map<JobId, Job>): (r: seq<JobId>)
    ensures forall id :: id in r <==> id in jobs && Listed(jobs[id])
    ensures |r| == |ListedJobs(jobs)|
    ensures SortedBy(r, ListKey(jobs))
  {
    var s := Enumerate(ListedJobs(jobs));
    SortByKeyElements(s, ListKey(jobs));
    SortByKey(s, ListKey(jobs))
  }

  /** The list ordering spelled out: featured jobs first, then among equals urgent ones,
      then among equals the newest. An expired job stays in the list while it is active. */
  lemma PublicListOrder(jobs: map<JobId, Job>, i: nat, k: nat)
    requires i < k < |PublicJobList(jobs)|
    ensures var a := jobs[PublicJobList(jobs)[i]];
            var b := jobs[PublicJobList(jobs)[k]];
            && (b.isFeatured ==> a.isFeatured)
            && (a.isFeatured == b.isFeatured && b.isUrgent ==> a.isUrgent)
            && (a.isFeatured == b.isFeatured && a.isUrgent == b.isUrgent ==> a.createdAt >= b.createdAt)
  {
    var r := PublicJobList(jobs);
    assert r[i] in r && r[k] in r;
    ListKeyColumns(jobs, r[i], r[k]);
  }

  /** Two listed jobs in list order compare column by column. */
  lemma ListKeyColumns(jobs: map<JobId, Job>, x: JobId, y: JobId)
    requires x in jobs && y in jobs && KeyLe(ListKey(jobs)(x), ListKey(jobs)(y))
    ensures var a := jobs[x];
            var b := jobs[y];
            && (b.isFeatured ==> a.isFeatured)
            && (a.isFeatured == b.isFeatured && b.isUrgent ==> a.isUrgent)
            && (a.isFeatured == b.isFeatured && a.isUrgent == b.isUrgent ==> a.createdAt >= b.createdAt)
  {
    KeyLeThree(ListKey(jobs)(x), ListKey(jobs)(y));
  }

  /** The filtered list: exactly the listed jobs that match every supplied filter, still
      in the list ordering. */
  lemma FilteredListIsExactSubset(q: JobQuery, jobs: map<JobId, Job>)
    ensures forall id :: id in FilterJobs(q, jobs, PublicJobList(jobs)) <==> id in jobs && Listed(jobs[id]) && Matches(q, jobs[id])
    ensures SortedBy(FilterJobs(q, jobs, PublicJobList(jobs)), ListKey(jobs))
  {
    FilterKeepsOrder(q, jobs, PublicJobList(jobs), ListKey(jobs));
  }

  /** `eligible` newest first (`order_by('-created_at')`). */
  ghost function NewestSorted(jobs: map<JobId, Job>, eligible: set<JobId>): (s: seq<JobId>)
    ensures SortedBy(s, NewestFirst(jobs))
    ensures forall x :: x in s <==> x in eligible
    ensures |s| == |eligible|
  {
    var e := Enumerate(eligible);
    SortByKeyElements(e, NewestFirst(jobs));
    SortByKey(e, NewestFirst(jobs))
  }

  /** The ten newest jobs of `eligible` (`[:10]`). */
  ghost function NewestTen(jobs: map<JobId, Job>, eligible: set<JobId>): (r: seq<JobId>)
    ensures |r| == if |eligible| <= 10 then |eligible| else 10
    ensures forall x :: x in r ==> x in eligible
  {
    Take(NewestSorted(jobs, eligible), 10)
  }

  /** Two jobs in `-created_at` order: the first is at least as new. */
  lemma NewestFirstMeansNewer(jobs: map<JobId, Job>, a: JobId, b: JobId)
    requires a in jobs && b in jobs && KeyLe(NewestFirst(jobs)(a), NewestFirst(jobs)(b))
    ensures jobs[a].createdAt >= jobs[b].createdAt
  {
  }

  /** The ten newest come newest first. */
  lemma NewestTenInOrder(jobs: map<JobId, Job>, eligible: set<JobId>)
    requires eligible <= jobs.Keys
    ensures var r := NewestTen(jobs, eligible);
            forall i, k :: 0 <= i < k < |r| ==> jobs[r[i]].createdAt >= jobs[r[k]].createdAt
  {
    var sorted := NewestSorted(jobs, eligible);
    var r := NewestTen(jobs, eligible);
    forall i, k | 0 <= i < k < |r| ensures jobs[r[i]].createdAt >= jobs[r[k]].createdAt {
      assert r[i] == sorted[i] && r[k] == sorted[k];
      assert sorted[i] in sorted && sorted[k] in sorted;
      NewestFirstMeansNewer(jobs, sorted[i], sorted[k]);
    }
  }

  /** The ten newest really are the newest: no eligible job left out is newer than one
      taken, and with ten or fewer eligible jobs all of them are taken. */
  lemma NewestTenAreNewest(jobs: map<JobId, Job>, eligible: set<JobId>)
    requires eligible <= jobs.Keys
    ensures var r := NewestTen(jobs, eligible);
            forall x, y :: x in eligible && x !in r && y in r ==> jobs[y].createdAt >= jobs[x].createdAt
    ensures |eligible| <= 10 ==> forall x :: x in eligible ==> x in NewestTen(jobs, eligible)
  {
    var sorted := NewestSorted(jobs, eligible);
    var r := NewestTen(jobs, eligible);
    forall x, y | x in eligible && x !in r && y in r ensures jobs[y].createdAt >= jobs[x].createdAt {
      PrefixRanksFirst(sorted, NewestFirst(jobs), |r|, x, y);
      NewestFirstMeansNewer(jobs, y, x);
    }
  }

  /** `featured_jobs_view`: listed and featured, in the model's `-created_at` ordering,
      at most ten. */
  ghost function FeaturedJobs(jobs: map<JobId, Job>): (r: seq<JobId>)
    ensures |r| <= 10
    ensures forall id :: id in r ==> id in jobs && Listed(jobs[id]) && jobs[id].isFeatured
  {
    NewestTen(jobs, set id | id in jobs && Listed(jobs[id]) && jobs[id].isFeatured)
  }

  /** `recent_jobs_view`: the ten newest listed jobs. */
  ghost function RecentJobs(jobs: map<JobId, Job>): (r: seq<JobId>)
    ensures |r| <= 10
    ensures forall id :: id in r ==> id in jobs && Listed(jobs[id])
  {
    NewestTen(jobs, ListedJobs(jobs))
  }

  /** The response of `job_stats_view`. */
  datatype JobStats = JobStats(totalJobs: nat, totalCompanies: nat, totalCategories: nat,
                               featuredJobs: nat, remoteJobs: nat)

  function ListedWhere(jobs: map<JobId, Job>, featuredOnly: bool, remoteOnly: bool): set<JobId> {
    set id | id in jobs && Listed(jobs[id]) && (featuredOnly ==> jobs[id].isFeatured) && (remoteOnly ==> jobs[id].isRemote)
  }

  /** `Category.objects.filter(is_active=True)`: also the queryset of `CategoryListView`. */
  function ActiveCategories(categories: map<CategoryId, Category>): set<CategoryId> {
    set id | id in categories && categories[id].isActive
  }

  function VerifiedCompanies(companies: map<CompanyId, Company>): set<CompanyId> {
    set id | id in companies && companies[id].isVerified
  }

  /** The five counts of `job_stats_view`. */
  function StatsOfJobs(t: Tables): JobStats {
    JobStats(|ListedWhere(t.jobs, false, false)|, |VerifiedCompanies(t.companies)|,
             |ActiveCategories(t.categories)|, |ListedWhere(t.jobs, true, false)|,
             |ListedWhere(t.jobs, false, true)|)
  }

  /** The total is the length of the public list, and the featured and remote counts are
      parts of it. */
  lemma JobStatsBounds(t: Tables)
    ensures StatsOfJobs(t).totalJobs == |PublicJobList(t.jobs)|
    ensures StatsOfJobs(t).featuredJobs <= StatsOfJobs(t).totalJobs
    ensures StatsOfJobs(t).remoteJobs <= StatsOfJobs(t).totalJobs
    ensures StatsOfJobs(t).totalCompanies <= |t.companies| && StatsOfJobs(t).totalCategories <= |t.categories|
  {
    assert ListedWhere(t.jobs, false, false) == ListedJobs(t.jobs);
    SubsetCard(ListedWhere(t.jobs, true, false), ListedWhere(t.jobs, false, false));
    SubsetCard(ListedWhere(t.jobs, false, true), ListedWhere(t.jobs, false, false));
    SubsetCard(VerifiedCompanies(t.companies), t.companies.Keys);
    SubsetCard(ActiveCategories(t.categories), t.categories.Keys);
  }

  /** `CategoryListView` with the model's `ordering = ['name']`: the active categories by
      name. */
  ghost function CategoryList(categories: map<CategoryId, Category>): (r: seq<CategoryId>)
    ensures forall id :: id in r <==> id in categories && categories[id].isActive
    ensures |r| == |ActiveCategories(categories)|
    ensures SortedBy(r, id => if id in categories then TextKey(categories[id].name) else [])
  {
    var s := Enumerate(ActiveCategories(categories));
    var key := id => if id in categories then TextKey(categories[id].name) else [];
    SortByKeyElements(s, key);
    SortByKey(s, key)
  }

  /** The row a slug names (unique by the `slug` column). */
  ghost function JobWithSlug(jobs: map<JobId, Job>, slug: string): (id: JobId)
    requires JobSlugTaken(jobs, slug)
    ensures id in jobs && jobs[id].slug == slug
  {
    var id :| id in jobs && jobs[id].slug == slug; id
  }

  /** `JobDetailView.retrieve`: 404 for an unknown slug; otherwise `increment_views` and
      the job as it is after the increment. */
  method RetrieveJob(db: Database, slug: string) returns (r: Option<Job>)
    requires db.Valid()
    modifies db
    ensures db.Valid()
    ensures r.None? <==> !JobSlugTaken(old(db.tables.jobs), slug)
    ensures r.None? ==> db.tables == old(db.tables)
    ensures r.Some? ==> var id := JobWithSlug(old(db.tables.jobs), slug);
                        && r.value == IncrementViews(old(db.tables.jobs)[id])
                        && db.tables == old(db.tables).(jobs := old(db.tables.jobs)[id := r.value])
  {
    var found := db.LookupJob(slug);
    if found.None? {
      return None;
    }
    ghost var t := db.tables;
    assert found.value == JobWithSlug(t.jobs, slug);
    db.RecordView(found.value);
    r := Some(db.tables.jobs[found.value]);
  }

  /** The public list depends only on which jobs are listed and on their three ordering
      columns. */
  lemma PublicJobListAgree(jobs: map<JobId, Job>, jobs': map<JobId, Job>)
    requires ListedJobs(jobs') == ListedJobs(jobs)
    requires forall y :: y in ListedJobs(jobs) ==> ListKey(jobs')(y) == ListKey(jobs)(y)
    ensures PublicJobList(jobs') == PublicJobList(jobs)
  {
    var e := Enumerate(ListedJobs(jobs));
    SortByKeyAgree(e, ListKey(jobs'), ListKey(jobs));
  }

  /** A view never changes a job's listing nor its place in the public list. */
  lemma ViewsDoNotChangeListing(jobs: map<JobId, Job>, id: JobId)
    requires id in jobs
    ensures ListedJobs(jobs[id := IncrementViews(jobs[id])]) == ListedJobs(jobs)
    ensures PublicJobList(jobs[id := IncrementViews(jobs[id])]) == PublicJobList(jobs)
  {
    var jobs' := jobs[id := IncrementViews(jobs[id])];
    assert ListedJobs(jobs') == ListedJobs(jobs);
    PublicJobListAgree(jobs, jobs');
  }

  /** `JobCreateView.create`: the body is validated (400), then the role is checked (403),
      then the row is saved, where a slug that is already taken raises an `IntegrityError`
      (500). */
  function CreateJobDecision(t: Tables, caller: UserId, p: JobInput, slugify: Slugify): WriteOutcome
    requires caller in t.users
  {
    if !JobInputValid(p, false, t.companies.Keys, t.categories.Keys) then Invalid
    else if !MayCreateJob(t.users[caller].role) then Forbidden
    else if JobSlugTaken(t.jobs, slugify(Strip(p.title.value))) then Conflict
    else Done(t.nextJobId)
  }

  /** `JobCreateView.create` as written: the refusal of `perform_create` raises
      `permissions.PermissionDenied`, a name `rest_framework.permissions` does not define,
      so it fails with an `AttributeError` (500) before anything is saved. */
  function CreateJobDecisionAsWritten(t: Tables, caller: UserId, p: JobInput, slugify: Slugify): WriteOutcome
    requires caller in t.users
  {
    if !JobInputValid(p, false, t.companies.Keys, t.categories.Keys) then Invalid
    else if !MayCreateJob(t.users[caller].role) then Crash
    else if JobSlugTaken(t.jobs, slugify(Strip(p.title.value))) then Conflict
    else Done(t.nextJobId)
  }

  /** The view as written answers a valid body from a job seeker with a 500 exactly where
      the intended view answers 403, and the two agree on every other request. */
  lemma CreateJobRefusalCrashes(t: Tables, caller: UserId, p: JobInput, slugify: Slugify)
    requires caller in t.users
    ensures CreateJobDecision(t, caller, p, slugify) == Forbidden
            <==> JobInputValid(p, false, t.companies.Keys, t.categories.Keys) && t.users[caller].role == JobSeeker
    ensures CreateJobDecisionAsWritten(t, caller, p, slugify) == Crash <==> CreateJobDecision(t, caller, p, slugify) == Forbidden
    ensures CreateJobDecisionAsWritten(t, caller, p, slugify) != Crash
            ==> CreateJobDecisionAsWritten(t, caller, p, slugify) == CreateJobDecision(t, caller, p, slugify)
  {
  }

  /** A created job is owned by its creator, has no views and no applications, and is
      publicly listed exactly when its status is `active` (the default). Job seekers never
      create jobs. */
  lemma CreatedJobFacts(t: Tables, caller: UserId, p: JobInput, slugify: Slugify, now: Time)
    requires caller in t.users && CreateJobDecision(t, caller, p, slugify).Done?
    ensures t.users[caller].role != JobSeeker
    ensures var j := CreateJobRecord(p, slugify, caller, now);
            && j.postedBy == Some(caller) && j.viewsCount == 0 && j.applicationsCount == 0
            && (Listed(j) <==> p.status.GetOr(DefaultJobStatus) == Active)
    ensures p.status.None? ==> Listed(CreateJobRecord(p, slugify, caller, now))
  {
  }

  method CreateJob(db: Database, caller: UserId, p: JobInput, slugify: Slugify, now: Time) returns (o: WriteOutcome)
    requires db.Valid() && caller in db.tables.users
    modifies db
    ensures db.Valid()
    ensures o == CreateJobDecision(old(db.tables), caller, p, slugify)
    ensures o.Done? ==> db.tables == old(db.tables).(jobs := old(db.tables.jobs)[o.id := CreateJobRecord(p, slugify, caller, now)],
                                                     nextJobId := o.id + 1)
    ensures !o.Done? ==> db.tables == old(db.tables)
  {
    var t := db.tables;
    if !JobInputValid(p, false, t.companies.Keys, t.categories.Keys) {
      return Invalid;
    }
    if !MayCreateJob(t.users[caller].role) {
      return Forbidden;
    }
    var j := CreateJobRecord(p, slugify, caller, now);
    var r := db.InsertJob(j);
    if r.None? {
      return Conflict;
    }
    o := Done(r.value);
  }

  /** The job an update would write, and whether it conflicts with another job's slug. */
  predicate SlugClash(jobs: map<JobId, Job>, id: JobId, slug: string) {
    exists k :: k in jobs && k != id && jobs[k].slug == slug
  }

  /** `JobUpdateDeleteView.update`: `get_object` by slug (404), `is_valid` (400),
      the admin-or-poster check of `perform_update` (403), then the save, which raises an
      `IntegrityError` (500) when the new slug is another job's. `partial` is true for
      `PATCH` and false for `PUT`. */
  ghost function UpdateJobDecision(t: Tables, caller: UserId, slug: string, p: JobInput, partial: bool,
                                   slugify: Slugify, now: Time): WriteOutcome
    requires caller in t.users
  {
    if !JobSlugTaken(t.jobs, slug) then NotFound
    else
      var id := JobWithSlug(t.jobs, slug);
      if !JobInputValid(p, partial, t.companies.Keys, t.categories.Keys) then Invalid
      else if !MayChangeJob(t.users[caller].role, caller, t.jobs[id]) then Forbidden
      else if SlugClash(t.jobs, id, PatchJob(t.jobs[id], p, slugify, now).slug) then Conflict
      else Done(id)
  }

  /** `JobUpdateDeleteView.update` as written: the refusal of `perform_update` raises the
      undefined `permissions.PermissionDenied`, an `AttributeError` (500) before the save. */
  ghost function UpdateJobDecisionAsWritten(t: Tables, caller: UserId, slug: string, p: JobInput, partial: bool,
                                            slugify: Slugify, now: Time): WriteOutcome
    requires caller in t.users
  {
    if !JobSlugTaken(t.jobs, slug) then NotFound
    else
      var id := JobWithSlug(t.jobs, slug);
      if !JobInputValid(p, partial, t.companies.Keys, t.categories.Keys) then Invalid
      else if !MayChangeJob(t.users[caller].role, caller, t.jobs[id]) then Crash
      else if SlugClash(t.jobs, id, PatchJob(t.jobs[id], p, slugify, now).slug) then Conflict
      else Done(id)
  }

  /** A valid update of someone else's job by a non-admin is a 500 as written and a 403 as
      intended; every other request gets the same answer from both. */
  lemma UpdateJobRefusalCrashes(t: Tables, caller: UserId, slug: string, p: JobInput, partial: bool,
                                slugify: Slugify, now: Time)
    requires caller in t.users
    ensures UpdateJobDecision(t, caller, slug, p, partial, slugify, now) == Forbidden
            <==> && JobSlugTaken(t.jobs, slug) && JobInputValid(p, partial, t.companies.Keys, t.categories.Keys)
                 && t.users[caller].role != Admin && t.jobs[JobWithSlug(t.jobs, slug)].postedBy != Some(caller)
    ensures UpdateJobDecisionAsWritten(t, caller, slug, p, partial, slugify, now) == Crash
            <==> UpdateJobDecision(t, caller, slug, p, partial, slugify, now) == Forbidden
    ensures UpdateJobDecisionAsWritten(t, caller, slug, p, partial, slugify, now) != Crash
            ==> UpdateJobDecisionAsWritten(t, caller, slug, p, partial, slugify, now) == UpdateJobDecision(t, caller, slug, p, partial, slugify, now)
  {
  }

  /** An update that succeeds was made by an admin or by the poster, and leaves the poster,
      the counters and `is_active` as they were: an owner cannot hand a job to someone
      else, nor hide or revive it through this view except by its status. */
  lemma UpdatedJobFacts(t: Tables, caller: UserId, slug: string, p: JobInput, partial: bool,
                        slugify: Slugify, now: Time)
    requires caller in t.users && UpdateJobDecision(t, caller, slug, p, partial, slugify, now).Done?
    ensures var id := JobWithSlug(t.jobs, slug);
            && MayChangeJob(t.users[caller].role, caller, t.jobs[id])
            && SameProtectedFields(t.jobs[id], PatchJob(t.jobs[id], p, slugify, now))
  {
    PatchJobKeepsProtectedFields(t.jobs[JobWithSlug(t.jobs, slug)], p, slugify, now);
  }

  /** A valid body keeps a job's foreign keys pointing at existing rows. */
  lemma PatchKeepsRefs(t: Tables, id: JobId, p: JobInput, partial: bool, slugify: Slugify, now: Time)
    requires id in t.jobs && JobRefsOk(t.jobs[id], t.companies, t.categories, t.users)
    requires JobInputValid(p, partial, t.companies.Keys, t.categories.Keys)
    ensures JobRefsOk(PatchJob(t.jobs[id], p, slugify, now), t.companies, t.categories, t.users)
    ensures PatchJob(t.jobs[id], p, slugify, now).applicationsCount == t.jobs[id].applicationsCount
  {
  }

  method UpdateJob(db: Database, caller: UserId, slug: string, p: JobInput, partial: bool,
                   slugify: Slugify, now: Time) returns (o: WriteOutcome)
    requires db.Valid() && caller in db.tables.users
    modifies db
    ensures db.Valid()
    ensures o == UpdateJobDecision(old(db.tables), caller, slug, p, partial, slugify, now)
    ensures o.Done? ==> db.tables == old(db.tables).(jobs := old(db.tables.jobs)[o.id := PatchJob(old(db.tables.jobs)[o.id], p, slugify, now)])
    ensures !o.Done? ==> db.tables == old(db.tables)
  {
    var found := db.LookupJob(slug);
    if found.None? {
      return NotFound;
    }
    var t := db.tables;
    var id := found.value;
    assert id == JobWithSlug(t.jobs, slug);
    if !JobInputValid(p, partial, t.companies.Keys, t.categories.Keys) {
      return Invalid;
    }
    if !MayChangeJob(t.users[caller].role, caller, t.jobs[id]) {
      return Forbidden;
    }
    var j := PatchJob(t.jobs[id], p, slugify, now);
    PatchKeepsRefs(t, id, p, partial, slugify, now);
    var ok := db.SaveJob(id, j);
    if !ok {
      return Conflict;
    }
    o := Done(id);
  }

  /** `JobUpdateDeleteView.destroy`: 404, then the admin-or-poster check (403), then the
      delete with its cascade. */
  ghost function DeleteJobDecision(t: Tables, caller: UserId, slug: string): WriteOutcome
    requires caller in t.users
  {
    if !JobSlugTaken(t.jobs, slug) then NotFound
    else
      var id := JobWithSlug(t.jobs, slug);
      if MayChangeJob(t.users[caller].role, caller, t.jobs[id]) then Done(id) else Forbidden
  }

  /** `JobUpdateDeleteView.destroy` as written: the refusal of `perform_destroy` raises the
      undefined `permissions.PermissionDenied`, an `AttributeError` (500) before the delete. */
  ghost function DeleteJobDecisionAsWritten(t: Tables, caller: UserId, slug: string): WriteOutcome
    requires caller in t.users
  {
    if !JobSlugTaken(t.jobs, slug) then NotFound
    else
      var id := JobWithSlug(t.jobs, slug);
      if MayChangeJob(t.users[caller].role, caller, t.jobs[id]) then Done(id) else Crash
  }

  /** Deleting someone else's job as a non-admin is a 500 as written and a 403 as intended;
      every other request gets the same answer from both. */
  lemma DeleteJobRefusalCrashes(t: Tables, caller: UserId, slug: string)
    requires caller in t.users
    ensures DeleteJobDecision(t, caller, slug) == Forbidden
            <==> && JobSlugTaken(t.jobs, slug) && t.users[caller].role != Admin
                 && t.jobs[JobWithSlug(t.jobs, slug)].postedBy != Some(caller)
    ensures DeleteJobDecisionAsWritten(t, caller, slug) == Crash <==> DeleteJobDecision(t, caller, slug) == Forbidden
    ensures DeleteJobDecisionAsWritten(t, caller, slug) != Crash
            ==> DeleteJobDecisionAsWritten(t, caller, slug) == DeleteJobDecision(t, caller, slug)
  {
  }

  method DeleteJobView(db: Database, caller: UserId, slug: string) returns (o: WriteOutcome)
    requires db.Valid() && caller in db.tables.users
    modifies db
    ensures db.Valid()
    ensures o == DeleteJobDecision(old(db.tables), caller, slug)
    ensures o.Done? ==> var (jobs', apps') := DeleteJobCascade(old(db.tables.jobs), old(db.tables.applications), o.id);
                        db.tables == old(db.tables).(jobs := jobs', applications := apps')
    ensures !o.Done? ==> db.tables == old(db.tables)
  {
    var found := db.LookupJob(slug);
    if found.None? {
      return NotFound;
    }
    var t := db.tables;
    var id := found.value;
    assert id == JobWithSlug(t.jobs, slug);
    if !MayChangeJob(t.users[caller].role, caller, t.jobs[id]) {
      return Forbidden;
    }
    db.DeleteJob(id);
    o := Done(id);
  }

  /** `CategoryCreateView.create`: `is_valid` (a name, not blank, not taken: 400), then the
      admin check (403), then the save, where a slug already taken by another category
      raises an `IntegrityError` (500). */
  function CreateCategoryDecision(t: Tables, caller: UserId, p: CategoryInput, slugify: Slugify): WriteOutcome
    requires caller in t.users
  {
    if !CategoryInputValid(p, false, t.categories, None) then Invalid
    else if !MayCreateCategory(t.users[caller].role) then Forbidden
    else if CategorySlugTaken(t.categories, slugify(Strip(p.name.value))) then Conflict
    else Done(t.nextCategoryId)
  }

  /** `CategoryCreateView.create` as written: the refusal of `perform_create` raises the
      undefined `permissions.PermissionDenied`, an `AttributeError` (500) before the save. */
  function CreateCategoryDecisionAsWritten(t: Tables, caller: UserId, p: CategoryInput, slugify: Slugify): WriteOutcome
    requires caller in t.users
  {
    if !CategoryInputValid(p, false, t.categories, None) then Invalid
    else if !MayCreateCategory(t.users[caller].role) then Crash
    else if CategorySlugTaken(t.categories, slugify(Strip(p.name.value))) then Conflict
    else Done(t.nextCategoryId)
  }

  /** A valid category from a non-admin is a 500 as written and a 403 as intended; every
      other request gets the same answer from both. */
  lemma CreateCategoryRefusalCrashes(t: Tables, caller: UserId, p: CategoryInput, slugify: Slugify)
    requires caller in t.users
    ensures CreateCategoryDecision(t, caller, p, slugify) == Forbidden
            <==> CategoryInputValid(p, false, t.categories, None) && t.users[caller].role != Admin
    ensures CreateCategoryDecisionAsWritten(t, caller, p, slugify) == Crash <==> CreateCategoryDecision(t, caller, p, slugify) == Forbidden
    ensures CreateCategoryDecisionAsWritten(t, caller, p, slugify) != Crash
            ==> CreateCategoryDecisionAsWritten(t, caller, p, slugify) == CreateCategoryDecision(t, caller, p, slugify)
  {
  }

  /** Only admins create categories, and a duplicate name is refused before any role is
      looked at. */
  lemma CategoryCreateRights(t: Tables, caller: UserId, p: CategoryInput, slugify: Slugify)
    requires caller in t.users
    ensures CreateCategoryDecision(t, caller, p, slugify).Done? ==> t.users[caller].role == Admin
    ensures p.name.Some? && CategoryNameTaken(t.categories, Strip(p.name.value)) ==> CreateCategoryDecision(t, caller, p, slugify) == Invalid
  {
  }

  method CreateCategory(db: Database, caller: UserId, p: CategoryInput, slugify: Slugify, now: Time) returns (o: WriteOutcome)
    requires db.Valid() && caller in db.tables.users
    modifies db
    ensures db.Valid()
    ensures o == CreateCategoryDecision(old(db.tables), caller, p, slugify)
    ensures o.Done? ==> db.tables == old(db.tables).(categories := old(db.tables.categories)[o.id := CreateCategoryRecord(p, slugify, now)],
                                                     nextCategoryId := o.id + 1)
    ensures !o.Done? ==> db.tables == old(db.tables)
  {
    var t := db.tables;
    if !CategoryInputValid(p, false, t.categories, None) {
      return Invalid;
    }
    if !MayCreateCategory(t.users[caller].role) {
      return Forbidden;
    }
    var c := CreateCategoryRecord(p, slugify, now);
    var r := db.InsertCategory(c);
    if r.None? {
      return Conflict;
    }
    o := Done(r.value);
  }
}
