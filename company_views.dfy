/** The company endpoints: the list in name order with its `active_job_count` annotation,
    the detail view, and the create, update and delete views with their role checks. */
module CompanyViews {
  import opened Base
  import opened Text
  import opened AuthModels
  import opened CompanyModels
  import opened JobModels
  import opened Ordering
  import opened CompanySerializers
  import opened JobAdmin
  import opened Store

  /** The role check of `CompanyCreateView.perform_create`. */
  predicate MayCreateCompany(r: Role) {
    r == Admin || r == Employer
  }

  /** The role check of `perform_update`: employers only. Whose company it is plays no part. */
  predicate MayUpdateCompany(r: Role) {
    r == Employer
  }

  /** The role check of `perform_destroy`. */
  predicate MayDeleteCompany(r: Role) {
    r == Admin
  }

  /** Admins may create and delete companies but not update them; employers may create and
      update but not delete; job seekers may do none of the three. No role may both update
      and delete. */
  lemma CompanyRights(r: Role)
    ensures !(MayUpdateCompany(r) && MayDeleteCompany(r))
    ensures MayCreateCompany(r) <==> MayUpdateCompany(r) || MayDeleteCompany(r)
    ensures r == JobSeeker ==> !MayCreateCompany(r) && !MayUpdateCompany(r) && !MayDeleteCompany(r)
  {
  }

  /** `ordering = ['name']`. */
  function NameKey(companies: map<CompanyId, Company>): CompanyId -> seq<int> {
    id => if id in companies then TextKey(companies[id].name) else []
  }

  /** Every company, by name (companies with the same name come in an order the database
      chooses; this is one of them). */
  ghost function CompanyOrder(companies: map<CompanyId, Company>): (r: seq<CompanyId>)
    ensures forall id :: id in r <==> id in companies
    ensures |r| == |companies|
    ensures SortedBy(r, NameKey(companies))
  {
    var s := Enumerate(companies.Keys);
    SortByKeyElements(s, NameKey(companies));
    SortByKey(s, NameKey(companies))
  }

  /** `CompanyListView`: each company of the ordering with its `active_job_count`. */
  ghost function CompanyList(companies: map<CompanyId, Company>, jobs: map<JobId, Job>): (r: seq<(CompanyId, nat)>)
    ensures |r| == |companies|
    ensures forall i :: 0 <= i < |r| ==> r[i].0 == CompanyOrder(companies)[i]
  {
    Annotate(CompanyOrder(companies), jobs)
  }

  /** Pairs each id with its company's active-job count. */
  function Annotate(ids: seq<CompanyId>, jobs: map<JobId, Job>): (r: seq<(CompanyId, nat)>)
    ensures |r| == |ids|
    ensures forall i :: 0 <= i < |r| ==> r[i] == (ids[i], ActiveJobCount(jobs, ids[i]))
  {
    if ids == [] then [] else [(ids[0], ActiveJobCount(jobs, ids[0]))] + Annotate(ids[1..], jobs)
  }

  /** Every company has a row in the list. */
  lemma CompanyListHasEvery(companies: map<CompanyId, Company>, jobs: map<JobId, Job>, id: CompanyId)
    requires id in companies
    ensures exists i :: 0 <= i < |CompanyList(companies, jobs)| && CompanyList(companies, jobs)[i].0 == id
  {
    var ids := CompanyOrder(companies);
    var i :| 0 <= i < |ids| && ids[i] == id;
    assert CompanyList(companies, jobs)[i].0 == id;
  }

  /** The rows of the list come in name order, and each carries the company's active-job
      count, which never exceeds the number of its jobs. */
  lemma CompanyListRows(companies: map<CompanyId, Company>, jobs: map<JobId, Job>, i: nat, k: nat)
    requires i < k < |CompanyList(companies, jobs)|
    ensures var r := CompanyList(companies, jobs);
            && r[i].0 in companies && r[k].0 in companies
            && KeyLe(TextKey(companies[r[i].0].name), TextKey(companies[r[k].0].name))
            && r[i].1 == ActiveJobCount(jobs, r[i].0)
            && r[i].1 <= |CompanyJobs(jobs, r[i].0)|
  {
    var ids := CompanyOrder(companies);
    assert ids[i] in ids && ids[k] in ids;
    ActiveJobCountBounds(jobs, ids[i]);
  }

  /** Deactivating jobs from the admin takes exactly the selected ones out of a company's
      active-job count. */
  lemma DeactivateLowersActiveCount(jobs: map<JobId, Job>, selected: set<JobId>, c: CompanyId)
    ensures ActiveJobs(BulkJobs(jobs, selected, Deactivate), c) == ActiveJobs(jobs, c) - selected
  {
    var r := BulkJobs(jobs, selected, Deactivate);
    forall k | k in r && k in selected ensures !r[k].isActive {
      assert r[k] == ActOn(Deactivate, jobs[k]);
    }
  }

  /** Activating jobs adds exactly the selected jobs of the company to its count. */
  lemma ActivateRaisesActiveCount(jobs: map<JobId, Job>, selected: set<JobId>, c: CompanyId)
    ensures ActiveJobs(BulkJobs(jobs, selected, Activate), c) == ActiveJobs(jobs, c) + selected * CompanyJobs(jobs, c)
  {
    var r := BulkJobs(jobs, selected, Activate);
    forall k | k in r && k in selected ensures r[k].isActive && r[k].company == jobs[k].company {
      assert r[k] == ActOn(Activate, jobs[k]);
    }
  }

  /** The row a slug names (unique by the `slug` column). */
  ghost function CompanyWithSlug(companies: map<CompanyId, Company>, slug: string): (id: CompanyId)
    requires CompanySlugTaken(companies, slug)
    ensures id in companies && companies[id].slug == slug
  {
    var id :| id in companies && companies[id].slug == slug; id
  }

  /** `CompanyDetailView`: 404 for an unknown slug, otherwise the company and its
      `active_job_count`. */
  ghost function RetrieveCompany(t: Tables, slug: string): (r: Option<(Company, nat)>)
    ensures r.None? <==> !CompanySlugTaken(t.companies, slug)
    ensures r.Some? ==> r.value.0.slug == slug && r.value.0 in t.companies.Values
  {
    if !CompanySlugTaken(t.companies, slug) then None
    else
      var id := CompanyWithSlug(t.companies, slug);
      Some((t.companies[id], ActiveJobCount(t.jobs, id)))
  }

  /** The detail's count is the active-job count of the one company with that slug. */
  lemma RetrieveCompanyCount(t: Tables, slug: string, id: CompanyId)
    requires Consistent(t) && id in t.companies && t.companies[id].slug == slug
    ensures RetrieveCompany(t, slug) == Some((t.companies[id], ActiveJobCount(t.jobs, id)))
  {
    assert CompanyWithSlug(t.companies, slug) == id;
  }

  /** `CompanyCreateView.create`: `is_valid` (400), the role check (403), then the save,
      where a slug that is already taken raises an `IntegrityError` (500). */
  function CreateCompanyDecision(t: Tables, caller: UserId, p: CompanyInput, slugify: Slugify, loadYear: int): WriteOutcome
    requires caller in t.users
  {
    if !CompanyInputValid(p, false, loadYear) then Invalid
    else if !MayCreateCompany(t.users[caller].role) then Forbidden
    else if CompanySlugTaken(t.companies, slugify(Strip(p.name.value))) then Conflict
    else Done(t.nextCompanyId)
  }

  /** A created company is unverified and was created by an admin or an employer; two
      companies with the same name cannot both be created, because their slugs clash. */
  lemma CreatedCompanyFacts(t: Tables, caller: UserId, p: CompanyInput, slugify: Slugify, now: Time, loadYear: int)
    requires caller in t.users
    ensures CreateCompanyDecision(t, caller, p, slugify, loadYear).Done? ==>
              && t.users[caller].role != JobSeeker
              && !CreateCompanyRecord(p, slugify, now).isVerified
    ensures p.name.Some? && CompanyInputValid(p, false, loadYear) && MayCreateCompany(t.users[caller].role)
            && (exists k :: k in t.companies && t.companies[k].slug == slugify(Strip(p.name.value)))
            ==> CreateCompanyDecision(t, caller, p, slugify, loadYear) == Conflict
  {
  }

  method CreateCompany(db: Database, caller: UserId, p: CompanyInput, slugify: Slugify, now: Time, loadYear: int)
    returns (o: WriteOutcome)
    requires db.Valid() && caller in db.tables.users
    modifies db
    ensures db.Valid()
    ensures o == CreateCompanyDecision(old(db.tables), caller, p, slugify, loadYear)
    ensures o.Done? ==> db.tables == old(db.tables).(companies := old(db.tables.companies)[o.id := CreateCompanyRecord(p, slugify, now)],
                                                     nextCompanyId := o.id + 1)
    ensures !o.Done? ==> db.tables == old(db.tables)
  {
    var t := db.tables;
    if !CompanyInputValid(p, false, loadYear) {
      return Invalid;
    }
    if !MayCreateCompany(t.users[caller].role) {
      return Forbidden;
    }
    var r := db.InsertCompany(CreateCompanyRecord(p, slugify, now));
    if r.None? {
      return Conflict;
    }
    o := Done(r.value);
  }

  /** `CompanyUpdateDeleteView.update`: `get_object` by slug (404), `is_valid` (400), the
      employer check of `perform_update` (403), then the save, which raises an
      `IntegrityError` (500) when a new name's slug is another company's. */
  ghost function UpdateCompanyDecision(t: Tables, caller: UserId, slug: string, p: CompanyInput, partial: bool,
                                       slugify: Slugify, now: Time, loadYear: int): WriteOutcome
    requires caller in t.users
  {
    if !CompanySlugTaken(t.companies, slug) then NotFound
    else
      var id := CompanyWithSlug(t.companies, slug);
      if !CompanyInputValid(p, partial, loadYear) then Invalid
      else if !MayUpdateCompany(t.users[caller].role) then Forbidden
      else if exists k :: k in t.companies && k != id && t.companies[k].slug == PatchCompany(t.companies[id], p, slugify, now).slug
      then Conflict
      else Done(id)
  }

  /** Only employers update companies, any employer any company: two employers sending the
      same request get the same answer. An update never changes the verification flag. */
  lemma UpdatedCompanyFacts(t: Tables, caller: UserId, other: UserId, slug: string, p: CompanyInput, partial: bool,
                            slugify: Slugify, now: Time, loadYear: int)
    requires caller in t.users && other in t.users
    ensures UpdateCompanyDecision(t, caller, slug, p, partial, slugify, now, loadYear).Done? ==>
              t.users[caller].role == Employer
    ensures t.users[caller].role == Employer && t.users[other].role == Employer ==>
              UpdateCompanyDecision(t, caller, slug, p, partial, slugify, now, loadYear)
              == UpdateCompanyDecision(t, other, slug, p, partial, slugify, now, loadYear)
    ensures CompanySlugTaken(t.companies, slug) ==>
              var id := CompanyWithSlug(t.companies, slug);
              PatchCompany(t.companies[id], p, slugify, now).isVerified == t.companies[id].isVerified
  {
  }

  method UpdateCompany(db: Database, caller: UserId, slug: string, p: CompanyInput, partial: bool,
                       slugify: Slugify, now: Time, loadYear: int) returns (o: WriteOutcome)
    requires db.Valid() && caller in db.tables.users
    modifies db
    ensures db.Valid()
    ensures o == UpdateCompanyDecision(old(db.tables), caller, slug, p, partial, slugify, now, loadYear)
    ensures o.Done? ==> db.tables == old(db.tables).(companies := old(db.tables.companies)[o.id := PatchCompany(old(db.tables.companies)[o.id], p, slugify, now)])
    ensures !o.Done? ==> db.tables == old(db.tables)
  {
    var found := db.LookupCompany(slug);
    if found.None? {
      return NotFound;
    }
    var t := db.tables;
    var id := found.value;
    assert id == CompanyWithSlug(t.companies, slug);
    if !CompanyInputValid(p, partial, loadYear) {
      return Invalid;
    }
    if !MayUpdateCompany(t.users[caller].role) {
      return Forbidden;
    }
    var ok := db.SaveCompany(id, PatchCompany(t.companies[id], p, slugify, now));
    if !ok {
      return Conflict;
    }
    o := Done(id);
  }

  /** `CompanyUpdateDeleteView.destroy`: 404, then the admin check (403), then the delete
      with its cascade to the company's jobs and their applications. */
  ghost function DeleteCompanyDecision(t: Tables, caller: UserId, slug: string): WriteOutcome
    requires caller in t.users
  {
    if !CompanySlugTaken(t.companies, slug) then NotFound
    else if !MayDeleteCompany(t.users[caller].role) then Forbidden
    else Done(CompanyWithSlug(t.companies, slug))
  }

  /** Only admins delete companies, and once a company is deleted none of its jobs and none
      of the applications to them are left. */
  lemma DeletedCompanyFacts(t: Tables, caller: UserId, slug: string)
    requires Consistent(t) && caller in t.users && DeleteCompanyDecision(t, caller, slug).Done?
    ensures t.users[caller].role == Admin
    ensures var c := DeleteCompanyDecision(t, caller, slug).id;
            var (jobs', apps') := DeleteCompanyCascade(t.jobs, t.applications, c);
            && CompanyJobs(jobs', c) == {}
            && forall a :: a in apps' ==> apps'[a].job in jobs'
  {
    var c := DeleteCompanyDecision(t, caller, slug).id;
    DeleteCompanyKeepsConsistent(t, c);
  }

  method DeleteCompanyView(db: Database, caller: UserId, slug: string) returns (o: WriteOutcome)
    requires db.Valid() && caller in db.tables.users
    modifies db
    ensures db.Valid()
    ensures o == DeleteCompanyDecision(old(db.tables), caller, slug)
    ensures o.Done? ==> var (jobs', apps') := DeleteCompanyCascade(old(db.tables.jobs), old(db.tables.applications), o.id);
                        db.tables == old(db.tables).(companies := old(db.tables.companies) - {o.id}, jobs := jobs', applications := apps')
    ensures !o.Done? ==> db.tables == old(db.tables)
  {
    var found := db.LookupCompany(slug);
    if found.None? {
      return NotFound;
    }
    var t := db.tables;
    var id := found.value;
    assert id == CompanyWithSlug(t.companies, slug);
    if !MayDeleteCompany(t.users[caller].role) {
      return Forbidden;
    }
    db.DeleteCompany(id);
    o := Done(id);
  }
}
