/** The application endpoints: who may apply, which applications each role can list, read
    and update, withdrawal, and the per-status statistics. Every endpoint requires an
    authenticated caller, modelled as `caller in users`. */
module ApplicationViews {
  import opened Base
  import opened AuthModels
  import opened JobModels
  import opened ApplicationModels
  import opened ApplicationSerializers
  import opened Store

  /** The role check of `perform_create`: the `user` role (job seeker) and admins. */
  predicate MayApply(r: Role) {
    r == JobSeeker || r == Admin
  }

  /** The role check of `perform_update`. */
  predicate MayUpdateStatus(r: Role) {
    r == Admin || r == Employer
  }

  /** `Application.objects.filter(job__posted_by=user)`. */
  function ApplicationsToJobsOf(apps: map<ApplicationId, Application>, jobs: map<JobId, Job>,
                                caller: UserId): set<ApplicationId> {
    set id | id in apps && apps[id].job in jobs && jobs[apps[id].job].postedBy == Some(caller)
  }

  /** `Application.objects.filter(applicant=user)`: the queryset of "my applications". */
  function OwnApplications(apps: map<ApplicationId, Application>, caller: UserId): set<ApplicationId> {
    set id | id in apps && apps[id].applicant == caller
  }

  /** The queryset of the list and update views: everything for admins, the applications
      to their own jobs for employers, nothing for anyone else. */
  function ManagedScope(apps: map<ApplicationId, Application>, jobs: map<JobId, Job>,
                        caller: UserId, role: Role): (r: set<ApplicationId>)
    ensures r <= apps.Keys
  {
    match role
    case Admin => apps.Keys
    case Employer => ApplicationsToJobsOf(apps, jobs, caller)
    case JobSeeker => {}
  }

  /** The queryset of the detail view and of the statistics: as `ManagedScope`, except that
      anyone else sees their own applications. */
  function VisibleScope(apps: map<ApplicationId, Application>, jobs: map<JobId, Job>,
                        caller: UserId, role: Role): (r: set<ApplicationId>)
    ensures r <= apps.Keys
  {
    match role
    case Admin => apps.Keys
    case Employer => ApplicationsToJobsOf(apps, jobs, caller)
    case JobSeeker => OwnApplications(apps, caller)
  }

  /** The two querysets differ only for job seekers, who manage nothing and see exactly
      their own applications. */
  lemma ScopesDifferOnlyForSeekers(apps: map<ApplicationId, Application>, jobs: map<JobId, Job>,
                                   caller: UserId, role: Role)
    ensures ManagedScope(apps, jobs, caller, role) <= VisibleScope(apps, jobs, caller, role)
    ensures role != JobSeeker ==> ManagedScope(apps, jobs, caller, role) == VisibleScope(apps, jobs, caller, role)
    ensures role == JobSeeker ==> ManagedScope(apps, jobs, caller, role) == {}
    ensures role == JobSeeker ==> VisibleScope(apps, jobs, caller, role) == OwnApplications(apps, caller)
  {
  }

  /** A job seeker sees no one else's application; an employer sees only applications to
      jobs they posted, so two employers never share one. */
  lemma ScopesSeparateUsers(apps: map<ApplicationId, Application>, jobs: map<JobId, Job>,
                            caller: UserId, other: UserId, id: ApplicationId)
    requires caller != other
    ensures id in VisibleScope(apps, jobs, caller, JobSeeker) ==> apps[id].applicant == caller
    ensures id in VisibleScope(apps, jobs, caller, Employer) ==> jobs[apps[id].job].postedBy == Some(caller)
    ensures !(id in VisibleScope(apps, jobs, caller, Employer) && id in VisibleScope(apps, jobs, other, Employer))
  {
  }

  /** What `POST /applications/` answers: 400 for an unknown job or a refusal of
      `validate_job`, 403 for a role that may not apply, 500 for an exception raised before
      the save, 201 with the new id. */
  datatype ApplyOutcome = UnknownJob | Refused(reason: JobRefusal) | ApplyForbidden | ApplyCrash | Applied(id: ApplicationId)

  /** The order DRF runs the checks in: the job lookup and `validate_job` (inside
      `is_valid`), then the role check of `perform_create`. */
  function ApplyDecision(t: Tables, caller: UserId, input: ApplicationInput, now: Time): ApplyOutcome
    requires caller in t.users
  {
    if input.job !in t.jobs then UnknownJob
    else
      match ValidateJob(t.jobs[input.job], input.job, t.applications, caller, now)
      case Some(e) => Refused(e)
      case None => if MayApply(t.users[caller].role) then Applied(t.nextApplicationId) else ApplyForbidden
  }

  /** `ApplicationCreateView.create` as written: the refusal of `perform_create` raises
      `permissions.PermissionDenied`, a name `rest_framework.permissions` does not define,
      so an employer's valid application fails with an `AttributeError` (500) before
      anything is saved. */
  function ApplyDecisionAsWritten(t: Tables, caller: UserId, input: ApplicationInput, now: Time): ApplyOutcome
    requires caller in t.users
  {
    if input.job !in t.jobs then UnknownJob
    else
      match ValidateJob(t.jobs[input.job], input.job, t.applications, caller, now)
      case Some(e) => Refused(e)
      case None => if MayApply(t.users[caller].role) then Applied(t.nextApplicationId) else ApplyCrash
  }

  /** An employer applying to an open job gets a 500 as written and a 403 as intended;
      every other request gets the same answer from both. */
  lemma ApplyRefusalCrashes(t: Tables, caller: UserId, input: ApplicationInput, now: Time)
    requires caller in t.users
    ensures ApplyDecision(t, caller, input, now) == ApplyForbidden
            <==> && input.job in t.jobs && ValidateJob(t.jobs[input.job], input.job, t.applications, caller, now).None?
                 && t.users[caller].role == Employer
    ensures ApplyDecisionAsWritten(t, caller, input, now) == ApplyCrash <==> ApplyDecision(t, caller, input, now) == ApplyForbidden
    ensures ApplyDecisionAsWritten(t, caller, input, now) != ApplyCrash
            ==> ApplyDecisionAsWritten(t, caller, input, now) == ApplyDecision(t, caller, input, now)
  {
  }

  /** A successful application is the caller's, pending, for a job that is open, active
      and unexpired; it keeps the database consistent and adds one to the job's counter.
      Employers never get this far. */
  lemma AppliedMeansOpenJobAndPendingRow(t: Tables, caller: UserId, input: ApplicationInput, now: Time)
    requires Consistent(t) && caller in t.users
    requires ApplyDecision(t, caller, input, now).Applied?
    ensures var job := t.jobs[input.job];
            job.acceptApplications && job.isActive && job.status == Active && !IsExpired(job, now)
    ensures t.users[caller].role != Employer
    ensures var t' := AddApplication(t, NewApplication(input, caller, now));
            && Consistent(t')
            && t'.applications[t.nextApplicationId].applicant == caller
            && t'.applications[t.nextApplicationId].status == Pending
            && t'.jobs[input.job].applicationsCount == t.jobs[input.job].applicationsCount + 1
  {
    InsertApplicationKeepsConsistent(t, NewApplication(input, caller, now));
  }

  /** Once an application has been created, the same caller applying to the same job again
      is refused, at any later time. */
  lemma ApplyingTwiceIsRefused(t: Tables, caller: UserId, input: ApplicationInput, now: Time,
                               again: ApplicationInput, later: Time)
    requires caller in t.users
    requires ApplyDecision(t, caller, input, now).Applied?
    requires again.job == input.job
    ensures ApplyDecision(AddApplication(t, NewApplication(input, caller, now)), caller, again, later).Refused?
  {
    var t' := AddApplication(t, NewApplication(input, caller, now));
    assert t'.applications[t.nextApplicationId].job == again.job;
    assert HasApplied(t'.applications, again.job, caller);
  }

  /** `ApplicationCreateView.create`. */
  method Apply(db: Database, caller: UserId, input: ApplicationInput, now: Time) returns (o: ApplyOutcome)
    requires db.Valid() && caller in db.tables.users
    modifies db
    ensures db.Valid()
    ensures o == ApplyDecision(old(db.tables), caller, input, now)
    ensures o.Applied? ==> db.tables == AddApplication(old(db.tables), NewApplication(input, caller, now))
    ensures !o.Applied? ==> db.tables == old(db.tables)
  {
    var t := db.tables;
    if input.job !in t.jobs {
      return UnknownJob;
    }
    var refusal := ValidateJob(t.jobs[input.job], input.job, t.applications, caller, now);
    if refusal.Some? {
      return Refused(refusal.value);
    }
    if !MayApply(t.users[caller].role) {
      return ApplyForbidden;
    }
    var r := db.InsertApplication(NewApplication(input, caller, now));
    o := Applied(r.value);
  }

  /** What `PATCH /applications/<pk>/update/` answers. */
  datatype UpdateOutcome = UpdateNotFound | UpdateInvalid | UpdateForbidden | Updated(row: Application)

  /** `get_object` on `ManagedScope` (404), then the status choices (400), then the role
      check of `perform_update` (403), then the serializer's update. */
  function UpdateDecision(apps: map<ApplicationId, Application>, jobs: map<JobId, Job>, caller: UserId,
                          role: Role, id: ApplicationId, p: StatusPatchInput, now: Time): UpdateOutcome
  {
    if id !in ManagedScope(apps, jobs, caller, role) then UpdateNotFound
    else
      match ValidateStatusPatch(p)
      case None => UpdateInvalid
      case Some(patch) => if MayUpdateStatus(role) then Updated(ApplyStatusPatch(apps[id], patch, now)) else UpdateForbidden
  }

  /** The role check of `perform_update` never fires: a caller who may not update has an
      empty queryset and gets 404 first. Employers reach only applications to their own
      jobs. */
  lemma UpdateNeverForbidden(apps: map<ApplicationId, Application>, jobs: map<JobId, Job>, caller: UserId,
                             role: Role, id: ApplicationId, p: StatusPatchInput, now: Time)
    ensures UpdateDecision(apps, jobs, caller, role, id, p, now) != UpdateForbidden
    ensures role == JobSeeker ==> UpdateDecision(apps, jobs, caller, role, id, p, now) == UpdateNotFound
    ensures role == Employer && UpdateDecision(apps, jobs, caller, role, id, p, now).Updated? ==>
              apps[id].job in jobs && jobs[apps[id].job].postedBy == Some(caller)
  {
  }

  /** `ApplicationUpdateView.update`. */
  method UpdateApplicationStatus(db: Database, caller: UserId, id: ApplicationId, p: StatusPatchInput, now: Time)
    returns (o: UpdateOutcome)
    requires db.Valid() && caller in db.tables.users
    modifies db
    ensures db.Valid()
    ensures o == UpdateDecision(old(db.tables.applications), old(db.tables.jobs), caller,
                                old(db.tables.users[caller].role), id, p, now)
    ensures o.Updated? ==> db.tables == old(db.tables).(applications := old(db.tables.applications)[id := o.row])
    ensures !o.Updated? ==> db.tables == old(db.tables)
  {
    var t := db.tables;
    var role := t.users[caller].role;
    if id !in ManagedScope(t.applications, t.jobs, caller, role) {
      return UpdateNotFound;
    }
    var patch := ValidateStatusPatch(p);
    if patch.None? {
      return UpdateInvalid;
    }
    if !MayUpdateStatus(role) {
      return UpdateForbidden;
    }
    var a := ApplyStatusPatch(t.applications[id], patch.value, now);
    StatusPatchWritesOnlyItsFields(t.applications[id], patch.value, now);
    db.SaveApplication(id, a);
    o := Updated(a);
  }

  /** What `POST /applications/<id>/withdraw/` answers. */
  datatype WithdrawOutcome = WithdrawNotFound | WithdrawRefused | WithdrawDone

  /** 404 unless the application exists and is the caller's, 400 once it is accepted or
      rejected, 200 otherwise (an already withdrawn one included). */
  function WithdrawDecision(apps: map<ApplicationId, Application>, id: ApplicationId, caller: UserId): WithdrawOutcome {
    if id !in apps || apps[id].applicant != caller then WithdrawNotFound
    else if apps[id].status == Accepted || apps[id].status == Rejected then WithdrawRefused
    else WithdrawDone
  }

  /** `application.status = 'withdrawn'` and `save()`, which stamps `updated_at`. */
  function WithdrawnCopy(a: Application, now: Time): (r: Application)
    ensures r.status == Withdrawn && r.updatedAt == now
    ensures SameSubmission(a, r) && r.reviewedAt == a.reviewedAt
  {
    a.(status := Withdrawn, updatedAt := now)
  }

  /** Withdrawing is idempotent: a withdrawn application can be withdrawn again, with the
      same result but a newer `updated_at`. */
  lemma WithdrawIdempotent(apps: map<ApplicationId, Application>, id: ApplicationId, caller: UserId,
                           now: Time, later: Time)
    requires WithdrawDecision(apps, id, caller) == WithdrawDone
    ensures WithdrawDecision(apps[id := WithdrawnCopy(apps[id], now)], id, caller) == WithdrawDone
    ensures WithdrawnCopy(WithdrawnCopy(apps[id], now), later) == WithdrawnCopy(apps[id], later)
  {
  }

  /** A withdrawn application keeps its `(job, applicant)` row, so its applicant can never
      apply to that job again. */
  lemma WithdrawnApplicantCannotReapply(t: Tables, id: ApplicationId, caller: UserId, now: Time,
                                        input: ApplicationInput, later: Time)
    requires caller in t.users
    requires WithdrawDecision(t.applications, id, caller) == WithdrawDone
    requires input.job == t.applications[id].job && input.job in t.jobs
    ensures var t' := t.(applications := t.applications[id := WithdrawnCopy(t.applications[id], now)]);
            ApplyDecision(t', caller, input, later).Refused?
  {
    var apps' := t.applications[id := WithdrawnCopy(t.applications[id], now)];
    assert apps'[id].job == input.job && apps'[id].applicant == caller;
    assert HasApplied(apps', input.job, caller);
  }

  /** `withdraw_application_view`. */
  method Withdraw(db: Database, caller: UserId, id: ApplicationId, now: Time) returns (o: WithdrawOutcome)
    requires db.Valid() && caller in db.tables.users
    modifies db
    ensures db.Valid()
    ensures o == WithdrawDecision(old(db.tables.applications), id, caller)
    ensures o == WithdrawDone ==>
              db.tables == old(db.tables).(applications := old(db.tables.applications)[id := WithdrawnCopy(old(db.tables.applications)[id], now)])
    ensures o != WithdrawDone ==> db.tables == old(db.tables)
  {
    var apps := db.tables.applications;
    o := WithdrawDecision(apps, id, caller);
    if o == WithdrawDone {
      db.SaveApplication(id, WithdrawnCopy(apps[id], now));
    }
  }

  /** The response of `application_stats_view`. */
  datatype ApplicationStats = ApplicationStats(
    total: nat, pending: nat, reviewed: nat, shortlisted: nat,
    interviewed: nat, accepted: nat, rejected: nat, withdrawn: nat)

  /** `queryset.filter(status=s)`. */
  function WithStatus(apps: map<ApplicationId, Application>, scope: set<ApplicationId>, s: Status): set<ApplicationId> {
    set id | id in scope && id in apps && apps[id].status == s
  }

  /** The eight counts over a queryset. */
  function StatsOf(apps: map<ApplicationId, Application>, scope: set<ApplicationId>): ApplicationStats {
    ApplicationStats(|scope|,
      |WithStatus(apps, scope, Pending)|, |WithStatus(apps, scope, Reviewed)|,
      |WithStatus(apps, scope, Shortlisted)|, |WithStatus(apps, scope, Interviewed)|,
      |WithStatus(apps, scope, Accepted)|, |WithStatus(apps, scope, Rejected)|,
      |WithStatus(apps, scope, Withdrawn)|)
  }

  /** `application_stats_view`: the counts over the caller's `VisibleScope`. */
  function StatsFor(apps: map<ApplicationId, Application>, jobs: map<JobId, Job>, caller: UserId, role: Role): ApplicationStats {
    StatsOf(apps, VisibleScope(apps, jobs, caller, role))
  }

  /** The applications of a queryset whose status is one of `ss`. */
  function WithStatusIn(apps: map<ApplicationId, Application>, scope: set<ApplicationId>, ss: seq<Status>): set<ApplicationId> {
    set id | id in scope && id in apps && apps[id].status in ss
  }

  /** The sum of the per-status counts for the statuses `ss`. */
  function SumCounts(apps: map<ApplicationId, Application>, scope: set<ApplicationId>, ss: seq<Status>): nat
    decreases |ss|
  {
    if ss == [] then 0 else |WithStatus(apps, scope, ss[0])| + SumCounts(apps, scope, ss[1..])
  }

  /** For distinct statuses, the per-status counts add up to the count of the union. */
  lemma {:induction false} SumCountsIsUnionCount(apps: map<ApplicationId, Application>, scope: set<ApplicationId>, ss: seq<Status>)
    requires forall i, j :: 0 <= i < j < |ss| ==> ss[i] != ss[j]
    ensures SumCounts(apps, scope, ss) == |WithStatusIn(apps, scope, ss)|
    decreases |ss|
  {
    if ss == [] {
      assert WithStatusIn(apps, scope, ss) == {};
    } else {
      var head := WithStatus(apps, scope, ss[0]);
      var tail := WithStatusIn(apps, scope, ss[1..]);
      SumCountsIsUnionCount(apps, scope, ss[1..]);
      assert ss[0] !in ss[1..];
      assert head * tail == {};
      assert WithStatusIn(apps, scope, ss) == head + tail;
    }
  }

  /** The seven status counts partition the total: every application of the queryset has
      exactly one of the seven statuses. */
  lemma StatsPartitionTotal(apps: map<ApplicationId, Application>, scope: set<ApplicationId>)
    requires scope <= apps.Keys
    ensures var s := StatsOf(apps, scope);
            s.total == s.pending + s.reviewed + s.shortlisted + s.interviewed + s.accepted + s.rejected + s.withdrawn
  {
    var all := AllStatuses;
    SumCountsIsUnionCount(apps, scope, all);
    AllStatusesCover(apps, scope);
    SumCountsOfAll(apps, scope);
  }

  /** Every application has one of the seven statuses. */
  lemma AllStatusesCover(apps: map<ApplicationId, Application>, scope: set<ApplicationId>)
    requires scope <= apps.Keys
    ensures WithStatusIn(apps, scope, AllStatuses) == scope
  {
    forall id | id in scope ensures id in WithStatusIn(apps, scope, AllStatuses) {
      var all := AllStatuses;
      match apps[id].status
      case Pending => assert all[0] == Pending;
      case Reviewed => assert all[1] == Reviewed;
      case Shortlisted => assert all[2] == Shortlisted;
      case Interviewed => assert all[3] == Interviewed;
      case Rejected => assert all[4] == Rejected;
      case Accepted => assert all[5] == Accepted;
      case Withdrawn => assert all[6] == Withdrawn;
    }
  }

  /** The seven statuses, in the order of `STATUS_CHOICES`. */
  const AllStatuses: seq<Status> := [Pending, Reviewed, Shortlisted, Interviewed, Rejected, Accepted, Withdrawn]

  lemma SumCountsOfAll(apps: map<ApplicationId, Application>, scope: set<ApplicationId>)
    ensures var s := StatsOf(apps, scope);
            SumCounts(apps, scope, AllStatuses) == s.pending + s.reviewed + s.shortlisted + s.interviewed + s.accepted + s.rejected + s.withdrawn
  {
    var all := AllStatuses;
    assert all[6..][1..] == [];
    assert all[5..][1..] == all[6..];
    assert all[4..][1..] == all[5..];
    assert all[3..][1..] == all[4..];
    assert all[2..][1..] == all[3..];
    assert all[1..][1..] == all[2..];
  }

  /** The statistics a user gets: counts over all applications for admins, over those to the
      jobs they posted for employers, over their own for everyone else; the buckets always
      add up to the total. */
  lemma StatsForPartition(apps: map<ApplicationId, Application>, jobs: map<JobId, Job>, caller: UserId, role: Role)
    ensures var s := StatsFor(apps, jobs, caller, role);
            s.total == s.pending + s.reviewed + s.shortlisted + s.interviewed + s.accepted + s.rejected + s.withdrawn
    ensures role == JobSeeker ==> StatsFor(apps, jobs, caller, role).total == |OwnApplications(apps, caller)|
    ensures role == Admin ==> StatsFor(apps, jobs, caller, role).total == |apps|
  {
    StatsPartitionTotal(apps, VisibleScope(apps, jobs, caller, role));
    assert |apps| == |apps.Keys|;
  }
}
