/** The `Application` model: its status choices and default, the `(job, applicant)`
    uniqueness, and the `applications_count` bookkeeping that `save` and `delete` do. */
module ApplicationModels {
  import opened Base
  import opened JobModels

  /** `Application.STATUS_CHOICES`: a stored status is always one of these seven. */
  datatype Status = Pending | Reviewed | Shortlisted | Interviewed | Rejected | Accepted | Withdrawn

  function StatusCode(s: Status): string {
    match s
    case Pending => "pending"
    case Reviewed => "reviewed"
    case Shortlisted => "shortlisted"
    case Interviewed => "interviewed"
    case Rejected => "rejected"
    case Accepted => "accepted"
    case Withdrawn => "withdrawn"
  }

  /** The choices check a serializer applies to an incoming `status` value. */
  function ParseStatus(code: string): (r: Option<Status>)
    ensures r.Some? ==> StatusCode(r.value) == code
  {
    if code == "pending" then Some(Pending)
    else if code == "reviewed" then Some(Reviewed)
    else if code == "shortlisted" then Some(Shortlisted)
    else if code == "interviewed" then Some(Interviewed)
    else if code == "rejected" then Some(Rejected)
    else if code == "accepted" then Some(Accepted)
    else if code == "withdrawn" then Some(Withdrawn)
    else None
  }

  lemma StatusCodeRoundTrip(s: Status)
    ensures ParseStatus(StatusCode(s)) == Some(s)
  {
  }

  /** A new application is pending. */
  const DefaultStatus: Status := Pending

  /** A row of the `applications` table. */
  datatype Application = Application(
    job: JobId,
    applicant: UserId,
    coverLetter: string,
    resumeUrl: string,
    portfolioUrl: string,
    linkedinUrl: string,
    phone: string,
    email: string,
    status: Status,
    adminNotes: string,
    rejectionReason: string,
    appliedAt: Time,
    updatedAt: Time,
    reviewedAt: Option<Time>,
    yearsOfExperience: Option<nat>,
    expectedSalary: Option<int>,
    availabilityDate: Option<Time>)

  /** `job.applications`: the ids of the applications to job `j`. */
  function ApplicationsOf(apps: map<ApplicationId, Application>, j: JobId): set<ApplicationId> {
    set id | id in apps && apps[id].job == j
  }

  /** `job.applications.count()`. */
  function ApplicationCount(apps: map<ApplicationId, Application>, j: JobId): nat {
    |ApplicationsOf(apps, j)|
  }

  /** `Application.objects.filter(job=j, applicant=u).exists()`. */
  predicate HasApplied(apps: map<ApplicationId, Application>, j: JobId, u: UserId) {
    exists id :: id in apps && apps[id].job == j && apps[id].applicant == u
  }

  /** `unique_together = ['job', 'applicant']`. */
  predicate UniquePairs(apps: map<ApplicationId, Application>) {
    forall a, b {:trigger apps[a].applicant, apps[b].applicant} :: a in apps && b in apps && apps[a].job == apps[b].job && apps[a].applicant == apps[b].applicant ==> a == b
  }

  /** Every job's stored `applications_count` is the number of its applications. */
  predicate CountersConsistent(jobs: map<JobId, Job>, apps: map<ApplicationId, Application>) {
    forall j {:trigger jobs[j].applicationsCount} :: j in jobs ==> jobs[j].applicationsCount == ApplicationCount(apps, j)
  }

  /** `job.applications_count = job.applications.count()` followed by
      `job.save(update_fields=['applications_count'])`: only that column of that job changes. */
  function Recount(jobs: map<JobId, Job>, apps: map<ApplicationId, Application>, j: JobId): (r: map<JobId, Job>)
    requires j in jobs
    ensures r.Keys == jobs.Keys
    ensures r[j].applicationsCount == ApplicationCount(apps, j)
    ensures forall k :: k in jobs && k != j ==> r[k] == jobs[k]
  {
    jobs[j := jobs[j].(applicationsCount := ApplicationCount(apps, j))]
  }

  /** A recount writes only the counter of its job. */
  lemma RecountChangesOnlyCounter(jobs: map<JobId, Job>, apps: map<ApplicationId, Application>, j: JobId)
    requires j in jobs
    ensures Recount(jobs, apps, j)[j].(applicationsCount := jobs[j].applicationsCount) == jobs[j]
  {
  }

  /** Inserting an application adds one to its own job's count and to no other. */
  lemma InsertCount(apps: map<ApplicationId, Application>, id: ApplicationId, a: Application, j: JobId)
    requires id !in apps
    ensures ApplicationCount(apps[id := a], j) == ApplicationCount(apps, j) + (if a.job == j then 1 else 0)
  {
    InsertOf(apps, id, a, j);
  }

  /** The insert adds its id to its own job's applications and to no other job's. */
  lemma InsertOf(apps: map<ApplicationId, Application>, id: ApplicationId, a: Application, j: JobId)
    requires id !in apps
    ensures ApplicationsOf(apps[id := a], j) == ApplicationsOf(apps, j) + (if a.job == j then {id} else {})
  {
  }


  /** Deleting an application takes one from its own job's count and from no other. */
  lemma DeleteCount(apps: map<ApplicationId, Application>, id: ApplicationId, j: JobId)
    requires id in apps
    ensures ApplicationCount(apps - {id}, j) + (if apps[id].job == j then 1 else 0) == ApplicationCount(apps, j)
  {
    if apps[id].job == j {
      assert ApplicationsOf(apps, j) == ApplicationsOf(apps - {id}, j) + {id};
    } else {
      assert ApplicationsOf(apps - {id}, j) == ApplicationsOf(apps, j);
    }
  }

  /** After `save` of a new application recounts its job, every counter is right again,
      and the job's counter went up by exactly one. */
  lemma InsertKeepsCounters(jobs: map<JobId, Job>, apps: map<ApplicationId, Application>,
                            id: ApplicationId, a: Application)
    requires CountersConsistent(jobs, apps) && id !in apps && a.job in jobs
    ensures CountersConsistent(Recount(jobs, apps[id := a], a.job), apps[id := a])
    ensures Recount(jobs, apps[id := a], a.job)[a.job].applicationsCount == jobs[a.job].applicationsCount + 1
  {
    var apps' := apps[id := a];
    var jobs' := Recount(jobs, apps', a.job);
    forall j | j in jobs' ensures jobs'[j].applicationsCount == ApplicationCount(apps', j) {
      InsertCount(apps, id, a, j);
    }
    InsertCount(apps, id, a, a.job);
  }

  /** After `delete` recounts the job of the removed application, every counter is right
      again, and that job's counter went down by exactly one. */
  lemma DeleteKeepsCounters(jobs: map<JobId, Job>, apps: map<ApplicationId, Application>, id: ApplicationId)
    requires CountersConsistent(jobs, apps) && id in apps && apps[id].job in jobs
    ensures CountersConsistent(Recount(jobs, apps - {id}, apps[id].job), apps - {id})
    ensures Recount(jobs, apps - {id}, apps[id].job)[apps[id].job].applicationsCount + 1 == jobs[apps[id].job].applicationsCount
  {
    var apps' := apps - {id};
    var jobs' := Recount(jobs, apps', apps[id].job);
    forall j | j in jobs' ensures jobs'[j].applicationsCount == ApplicationCount(apps', j) {
      DeleteCount(apps, id, j);
    }
    DeleteCount(apps, id, apps[id].job);
  }

  /** Re-saving an existing application under the same job needs no recount: the counters
      stay right, which is why `save` recounts only when the row is new. */
  lemma ResaveKeepsCounters(jobs: map<JobId, Job>, apps: map<ApplicationId, Application>,
                            id: ApplicationId, a: Application)
    requires CountersConsistent(jobs, apps) && id in apps && a.job == apps[id].job
    ensures CountersConsistent(jobs, apps[id := a])
  {
    forall j | j in jobs ensures jobs[j].applicationsCount == ApplicationCount(apps[id := a], j) {
      assert ApplicationsOf(apps[id := a], j) == ApplicationsOf(apps, j);
    }
  }

  /** A new `(job, applicant)` pair keeps the pairs unique. */
  lemma InsertKeepsUniquePairs(apps: map<ApplicationId, Application>, id: ApplicationId, a: Application)
    requires UniquePairs(apps) && id !in apps && !HasApplied(apps, a.job, a.applicant)
    ensures UniquePairs(apps[id := a])
  {
  }

  /** The applications of user `u` to job `j`. */
  function PairApplications(apps: map<ApplicationId, Application>, j: JobId, u: UserId): set<ApplicationId> {
    set id | id in apps && apps[id].job == j && apps[id].applicant == u
  }

  /** Under unique pairs, a caller has at most one application to a job: two applications
      by the same person to the same job are the same row. */
  lemma AtMostOneApplication(apps: map<ApplicationId, Application>, j: JobId, u: UserId)
    requires UniquePairs(apps)
    ensures |PairApplications(apps, j, u)| <= 1
    ensures |PairApplications(apps, j, u)| == 1 <==> HasApplied(apps, j, u)
  {
    var s := PairApplications(apps, j, u);
    if HasApplied(apps, j, u) {
      var x :| x in apps && apps[x].job == j && apps[x].applicant == u;
      assert s == {x};
    } else {
      assert s == {};
    }
  }
}
