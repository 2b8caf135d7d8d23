/** The bulk actions of `JobAdmin`: each is one `queryset.update` over the selected rows,
    which writes the named columns of every selected job (bypassing `auto_now`, so
    `updated_at` stays) and reports how many rows it updated. */
module JobAdmin {
  import opened Base
  import opened JobModels
  import opened ApplicationModels
  import opened JobViews
  import opened Store

  datatype JobAction = MarkFeatured | MarkUrgent | Deactivate | Activate

  /** What an action writes into one row: `is_featured=True`, `is_urgent=True`,
      `is_active=False, status='paused'` or `is_active=True, status='active'`. */
  function ActOn(a: JobAction, j: Job): (r: Job)
    ensures a == MarkFeatured ==> r.isFeatured && r.(isFeatured := j.isFeatured) == j
    ensures a == MarkUrgent ==> r.isUrgent && r.(isUrgent := j.isUrgent) == j
    ensures a == Deactivate ==> !Listed(r) && r.status == Paused && r.(isActive := j.isActive, status := j.status) == j
    ensures a == Activate ==> Listed(r) && r.(isActive := j.isActive, status := j.status) == j
    ensures SameConstrained(j, r)
    ensures r.viewsCount == j.viewsCount && r.applicationsCount == j.applicationsCount
    ensures r.createdAt == j.createdAt && r.updatedAt == j.updatedAt
  {
    match a
    case MarkFeatured => j.(isFeatured := true)
    case MarkUrgent => j.(isUrgent := true)
    case Deactivate => j.(isActive := false, status := Paused)
    case Activate => j.(isActive := true, status := Active)
  }

  /** The jobs table after the action ran on the selected rows; selected ids that are not
      rows match nothing. */
  function BulkJobs(jobs: map<JobId, Job>, selected: set<JobId>, a: JobAction): (r: map<JobId, Job>)
    ensures r.Keys == jobs.Keys
    ensures forall k :: k in jobs && k !in selected ==> r[k] == jobs[k]
    ensures forall k :: k in jobs && k in selected ==> r[k] == ActOn(a, jobs[k])
  {
    map k | k in jobs :: if k in selected then ActOn(a, jobs[k]) else jobs[k]
  }

  /** Deactivating takes exactly the selected jobs out of the public list. */
  lemma DeactivateDelists(jobs: map<JobId, Job>, selected: set<JobId>)
    ensures ListedJobs(BulkJobs(jobs, selected, Deactivate)) == ListedJobs(jobs) - selected
  {
  }

  /** Activating puts every selected job in the public list and removes none. */
  lemma ActivateLists(jobs: map<JobId, Job>, selected: set<JobId>)
    ensures ListedJobs(BulkJobs(jobs, selected, Activate)) == ListedJobs(jobs) + selected * jobs.Keys
  {
  }

  /** Marking jobs featured or urgent leaves the set of listed jobs as it is, and every
      selected row then carries the flag. */
  lemma MarkingKeepsListing(jobs: map<JobId, Job>, selected: set<JobId>, a: JobAction)
    requires a == MarkFeatured || a == MarkUrgent
    ensures ListedJobs(BulkJobs(jobs, selected, a)) == ListedJobs(jobs)
    ensures forall k :: k in selected * jobs.Keys ==>
              (if a == MarkFeatured then BulkJobs(jobs, selected, a)[k].isFeatured else BulkJobs(jobs, selected, a)[k].isUrgent)
  {
  }

  /** Running an action twice on the same selection is running it once. */
  lemma BulkJobsIdempotent(jobs: map<JobId, Job>, selected: set<JobId>, a: JobAction)
    ensures BulkJobs(BulkJobs(jobs, selected, a), selected, a) == BulkJobs(jobs, selected, a)
  {
    var once := BulkJobs(jobs, selected, a);
    var twice := BulkJobs(once, selected, a);
    forall k | k in jobs ensures twice[k] == once[k] {
      if k in selected {
        ActOnIdempotent(a, jobs[k]);
      }
    }
  }

  lemma ActOnIdempotent(a: JobAction, j: Job)
    ensures ActOn(a, ActOn(a, j)) == ActOn(a, j)
  {
  }

  /** Deactivating and then activating the same rows leaves them listed, whatever they
      were before: the two actions do not restore a previous status. */
  lemma ActivateAfterDeactivate(jobs: map<JobId, Job>, selected: set<JobId>)
    ensures var r := BulkJobs(BulkJobs(jobs, selected, Deactivate), selected, Activate);
            forall k :: k in selected * jobs.Keys ==> Listed(r[k]) && r[k].status == Active
  {
  }

  /** The actions never touch an application counter, so the counters stay right. */
  lemma BulkJobsKeepsCounters(jobs: map<JobId, Job>, apps: map<ApplicationId, Application>,
                              selected: set<JobId>, a: JobAction)
    requires CountersConsistent(jobs, apps)
    ensures CountersConsistent(BulkJobs(jobs, selected, a), apps)
  {
  }

  /** An action keeps every constraint of the schema: it writes no unique column, no
      foreign key and no counter. */
  lemma BulkJobsKeepsConsistent(t: Tables, selected: set<JobId>, a: JobAction)
    requires Consistent(t)
    ensures Consistent(t.(jobs := BulkJobs(t.jobs, selected, a)))
  {
    var jobs' := BulkJobs(t.jobs, selected, a);
    forall k | k in t.jobs
      ensures SameConstrained(t.jobs[k], jobs'[k]) && jobs'[k].applicationsCount == t.jobs[k].applicationsCount
    {
      if k in selected {
        assert jobs'[k] == ActOn(a, t.jobs[k]);
      }
    }
    RewriteJobsKeepsConsistent(t, jobs');
  }

  /** Runs an action from the admin's change list and returns the count it reports. */
  method RunJobAction(db: Database, selected: set<JobId>, a: JobAction) returns (updated: nat)
    requires db.Valid()
    modifies db
    ensures db.Valid()
    ensures updated == MatchedCount(old(db.tables.jobs), selected)
    ensures db.tables == old(db.tables).(jobs := BulkJobs(old(db.tables.jobs), selected, a))
  {
    var t := db.tables;
    BulkJobsKeepsConsistent(t, selected, a);
    db.tables := t.(jobs := BulkJobs(t.jobs, selected, a));
    updated := MatchedCount(t.jobs, selected);
  }
}
