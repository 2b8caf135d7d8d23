/** The bulk actions of `ApplicationAdmin`: each `mark_as_…` action is one
    `queryset.update(status=…)` over the selected rows. It applies none of the checks of the
    API paths (no terminal-status refusal, no `reviewed_at` stamp, no `auto_now`), and it
    reports how many rows it updated. */
module ApplicationAdmin {
  import opened Base
  import opened ApplicationModels
  import opened ApplicationSerializers
  import opened ApplicationViews
  import opened Store

  datatype ApplicationAction = MarkReviewed | MarkShortlisted | MarkInterviewed | MarkRejected | MarkAccepted

  /** The status each action writes. No action writes `pending` or `withdrawn`. */
  function Target(a: ApplicationAction): (s: Status)
    ensures s != Pending && s != Withdrawn
    ensures a == MarkAccepted <==> s == Accepted
    ensures a == MarkRejected <==> s == Rejected
  {
    match a
    case MarkReviewed => Reviewed
    case MarkShortlisted => Shortlisted
    case MarkInterviewed => Interviewed
    case MarkRejected => Rejected
    case MarkAccepted => Accepted
  }

  /** The applications table after `status` was set to `s` on the selected rows. */
  function BulkStatus(apps: map<ApplicationId, Application>, selected: set<ApplicationId>, s: Status)
    : (r: map<ApplicationId, Application>)
    ensures r.Keys == apps.Keys
    ensures forall k :: k in apps && k !in selected ==> r[k] == apps[k]
    ensures forall k :: k in apps && k in selected ==> r[k].status == s && r[k].(status := apps[k].status) == apps[k]
  {
    map k | k in apps :: if k in selected then apps[k].(status := s) else apps[k]
  }

  /** Only `status` changes: the submission, `reviewed_at` and `updated_at` stay as they
      were, whatever the previous status, `accepted` and `rejected` included. */
  lemma BulkStatusWritesOnlyStatus(apps: map<ApplicationId, Application>, selected: set<ApplicationId>,
                                   a: ApplicationAction)
    ensures var r := BulkStatus(apps, selected, Target(a));
            forall k :: k in apps ==>
              && SameSubmission(apps[k], r[k])
              && r[k].reviewedAt == apps[k].reviewedAt && r[k].updatedAt == apps[k].updatedAt
              && r[k].adminNotes == apps[k].adminNotes && r[k].rejectionReason == apps[k].rejectionReason
              && (k in selected ==> r[k].status == Target(a))
  {
    var r := BulkStatus(apps, selected, Target(a));
    forall k | k in apps
      ensures SameSubmission(apps[k], r[k])
    {
      if k in selected {
        assert r[k] == apps[k].(status := Target(a));
      }
    }
  }

  /** There is no terminal-status check: an accepted application can be reopened as reviewed,
      which the withdraw endpoint refuses to do for its applicant. */
  lemma AcceptedCanBeReopened(apps: map<ApplicationId, Application>, k: ApplicationId)
    requires k in apps && apps[k].status == Accepted
    ensures BulkStatus(apps, {k}, Target(MarkReviewed))[k].status == Reviewed
    ensures WithdrawDecision(apps, k, apps[k].applicant) == WithdrawRefused
  {
  }

  /** Unlike the status endpoint, which stamps `reviewed_at` when the status changes, the
      action leaves the stamp as it was. */
  lemma BulkLeavesReviewStamp(apps: map<ApplicationId, Application>, selected: set<ApplicationId>,
                              a: ApplicationAction, now: Time)
    ensures var r := BulkStatus(apps, selected, Target(a));
            forall k :: k in apps && k in selected ==>
              && r[k].reviewedAt == apps[k].reviewedAt
              && (apps[k].status != Target(a) && apps[k].reviewedAt != Some(now) ==>
                    r[k].reviewedAt != ApplyStatusPatch(apps[k], StatusPatch(Some(Target(a)), None, None), now).reviewedAt)
  {
    var r := BulkStatus(apps, selected, Target(a));
    forall k | k in apps && k in selected
      ensures r[k].reviewedAt == apps[k].reviewedAt
      ensures apps[k].status != Target(a) && apps[k].reviewedAt != Some(now) ==>
                r[k].reviewedAt != ApplyStatusPatch(apps[k], StatusPatch(Some(Target(a)), None, None), now).reviewedAt
    {
      assert r[k] == apps[k].(status := Target(a));
    }
  }

  /** Running an action twice on the same selection is running it once. */
  lemma BulkStatusIdempotent(apps: map<ApplicationId, Application>, selected: set<ApplicationId>, a: ApplicationAction)
    ensures BulkStatus(BulkStatus(apps, selected, Target(a)), selected, Target(a)) == BulkStatus(apps, selected, Target(a))
  {
    var once := BulkStatus(apps, selected, Target(a));
    var twice := BulkStatus(once, selected, Target(a));
    forall k | k in apps ensures twice[k] == once[k] {
      if k in selected {
        assert once[k] == apps[k].(status := Target(a));
        assert twice[k] == once[k].(status := Target(a));
      }
    }
  }

  /** After the action every selected application is in the target bucket of the admin's
      statistics, and the total does not change. */
  lemma BulkStatusFillsBucket(apps: map<ApplicationId, Application>, selected: set<ApplicationId>,
                              a: ApplicationAction)
    ensures var r := BulkStatus(apps, selected, Target(a));
            selected * apps.Keys <= WithStatus(r, r.Keys, Target(a))
    ensures |BulkStatus(apps, selected, Target(a)).Keys| == |apps.Keys|
  {
  }

  /** The action keeps every constraint: neither the job nor the applicant of any row
      changes, so the pairs stay unique and the counters stay right. */
  lemma BulkStatusKeepsConsistent(t: Tables, selected: set<ApplicationId>, s: Status)
    requires Consistent(t)
    ensures Consistent(t.(applications := BulkStatus(t.applications, selected, s)))
  {
    var apps' := BulkStatus(t.applications, selected, s);
    forall k | k in apps'
      ensures apps'[k].job == t.applications[k].job && apps'[k].applicant == t.applications[k].applicant
    {
      if k in selected {
        assert apps'[k] == t.applications[k].(status := s);
      }
    }
    ReplaceApplicationsKeepsConsistent(t, apps');
  }

  /** Runs an action from the admin's change list and returns the count it reports. */
  method RunApplicationAction(db: Database, selected: set<ApplicationId>, a: ApplicationAction) returns (updated: nat)
    requires db.Valid()
    modifies db
    ensures db.Valid()
    ensures updated == MatchedCount(old(db.tables.applications), selected)
    ensures db.tables == old(db.tables).(applications := BulkStatus(old(db.tables.applications), selected, Target(a)))
  {
    var t := db.tables;
    BulkStatusKeepsConsistent(t, selected, Target(a));
    db.tables := t.(applications := BulkStatus(t.applications, selected, Target(a)));
    updated := MatchedCount(t.applications, selected);
  }
}
