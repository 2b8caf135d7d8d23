/** The serializers of the application endpoints: the guards on the job an application is
    for, the row a new application becomes, and the status update with its
    `reviewed_at` stamp. */
module ApplicationSerializers {
  import opened Base
  import opened Text
  import opened JobModels
  import opened ApplicationModels

  /** The refusals of `validate_job`, one per guard. */
  datatype JobRefusal = NotAccepting | NotActive | PastExpiry | AlreadyApplied

  /** The position of each guard in `validate_job`. */
  function Rank(e: JobRefusal): nat {
    match e
    case NotAccepting => 0
    case NotActive => 1
    case PastExpiry => 2
    case AlreadyApplied => 3
  }

  /** Whether the guard for `e`, taken on its own, rejects the application. */
  predicate Fails(e: JobRefusal, job: Job, jobId: JobId, apps: map<ApplicationId, Application>,
                  caller: UserId, now: Time) {
    match e
    case NotAccepting => !job.acceptApplications
    case NotActive => !job.isActive || job.status != Active
    case PastExpiry => IsExpired(job, now)
    case AlreadyApplied => HasApplied(apps, jobId, caller)
  }

  /** `validate_job`: accepting applications, then active, then not expired, then not
      already applied to by the caller. */
  function ValidateJob(job: Job, jobId: JobId, apps: map<ApplicationId, Application>,
                       caller: UserId, now: Time): (r: Option<JobRefusal>)
    ensures r.None? ==> job.acceptApplications && job.isActive && job.status == Active
    ensures r.None? ==> !IsExpired(job, now) && !HasApplied(apps, jobId, caller)
  {
    if !job.acceptApplications then Some(NotAccepting)
    else if !job.isActive || job.status != Active then Some(NotActive)
    else if IsExpired(job, now) then Some(PastExpiry)
    else if HasApplied(apps, jobId, caller) then Some(AlreadyApplied)
    else None
  }

  /** The refusal reported is exactly the first guard, in source order, that fails; the job
      passes iff no guard fails. */
  lemma ValidateJobReportsFirstFailure(job: Job, jobId: JobId, apps: map<ApplicationId, Application>,
                                       caller: UserId, now: Time, e: JobRefusal)
    ensures ValidateJob(job, jobId, apps, caller, now) == Some(e) <==>
              Fails(e, job, jobId, apps, caller, now) &&
              forall e' :: Rank(e') < Rank(e) ==> !Fails(e', job, jobId, apps, caller, now)
    ensures ValidateJob(job, jobId, apps, caller, now).None? <==>
              forall e' :: !Fails(e', job, jobId, apps, caller, now)
  {
    var r := ValidateJob(job, jobId, apps, caller, now);
    if r.None? {
      forall e' ensures !Fails(e', job, jobId, apps, caller, now) {
        match e'
        case NotAccepting =>
        case NotActive =>
        case PastExpiry =>
        case AlreadyApplied =>
      }
    } else {
      assert Fails(r.value, job, jobId, apps, caller, now);
    }
  }

  /** The fields `ApplicationCreateSerializer` accepts, as the request carries them (an
      absent text field is blank). The applicant, the status, the notes and the timestamps
      are not among them, so no request can set them. A body without `job` is refused with 400
      by the required `PrimaryKeyRelatedField` before any check below, so `job` is always
      present here. */
  datatype ApplicationInput = ApplicationInput(
    job: JobId,
    coverLetter: string,
    resumeUrl: string,
    portfolioUrl: string,
    linkedinUrl: string,
    phone: string,
    email: string,
    yearsOfExperience: Option<nat>,
    expectedSalary: Option<int>,
    availabilityDate: Option<Time>)

  /** The submitted fields of a stored application. */
  function InputOf(a: Application): ApplicationInput {
    ApplicationInput(a.job, a.coverLetter, a.resumeUrl, a.portfolioUrl, a.linkedinUrl, a.phone, a.email,
                     a.yearsOfExperience, a.expectedSalary, a.availabilityDate)
  }

  /** Every text field of a submission has no surrounding whitespace. */
  predicate InputTrimmed(input: ApplicationInput) {
    && Trimmed(input.coverLetter) && Trimmed(input.resumeUrl) && Trimmed(input.portfolioUrl)
    && Trimmed(input.linkedinUrl) && Trimmed(input.phone) && Trimmed(input.email)
  }

  /** What `is_valid` keeps of a submission: each text field stripped by its `CharField`,
      the job and the numeric and date fields as sent. */
  function CleanInput(input: ApplicationInput): (r: ApplicationInput)
    ensures r.job == input.job && r.yearsOfExperience == input.yearsOfExperience
    ensures r.expectedSalary == input.expectedSalary && r.availabilityDate == input.availabilityDate
    ensures InputTrimmed(r)
  {
    input.(coverLetter := Strip(input.coverLetter), resumeUrl := Strip(input.resumeUrl),
           portfolioUrl := Strip(input.portfolioUrl), linkedinUrl := Strip(input.linkedinUrl),
           phone := Strip(input.phone), email := Strip(input.email))
  }

  /** Cleaning leaves a submission without surrounding whitespace exactly as it is, so
      cleaning twice is cleaning once. */
  lemma CleanInputFixesTrimmed(input: ApplicationInput)
    ensures InputTrimmed(input) ==> CleanInput(input) == input
    ensures CleanInput(CleanInput(input)) == CleanInput(input)
  {
    var c := CleanInput(input);
    StripTrimmed(c.coverLetter);
    StripTrimmed(c.resumeUrl);
    StripTrimmed(c.portfolioUrl);
    StripTrimmed(c.linkedinUrl);
    StripTrimmed(c.phone);
    StripTrimmed(c.email);
    if InputTrimmed(input) {
      StripTrimmed(input.coverLetter);
      StripTrimmed(input.resumeUrl);
      StripTrimmed(input.portfolioUrl);
      StripTrimmed(input.linkedinUrl);
      StripTrimmed(input.phone);
      StripTrimmed(input.email);
    }
  }

  /** `create`: the cleaned submission is stored, the applicant is the requesting user; the
      rest takes the model defaults (`pending`, blank notes, no review yet) and the
      `auto_now_add` / `auto_now` stamps. */
  function NewApplication(input: ApplicationInput, caller: UserId, now: Time): (r: Application)
    ensures r.applicant == caller && r.job == input.job
    ensures r.status == DefaultStatus && r.reviewedAt.None?
    ensures r.adminNotes == [] && r.rejectionReason == []
    ensures r.appliedAt == now && r.updatedAt == now
    ensures InputOf(r) == CleanInput(input)
  {
    var c := CleanInput(input);
    Application(c.job, caller, c.coverLetter, c.resumeUrl, c.portfolioUrl, c.linkedinUrl,
                c.phone, c.email, DefaultStatus, [], [], now, now, None,
                c.yearsOfExperience, c.expectedSalary, c.availabilityDate)
  }

  /** Whatever the request carries, two requests by the same caller at the same instant with
      the same submitted fields give the same row: nothing else reaches it. */
  lemma NewApplicationDependsOnlyOnInput(a: Application, b: Application, caller: UserId, now: Time)
    requires InputOf(a) == InputOf(b)
    ensures NewApplication(InputOf(a), caller, now) == NewApplication(InputOf(b), caller, now)
    ensures NewApplication(InputOf(a), caller, now).applicant == caller
  {
  }

  /** The body of a status update as sent: each of the three writable fields may be absent. */
  datatype StatusPatchInput = StatusPatchInput(status: Option<string>, adminNotes: Option<string>,
                                               rejectionReason: Option<string>)

  /** A validated status update. */
  datatype StatusPatch = StatusPatch(status: Option<Status>, adminNotes: Option<string>,
                                     rejectionReason: Option<string>)

  /** The choices check on `status`: the update is rejected iff a status is sent that is not
      one of the seven codes (a choice field compares the code as sent). The notes and the
      reason are `CharField`s, kept stripped. */
  function ValidateStatusPatch(p: StatusPatchInput): (r: Option<StatusPatch>)
    ensures r.None? <==> p.status.Some? && ParseStatus(p.status.value).None?
    ensures r.Some? ==> r.value.adminNotes == StripSent(p.adminNotes) && r.value.rejectionReason == StripSent(p.rejectionReason)
    ensures r.Some? ==> (r.value.status.Some? <==> p.status.Some?)
    ensures r.Some? && r.value.status.Some? ==> StatusCode(r.value.status.value) == p.status.value
  {
    var notes := StripSent(p.adminNotes);
    var reason := StripSent(p.rejectionReason);
    if p.status.None? then Some(StatusPatch(None, notes, reason))
    else
      match ParseStatus(p.status.value)
      case None => None
      case Some(s) => Some(StatusPatch(Some(s), notes, reason))
  }

  /** Every status, sent by its code, passes validation as itself. */
  lemma ValidateStatusPatchAcceptsCodes(s: Status, notes: Option<string>, reason: Option<string>)
    ensures ValidateStatusPatch(StatusPatchInput(Some(StatusCode(s)), notes, reason)) == Some(StatusPatch(Some(s), StripSent(notes), StripSent(reason)))
  {
    StatusCodeRoundTrip(s);
  }

  /** `ApplicationUpdateStatusSerializer.update` followed by `save`: the supplied fields are
      written, `reviewed_at` is stamped when a supplied status differs from the current one,
      and `auto_now` stamps `updated_at`. */
  function ApplyStatusPatch(a: Application, p: StatusPatch, now: Time): (r: Application)
    ensures r.status == p.status.GetOr(a.status)
    ensures p.status.Some? && p.status.value != a.status ==> r.reviewedAt == Some(now)
    ensures !(p.status.Some? && p.status.value != a.status) ==> r.reviewedAt == a.reviewedAt
    ensures r.updatedAt == now
  {
    a.(status := p.status.GetOr(a.status),
       adminNotes := p.adminNotes.GetOr(a.adminNotes),
       rejectionReason := p.rejectionReason.GetOr(a.rejectionReason),
       reviewedAt := if p.status.Some? && p.status.value != a.status then Some(now) else a.reviewedAt,
       updatedAt := now)
  }

  /** Two versions of an application that agree on everything the status serializer cannot
      write. */
  predicate SameSubmission(a: Application, b: Application) {
    && a.job == b.job && a.applicant == b.applicant
    && InputOf(a) == InputOf(b)
    && a.appliedAt == b.appliedAt
  }

  /** A status update changes only `status`, `admin_notes` and `rejection_reason` (plus the
      two timestamps the model maintains), and the notes it writes are the ones supplied. */
  lemma StatusPatchWritesOnlyItsFields(a: Application, p: StatusPatch, now: Time)
    ensures SameSubmission(a, ApplyStatusPatch(a, p, now))
    ensures ApplyStatusPatch(a, p, now).adminNotes == p.adminNotes.GetOr(a.adminNotes)
    ensures ApplyStatusPatch(a, p, now).rejectionReason == p.rejectionReason.GetOr(a.rejectionReason)
  {
  }

  /** Sending the same update again stamps nothing new: `reviewed_at` keeps the first stamp,
      and only `updated_at` moves. */
  lemma StatusPatchIdempotent(a: Application, p: StatusPatch, now: Time, later: Time)
    ensures ApplyStatusPatch(ApplyStatusPatch(a, p, now), p, later) == ApplyStatusPatch(a, p, now).(updatedAt := later)
  {
  }

  /** An update that sends no status never touches `reviewed_at`, and one that moves the
      status back and forth is stamped each time it changes. */
  lemma ReviewStampFollowsChanges(a: Application, s: Status, now: Time, later: Time)
    requires s != a.status
    ensures ApplyStatusPatch(a, StatusPatch(None, None, None), now).reviewedAt == a.reviewedAt
    ensures var b := ApplyStatusPatch(a, StatusPatch(Some(s), None, None), now);
            ApplyStatusPatch(b, StatusPatch(Some(a.status), None, None), later).reviewedAt == Some(later)
  {
  }
}
