/** `JobFilter`, the filter set of the public job list: each supplied query parameter
    narrows the queryset, and the filters combine by conjunction. */
module JobFilters {
  import opened Base
  import opened Text
  import opened JobModels
  import opened Ordering

  /** The query parameters of `JobFilter` as the filter form cleans them, each absent or
      given. The numbers, dates and choices are already parsed. `location` and `skills`
      are the form's cleaned text: stripped of surrounding whitespace, as a form
      `CharField` strips it, and absent when that leaves them blank, because a filter
      skips an empty value. */
  datatype JobQuery = JobQuery(
    location: Option<string>,
    salaryMin: Option<int>,
    salaryMax: Option<int>,
    company: Option<CompanyId>,
    category: Option<CategoryId>,
    skills: Option<string>,
    createdAfter: Option<Time>,
    createdBefore: Option<Time>,
    jobType: Option<JobType>,
    experienceLevel: Option<ExperienceLevel>,
    isRemote: Option<bool>,
    remoteType: Option<RemoteType>,
    isFeatured: Option<bool>,
    isUrgent: Option<bool>)

  /** A request without filter parameters. */
  const NoFilters: JobQuery := JobQuery(None, None, None, None, None, None, None, None, None, None, None, None, None, None)

  /** `salary_min__gte` / `salary_max__lte`: a null salary never satisfies a comparison. */
  predicate AtLeast(v: Option<int>, bound: int) {
    v.Some? && v.value >= bound
  }

  predicate AtMost(v: Option<int>, bound: int) {
    v.Some? && v.value <= bound
  }

  /** Whether a job passes every supplied filter: `icontains` on `location` and on
      `skills_required`, the salary bounds, the two foreign keys by id, the inclusive
      creation-date bounds and the six exact matches. */
  predicate Matches(q: JobQuery, j: Job) {
    && (q.location.Some? ==> IContains(j.location, q.location.value))
    && (q.salaryMin.Some? ==> AtLeast(j.salaryMin, q.salaryMin.value))
    && (q.salaryMax.Some? ==> AtMost(j.salaryMax, q.salaryMax.value))
    && (q.company.Some? ==> j.company == q.company.value)
    && (q.category.Some? ==> j.category == Some(q.category.value))
    && (q.skills.Some? ==> IContains(j.skillsRequired, q.skills.value))
    && (q.createdAfter.Some? ==> j.createdAt >= q.createdAfter.value)
    && (q.createdBefore.Some? ==> j.createdAt <= q.createdBefore.value)
    && (q.jobType.Some? ==> j.jobType == q.jobType.value)
    && (q.experienceLevel.Some? ==> j.experienceLevel == q.experienceLevel.value)
    && (q.isRemote.Some? ==> j.isRemote == q.isRemote.value)
    && (q.remoteType.Some? ==> j.remoteType == q.remoteType.value)
    && (q.isFeatured.Some? ==> j.isFeatured == q.isFeatured.value)
    && (q.isUrgent.Some? ==> j.isUrgent == q.isUrgent.value)
  }

  /** The filtered queryset: the ids of `s` whose job matches, in their original order. */
  function FilterJobs(q: JobQuery, jobs: map<JobId, Job>, s: seq<JobId>): (r: seq<JobId>)
    ensures forall x :: x in r <==> x in s && x in jobs && Matches(q, jobs[x])
    ensures |r| <= |s|
    decreases |s|
  {
    if s == [] then []
    else
      var rest := FilterJobs(q, jobs, s[1..]);
      if s[0] in jobs && Matches(q, jobs[s[0]]) then [s[0]] + rest else rest
  }

  /** Filtering keeps the queryset's ordering: a sorted list stays sorted. */
  lemma {:induction false} FilterKeepsOrder(q: JobQuery, jobs: map<JobId, Job>, s: seq<JobId>, key: JobId -> seq<int>)
    requires SortedBy(s, key)
    ensures SortedBy(FilterJobs(q, jobs, s), key)
    decreases |s|
  {
    if s != [] {
      assert SortedBy(s[1..], key) by {
        forall i, j | 0 <= i < j < |s[1..]| ensures KeyLe(key(s[1..][i]), key(s[1..][j])) {
          assert s[1..][i] == s[i + 1] && s[1..][j] == s[j + 1];
        }
      }
      FilterKeepsOrder(q, jobs, s[1..], key);
      var rest := FilterJobs(q, jobs, s[1..]);
      forall k | 0 <= k < |rest| ensures KeyLe(key(s[0]), key(rest[k])) {
        assert rest[k] in s[1..];
        var m :| 0 <= m < |s[1..]| && s[1..][m] == rest[k];
        assert s[m + 1] == rest[k];
      }
    }
  }

  /** No filter keeps everything; an empty text filter matches every job (as `icontains ''`
      does). */
  lemma NoFiltersKeepAll(jobs: map<JobId, Job>, s: seq<JobId>, j: Job)
    requires forall x :: x in s ==> x in jobs
    ensures FilterJobs(NoFilters, jobs, s) == s
    ensures Matches(NoFilters.(location := Some(""), skills := Some("")), j)
    decreases |s|
  {
    IContainsEmpty(j.location);
    IContainsEmpty(j.skillsRequired);
    if s != [] {
      NoFiltersKeepAll(jobs, s[1..], j);
    }
  }

  /** A salary filter drops every job whose salary is null, whatever the bound. */
  lemma SalaryFiltersDropNulls(q: JobQuery, j: Job)
    requires (q.salaryMin.Some? && j.salaryMin.None?) || (q.salaryMax.Some? && j.salaryMax.None?)
    ensures !Matches(q, j)
  {
  }

  /** Filtering is idempotent: applying the same query to its own result keeps that
      result unchanged. */
  lemma {:induction false} FilterIdempotent(q: JobQuery, jobs: map<JobId, Job>, s: seq<JobId>)
    ensures FilterJobs(q, jobs, FilterJobs(q, jobs, s)) == FilterJobs(q, jobs, s)
    decreases |s|
  {
    if s != [] {
      FilterIdempotent(q, jobs, s[1..]);
      var rest := FilterJobs(q, jobs, s[1..]);
      if s[0] in jobs && Matches(q, jobs[s[0]]) {
        assert ([s[0]] + rest)[1..] == rest;
      }
    }
  }

  /** The location filter is case-insensitive in the query as in the column. */
  lemma LocationFilterIgnoresCase(q: JobQuery, j: Job)
    requires q.location.Some?
    ensures Matches(q, j) <==> Matches(q.(location := Some(Lower(q.location.value))), j)
  {
    IContainsFoldsQuery(j.location, q.location.value);
  }
}
