/** The dashboard's `filteredJobs`: the search box query and the selected
    criteria reduce the job list to the jobs shown. */
module JobFilter {
  import opened Text
  import opened Jobs

  /** `job.company!.toLowerCase()` on a job without a company throws a
      TypeError; it aborts `jobs.filter` and reaches no result. */
  datatype FilterError = CompanyUndefined(jobId: int)

  datatype Result<T> = Ok(value: T) | Err(error: FilterError)

  /** `matchesSearch`: the lower-cased query against the lower-cased title,
      company and location, left to right; `||` stops at the first match,
      so the company is only read when the title does not match. */
  function MatchesSearch(job: Job, query: string): (r: Result<bool>)
    ensures r.Err? <==> !Includes(ToLower(job.title), ToLower(query)) && job.company.None?
    ensures r.Err? ==> r.error == CompanyUndefined(job.id)
    ensures Includes(ToLower(job.title), ToLower(query)) ==> r == Ok(true)
    ensures r == Ok(false) ==> !Includes(ToLower(job.location), ToLower(query))
  {
    var q := ToLower(query);
    if Includes(ToLower(job.title), q) then Ok(true)
    else if job.company.None? then Err(CompanyUndefined(job.id))
    else Ok(Includes(ToLower(job.company.value), q) || Includes(ToLower(job.location), q))
  }

  /** `matchesJobType`: no type selected, or the job's type is one of them
      (`includes(undefined)` on an array of strings is false). */
  function MatchesJobType(job: Job, filters: FilterState): (matches: bool)
    ensures filters.jobTypes == [] ==> matches
    ensures filters.jobTypes != [] && matches ==> job.jobType.Some? && job.jobType.value in filters.jobTypes
    ensures job.jobType.None? && filters.jobTypes != [] ==> !matches
  {
    |filters.jobTypes| == 0 || (job.jobType.Some? && job.jobType.value in filters.jobTypes)
  }

  /** `matchesLocation`: no location selected, or the job's location is one
      of them. */
  function MatchesLocation(job: Job, filters: FilterState): (matches: bool)
    ensures filters.locations == [] ==> matches
    ensures filters.locations != [] && matches ==> job.location in filters.locations
  {
    |filters.locations| == 0 || job.location in filters.locations
  }

  /** The callback given to `jobs.filter`. */
  function Keep(job: Job, query: string, filters: FilterState): (r: Result<bool>)
    ensures r.Err? <==> MatchesSearch(job, query).Err?
    ensures r.Ok? && r.value ==> MatchesJobType(job, filters) && MatchesLocation(job, filters)
    ensures r.Ok? && !MatchesLocation(job, filters) ==> !r.value
  {
    match MatchesSearch(job, query)
    case Err(e) => Err(e)
    case Ok(search) => Ok(search && MatchesJobType(job, filters) && MatchesLocation(job, filters))
  }

  /** `jobs.filter(Keep)`: visits the jobs in order and stops at the first
      one whose callback throws. */
  function FilteredJobs(jobs: seq<Job>, query: string, filters: FilterState): (r: Result<seq<Job>>)
    ensures r.Ok? ==> |r.value| <= |jobs| && forall j :: j in r.value ==> j in jobs
    ensures r.Err? ==> exists j :: j in jobs && j.company.None? && r.error == CompanyUndefined(j.id)
    decreases |jobs|
  {
    if jobs == [] then Ok([])
    else match Keep(jobs[0], query, filters)
      case Err(e) => Err(e)
      case Ok(keep) =>
        match FilteredJobs(jobs[1..], query, filters)
        case Err(e) => Err(e)
        case Ok(rest) => Ok(if keep then [jobs[0]] + rest else rest)
  }

  // ---------------------------------------------------------------------
  // The reference behaviour, stated without lower-casing or a scan.

  /** A job the dashboard means to show: the query occurs, ignoring case,
      in its title, its company or its location, and it passes both
      criteria. */
  ghost predicate Wanted(job: Job, query: string, filters: FilterState) {
    && (|| ContainsIgnoringCase(job.title, query)
        || (job.company.Some? && ContainsIgnoringCase(job.company.value, query))
        || ContainsIgnoringCase(job.location, query))
    && MatchesJobType(job, filters)
    && MatchesLocation(job, filters)
  }

  /** The callback throws on this job: its title does not match and it has
      no company. */
  ghost predicate Throws(job: Job, query: string) {
    !ContainsIgnoringCase(job.title, query) && job.company.None?
  }

  /** The wanted jobs, in their original order. */
  ghost function Select(jobs: seq<Job>, query: string, filters: FilterState): seq<Job>
    decreases |jobs|
  {
    if jobs == [] then []
    else if Wanted(jobs[0], query, filters) then [jobs[0]] + Select(jobs[1..], query, filters)
    else Select(jobs[1..], query, filters)
  }

  /** `a` is `b` with some elements left out, the rest kept in order. */
  predicate IsSubsequence<T(==)>(a: seq<T>, b: seq<T>)
    decreases |b|
  {
    a == [] || (b != [] && ((a[0] == b[0] && IsSubsequence(a[1..], b[1..])) || IsSubsequence(a, b[1..])))
  }

  lemma KeepSpec(job: Job, query: string, filters: FilterState)
    ensures Keep(job, query, filters).Err? <==> Throws(job, query)
    ensures Keep(job, query, filters).Ok? ==> (Keep(job, query, filters).value <==> Wanted(job, query, filters))
  {
    LowerIncludesIff(job.title, query);
    LowerIncludesIff(job.location, query);
    if job.company.Some? {
      LowerIncludesIff(job.company.value, query);
    }
  }

  /** The filter throws exactly when some job throws, and otherwise returns
      the wanted jobs in order. */
  lemma {:induction false} FilteredJobsSpec(jobs: seq<Job>, query: string, filters: FilterState)
    ensures FilteredJobs(jobs, query, filters).Ok? <==> forall j :: j in jobs ==> !Throws(j, query)
    ensures FilteredJobs(jobs, query, filters).Ok? ==> FilteredJobs(jobs, query, filters).value == Select(jobs, query, filters)
    decreases |jobs|
  {
    if jobs != [] {
      KeepSpec(jobs[0], query, filters);
      FilteredJobsSpec(jobs[1..], query, filters);
      assert forall j :: j in jobs <==> j == jobs[0] || j in jobs[1..];
    }
  }

  lemma {:induction false} SelectSubsequence(jobs: seq<Job>, query: string, filters: FilterState)
    ensures IsSubsequence(Select(jobs, query, filters), jobs)
    ensures |Select(jobs, query, filters)| <= |jobs|
    decreases |jobs|
  {
    if jobs != [] {
      SelectSubsequence(jobs[1..], query, filters);
      var rest := Select(jobs[1..], query, filters);
      if Wanted(jobs[0], query, filters) {
        assert ([jobs[0]] + rest)[1..] == rest;
      }
    }
  }

  /** How often a job occurs in the selection: as often as in the list
      when it is wanted, never otherwise. */
  lemma {:induction false} SelectCount(jobs: seq<Job>, query: string, filters: FilterState, x: Job)
    ensures multiset(Select(jobs, query, filters))[x]
         == if Wanted(x, query, filters) then multiset(jobs)[x] else 0
    decreases |jobs|
  {
    if jobs != [] {
      SelectCount(jobs[1..], query, filters, x);
      assert jobs == [jobs[0]] + jobs[1..];
    }
  }

  /** Everything `filteredJobs` promises about a list it returns: the jobs
      kept are a subsequence of the input in the original order, each of
      them is wanted, and every wanted job is kept. */
  lemma FilteredJobsProperties(jobs: seq<Job>, query: string, filters: FilterState, shown: seq<Job>)
    requires FilteredJobs(jobs, query, filters) == Ok(shown)
    ensures IsSubsequence(shown, jobs)
    ensures |shown| <= |jobs|
    ensures forall j :: j in shown ==> Wanted(j, query, filters)
    ensures forall j :: j in jobs && Wanted(j, query, filters) ==> j in shown
  {
    FilteredJobsSpec(jobs, query, filters);
    SelectSubsequence(jobs, query, filters);
    forall j
      ensures j in shown ==> Wanted(j, query, filters)
      ensures j in jobs && Wanted(j, query, filters) ==> j in shown
    {
      SelectCount(jobs, query, filters, j);
    }
  }

  /** The callback never throws on jobs that all have a company: the
      non-null assertion `job.company!` is then safe. */
  lemma {:induction false} FilterSucceedsWithCompanies(jobs: seq<Job>, query: string, filters: FilterState)
    requires forall j :: j in jobs ==> j.company.Some?
    ensures FilteredJobs(jobs, query, filters).Ok?
    decreases |jobs|
  {
    if jobs != [] {
      FilterSucceedsWithCompanies(jobs[1..], query, filters);
    }
  }

  /** In particular it never throws on the list built from the endpoint's
      records, nor on any list toggling leads to from there: both are
      well formed. */
  lemma FilterSucceedsOnWellFormed(jobs: seq<Job>, query: string, filters: FilterState)
    requires WellFormed(jobs)
    ensures FilteredJobs(jobs, query, filters).Ok?
  {
    forall j | j in jobs ensures j.company.Some? {
      var i :| 0 <= i < |jobs| && jobs[i] == j;
    }
    FilterSucceedsWithCompanies(jobs, query, filters);
  }

  /** With an empty query and nothing selected every job is shown, in
      order; the empty query matches every title, so the company is never
      read and nothing throws. */
  lemma {:induction false} FilterEmptyCriteria(jobs: seq<Job>, salaryRange: (int, int))
    ensures FilteredJobs(jobs, "", FilterState([], [], salaryRange)) == Ok(jobs)
    decreases |jobs|
  {
    if jobs != [] {
      IncludesEmpty(ToLower(jobs[0].title));
      FilterEmptyCriteria(jobs[1..], salaryRange);
      assert [jobs[0]] + jobs[1..] == jobs;
    }
  }

  /** With the filter state the page starts with and an empty search box,
      every fetched job is shown. */
  lemma InitialFiltersShowAll(data: seq<RawJob>)
    ensures FilteredJobs(Normalize(data), "", InitialFilters) == Ok(Normalize(data))
  {
    FilterEmptyCriteria(Normalize(data), InitialFilters.salaryRange);
  }

  /** The salary range never influences the result. */
  lemma {:induction false} FilterIgnoresSalary(jobs: seq<Job>, query: string, filters: FilterState, salaryRange: (int, int))
    ensures FilteredJobs(jobs, query, filters) == FilteredJobs(jobs, query, filters.(salaryRange := salaryRange))
    decreases |jobs|
  {
    if jobs != [] {
      FilterIgnoresSalary(jobs[1..], query, filters, salaryRange);
    }
  }

  /** Filtering the shown list again with the same criteria shows it
      unchanged. */
  lemma {:induction false} FilterIdempotent(jobs: seq<Job>, query: string, filters: FilterState, shown: seq<Job>)
    requires FilteredJobs(jobs, query, filters) == Ok(shown)
    ensures FilteredJobs(shown, query, filters) == Ok(shown)
    decreases |jobs|
  {
    if jobs != [] {
      var rest :| FilteredJobs(jobs[1..], query, filters) == Ok(rest);
      FilterIdempotent(jobs[1..], query, filters, rest);
      if shown != rest {
        assert shown == [jobs[0]] + rest;
        assert shown[1..] == rest;
      }
    }
  }

  /** With some types selected, every shown job has one of them. */
  lemma FilterRespectsJobTypes(jobs: seq<Job>, query: string, filters: FilterState, shown: seq<Job>)
    requires FilteredJobs(jobs, query, filters) == Ok(shown)
    requires |filters.jobTypes| > 0
    ensures forall j :: j in shown ==> j.jobType.Some? && j.jobType.value in filters.jobTypes
  {
    FilteredJobsProperties(jobs, query, filters, shown);
  }

  /** With some locations selected, every shown job is at one of them. */
  lemma FilterRespectsLocations(jobs: seq<Job>, query: string, filters: FilterState, shown: seq<Job>)
    requires FilteredJobs(jobs, query, filters) == Ok(shown)
    requires |filters.locations| > 0
    ensures forall j :: j in shown ==> j.location in filters.locations
  {
    FilteredJobsProperties(jobs, query, filters, shown);
  }
}
