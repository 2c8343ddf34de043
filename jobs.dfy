/** The job seeker dashboard's data: the records decoded from the jobs
    endpoint, the `Job` shape the page keeps in its state, the filter
    criteria, and the mapping from the former to the latter. */
module Jobs {

  datatype Option<T> = None | Some(value: T)

  /** One record of the decoded JSON array. Only the fields the page reads
      are kept; a field the page defaults may be absent. The JSON key
      `type` is called `jobType` here (`type` is a Dafny keyword). */
  datatype RawJob = RawJob(
    title: string,
    company: Option<string>,
    location: string,
    salaryText: string,
    salaryMin: Option<string>,
    salaryMax: Option<string>,
    jobType: Option<string>,
    postedAt: string,
    description: Option<string>)

  /** The page's `Job` type: `company`, `type`, `saved` and `description`
      are optional members. */
  datatype Job = Job(
    id: int,
    title: string,
    company: Option<string>,
    location: string,
    salaryText: string,
    salaryMin: Option<string>,
    salaryMax: Option<string>,
    jobType: Option<string>,
    postedAt: string,
    saved: Option<bool>,
    description: Option<string>)

  /** Selected job types, selected locations and a salary range. */
  datatype FilterState = FilterState(
    jobTypes: seq<string>,
    locations: seq<string>,
    salaryRange: (int, int))

  /** The criteria the page starts with. */
  const InitialFilters: FilterState := FilterState([], [], (0, 150000))

  const DefaultCompany: string := "Unknown Company"
  const DefaultJobType: string := "Full Time"

  /** JavaScript's `v || fallback` on an optional string: both an absent
      value and the empty string are falsy. */
  function OrElse(v: Option<string>, fallback: string): (r: string)
    ensures v.Some? && v.value != "" ==> r == v.value
    ensures v.None? || v.value == "" ==> r == fallback
    ensures fallback != "" ==> r != ""
  {
    if v.Some? && v.value != "" then v.value else fallback
  }

  /** The object literal built for the record at array position `index`. */
  function NormalizeJob(raw: RawJob, index: nat): (job: Job)
    ensures job.id == index + 1
    ensures FieldsPresent(job) && job.saved == Some(false)
    ensures job.company.value != "" && job.jobType.value != ""
    ensures job.title == raw.title && job.location == raw.location
  {
    Job(
      id := index + 1,
      title := raw.title,
      company := Some(OrElse(raw.company, DefaultCompany)),
      location := raw.location,
      salaryText := raw.salaryText,
      salaryMin := raw.salaryMin,
      salaryMax := raw.salaryMax,
      jobType := Some(OrElse(raw.jobType, DefaultJobType)),
      postedAt := raw.postedAt,
      saved := Some(false),
      description := Some(OrElse(raw.description, "")))
  }

  /** `data.map((job, index) => ...)`: one job per record, in order. */
  function Normalize(data: seq<RawJob>): (jobs: seq<Job>)
    ensures |jobs| == |data|
  {
    seq(|data|, i requires 0 <= i < |data| => NormalizeJob(data[i], i))
  }

  /** No two jobs of the list share an id. */
  predicate IdsDistinct(jobs: seq<Job>) {
    forall i, j :: 0 <= i < j < |jobs| ==> jobs[i].id != jobs[j].id
  }

  /** The optional members that the mapping always fills in are present. */
  predicate FieldsPresent(job: Job) {
    job.company.Some? && job.jobType.Some? && job.description.Some? && job.saved.Some?
  }

  /** The shape every list produced by `Normalize` has, and that toggling
      the saved flag keeps: ids are the positions 1..n and the defaulted
      members are present. */
  predicate WellFormed(jobs: seq<Job>) {
    forall i :: 0 <= i < |jobs| ==> jobs[i].id == i + 1 && FieldsPresent(jobs[i])
  }

  /** Ids are 1..n in order, every defaulted member is present, and no job
      starts out saved. */
  lemma NormalizeWellFormed(data: seq<RawJob>)
    ensures WellFormed(Normalize(data))
    ensures IdsDistinct(Normalize(data))
    ensures forall i :: 0 <= i < |data| ==> Normalize(data)[i].saved == Some(false)
  {
    WellFormedIdsDistinct(Normalize(data));
  }

  lemma WellFormedIdsDistinct(jobs: seq<Job>)
    requires WellFormed(jobs)
    ensures IdsDistinct(jobs)
  {
  }

  /** What each job holds: the record's copied members unchanged, a
      non-empty company and type that are the record's own when those are
      non-empty strings and the defaults otherwise, and a description that
      is the record's or empty. */
  lemma NormalizeFields(data: seq<RawJob>, i: nat)
    requires i < |data|
    ensures var job, raw := Normalize(data)[i], data[i];
      && job.title == raw.title && job.location == raw.location
      && job.salaryText == raw.salaryText && job.salaryMin == raw.salaryMin
      && job.salaryMax == raw.salaryMax && job.postedAt == raw.postedAt
      && job.company.Some? && job.company.value != ""
      && (raw.company.Some? && raw.company.value != "" ==> job.company.value == raw.company.value)
      && (raw.company.None? || raw.company.value == "" ==> job.company.value == DefaultCompany)
      && job.jobType.Some? && job.jobType.value != ""
      && (raw.jobType.Some? && raw.jobType.value != "" ==> job.jobType.value == raw.jobType.value)
      && (raw.jobType.None? || raw.jobType.value == "" ==> job.jobType.value == DefaultJobType)
      && job.description.Some?
      && (raw.description.Some? ==> job.description.value == raw.description.value)
      && (raw.description.None? ==> job.description.value == "")
  {
  }
}
