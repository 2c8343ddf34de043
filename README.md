# Job seeker dashboard: job list pipeline

A Dafny model of the client-side job pipeline of the JobHub job seeker
dashboard (`app/dashboard/user/page.tsx`). The page fetches a JSON array of
job records, maps each record to a `Job` (defaults for missing members,
an id from the array position, `saved` set to false), lets the user toggle
a job's saved flag, counts the saved jobs, and shows the jobs that match
the search box query and the selected job types and locations.

Everything here is pure: the page only builds new arrays with `map` and
`filter` and hands them whole to its state setter, so the model is
functions on `seq<Job>` and lemmas about them.

- `text.dfy`, module `Text`: `toLowerCase` (ASCII letters only) and
  `String.prototype.includes`, with a position-based reference definition
  of (case-insensitive) substring.
- `jobs.dfy`, module `Jobs`: the decoded record `RawJob`, the page's `Job`
  and `FilterState`, and `Normalize`, the `data.map(...)` of lines 52-64.
  JavaScript's `x || fallback` treats both an absent value and `""` as
  falsy, so both receive the default. The JSON key `type` is `jobType`.
- `filter.dfy`, module `JobFilter`: `filteredJobs` as `FilteredJobs`. The
  callback reads `job.company!.toLowerCase()` whenever the title does not
  match, and on a job without a company that throws; the model returns
  `Err` in that case. It is proved equal to `Select`, a reference filter
  stated with a position-based case-insensitive match, and `Select` is
  proved to be an order-preserving subsequence holding exactly the wanted
  jobs with their multiplicities.
- `saved.dfy`, module `SavedJobs`: `toggleSave` as `ToggleSave` and
  `savedJobsCount` as `SavedJobsCount`. An absent `saved` is falsy, so a
  toggle turns it into `true`.

Ids assigned from the array position are pairwise distinct within one
fetched list (proved in `Jobs.NormalizeWellFormed`). They are not stable
from one fetch to the next, which this model does not cover.

## Model

| member | source | states |
|---|---|---|
| `Text.ToLower` | app/dashboard/user/page.tsx:81-83 | Lower-casing keeps the length, lowers each character, and leaves no upper-case letter. |
| `Text.Includes` | app/dashboard/user/page.tsx:81-83 | `s.includes(sub)`, scanning start positions left to right: the empty string is always found and a string longer than `s` never is. |
| `Text.IncludesEmpty` | app/dashboard/user/page.tsx:80-83 | `s.includes("")` is true for every string. |
| `Text.IncludesIff` | app/dashboard/user/page.tsx:81-83 | `s.includes(sub)` holds exactly when `sub` occurs in `s` at some position, both directions. |
| `Text.LowerIncludesIff` | app/dashboard/user/page.tsx:81-83 | `s.toLowerCase().includes(q.toLowerCase())` holds exactly when `q` occurs in `s` with characters compared ignoring case. |
| `Text.EmptyQueryMatches` | app/dashboard/user/page.tsx:80-83 | The empty query matches every string ignoring case. |
| `Jobs.OrElse` | app/dashboard/user/page.tsx:55-63 | JavaScript's `or` default (`v` or `fallback`) on an optional string: the value when it is a non-empty string, the fallback when it is absent or empty; with a non-empty fallback the result is never empty. |
| `Jobs.NormalizeJob` | app/dashboard/user/page.tsx:53-63 | The object literal for the record at position `index`: id `index + 1`, saved `false`, company, type and description present, company and type non-empty, title and location copied. |
| `Jobs.Normalize` | app/dashboard/user/page.tsx:52-64 | One job per decoded record. |
| `Jobs.NormalizeWellFormed` | app/dashboard/user/page.tsx:52-64 | Ids are 1..n in order and pairwise distinct; company, type, description and saved are present; every job starts unsaved. |
| `Jobs.NormalizeFields` | app/dashboard/user/page.tsx:52-64 | Title, location, salary and posting-date members are copied unchanged. Company and type are non-empty: the record's own when it is a non-empty string, else "Unknown Company" and "Full Time". The description is the record's, or "" when absent. |
| `Jobs.WellFormedIdsDistinct` | app/dashboard/user/page.tsx:53 | Ids taken from positions 1..n never repeat. |
| `JobFilter.MatchesSearch` | app/dashboard/user/page.tsx:80-83 | `matchesSearch`: `Ok(true)` as soon as the title matches, since the short-circuit `or` stops at the first match; otherwise `job.company!` on a job without a company gives `Err(CompanyUndefined(id))`; a `false` result means the location did not match either. |
| `JobFilter.MatchesJobType` | app/dashboard/user/page.tsx:85 | `matchesJobType`: true when no type is selected; with types selected, true only for a job whose type is present and selected, so a job without a type is never kept. |
| `JobFilter.MatchesLocation` | app/dashboard/user/page.tsx:86 | `matchesLocation`: true when no location is selected; otherwise true only for a job whose location is selected. |
| `JobFilter.Keep` | app/dashboard/user/page.tsx:79-88 | The `filter` callback throws exactly when `matchesSearch` throws; a kept job passes both the type and the location test. |
| `JobFilter.FilteredJobs` | app/dashboard/user/page.tsx:79-89 | `jobs.filter(...)` visits the jobs in order and aborts at the first throwing callback. A result holds only jobs of the input and is no longer than it. An error names a job of the input that has no company. |
| `JobFilter.KeepSpec` | app/dashboard/user/page.tsx:79-88 | The callback throws exactly when the title does not match and the company is absent; otherwise it keeps the job exactly when the job is wanted. |
| `JobFilter.FilteredJobsSpec` | app/dashboard/user/page.tsx:79-89 | The filter succeeds exactly when no job throws, and then returns the reference selection of wanted jobs. |
| `JobFilter.SelectSubsequence` | app/dashboard/user/page.tsx:79-89 | The reference selection is a subsequence of the list in the original order, no longer than it. |
| `JobFilter.SelectCount` | app/dashboard/user/page.tsx:79-89 | A wanted job occurs in the selection as often as in the list; an unwanted one never occurs. |
| `JobFilter.FilteredJobsProperties` | app/dashboard/user/page.tsx:79-89 | A returned list is an order-preserving subsequence no longer than the input. Every returned job matches the query in title, company or location and both criteria. Every such job of the input is returned. |
| `JobFilter.FilterSucceedsWithCompanies` | app/dashboard/user/page.tsx:82 | When every job has a company, the non-null assertion `job.company!` never fails and the filter returns a list. |
| `JobFilter.FilterSucceedsOnWellFormed` | app/dashboard/user/page.tsx:82 | The filter never throws on a list shaped as the mapping leaves it, before or after any toggles. |
| `JobFilter.FilterEmptyCriteria` | app/dashboard/user/page.tsx:80-86 | An empty query with no type and no location selected returns every job unchanged and in order, whatever the salary range, even for jobs without a company. |
| `JobFilter.InitialFiltersShowAll` | app/dashboard/user/page.tsx:31-37 | With the page's starting filter state (no types, no locations, salary range 0..150000) and an empty search box, every fetched job is shown in order. |
| `JobFilter.FilterIgnoresSalary` | app/dashboard/user/page.tsx:79-89 | Two filter states that differ only in the salary range give the same outcome. |
| `JobFilter.FilterIdempotent` | app/dashboard/user/page.tsx:79-89 | Filtering the returned list again with the same query and criteria returns it unchanged. |
| `JobFilter.FilterRespectsJobTypes` | app/dashboard/user/page.tsx:85 | With some job types selected, every returned job has a type and it is one of them. |
| `JobFilter.FilterRespectsLocations` | app/dashboard/user/page.tsx:86 | With some locations selected, every returned job is at one of them. |
| `SavedJobs.IsSaved` | app/dashboard/user/page.tsx:91 | JavaScript truthiness of the optional `saved` member: a saved job has the flag present, and an absent flag reads as not saved. |
| `SavedJobs.ToggleJob` | app/dashboard/user/page.tsx:76 | `job.id === id ? { ...job, saved: !job.saved } : job`: on a matching id the flag becomes the present boolean opposite to the old truthiness; otherwise the job is returned unchanged; no other member changes. |
| `SavedJobs.ToggleSave` | app/dashboard/user/page.tsx:75-77 | Same length and order; on jobs with the given id the flag becomes the present boolean `!saved`, with an absent flag read as false; every other member and every other job is unchanged. |
| `SavedJobs.SavedJobsCount` | app/dashboard/user/page.tsx:91 | The counter never exceeds the number of jobs. |
| `SavedJobs.ToggleTwice` | app/dashboard/user/page.tsx:75-77 | Toggling the same id twice restores every job's saved state and changes no other member. |
| `SavedJobs.ToggleTwiceIdentity` | app/dashboard/user/page.tsx:75-77 | When every flag is present, toggling the same id twice returns the original list. |
| `SavedJobs.ToggleAbsentId` | app/dashboard/user/page.tsx:75-77 | Toggling an id that no job has returns the list unchanged. |
| `SavedJobs.ToggleSavePreservesWellFormed` | app/dashboard/user/page.tsx:75-77 | Toggling keeps the ids and the present members the mapping established. |
| `SavedJobs.SavedJobsCountAppend` | app/dashboard/user/page.tsx:91 | The count of a concatenation is the sum of the counts. |
| `SavedJobs.SavedJobsCountUpdate` | app/dashboard/user/page.tsx:91 | Replacing one job changes the count by that job's saved state before and after. |
| `SavedJobs.NoneSaved` | app/dashboard/user/page.tsx:91 | A list where every flag is false counts zero. |
| `SavedJobs.NormalizedNoneSaved` | app/dashboard/user/page.tsx:62 | Right after the mapping the counter is zero. |
| `SavedJobs.ToggleSaveCount` | app/dashboard/user/page.tsx:75-77 | When no other job shares its id, toggling an existing job's id moves the counter down by one if it was saved and up by one otherwise. |
| `SavedJobs.ToggleSaveCountWellFormed` | app/dashboard/user/page.tsx:75-77 | On a well-formed list, toggling an id in 1..n moves the counter down by one if that job was saved and up by one otherwise. |

## Left out

- Text.ToLower: lowers ASCII letters only; JavaScript's full Unicode and special-casing rules are not modelled.
- The network fetch, `res.json()` and the `catch` that logs the error (lines 47-70): I/O against a remote endpoint. The model starts from the decoded array of records.
- Record members the page copies without a default (`title`, `location`, `salary_text`, `posted_at`) are taken to be present strings, as the `Job` type declares. An absent title makes the filter throw; an absent location makes it throw only when the query matches neither the title nor the company. Neither case is modelled.
- JSON values of other types (numbers, booleans, `null`) in `company`, `type` or `description`: only "absent" and strings are modelled. `null` behaves like absent.
- The login redirect (`useAuth`, `router.push`, lines 40-43 and 73): external authentication context and navigation.
- All rendering (lines 93-175), including the `jobs.find` that feeds each card its saved flag (line 160), the theme toggle and the components it uses, whose sources are not part of this model.
- React's `useState`/`useEffect` scheduling: `setJobs` is modelled as replacing the whole list value.
- app/dashboard/publisher/page.tsx (static dummy data and two sums), app/layout.tsx (no logic) and the job detail page with its application form are not part of this model.
