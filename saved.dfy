/** The dashboard's saved flags: `toggleSave` and `savedJobsCount`. */
module SavedJobs {
  import opened Jobs

  /** JavaScript truthiness of the optional `saved` member: absent is
      false. */
  function IsSaved(job: Job): (saved: bool)
    ensures saved ==> job.saved.Some?
    ensures job.saved.None? ==> !saved
  {
    job.saved == Some(true)
  }

  /** `job.id === id ? { ...job, saved: !job.saved } : job` */
  function ToggleJob(job: Job, id: int): (toggled: Job)
    ensures IsSaved(toggled) == (IsSaved(job) != (job.id == id))
    ensures job.id == id ==> toggled.saved == Some(!IsSaved(job))
    ensures toggled == job.(saved := toggled.saved)
    ensures job.id != id ==> toggled == job
  {
    if job.id == id then job.(saved := Some(!IsSaved(job))) else job
  }

  /** `jobs.map(...)`: the list handed whole to `setJobs`. Same length and
      order; the flag flips on exactly the jobs with that id; nothing else
      changes. */
  function ToggleSave(jobs: seq<Job>, id: int): (toggled: seq<Job>)
    ensures |toggled| == |jobs|
    ensures forall i :: 0 <= i < |jobs| ==> IsSaved(toggled[i]) == (IsSaved(jobs[i]) != (jobs[i].id == id))
    ensures forall i :: 0 <= i < |jobs| ==> toggled[i] == jobs[i].(saved := toggled[i].saved)
    ensures forall i :: 0 <= i < |jobs| && jobs[i].id != id ==> toggled[i] == jobs[i]
    ensures forall i :: 0 <= i < |jobs| && jobs[i].id == id ==> toggled[i].saved == Some(!IsSaved(jobs[i]))
  {
    seq(|jobs|, i requires 0 <= i < |jobs| => ToggleJob(jobs[i], id))
  }

  /** `jobs.filter((j) => j.saved).length` */
  function SavedJobsCount(jobs: seq<Job>): (count: nat)
    ensures count <= |jobs|
    decreases |jobs|
  {
    if jobs == [] then 0
    else (if IsSaved(jobs[0]) then 1 else 0) + SavedJobsCount(jobs[1..])
  }

  /** Toggling the same id twice gives back every saved flag (an absent
      flag comes back as an explicit false) and leaves everything else
      as it was. */
  lemma ToggleTwice(jobs: seq<Job>, id: int)
    ensures var again := ToggleSave(ToggleSave(jobs, id), id);
      && |again| == |jobs|
      && forall i :: 0 <= i < |jobs| ==>
           IsSaved(again[i]) == IsSaved(jobs[i]) && again[i] == jobs[i].(saved := again[i].saved)
  {
  }

  /** On jobs whose flag is present, as after `Normalize`, toggling twice
      is the identity. */
  lemma ToggleTwiceIdentity(jobs: seq<Job>, id: int)
    requires forall j :: j in jobs ==> j.saved.Some?
    ensures ToggleSave(ToggleSave(jobs, id), id) == jobs
  {
    var again := ToggleSave(ToggleSave(jobs, id), id);
    forall i | 0 <= i < |jobs| ensures again[i] == jobs[i] {
      assert jobs[i] in jobs;
      if jobs[i].id == id {
        var once := ToggleSave(jobs, id);
        assert once[i] == ToggleJob(jobs[i], id);
        assert again[i] == ToggleJob(once[i], id);
        var v := jobs[i].saved.value;
        assert jobs[i].saved == Some(v);
        assert IsSaved(jobs[i]) == v;
        assert IsSaved(once[i]) == !v;
        assert again[i].saved == Some(v);
      }
    }
  }

  /** Toggling an id no job has changes nothing. */
  lemma ToggleAbsentId(jobs: seq<Job>, id: int)
    requires forall j :: j in jobs ==> j.id != id
    ensures ToggleSave(jobs, id) == jobs
  {
    var toggled := ToggleSave(jobs, id);
    forall i | 0 <= i < |jobs| ensures toggled[i] == jobs[i] {
      assert jobs[i] in jobs;
    }
  }

  /** Toggling keeps the shape `Normalize` gives the list. */
  lemma ToggleSavePreservesWellFormed(jobs: seq<Job>, id: int)
    requires WellFormed(jobs)
    ensures WellFormed(ToggleSave(jobs, id))
  {
  }

  lemma {:induction false} SavedJobsCountAppend(a: seq<Job>, b: seq<Job>)
    ensures SavedJobsCount(a + b) == SavedJobsCount(a) + SavedJobsCount(b)
    decreases |a|
  {
    if a != [] {
      assert (a + b)[1..] == a[1..] + b;
      SavedJobsCountAppend(a[1..], b);
    } else {
      assert a + b == b;
    }
  }

  /** The counter after one job of the list is replaced. */
  lemma {:induction false} SavedJobsCountUpdate(jobs: seq<Job>, k: nat, job: Job)
    requires k < |jobs|
    ensures SavedJobsCount(jobs[k := job])
         == SavedJobsCount(jobs) - (if IsSaved(jobs[k]) then 1 else 0) + (if IsSaved(job) then 1 else 0)
    decreases |jobs|
  {
    if k == 0 {
      assert jobs[k := job][1..] == jobs[1..];
    } else {
      assert jobs[k := job][1..] == jobs[1..][k - 1 := job];
      SavedJobsCountUpdate(jobs[1..], k - 1, job);
    }
  }

  /** No job is saved right after the list is fetched. */
  lemma {:induction false} NormalizedNoneSaved(data: seq<RawJob>)
    ensures SavedJobsCount(Normalize(data)) == 0
  {
    NormalizeWellFormed(data);
    NoneSaved(Normalize(data));
  }

  lemma {:induction false} NoneSaved(jobs: seq<Job>)
    requires forall i :: 0 <= i < |jobs| ==> jobs[i].saved == Some(false)
    ensures SavedJobsCount(jobs) == 0
    decreases |jobs|
  {
    if jobs != [] {
      NoneSaved(jobs[1..]);
    }
  }

  /** When no other job shares the id of the job at position `k`,
      toggling that id moves the counter by exactly one: up when the job
      was not saved, down when it was. */
  lemma ToggleSaveCount(jobs: seq<Job>, k: nat)
    requires k < |jobs|
    requires forall i :: 0 <= i < |jobs| && i != k ==> jobs[i].id != jobs[k].id
    ensures IsSaved(jobs[k]) ==> SavedJobsCount(ToggleSave(jobs, jobs[k].id)) == SavedJobsCount(jobs) - 1
    ensures !IsSaved(jobs[k]) ==> SavedJobsCount(ToggleSave(jobs, jobs[k].id)) == SavedJobsCount(jobs) + 1
  {
    var id := jobs[k].id;
    var toggled := ToggleSave(jobs, id);
    assert toggled == jobs[k := toggled[k]];
    SavedJobsCountUpdate(jobs, k, toggled[k]);
  }

  /** On a list shaped as `Normalize` leaves it, toggling an id of the
      list (1..n) moves the counter by exactly one. */
  lemma ToggleSaveCountWellFormed(jobs: seq<Job>, id: int)
    requires WellFormed(jobs)
    ensures 1 <= id <= |jobs| && IsSaved(jobs[id - 1]) ==>
      SavedJobsCount(ToggleSave(jobs, id)) == SavedJobsCount(jobs) - 1
    ensures 1 <= id <= |jobs| && !IsSaved(jobs[id - 1]) ==>
      SavedJobsCount(ToggleSave(jobs, id)) == SavedJobsCount(jobs) + 1
  {
    if 1 <= id <= |jobs| {
      ToggleSaveCount(jobs, id - 1);
    }
  }
}
