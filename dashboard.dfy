/** The customer dashboard's three tiles: how many of the customer's jobs are
    active (open or in progress), still drafts, or completed. The page keeps
    the counts and a loading flag as component state. */
module Dashboard {
  import opened Wrappers
  import opened Enums
  import opened Models
  import opened Query

  datatype Stats = Stats(active: nat, draft: nat, completed: nat)

  predicate IsActive(j: PrintingJob) { j.state == JobState.OPEN || j.state == IN_PROGRESS }
  predicate IsDraft(j: PrintingJob) { j.state == DRAFT }
  predicate IsCompleted(j: PrintingJob) { j.state == COMPLETED }
  predicate IsClosed(j: PrintingJob) { j.state == CLOSED }

  /** The three `filter(...).length` counts. The categories are disjoint and
      only closed jobs fall outside them. */
  function StatsOf(jobs: seq<PrintingJob>): (s: Stats)
    ensures s.active + s.draft + s.completed + |Filter(jobs, IsClosed)| == |jobs|
    ensures s.active + s.draft + s.completed <= |jobs|
  {
    CountsPartition(jobs);
    Stats(|Filter(jobs, IsActive)|, |Filter(jobs, IsDraft)|, |Filter(jobs, IsCompleted)|)
  }

  /** Every job falls in exactly one of active, draft, completed and closed. */
  lemma {:induction false} CountsPartition(jobs: seq<PrintingJob>)
    ensures |Filter(jobs, IsActive)| + |Filter(jobs, IsDraft)| + |Filter(jobs, IsCompleted)| +
            |Filter(jobs, IsClosed)| == |jobs|
    decreases |jobs|
  {
    if jobs != [] {
      CountsPartition(jobs[1..]);
      FilterLength(jobs, IsActive);
      FilterLength(jobs, IsDraft);
      FilterLength(jobs, IsCompleted);
      FilterLength(jobs, IsClosed);
    }
  }

  /** One more job raises exactly the count of its own category. */
  lemma StatsOfCons(j: PrintingJob, jobs: seq<PrintingJob>)
    ensures var s, t := StatsOf([j] + jobs), StatsOf(jobs);
            s.active == t.active + (if IsActive(j) then 1 else 0) &&
            s.draft == t.draft + (if IsDraft(j) then 1 else 0) &&
            s.completed == t.completed + (if IsCompleted(j) then 1 else 0)
  {
    var all := [j] + jobs;
    assert all[1..] == jobs && all[0] == j;
    FilterLength(all, IsActive);
    FilterLength(all, IsDraft);
    FilterLength(all, IsCompleted);
  }

  /** The page's state. */
  class DashboardPage {
    var stats: Stats
    var loading: bool

    constructor ()
      ensures stats == Stats(0, 0, 0) && loading
    {
      stats := Stats(0, 0, 0);
      loading := true;
    }

    /** `loadStats`, with the outcome of `listJobs` as a parameter (None when
        it throws): the counts of the returned jobs, or the previous counts
        on failure; loading ends false either way. */
    method LoadStats(listed: Option<seq<PrintingJob>>)
      modifies this
      ensures !loading
      ensures listed.Some? ==> stats == StatsOf(listed.value)
      ensures listed.None? ==> stats == old(stats)
    {
      loading := true;
      if listed.Some? {
        var jobs := listed.value;
        stats := Stats(|Filter(jobs, IsActive)|, |Filter(jobs, IsDraft)|, |Filter(jobs, IsCompleted)|);
      }
      loading := false;
    }
  }
}
