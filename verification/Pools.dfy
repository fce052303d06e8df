/** A pool of workers in time: handing over jobs as soon as somebody is free yields a greedy schedule. */
module Pools {
  import opened Makespan

  /** Without a job; at a job; about to tell that it is over; in the delay after it; no longer there. */
  datatype Duty = Free | Busy | Telling | Resting | Gone

  /**
   job[w] is the last job of worker w; since[w] is when it started or, once it is over, when that was told.
   durations has 0 for jobs that are still running. open: there is a job for whoever is free.
   */
  datatype Pool = Pool(
    workers: seq<Duty>,
    open: bool,
    now: nat,
    since: seq<nat>,
    job: seq<nat>,
    durations: seq<nat>,
    choices: seq<nat>)

  ghost predicate Sized(q: Pool) {
    && |q.workers| >= 1 && |q.since| == |q.workers| && |q.job| == |q.workers|
    && |q.durations| == |q.choices|
    && forall j :: 0 <= j < |q.choices| ==> q.choices[j] < |q.workers|
  }

  /** The jobs handed over so far. */
  function Plan(delay: nat, q: Pool): Schedule {
    Schedule(|q.workers|, delay, q.durations, q.choices)
  }

  /** When worker w has done its jobs so far. */
  function FreeAt(delay: nat, q: Pool, w: nat): nat
    requires Sized(q) && w < |q.workers|
  {
    FreeAfter(Plan(delay, q), |q.choices|)[w]
  }

  // ---------------------------------------------------------------------------
  // What can happen
  // ---------------------------------------------------------------------------

  function NewPool(k: nat, open: bool): Pool {
    Pool(seq(k, _ => Free), open, 0, seq(k, _ => 0), seq(k, _ => 0), [], [])
  }

  predicate CanStart(q: Pool, w: nat) {
    w < |q.workers| && w < |q.since| && w < |q.job| && q.workers[w] == Free && q.open
  }

  function Started(q: Pool, w: nat, open: bool): Pool
    requires CanStart(q, w)
  {
    q.(workers := q.workers[w := Busy], open := open, since := q.since[w := q.now],
       job := q.job[w := |q.choices|], durations := q.durations + [0], choices := q.choices + [w])
  }

  predicate CanEnd(q: Pool, w: nat) {
    && w < |q.workers| && w < |q.since| && w < |q.job| && q.workers[w].Busy?
    && q.job[w] < |q.durations| && q.since[w] <= q.now
  }

  function Ended(q: Pool, w: nat): Pool
    requires CanEnd(q, w)
  {
    q.(workers := q.workers[w := Telling], durations := q.durations[q.job[w] := q.now - q.since[w]])
  }

  predicate CanTell(q: Pool, w: nat) {
    w < |q.workers| && w < |q.since| && q.workers[w].Telling?
  }

  function Told(q: Pool, w: nat): Pool
    requires CanTell(q, w)
  {
    q.(workers := q.workers[w := Resting], since := q.since[w := q.now])
  }

  predicate CanRest(delay: nat, q: Pool, w: nat) {
    w < |q.workers| && w < |q.since| && q.workers[w] == Resting && q.now == q.since[w] + delay
  }

  function Rested(delay: nat, q: Pool, w: nat): Pool
    requires CanRest(delay, q, w)
  {
    q.(workers := q.workers[w := Free])
  }

  function Left(q: Pool, w: nat): Pool
    requires w < |q.workers| && q.workers[w] == Free
  {
    q.(workers := q.workers[w := Gone])
  }

  predicate MayWait(delay: nat, q: Pool, w: nat, until: nat)
    requires w < |q.workers| && |q.since| == |q.workers|
  {
    match q.workers[w]
    case Busy => true
    case Telling => false
    case Resting => until <= q.since[w] + delay
    case Free => !q.open
    case Gone => true
  }

  /** Time passes only while nobody is free with a job to take, or has something to tell. */
  ghost predicate CanWait(delay: nat, q: Pool, until: nat) {
    && q.now <= until && |q.since| == |q.workers|
    && (forall w :: 0 <= w < |q.workers| ==> MayWait(delay, q, w, until))
    && exists w :: 0 <= w < |q.workers| && (q.workers[w].Busy? || q.workers[w] == Resting)
  }

  // ---------------------------------------------------------------------------
  // The invariant
  // ---------------------------------------------------------------------------

  ghost predicate RunsLast(q: Pool, w: nat)
    requires Sized(q) && w < |q.workers|
  {
    && q.job[w] < |q.choices| && q.choices[q.job[w]] == w && q.durations[q.job[w]] == 0
    && forall j :: q.job[w] < j < |q.choices| ==> q.choices[j] != w
  }

  ghost predicate WatchOk(delay: nat, q: Pool, w: nat)
    requires Sized(q) && w < |q.workers|
  {
    var free := FreeAt(delay, q, w);
    match q.workers[w]
    case Busy => RunsLast(q, w) && free == q.since[w] + delay && q.since[w] <= q.now
    case Telling => free == q.now + delay
    case Resting => free == q.since[w] + delay && q.now <= free
    case Free => free <= q.now && (q.open ==> free == q.now)
    case Gone => free <= q.now && !q.open
  }

  /** Job j started in the past, on a worker that was free first; a rival still at an earlier job does not count. */
  ghost predicate GreedyAt(delay: nat, q: Pool, j: nat)
    requires Sized(q) && j < |q.choices|
  {
    var s := Plan(delay, q);
    && StartOf(s, j) <= q.now
    && forall v :: 0 <= v < |q.workers| ==>
         StartOf(s, j) <= FreeAfter(s, j)[v] || (q.workers[v].Busy? && q.job[v] < j)
  }

  ghost predicate SomeoneBusy(delay: nat, q: Pool)
    requires Sized(q)
  {
    exists v :: 0 <= v < |q.workers| && (q.workers[v].Busy? || FreeAt(delay, q, v) >= q.now)
  }

  ghost predicate PoolInv(delay: nat, q: Pool) {
    && Sized(q)
    && (forall w :: 0 <= w < |q.workers| ==> WatchOk(delay, q, w))
    && (forall j :: 0 <= j < |q.choices| ==> GreedyAt(delay, q, j))
    && SomeoneBusy(delay, q)
  }

  /** No job is longer than this, not even one that is still running. */
  ghost predicate Within(longest: nat, q: Pool) {
    && (forall j :: 0 <= j < |q.durations| ==> q.durations[j] <= longest)
    && forall w :: 0 <= w < |q.workers| && w < |q.since| && q.workers[w].Busy? ==> q.now <= q.since[w] + longest
  }

  lemma NewPoolInv(k: nat, open: bool, delay: nat, longest: nat)
    requires k >= 1
    ensures PoolInv(delay, NewPool(k, open)) && Within(longest, NewPool(k, open))
  {
    assert FreeAt(delay, NewPool(k, open), 0) == 0;
  }

  // ---------------------------------------------------------------------------
  // Schedules that grow
  // ---------------------------------------------------------------------------

  /** A job that was still running gets its duration. */
  lemma {:induction false} Lengthened(s: Schedule, i: nat, d: nat, n: nat)
    requires ValidSchedule(s) && i < |s.durations| && s.durations[i] == 0 && n <= |s.durations|
    requires forall j :: i < j < n ==> s.choices[j] != s.choices[i]
    ensures var was := FreeAfter(s, n); var v := s.choices[i];
      FreeAfter(s.(durations := s.durations[i := d]), n) == if n <= i then was else was[v := was[v] + d]
  {
    if n > 0 {
      Lengthened(s, i, d, n - 1);
    }
  }

  /** A worker without further jobs stays free from the same time on. */
  lemma {:induction false} NoFurtherJobs(s: Schedule, v: nat, m: nat, n: nat)
    requires ValidSchedule(s) && v < s.workers && m <= n <= |s.durations|
    requires forall j :: m <= j < n ==> s.choices[j] != v
    ensures FreeAfter(s, n)[v] == FreeAfter(s, m)[v]
  {
    if m < n {
      NoFurtherJobs(s, v, m, n - 1);
    }
  }

  // ---------------------------------------------------------------------------
  // Everything that happens keeps the invariant
  // ---------------------------------------------------------------------------

  lemma StartedPlan(delay: nat, q: Pool, w: nat, open: bool, n: nat)
    requires Sized(q) && CanStart(q, w) && n <= |q.choices|
    ensures Sized(Started(q, w, open))
    ensures FreeAfter(Plan(delay, Started(q, w, open)), n) == FreeAfter(Plan(delay, q), n)
    ensures forall v :: 0 <= v < |q.workers| ==>
      FreeAt(delay, Started(q, w, open), v) == FreeAt(delay, q, v) + if v == w then delay else 0
  {
    SamePrefix(Plan(delay, q), Plan(delay, Started(q, w, open)), n);
    SamePrefix(Plan(delay, q), Plan(delay, Started(q, w, open)), |q.choices|);
  }

  lemma StartedIsGreedy(delay: nat, q: Pool, w: nat, open: bool, j: nat)
    requires PoolInv(delay, q) && CanStart(q, w) && j <= |q.choices| && Sized(Started(q, w, open))
    ensures GreedyAt(delay, Started(q, w, open), j)
  {
    StartedPlan(delay, q, w, open, j);
    assert WatchOk(delay, q, w);
    if j < |q.choices| {
      assert GreedyAt(delay, q, j);
    } else {
      forall v | 0 <= v < |q.workers|
        ensures q.now <= FreeAt(delay, q, v) || (q.workers[v].Busy? && q.job[v] < j)
      {
        assert WatchOk(delay, q, v);
      }
    }
  }

  lemma StartKeeps(delay: nat, q: Pool, w: nat, open: bool)
    requires PoolInv(delay, q) && CanStart(q, w)
    ensures PoolInv(delay, Started(q, w, open))
  {
    var r := Started(q, w, open);
    StartedPlan(delay, q, w, open, 0);
    forall v | 0 <= v < |r.workers|
      ensures WatchOk(delay, r, v)
    {
      assert WatchOk(delay, q, v);
    }
    forall j | 0 <= j < |r.choices|
      ensures GreedyAt(delay, r, j)
    {
      StartedIsGreedy(delay, q, w, open, j);
    }
    assert r.workers[w].Busy?;
  }

  lemma EndedPlan(delay: nat, q: Pool, w: nat, n: nat)
    requires Sized(q) && CanEnd(q, w) && WatchOk(delay, q, w) && n <= |q.choices|
    ensures Sized(Ended(q, w))
    ensures var was := FreeAfter(Plan(delay, q), n);
      FreeAfter(Plan(delay, Ended(q, w)), n) == if n <= q.job[w] then was else was[w := q.now + delay]
  {
    Lengthened(Plan(delay, q), q.job[w], q.now - q.since[w], n);
    if n > q.job[w] {
      NoFurtherJobs(Plan(delay, q), w, n, |q.choices|);
    }
  }

  lemma EndedIsGreedy(delay: nat, q: Pool, w: nat, j: nat)
    requires PoolInv(delay, q) && CanEnd(q, w) && j < |q.choices| && Sized(Ended(q, w))
    ensures GreedyAt(delay, Ended(q, w), j)
  {
    assert WatchOk(delay, q, w) && GreedyAt(delay, q, j);
    EndedPlan(delay, q, w, j);
    assert StartOf(Plan(delay, Ended(q, w)), j) == StartOf(Plan(delay, q), j);
  }

  lemma EndKeeps(delay: nat, q: Pool, w: nat)
    requires PoolInv(delay, q) && CanEnd(q, w)
    ensures PoolInv(delay, Ended(q, w))
  {
    var r := Ended(q, w);
    assert WatchOk(delay, q, w);
    EndedPlan(delay, q, w, |q.choices|);
    forall v | 0 <= v < |r.workers|
      ensures WatchOk(delay, r, v)
    {
      assert WatchOk(delay, q, v);
    }
    forall j | 0 <= j < |r.choices|
      ensures GreedyAt(delay, r, j)
    {
      EndedIsGreedy(delay, q, w, j);
    }
    assert FreeAt(delay, r, w) >= r.now;
  }

  /** Nothing started or ended: the plan and who restarts stay the same. */
  lemma SamePlan(delay: nat, q: Pool, r: Pool)
    requires PoolInv(delay, q) && Sized(r) && r == q.(workers := r.workers, open := r.open, since := r.since)
    requires |r.workers| == |q.workers|
    requires forall w :: 0 <= w < |q.workers| ==>
      WatchOk(delay, r, w) && (r.workers[w].Busy? <==> q.workers[w].Busy?)
    ensures PoolInv(delay, r)
  {
    assert Plan(delay, r) == Plan(delay, q);
    forall j | 0 <= j < |r.choices|
      ensures GreedyAt(delay, r, j)
    {
      assert GreedyAt(delay, q, j);
    }
    var v :| 0 <= v < |q.workers| && (q.workers[v].Busy? || FreeAt(delay, q, v) >= q.now);
    assert FreeAt(delay, r, v) == FreeAt(delay, q, v);
  }

  lemma TellKeeps(delay: nat, q: Pool, w: nat)
    requires PoolInv(delay, q) && CanTell(q, w)
    ensures PoolInv(delay, Told(q, w))
  {
    var r := Told(q, w);
    assert Plan(delay, r) == Plan(delay, q);
    forall v | 0 <= v < |q.workers|
      ensures WatchOk(delay, r, v) && (r.workers[v].Busy? <==> q.workers[v].Busy?)
    {
      assert WatchOk(delay, q, v);
    }
    SamePlan(delay, q, r);
  }

  lemma RestKeeps(delay: nat, q: Pool, w: nat)
    requires PoolInv(delay, q) && CanRest(delay, q, w)
    ensures PoolInv(delay, Rested(delay, q, w))
  {
    var r := Rested(delay, q, w);
    assert Plan(delay, r) == Plan(delay, q);
    forall v | 0 <= v < |q.workers|
      ensures WatchOk(delay, r, v) && (r.workers[v].Busy? <==> q.workers[v].Busy?)
    {
      assert WatchOk(delay, q, v);
    }
    SamePlan(delay, q, r);
  }

  lemma LeaveKeeps(delay: nat, q: Pool, w: nat)
    requires PoolInv(delay, q) && w < |q.workers| && q.workers[w] == Free && !q.open
    ensures PoolInv(delay, Left(q, w))
  {
    var r := Left(q, w);
    assert Plan(delay, r) == Plan(delay, q);
    forall v | 0 <= v < |q.workers|
      ensures WatchOk(delay, r, v) && (r.workers[v].Busy? <==> q.workers[v].Busy?)
    {
      assert WatchOk(delay, q, v);
    }
    SamePlan(delay, q, r);
  }

  lemma WaitKeeps(delay: nat, q: Pool, until: nat)
    requires PoolInv(delay, q) && CanWait(delay, q, until)
    ensures PoolInv(delay, q.(now := until))
  {
    var r := q.(now := until);
    assert Plan(delay, r) == Plan(delay, q);
    forall v | 0 <= v < |q.workers|
      ensures WatchOk(delay, r, v)
    {
      assert WatchOk(delay, q, v) && MayWait(delay, q, v, until);
    }
    forall j | 0 <= j < |r.choices|
      ensures GreedyAt(delay, r, j)
    {
      assert GreedyAt(delay, q, j);
    }
    var v :| 0 <= v < |q.workers| && (q.workers[v].Busy? || q.workers[v] == Resting);
    assert WatchOk(delay, q, v) && MayWait(delay, q, v, until);
    assert FreeAt(delay, r, v) == FreeAt(delay, q, v);
  }

  /** There may be no further job. */
  lemma CloseKeeps(delay: nat, q: Pool, open: bool)
    requires PoolInv(delay, q) && (open ==> q.open)
    ensures PoolInv(delay, q.(open := open))
  {
    var r := q.(open := open);
    assert Plan(delay, r) == Plan(delay, q);
    forall w | 0 <= w < |q.workers|
      ensures WatchOk(delay, r, w)
    {
      assert WatchOk(delay, q, w);
    }
    SamePlan(delay, q, r);
  }

  /** Without a delay, a worker whose job is over is free at once. */
  function Released(q: Pool, w: nat): Pool
    requires CanEnd(q, w)
  {
    Rested(0, Told(Ended(q, w), w), w)
  }

  lemma ReleaseKeeps(q: Pool, w: nat)
    requires PoolInv(0, q) && CanEnd(q, w)
    ensures PoolInv(0, Released(q, w))
    ensures Released(q, w) == q.(workers := q.workers[w := Free], since := q.since[w := q.now],
                                 durations := q.durations[q.job[w] := q.now - q.since[w]])
  {
    EndKeeps(0, q, w);
    TellKeeps(0, Ended(q, w), w);
    RestKeeps(0, Told(Ended(q, w), w), w);
  }

  /** When nobody is at a job any more, the jobs form a greedy schedule that ends now. */
  lemma AllLeft(delay: nat, q: Pool)
    requires PoolInv(delay, q) && forall w :: 0 <= w < |q.workers| ==> q.workers[w] == Free || q.workers[w] == Gone
    ensures Greedy(Plan(delay, q)) && EndsAt(Plan(delay, q), q.now)
  {
    var s := Plan(delay, q);
    forall j, v | 0 <= j < |s.durations| && 0 <= v < s.workers
      ensures StartOf(s, j) <= FreeAfter(s, j)[v]
    {
      assert GreedyAt(delay, q, j);
    }
    forall v | 0 <= v < s.workers
      ensures FreeAfter(s, |s.durations|)[v] <= q.now
    {
      assert WatchOk(delay, q, v);
    }
    var v :| 0 <= v < |q.workers| && (q.workers[v].Busy? || FreeAt(delay, q, v) >= q.now);
    assert FreeAfter(s, |s.durations|)[v] == q.now;
  }
}
