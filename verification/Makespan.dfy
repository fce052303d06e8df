/** How long a batch takes, and whether the duration of the maintenance locks covers it. */
module Makespan {

  const SECOND: nat := 1_000_000_000

  /** Durations are in nanoseconds, restartDuration in seconds. */
  datatype RestartOptions = RestartOptions(
    restartRetryNumber: nat, restartDuration: nat, delayBetweenRestarts: nat, nodesInflight: nat)

  /** Ceiling of n / k. */
  function Batches(n: nat, k: nat): nat
    requires k >= 1
  {
    (n + k - 1) / k
  }

  function GetRestartDuration(o: RestartOptions, nNodes: nat): nat
    requires o.nodesInflight >= 1
  {
    Batches(nNodes, o.nodesInflight) * (SECOND * o.restartDuration * o.restartRetryNumber + o.delayBetweenRestarts)
  }

  // ---------------------------------------------------------------------------
  // Greedy schedules
  // ---------------------------------------------------------------------------

  /** A pool of workers: each job is taken by choices[j], takes durations[j], and is followed by the delay. */
  datatype Schedule = Schedule(workers: nat, delay: nat, durations: seq<nat>, choices: seq<nat>)

  ghost predicate ValidSchedule(s: Schedule) {
    && s.workers >= 1 && |s.choices| == |s.durations|
    && forall j :: 0 <= j < |s.choices| ==> s.choices[j] < s.workers
  }

  /** When each worker is free again after the first n jobs. */
  function FreeAfter(s: Schedule, n: nat): (free: seq<nat>)
    requires ValidSchedule(s) && n <= |s.durations|
    ensures |free| == s.workers
  {
    if n == 0 then seq(s.workers, _ => 0)
    else
      var before := FreeAfter(s, n - 1);
      var w := s.choices[n - 1];
      before[w := before[w] + s.durations[n - 1] + s.delay]
  }

  function StartOf(s: Schedule, j: nat): nat
    requires ValidSchedule(s) && j < |s.durations|
  {
    FreeAfter(s, j)[s.choices[j]]
  }

  /** The queue is unbuffered: a job goes to a worker that is free first. */
  ghost predicate Greedy(s: Schedule) {
    ValidSchedule(s) &&
    forall j, v :: 0 <= j < |s.durations| && 0 <= v < s.workers ==> StartOf(s, j) <= FreeAfter(s, j)[v]
  }

  /** No job is longer than this. */
  ghost predicate AtMost(s: Schedule, duration: nat) {
    forall j :: 0 <= j < |s.durations| ==> s.durations[j] <= duration
  }

  /** Every worker is done, its last delay included. */
  ghost predicate DoneBy(s: Schedule, time: nat) {
    ValidSchedule(s) && forall v :: 0 <= v < s.workers ==> FreeAfter(s, |s.durations|)[v] <= time
  }

  /** The schedule is over at this time and not before. */
  ghost predicate EndsAt(s: Schedule, time: nat) {
    DoneBy(s, time) && exists v :: 0 <= v < s.workers && FreeAfter(s, |s.durations|)[v] == time
  }

  // ---------------------------------------------------------------------------
  // Counting jobs per worker
  // ---------------------------------------------------------------------------

  function Taken(s: Schedule, n: nat, v: nat): nat
    requires ValidSchedule(s) && n <= |s.durations|
  {
    if n == 0 then 0 else Taken(s, n - 1, v) + if s.choices[n - 1] == v then 1 else 0
  }

  function TakenByFirst(s: Schedule, n: nat, workers: nat): nat
    requires ValidSchedule(s) && n <= |s.durations|
  {
    if workers == 0 then 0 else TakenByFirst(s, n, workers - 1) + Taken(s, n, workers - 1)
  }

  lemma {:induction false} NoneTaken(s: Schedule, workers: nat)
    requires ValidSchedule(s)
    ensures TakenByFirst(s, 0, workers) == 0
  {
    if workers > 0 {
      NoneTaken(s, workers - 1);
    }
  }

  lemma {:induction false} OneMoreTaken(s: Schedule, n: nat, workers: nat)
    requires ValidSchedule(s) && 1 <= n <= |s.durations|
    ensures TakenByFirst(s, n, workers) == TakenByFirst(s, n - 1, workers) + if s.choices[n - 1] < workers then 1 else 0
  {
    if workers > 0 {
      OneMoreTaken(s, n, workers - 1);
    }
  }

  lemma {:induction false} AllTaken(s: Schedule, n: nat)
    requires ValidSchedule(s) && n <= |s.durations|
    ensures TakenByFirst(s, n, s.workers) == n
  {
    if n == 0 {
      NoneTaken(s, s.workers);
    } else {
      AllTaken(s, n - 1);
      OneMoreTaken(s, n, s.workers);
    }
  }

  /** If the first workers took at least (at most) q jobs each, they took at least (at most) q times as many in all. */
  lemma {:induction false} Pigeons(s: Schedule, n: nat, workers: nat, q: nat)
    requires ValidSchedule(s) && n <= |s.durations|
    ensures (forall v :: 0 <= v < workers ==> Taken(s, n, v) >= q) ==> TakenByFirst(s, n, workers) >= workers * q
    ensures (forall v :: 0 <= v < workers ==> Taken(s, n, v) <= q) ==> TakenByFirst(s, n, workers) <= workers * q
  {
    if workers > 0 {
      Pigeons(s, n, workers - 1, q);
      assert workers * q == (workers - 1) * q + q;
    }
  }

  lemma DivBounds(n: nat, k: nat)
    requires k >= 1
    ensures n / k * k <= n < (n / k + 1) * k
  {
  }

  lemma SomeWorkerTookFew(s: Schedule, n: nat) returns (v: nat)
    requires ValidSchedule(s) && n <= |s.durations|
    ensures v < s.workers && Taken(s, n, v) <= n / s.workers
  {
    AllTaken(s, n);
    DivBounds(n, s.workers);
    Pigeons(s, n, s.workers, n / s.workers + 1);
    assert s.workers * (n / s.workers + 1) == (n / s.workers + 1) * s.workers;
    v :| 0 <= v < s.workers && Taken(s, n, v) < n / s.workers + 1;
  }

  lemma {:induction false} BatchesIs(n: nat, k: nat)
    requires k >= 1 && n >= 1
    ensures Batches(n, k) == (n - 1) / k + 1
  {
    assert n + k - 1 == (n - 1) + k;
    AddOnce(n - 1, k);
  }

  lemma {:induction false} AddOnce(m: nat, k: nat)
    requires k >= 1
    ensures (m + k) / k == m / k + 1
  {
    DivBounds(m, k);
    DivBounds(m + k, k);
    var q, p := m / k, (m + k) / k;
    assert (q + 1) * k == q * k + k && (q + 2) * k == q * k + k + k;
    if p < q + 1 {
      Times(p + 1, q + 1, k);
    } else if p > q + 1 {
      Times(q + 2, p, k);
    }
  }

  lemma {:induction false} SomeWorkerTookMany(s: Schedule, n: nat) returns (v: nat)
    requires ValidSchedule(s) && 1 <= n <= |s.durations|
    ensures v < s.workers && Taken(s, n, v) >= Batches(n, s.workers)
  {
    AllTaken(s, n);
    BatchesIs(n, s.workers);
    DivBounds(n - 1, s.workers);
    Pigeons(s, n, s.workers, (n - 1) / s.workers);
    assert s.workers * ((n - 1) / s.workers) == (n - 1) / s.workers * s.workers;
    v :| 0 <= v < s.workers && Taken(s, n, v) > (n - 1) / s.workers;
  }

  // ---------------------------------------------------------------------------
  // The bound
  // ---------------------------------------------------------------------------

  lemma Times(a: nat, b: nat, l: nat)
    requires a <= b
    ensures a * l <= b * l
  {
  }

  lemma DistributeSum(a: nat, b: nat, l: nat)
    ensures (a + b) * l == a * l + b * l
  {
  }

  lemma {:induction false} FreeBound(s: Schedule, n: nat, v: nat, d: nat)
    requires ValidSchedule(s) && n <= |s.durations| && v < s.workers && AtMost(s, d)
    ensures FreeAfter(s, n)[v] <= Taken(s, n, v) * (d + s.delay)
    ensures (forall j :: 0 <= j < n ==> s.durations[j] == d) ==> FreeAfter(s, n)[v] == Taken(s, n, v) * (d + s.delay)
  {
    if n > 0 {
      FreeBound(s, n - 1, v, d);
      assert (Taken(s, n - 1, v) + 1) * (d + s.delay) == Taken(s, n - 1, v) * (d + s.delay) + (d + s.delay);
    }
  }

  /** Job j starts by floor(j / k) * (D + delay). */
  lemma StartBound(s: Schedule, j: nat, d: nat)
    requires Greedy(s) && j < |s.durations| && AtMost(s, d)
    ensures StartOf(s, j) <= j / s.workers * (d + s.delay)
  {
    var v := SomeWorkerTookFew(s, j);
    FreeBound(s, j, v, d);
    Times(Taken(s, j, v), j / s.workers, d + s.delay);
  }

  lemma {:induction false} FinishBound(s: Schedule, n: nat, v: nat, d: nat)
    requires Greedy(s) && n <= |s.durations| && v < s.workers && AtMost(s, d)
    ensures FreeAfter(s, n)[v] <= Batches(n, s.workers) * (d + s.delay)
  {
    if n > 0 {
      FinishBound(s, n - 1, v, d);
      StartBound(s, n - 1, d);
      OneBatch(n, s.workers, d + s.delay);
    }
  }

  /** A job that starts by floor((n - 1) / k) * L is over by ceil(n / k) * L, and so are those before it. */
  lemma {:induction false} OneBatch(n: nat, k: nat, l: nat)
    requires n >= 1 && k >= 1
    ensures (n - 1) / k * l + l == Batches(n, k) * l
    ensures Batches(n - 1, k) * l <= Batches(n, k) * l
  {
    BatchesIs(n, k);
    DistributeSum((n - 1) / k, 1, l);
    BatchesGrow(n - 1, n, k);
    Times(Batches(n - 1, k), Batches(n, k), l);
  }

  lemma {:induction false} BatchesGrow(m: nat, n: nat, k: nat)
    requires m <= n && k >= 1
    ensures Batches(m, k) <= Batches(n, k)
  {
    DivMonotone(m + k - 1, n + k - 1, k);
  }

  lemma {:induction false} DivMonotone(a: nat, b: nat, k: nat)
    requires a <= b && k >= 1
    ensures a / k <= b / k
  {
    DivBounds(a, k);
    DivBounds(b, k);
    if a / k > b / k {
      Times(b / k + 1, a / k, k);
    }
  }

  /** N jobs of at most D on k greedy workers are over, delays included, by ceil(N / k) * (D + delay). */
  lemma BatchIsOverBy(s: Schedule, d: nat)
    requires Greedy(s) && AtMost(s, d)
    ensures DoneBy(s, Batches(|s.durations|, s.workers) * (d + s.delay))
  {
    forall v | 0 <= v < s.workers
      ensures FreeAfter(s, |s.durations|)[v] <= Batches(|s.durations|, s.workers) * (d + s.delay)
    {
      FinishBound(s, |s.durations|, v, d);
    }
  }

  /** And not before, when every job takes exactly D. */
  lemma BoundIsTight(s: Schedule, d: nat, time: nat)
    requires Greedy(s) && forall j :: 0 <= j < |s.durations| ==> s.durations[j] == d
    ensures DoneBy(s, time) <==> Batches(|s.durations|, s.workers) * (d + s.delay) <= time
  {
    var n := |s.durations|;
    BatchIsOverBy(s, d);
    if n > 0 {
      var v := SomeWorkerTookMany(s, n);
      FreeBound(s, n, v, d);
      Times(Batches(n, s.workers), Taken(s, n, v), d + s.delay);
    } else {
      assert Batches(0, s.workers) == 0;
      assert 0 * (d + s.delay) == 0;
    }
  }

  // ---------------------------------------------------------------------------
  // The lock duration
  // ---------------------------------------------------------------------------

  /** The worker that is free first. */
  function FirstFree(free: seq<nat>): (w: nat)
    requires free != []
    ensures w < |free| && forall v :: 0 <= v < |free| ==> free[w] <= free[v]
  {
    if |free| == 1 then 0
    else
      var w := FirstFree(free[..|free| - 1]);
      if free[|free| - 1] < free[w] then |free| - 1 else w
  }

  /** There are greedy schedules of any jobs. */
  lemma {:induction false} GreedyExists(workers: nat, delay: nat, durations: seq<nat>) returns (s: Schedule)
    requires workers >= 1
    ensures Greedy(s) && s.workers == workers && s.delay == delay && s.durations == durations
    decreases |durations|
  {
    if durations == [] {
      return Schedule(workers, delay, [], []);
    }
    var n := |durations| - 1;
    var before := GreedyExists(workers, delay, durations[..n]);
    var w := FirstFree(FreeAfter(before, n));
    s := Schedule(workers, delay, durations, before.choices + [w]);
    forall j | 0 <= j <= n
      ensures FreeAfter(s, j) == FreeAfter(before, j)
    {
      SamePrefix(before, s, j);
    }
    forall j, v | 0 <= j <= n && 0 <= v < workers
      ensures StartOf(s, j) <= FreeAfter(s, j)[v]
    {
      if j < n {
        assert StartOf(before, j) <= FreeAfter(before, j)[v];
      }
    }
  }

  lemma {:induction false} SamePrefix(s: Schedule, t: Schedule, n: nat)
    requires ValidSchedule(s) && ValidSchedule(t) && s.workers == t.workers && s.delay == t.delay
    requires n <= |s.durations| <= |t.durations|
    requires s.durations == t.durations[..|s.durations|] && s.choices == t.choices[..|s.choices|]
    ensures FreeAfter(s, n) == FreeAfter(t, n)
  {
    if n > 0 {
      SamePrefix(s, t, n - 1);
    }
  }

  /** dispatchAll over n actions under these options, each restart within the configured duration. */
  ghost predicate DispatchesAll(o: RestartOptions, n: nat, s: Schedule) {
    && Greedy(s) && AtMost(s, SECOND * o.restartDuration) && |s.durations| == n
    && s.workers == o.nodesInflight && s.delay == o.delayBetweenRestarts
  }

  /** However the restarts go, the batch is over before the locks expire. */
  ghost predicate LocksCover(o: RestartOptions, n: nat)
    requires o.nodesInflight >= 1
  {
    forall s :: DispatchesAll(o, n, s) ==> DoneBy(s, GetRestartDuration(o, n))
  }

  /** How long one node, with its delay, may take. */
  function PerNode(o: RestartOptions): nat {
    SECOND * o.restartDuration + o.delayBetweenRestarts
  }

  lemma DurationGrows(o: RestartOptions, n: nat)
    requires o.nodesInflight >= 1 && (o.restartRetryNumber >= 1 || o.restartDuration == 0 || n == 0)
    ensures Batches(n, o.nodesInflight) * PerNode(o) <= GetRestartDuration(o, n)
  {
    var b, d := Batches(n, o.nodesInflight), SECOND * o.restartDuration;
    if n == 0 {
      assert b == 0;
      assert 0 * (d + o.delayBetweenRestarts) == 0;
    } else {
      assert d <= d * o.restartRetryNumber by {
        if o.restartRetryNumber >= 1 {
          Times(1, o.restartRetryNumber, d);
        } else {
          assert d == 0;
        }
      }
      Times(d + o.delayBetweenRestarts, d * o.restartRetryNumber + o.delayBetweenRestarts, b);
    }
  }

  /** The lock duration covers every batch exactly when a retry is configured, or there is nothing to cover. */
  lemma LocksCoverIff(o: RestartOptions, n: nat)
    requires o.nodesInflight >= 1
    ensures LocksCover(o, n) <==> o.restartRetryNumber >= 1 || o.restartDuration == 0 || n == 0
  {
    var d := SECOND * o.restartDuration;
    if o.restartRetryNumber >= 1 || o.restartDuration == 0 || n == 0 {
      DurationGrows(o, n);
      forall s | DispatchesAll(o, n, s)
        ensures DoneBy(s, GetRestartDuration(o, n))
      {
        BatchIsOverBy(s, d);
      }
    } else {
      var s := GreedyExists(o.nodesInflight, o.delayBetweenRestarts, seq(n, _ => d));
      BoundIsTight(s, d, GetRestartDuration(o, n));
      BatchesIs(n, o.nodesInflight);
      var b := Batches(n, o.nodesInflight);
      assert d * o.restartRetryNumber == 0;
      assert b * (d + o.delayBetweenRestarts) == b * d + b * o.delayBetweenRestarts;
      Times(1, b, d);
      assert DispatchesAll(o, n, s);
    }
  }

  /** n jobs under these options, of which each makes all its attempts, and each attempt takes at most its duration. */
  ghost predicate RetriesAll(o: RestartOptions, n: nat, s: Schedule) {
    && Greedy(s) && AtMost(s, o.restartRetryNumber * (SECOND * o.restartDuration)) && |s.durations| == n
    && s.workers == o.nodesInflight && s.delay == o.delayBetweenRestarts
  }

  /**
   The lock duration is exact for a batch in which every node takes all its attempts in one go: it is the least time
   by which each such batch is over.
   */
  lemma {:induction false} LockDurationIsLeast(o: RestartOptions, n: nat, time: nat)
    requires o.nodesInflight >= 1
    ensures (forall s :: RetriesAll(o, n, s) ==> DoneBy(s, time)) <==> GetRestartDuration(o, n) <= time
  {
    var d := o.restartRetryNumber * (SECOND * o.restartDuration);
    assert GetRestartDuration(o, n) == Batches(n, o.nodesInflight) * (d + o.delayBetweenRestarts);
    if GetRestartDuration(o, n) <= time {
      forall s | RetriesAll(o, n, s)
        ensures DoneBy(s, time)
      {
        BatchIsOverBy(s, d);
      }
    } else {
      var s := GreedyExists(o.nodesInflight, o.delayBetweenRestarts, seq(n, _ => d));
      BoundIsTight(s, d, time);
      assert RetriesAll(o, n, s) && !DoneBy(s, time);
    }
  }
}
