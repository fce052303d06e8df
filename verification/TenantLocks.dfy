/** Whether the maintenance locks cover a batch that dispatchByTenant runs. */
module TenantLocks {
  import opened Sums
  import opened Makespan

  /**
   The semaphore runs the tenants like a pool runs nodes: times[g] is how long the handler of tenant g takes.
   With at most m nodes in a tenant, G tenants on t slots are over by ceil(G / t) * ceil(m / k) * (D + delay).
   */
  lemma TenantsAreOverBy(tenants: Schedule, perTenant: seq<Schedule>, d: nat, delay: nat, workers: nat, m: nat)
    requires Greedy(tenants) && tenants.delay == 0 && |perTenant| == |tenants.durations| && workers >= 1
    requires forall g :: 0 <= g < |perTenant| ==>
      && Greedy(perTenant[g]) && AtMost(perTenant[g], d) && |perTenant[g].durations| <= m
      && perTenant[g].workers == workers && perTenant[g].delay == delay
      && EndsAt(perTenant[g], tenants.durations[g])
    ensures DoneBy(tenants, Batches(|perTenant|, tenants.workers) * (Batches(m, workers) * (d + delay)))
  {
    var longest := Batches(m, workers) * (d + delay);
    forall g | 0 <= g < |tenants.durations|
      ensures tenants.durations[g] <= longest
    {
      var s := perTenant[g];
      BatchIsOverBy(s, d);
      BatchesGrow(|s.durations|, m, workers);
      Times(Batches(|s.durations|, workers), Batches(m, workers), d + delay);
    }
    BatchIsOverBy(tenants, longest);
  }

  /** dispatchByTenant: tenants with these numbers of nodes, in this order; a tenant takes as long as its own batch. */
  ghost predicate DispatchesByTenant(o: RestartOptions, slots: nat, sizes: seq<nat>, tenants: Schedule,
                                     perTenant: seq<Schedule>) {
    && Greedy(tenants) && tenants.delay == 0 && tenants.workers == slots
    && |perTenant| == |sizes| && |tenants.durations| == |sizes|
    && forall g :: 0 <= g < |sizes| ==>
         DispatchesAll(o, sizes[g], perTenant[g]) && EndsAt(perTenant[g], tenants.durations[g])
  }

  function Total(sizes: seq<nat>): nat {
    Sum(sizes, (n: nat) => n)
  }

  /** However the restarts go, and in whatever order the tenants come, the batch is over before the locks expire. */
  ghost predicate LocksCoverByTenant(o: RestartOptions, slots: nat, sizes: seq<nat>)
    requires o.nodesInflight >= 1
  {
    forall order: seq<nat>, tenants, perTenant ::
      multiset(order) == multiset(sizes) && DispatchesByTenant(o, slots, order, tenants, perTenant)
      ==> DoneBy(tenants, GetRestartDuration(o, Total(sizes)))
  }

  /** The slowest batch of n nodes: every restart takes the whole duration. */
  lemma SlowestBatch(o: RestartOptions, n: nat) returns (s: Schedule)
    requires o.nodesInflight >= 1
    ensures DispatchesAll(o, n, s) && EndsAt(s, Batches(n, o.nodesInflight) * PerNode(o))
  {
    var d := SECOND * o.restartDuration;
    s := GreedyExists(o.nodesInflight, o.delayBetweenRestarts, seq(n, _ => d));
    var bound := Batches(n, o.nodesInflight) * PerNode(o);
    BoundIsTight(s, d, bound);
    if n == 0 {
      assert Batches(0, o.nodesInflight) == 0;
      assert 0 * PerNode(o) == 0;
      assert FreeAfter(s, 0)[0] == 0;
    } else {
      var v := SomeWorkerTookMany(s, n);
      FreeBound(s, n, v, d);
      Times(Batches(n, o.nodesInflight), Taken(s, n, v), PerNode(o));
    }
  }

  lemma {:induction false} SlowestTenants(o: RestartOptions, sizes: seq<nat>) returns (perTenant: seq<Schedule>)
    requires o.nodesInflight >= 1
    ensures |perTenant| == |sizes|
    ensures forall g :: 0 <= g < |sizes| ==>
      && DispatchesAll(o, sizes[g], perTenant[g])
      && EndsAt(perTenant[g], Batches(sizes[g], o.nodesInflight) * PerNode(o))
  {
    if sizes == [] {
      return [];
    }
    var n := |sizes| - 1;
    var earlier := SlowestTenants(o, sizes[..n]);
    var last := SlowestBatch(o, sizes[n]);
    perTenant := earlier + [last];
  }

  /** The longest batches of the tenants, in this order, one semaphore slot after the other. */
  lemma SlowestDispatch(o: RestartOptions, slots: nat, sizes: seq<nat>)
    returns (tenants: Schedule, perTenant: seq<Schedule>)
    requires o.nodesInflight >= 1 && slots >= 1
    ensures DispatchesByTenant(o, slots, sizes, tenants, perTenant)
    ensures forall g :: 0 <= g < |sizes| ==> tenants.durations[g] == Batches(sizes[g], o.nodesInflight) * PerNode(o)
  {
    perTenant := SlowestTenants(o, sizes);
    var times := seq(|sizes|, g requires 0 <= g < |sizes| => Batches(sizes[g], o.nodesInflight) * PerNode(o));
    tenants := GreedyExists(slots, 0, times);
  }

  lemma {:induction false} TotalOfEqual(count: nat, m: nat)
    ensures Total(seq(count, _ => m)) == count * m
  {
    if count > 0 {
      TotalOfEqual(count - 1, m);
      assert seq(count, _ => m)[..count - 1] == seq(count - 1, _ => m);
      assert count * m == (count - 1) * m + m;
    }
  }

  // ---------------------------------------------------------------------------
  // When greedy pools end
  // ---------------------------------------------------------------------------

  /** When each slot is free again after jobs of these durations, each given to a slot that is free first. */
  function FreeTimes(slots: nat, durations: seq<nat>): (free: seq<nat>)
    requires slots >= 1
    ensures |free| == slots
  {
    if durations == [] then seq(slots, _ => 0)
    else
      var before := FreeTimes(slots, durations[..|durations| - 1]);
      var w := FirstFree(before);
      before[w := before[w] + durations[|durations| - 1]]
  }

  function Latest(free: seq<nat>): (latest: nat)
    ensures forall v :: 0 <= v < |free| ==> free[v] <= latest
    ensures free != [] ==> latest in free
  {
    if free == [] then 0
    else
      var latest := Latest(free[..|free| - 1]);
      if |free| == 1 || free[|free| - 1] > latest then free[|free| - 1] else latest
  }

  function LaterThan(x: nat): nat -> nat {
    t => if t > x then 1 else 0
  }

  /** How many slots are free only after x. */
  function CountLater(free: seq<nat>, x: nat): nat {
    Sum(free, LaterThan(x))
  }

  /** At every moment, no more slots are still taken in a than in b. */
  ghost predicate Before(a: seq<nat>, b: seq<nat>) {
    |a| == |b| && forall x: nat :: CountLater(a, x) <= CountLater(b, x)
  }

  lemma {:induction false} CountIs(free: seq<nat>, x: nat)
    ensures CountLater(free, x) <= |free|
    ensures CountLater(free, x) == |free| <==> forall v :: 0 <= v < |free| ==> free[v] > x
    ensures CountLater(free, x) == 0 <==> forall v :: 0 <= v < |free| ==> free[v] <= x
  {
    if free != [] {
      CountIs(free[..|free| - 1], x);
    }
  }

  lemma BeforeIsOverFirst(a: seq<nat>, b: seq<nat>, time: nat)
    requires Before(a, b) && forall v :: 0 <= v < |b| ==> b[v] <= time
    ensures forall v :: 0 <= v < |a| ==> a[v] <= time
  {
    CountIs(a, time);
    CountIs(b, time);
  }

  ghost predicate First(free: seq<nat>, w: nat) {
    w < |free| && forall v :: 0 <= v < |free| ==> free[w] <= free[v]
  }

  lemma FirstBefore(a: seq<nat>, b: seq<nat>, v: nat, w: nat)
    requires Before(a, b) && First(a, v) && First(b, w)
    ensures a[v] <= b[w]
  {
    CountIs(a, b[w]);
    CountIs(b, b[w]);
  }

  /** The slots that are free first take jobs of which the one in a is no longer. */
  lemma JobKeepsBefore(a: seq<nat>, b: seq<nat>, v: nat, w: nat, d: nat, e: nat)
    requires Before(a, b) && First(a, v) && First(b, w) && d <= e
    ensures Before(a[v := a[v] + d], b[w := b[w] + e])
  {
    var a1, b1 := a[v := a[v] + d], b[w := b[w] + e];
    forall x: nat
      ensures CountLater(a1, x) <= CountLater(b1, x)
    {
      JobKeepsCount(a, b, v, w, d, e, x);
    }
  }

  lemma JobKeepsCount(a: seq<nat>, b: seq<nat>, v: nat, w: nat, d: nat, e: nat, x: nat)
    requires Before(a, b) && First(a, v) && First(b, w) && d <= e
    ensures CountLater(a[v := a[v] + d], x) <= CountLater(b[w := b[w] + e], x)
  {
    FirstBefore(a, b, v, w);
    CountAfterJob(a, v, d, x);
    CountAfterJob(b, w, e, x);
    assert CountLater(a, x) <= CountLater(b, x);
  }

  /** How the count changes when the first slot takes a job. */
  lemma CountAfterJob(free: seq<nat>, w: nat, d: nat, x: nat)
    requires First(free, w)
    ensures var later, all := free[w := free[w] + d], |free|;
      && (free[w] > x ==> CountLater(free, x) == CountLater(later, x) == all)
      && (free[w] + d <= x ==> CountLater(later, x) == CountLater(free, x) < all)
      && (free[w] <= x < free[w] + d ==> CountLater(later, x) == CountLater(free, x) + 1 <= all)
  {
    var later: seq<nat>, f := free[w := free[w] + d], LaterThan(x);
    SumUpdate<nat>(free, w, free[w] + d, f);
    CountIs(free, x);
    CountIs(later, x);
    assert later[w] == free[w] + d;
    assert CountLater(later, x) + f(free[w]) == CountLater(free, x) + f(later[w]);
  }

  ghost predicate NoLonger(d: seq<nat>, e: seq<nat>) {
    |d| == |e| && forall j :: 0 <= j < |d| ==> d[j] <= e[j]
  }

  lemma {:induction false} LongerJobsAreLater(slots: nat, d: seq<nat>, e: seq<nat>)
    requires slots >= 1 && NoLonger(d, e)
    ensures Before(FreeTimes(slots, d), FreeTimes(slots, e))
  {
    if d != [] {
      var n := |d| - 1;
      LongerJobsAreLater(slots, d[..n], e[..n]);
      var a, b := FreeTimes(slots, d[..n]), FreeTimes(slots, e[..n]);
      JobKeepsBefore(a, b, FirstFree(a), FirstFree(b), d[n], e[n]);
    }
  }

  /** Whichever of the slots that are free first a greedy pool takes, its slots are free at the computed times. */
  lemma {:induction false} GreedyIsComputed(s: Schedule, n: nat)
    requires Greedy(s) && s.delay == 0 && n <= |s.durations|
    ensures Before(FreeAfter(s, n), FreeTimes(s.workers, s.durations[..n]))
    ensures Before(FreeTimes(s.workers, s.durations[..n]), FreeAfter(s, n))
  {
    if n > 0 {
      var k := n - 1;
      GreedyIsComputed(s, k);
      ComputedStep(s, k);
    }
  }

  lemma ComputedStep(s: Schedule, k: nat)
    requires Greedy(s) && s.delay == 0 && k < |s.durations|
    requires Before(FreeAfter(s, k), FreeTimes(s.workers, s.durations[..k]))
    requires Before(FreeTimes(s.workers, s.durations[..k]), FreeAfter(s, k))
    ensures Before(FreeAfter(s, k + 1), FreeTimes(s.workers, s.durations[..k + 1]))
    ensures Before(FreeTimes(s.workers, s.durations[..k + 1]), FreeAfter(s, k + 1))
  {
    assert s.durations[..k + 1][..k] == s.durations[..k];
    var a, b := FreeAfter(s, k), FreeTimes(s.workers, s.durations[..k]);
    var v, w, d := s.choices[k], FirstFree(b), s.durations[k];
    assert StartOf(s, k) == a[v];
    JobKeepsBefore(a, b, v, w, d, d);
    JobKeepsBefore(b, a, w, v, d, d);
  }

  function GreedyEnd(slots: nat, durations: seq<nat>): nat
    requires slots >= 1
  {
    Latest(FreeTimes(slots, durations))
  }

  lemma GreedyEndsAt(s: Schedule, time: nat)
    requires Greedy(s) && s.delay == 0
    ensures DoneBy(s, time) <==> GreedyEnd(s.workers, s.durations) <= time
  {
    var n := |s.durations|;
    GreedyIsComputed(s, n);
    assert s.durations[..n] == s.durations;
    var a, b := FreeAfter(s, n), FreeTimes(s.workers, s.durations);
    if GreedyEnd(s.workers, s.durations) <= time {
      BeforeIsOverFirst(a, b, time);
    }
    if DoneBy(s, time) {
      BeforeIsOverFirst(b, a, time);
    }
  }

  // ---------------------------------------------------------------------------
  // The exact condition
  // ---------------------------------------------------------------------------

  /** How long the tenants take at worst. */
  function WorstTimes(o: RestartOptions, sizes: seq<nat>): seq<nat>
    requires o.nodesInflight >= 1
  {
    seq(|sizes|, g requires 0 <= g < |sizes| => Batches(sizes[g], o.nodesInflight) * PerNode(o))
  }

  /** When the batch is over at worst, if the tenants come in this order. */
  function WorstEnd(o: RestartOptions, slots: nat, order: seq<nat>): nat
    requires o.nodesInflight >= 1 && slots >= 1
  {
    GreedyEnd(slots, WorstTimes(o, order))
  }

  lemma TenantsWithinWorst(o: RestartOptions, slots: nat, order: seq<nat>, tenants: Schedule, perTenant: seq<Schedule>)
    requires o.nodesInflight >= 1 && DispatchesByTenant(o, slots, order, tenants, perTenant)
    ensures NoLonger(tenants.durations, WorstTimes(o, order))
  {
    forall g | 0 <= g < |order|
      ensures tenants.durations[g] <= WorstTimes(o, order)[g]
    {
      BatchIsOverBy(perTenant[g], SECOND * o.restartDuration);
    }
  }

  lemma OrderIsOverBy(o: RestartOptions, slots: nat, order: seq<nat>, tenants: Schedule, perTenant: seq<Schedule>)
    requires o.nodesInflight >= 1 && slots >= 1 && DispatchesByTenant(o, slots, order, tenants, perTenant)
    ensures DoneBy(tenants, WorstEnd(o, slots, order))
  {
    TenantsWithinWorst(o, slots, order, tenants, perTenant);
    var times := WorstTimes(o, order);
    LongerJobsAreLater(slots, tenants.durations, times);
    BeforeIsOverFirst(FreeTimes(slots, tenants.durations), FreeTimes(slots, times), WorstEnd(o, slots, order));
    GreedyEndsAt(tenants, WorstEnd(o, slots, order));
  }

  /**
   GetRestartDuration does not look at the tenants. The locks cover a batch by tenant, however the restarts go and in
   whatever order the map lists the tenants, exactly when for each order the greedy pool of the semaphore would end
   within them if every restart took its whole duration. That is a finite computation on the numbers of nodes.
   */
  lemma LocksCoverIffEveryOrder(o: RestartOptions, slots: nat, sizes: seq<nat>)
    requires o.nodesInflight >= 1 && slots >= 1
    ensures LocksCoverByTenant(o, slots, sizes) <==>
      forall order: seq<nat> :: multiset(order) == multiset(sizes) ==>
        WorstEnd(o, slots, order) <= GetRestartDuration(o, Total(sizes))
  {
    var duration := GetRestartDuration(o, Total(sizes));
    if LocksCoverByTenant(o, slots, sizes) {
      forall order: seq<nat> | multiset(order) == multiset(sizes)
        ensures WorstEnd(o, slots, order) <= duration
      {
        var tenants, perTenant := SlowestDispatch(o, slots, order);
        assert tenants.durations == WorstTimes(o, order);
        GreedyEndsAt(tenants, duration);
      }
    }
    if forall order: seq<nat> :: multiset(order) == multiset(sizes) ==> WorstEnd(o, slots, order) <= duration {
      forall order: seq<nat>, tenants, perTenant |
        multiset(order) == multiset(sizes) && DispatchesByTenant(o, slots, order, tenants, perTenant)
        ensures DoneBy(tenants, duration)
      {
        OrderIsOverBy(o, slots, order, tenants, perTenant);
      }
    }
  }

  // ---------------------------------------------------------------------------
  // Closed forms
  // ---------------------------------------------------------------------------

  /** This many tenants, of at most m nodes each: ceil(G / t) rounds of tenants, of ceil(m / k) rounds of nodes each. */
  function TenantBound(o: RestartOptions, slots: nat, count: nat, m: nat): nat
    requires o.nodesInflight >= 1 && slots >= 1
  {
    Batches(count, slots) * (Batches(m, o.nodesInflight) * PerNode(o))
  }

  lemma PermutedWithin(order: seq<nat>, sizes: seq<nat>, m: nat)
    requires multiset(order) == multiset(sizes) && forall n :: n in sizes ==> n <= m
    ensures |order| == |sizes| && forall g :: 0 <= g < |order| ==> order[g] <= m
  {
    assert |order| == |multiset(order)| == |multiset(sizes)| == |sizes|;
    forall g | 0 <= g < |order|
      ensures order[g] <= m
    {
      assert order[g] in multiset(order);
      assert order[g] in sizes;
    }
  }

  /** With at most m nodes in a tenant the worst case is within the bound, and it is the bound if all have m. */
  lemma WorstEndWithin(o: RestartOptions, slots: nat, order: seq<nat>, m: nat)
    requires o.nodesInflight >= 1 && slots >= 1 && forall g :: 0 <= g < |order| ==> order[g] <= m
    ensures WorstEnd(o, slots, order) <= TenantBound(o, slots, |order|, m)
    ensures (forall g :: 0 <= g < |order| ==> order[g] == m) ==>
      WorstEnd(o, slots, order) == TenantBound(o, slots, |order|, m)
  {
    var each, bound := Batches(m, o.nodesInflight) * PerNode(o), TenantBound(o, slots, |order|, m);
    var s := GreedyExists(slots, 0, WorstTimes(o, order));
    forall g | 0 <= g < |order|
      ensures WorstTimes(o, order)[g] <= each
    {
      BatchesGrow(order[g], m, o.nodesInflight);
      Times(Batches(order[g], o.nodesInflight), Batches(m, o.nodesInflight), PerNode(o));
    }
    BatchIsOverBy(s, each);
    GreedyEndsAt(s, bound);
    if forall g :: 0 <= g < |order| ==> order[g] == m {
      BoundIsTight(s, each, WorstEnd(o, slots, order));
      GreedyEndsAt(s, WorstEnd(o, slots, order));
    }
  }

  /** The locks cover a batch of tenants with at most m nodes each, if the bound for such tenants is within them. */
  lemma {:induction false} LocksCoverWhen(o: RestartOptions, slots: nat, sizes: seq<nat>, m: nat)
    requires o.nodesInflight >= 1 && slots >= 1 && forall n :: n in sizes ==> n <= m
    requires TenantBound(o, slots, |sizes|, m) <= GetRestartDuration(o, Total(sizes))
    ensures LocksCoverByTenant(o, slots, sizes)
  {
    forall order: seq<nat> | multiset(order) == multiset(sizes)
      ensures WorstEnd(o, slots, order) <= GetRestartDuration(o, Total(sizes))
    {
      PermutedWithin(order, sizes, m);
      WorstEndWithin(o, slots, order, m);
    }
    LocksCoverIffEveryOrder(o, slots, sizes);
  }

  /**
   For tenants of equal size, the locks cover the batch exactly when ceil(G / t) rounds of tenants, of ceil(m / k)
   rounds of nodes each, fit into them.
   */
  lemma {:induction false} EqualTenantsCoverIff(o: RestartOptions, slots: nat, count: nat, m: nat)
    requires o.nodesInflight >= 1 && slots >= 1
    ensures LocksCoverByTenant(o, slots, seq(count, _ => m)) <==>
      TenantBound(o, slots, count, m) <= GetRestartDuration(o, count * m)
  {
    var sizes := seq(count, _ => m);
    TotalOfEqual(count, m);
    WorstEndWithin(o, slots, sizes, m);
    LocksCoverIffEveryOrder(o, slots, sizes);
    if TenantBound(o, slots, count, m) <= GetRestartDuration(o, count * m) {
      LocksCoverWhen(o, slots, sizes, m);
    }
  }

  /** How many rounds of nodes the tenants need in all. */
  function AllBatches(sizes: seq<nat>, workers: nat): nat
    requires workers >= 1
  {
    Sum(sizes, (n: nat) => if workers >= 1 then Batches(n, workers) else 0)
  }

  lemma {:induction false} SumWithin(durations: seq<nat>, sizes: seq<nat>, workers: nat, each: nat)
    requires workers >= 1 && |durations| == |sizes|
    ensures (forall g :: 0 <= g < |sizes| ==> durations[g] <= Batches(sizes[g], workers) * each) ==>
      Total(durations) <= AllBatches(sizes, workers) * each
    ensures (forall g :: 0 <= g < |sizes| ==> durations[g] == Batches(sizes[g], workers) * each) ==>
      Total(durations) == AllBatches(sizes, workers) * each
  {
    if sizes != [] {
      var n := |sizes| - 1;
      SumWithin(durations[..n], sizes[..n], workers, each);
      DistributeSum(AllBatches(sizes[..n], workers), Batches(sizes[n], workers), each);
      assert Total(durations) == Total(durations[..n]) + durations[n];
    }
  }

  lemma {:induction false} OneSlotSum(durations: seq<nat>)
    ensures FreeTimes(1, durations) == [Total(durations)]
  {
    if durations != [] {
      OneSlotSum(durations[..|durations| - 1]);
    }
  }

  lemma WorstEndOfOneSlot(o: RestartOptions, order: seq<nat>)
    requires o.nodesInflight >= 1
    ensures WorstEnd(o, 1, order) == AllBatches(order, o.nodesInflight) * PerNode(o)
  {
    OneSlotSum(WorstTimes(o, order));
    SumWithin(WorstTimes(o, order), order, o.nodesInflight, PerNode(o));
  }

  /**
   One tenant at a time, of any sizes: the locks cover the batch exactly when all rounds of all tenants fit into them.
   */
  lemma {:induction false} OneSlotCoversIff(o: RestartOptions, sizes: seq<nat>)
    requires o.nodesInflight >= 1
    ensures LocksCoverByTenant(o, 1, sizes) <==>
      AllBatches(sizes, o.nodesInflight) * PerNode(o) <= GetRestartDuration(o, Total(sizes))
  {
    LocksCoverIffEveryOrder(o, 1, sizes);
    WorstEndOfOneSlot(o, sizes);
    forall order: seq<nat> | multiset(order) == multiset(sizes)
      ensures WorstEnd(o, 1, order) == WorstEnd(o, 1, sizes)
    {
      WorstEndOfOneSlot(o, order);
      SumPermuted(order, sizes, (n: nat) => if o.nodesInflight >= 1 then Batches(n, o.nodesInflight) else 0);
    }
  }

  lemma {:induction false} AtMostTotal(sizes: seq<nat>)
    ensures forall n :: n in sizes ==> n <= Total(sizes)
  {
    if sizes != [] {
      AtMostTotal(sizes[..|sizes| - 1]);
      assert sizes == sizes[..|sizes| - 1] + [sizes[|sizes| - 1]];
    }
  }

  lemma OneRound(n: nat, k: nat)
    requires 1 <= n <= k
    ensures Batches(n, k) == 1
  {
    BatchesIs(n, k);
    DivBounds(n - 1, k);
    if (n - 1) / k > 0 {
      Times(1, (n - 1) / k, k);
    }
  }

  /** With a slot for every tenant and a retry configured, the locks always cover the batch. */
  lemma EnoughSlotsCover(o: RestartOptions, slots: nat, sizes: seq<nat>)
    requires o.nodesInflight >= 1 && o.restartRetryNumber >= 1 && 1 <= |sizes| <= slots
    ensures LocksCoverByTenant(o, slots, sizes)
  {
    AtMostTotal(sizes);
    OneRound(|sizes|, slots);
    DurationGrows(o, Total(sizes));
    LocksCoverWhen(o, slots, sizes, Total(sizes));
  }

  /**
   Three tenants of one node each, three nodes in flight per tenant, one tenant at a time and a single attempt:
   the locks last 61 seconds, and the batch can take 183.
   */
  lemma LocksCanExpireByTenant(o: RestartOptions)
    requires o == RestartOptions(1, 60, SECOND, 3)
    ensures GetRestartDuration(o, 3) == 61 * SECOND
    ensures !LocksCoverByTenant(o, 1, seq(3, _ => 1))
  {
    EqualTenantsCoverIff(o, 1, 3, 1);
  }
}
