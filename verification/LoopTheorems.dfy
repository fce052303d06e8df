/** The waiting loop end to end: from the statuses of each batch to what holds when the loop ends. */
module LoopTheorems {
  import opened Progress
  import opened Runs
  import opened Cancellation
  import opened Compatibility
  import opened Rolling
  import Dispatch
  import DispatchPlan
  import DispatchSafety

  // ---------------------------------------------------------------------------
  // A batch of goroutines is a batch of a round
  // ---------------------------------------------------------------------------

  /** At any point of any interleaving, the statuses sent so far are those of a batch over the selected actions. */
  lemma StatusesMakeBatch(c: Dispatch.Config, actions: seq<Action>, steps: seq<Dispatch.Step>)
    requires Dispatch.WellFormed(c) && multiset(Dispatch.Actions(c)) == multiset(actions)
    requires Dispatch.Interleaving(c, Dispatch.Fresh(c), steps)
    ensures var s := Dispatch.Outcome(c, Dispatch.Fresh(c), steps);
      && Dispatch.Inv(c, s)
      && BatchOk(actions, Batch(s.collected, s.buffer))
      && s.progress == HandleAll(c.retryLimit, c.before, s.collected)
  {
    Dispatch.FreshInv(c);
    Dispatch.InterleavingKeepsInv(c, Dispatch.Fresh(c), steps);
    var s := Dispatch.Outcome(c, Dispatch.Fresh(c), steps);
    DispatchSafety.AllAttempts(s.collected, s.buffer);
    SentIsPartOfBatch(c, actions, s);
  }

  lemma SentIsPartOfBatch(c: Dispatch.Config, actions: seq<Action>, s: Dispatch.State)
    requires Dispatch.Conserved(c, s) && Distinct(Dispatch.Actions(c))
    requires multiset(Dispatch.Actions(c)) == multiset(actions)
    requires multiset(ActionsOf(s.collected + s.buffer)) == Dispatch.Reporting(s)
    ensures BatchOk(actions, Batch(s.collected, s.buffer))
  {
    var sent := ActionsOf(s.collected + s.buffer);
    assert multiset(sent) <= multiset(s.taken) <= multiset(Dispatch.Actions(c));
    PartOfDistinct(sent, Dispatch.Actions(c));
    forall a | a in sent
      ensures a in actions
    {
      assert a in multiset(Dispatch.Actions(c));
    }
  }

  /**
   Whatever the interleaving, a batch that reaches CompleteAction did what a round may do with the actions selected
   for restart, and an uncancelled one restarted all of them; its state is the one HandleAll computes from the
   collected statuses.
   */
  lemma DispatchMakesBatch(c: Dispatch.Config, actions: seq<Action>, steps: seq<Dispatch.Step>)
    requires Dispatch.WellFormed(c) && multiset(Dispatch.Actions(c)) == multiset(actions)
    requires Dispatch.Interleaving(c, Dispatch.Fresh(c), steps)
    requires Dispatch.Outcome(c, Dispatch.Fresh(c), steps).dispatcher == Dispatch.Reported
    ensures var s := Dispatch.Outcome(c, Dispatch.Fresh(c), steps);
      var b := Batch(s.collected, s.buffer);
      && BatchOk(actions, b)
      && (!s.cancelled ==> Whole(actions, b))
      && s.progress == HandleAll(c.retryLimit, c.before, b.collected)
  {
    StatusesMakeBatch(c, actions, steps);
    var s := Dispatch.Outcome(c, Dispatch.Fresh(c), steps);
    if !s.cancelled {
      DispatchSafety.LocksOutliveRestarts(c, steps);
      DispatchSafety.EverythingCollected(c, s);
      WholeWhenCounted(actions, s.collected, s.buffer, s.started);
    }
  }

  /** The batch of a round, with the state in which processActionGroupStates starts it. */
  ghost predicate BatchOfRound(limit: nat, w: World, r: Round, c: Dispatch.Config) {
    && Dispatch.WellFormed(c) && c.retryLimit == limit && c.before == Resumed(w, r)
    && multiset(Dispatch.Actions(c)) == multiset(Dispatched(w, r))
  }

  /** What dispatchActions starts for the actions selected in a round is the batch of that round. */
  lemma PlanIsBatchOfRound(o: DispatchPlan.Options, w: World, r: Round, c: Dispatch.Config)
    requires DispatchPlan.Plans(o, Dispatched(w, r), Resumed(w, r), c)
    ensures BatchOfRound(o.restartRetryNumber, w, r, c)
  {
  }

  /**
   At every step of every interleaving of a round's batch, cancelled or not, the counter is the number of distinct
   targets remembered as finished so far, and the unreported list has no repeats and lies within them.
   */
  lemma ProgressInEveryInterleaving(limit: nat, targets: seq<Action>, w: World, r: Round,
                                    c: Dispatch.Config, steps: seq<Dispatch.Step>)
    requires Distinct(targets) && WorldInv(limit, targets, w) && ListingOk(targets, w, r.listing)
    requires BatchOfRound(limit, w, r, c) && Dispatch.Interleaving(c, Dispatch.Fresh(c), steps)
    ensures var s := Dispatch.Outcome(c, Dispatch.Fresh(c), steps);
      Counts(targets, s.progress, Remembered(limit, targets, w, s.collected))
  {
    StatusesMakeBatch(c, Dispatched(w, r), steps);
    var s := Dispatch.Outcome(c, Dispatch.Fresh(c), steps);
    var now := r.(batch := Batch(s.collected, s.buffer));
    assert Dispatched(w, now) == Dispatched(w, r) && Resumed(w, now) == Resumed(w, r);
    BatchIsCounted(limit, targets, w, now);
  }

  /** A round whose batch begins after cancellation is silent. */
  lemma LateBatchMakesSilentRound(limit: nat, targets: seq<Action>, w: World, r: Round,
                                  c: Dispatch.Config, steps: seq<Dispatch.Step>)
    requires ListingOk(targets, w, r.listing) && BatchOfRound(limit, w, r, c)
    requires Dispatch.Interleaving(c, Dispatch.Late(c), steps)
    ensures var s := Dispatch.Outcome(c, Dispatch.Late(c), steps);
      s.started == [] && Silent(targets, w, r.(batch := Batch(s.collected, s.buffer))) && s.progress == Resumed(w, r)
  {
    DispatchSafety.LateBatchIsSilent(c, steps);
  }

  lemma WholeWhenCounted(actions: seq<Action>, collected: seq<Status>, buffer: seq<Status>, started: seq<Action>)
    requires multiset(ActionsOf(collected)) == multiset(actions) && multiset(started) == multiset(actions)
    requires multiset(ActionsOf(collected + buffer)) == multiset(started)
    ensures Whole(actions, Batch(collected, buffer))
  {
    assert |multiset(ActionsOf(collected + buffer))| == |collected| + |buffer|;
    assert |multiset(ActionsOf(collected))| == |collected|;
    forall a | a in actions
      ensures a in ActionsOf(collected)
    {
      assert a in multiset(ActionsOf(collected));
    }
  }

  // ---------------------------------------------------------------------------
  // The rounds of the loop are a run
  // ---------------------------------------------------------------------------

  /**
   The state follows the rounds processed, and only a completed round, which is then the last, ends with AllCompleted.
   */
  ghost predicate Follows(limit: nat, w: World, m: Machine) {
    var n := |m.processed|;
    && m.p == After(limit, w, m.processed).p
    && (forall k :: 0 <= k < n && Completed(limit, WorldAt(limit, w, m.processed, k).p, m.processed[k])
          ==> k == n - 1 && m.exit == AllCompleted)
    && (m.exit == AllCompleted ==>
          n > 0 && Completed(limit, WorldAt(limit, w, m.processed, n - 1).p, m.processed[n - 1]))
  }

  lemma TurnFollows(limit: nat, suppress: bool, w: World, m: Machine, t: Turn)
    requires m.exit == Running && Follows(limit, w, m)
    ensures Follows(limit, w, TakeTurn(limit, suppress, m, t))
  {
    var n := TakeTurn(limit, suppress, m, t);
    if m.hasTask {
      AfterOneMore(limit, w, m.processed, t.round);
      assert n.processed == m.processed + [t.round];
      assert n.processed[..|m.processed|] == m.processed;
      forall k | 0 <= k < |m.processed|
        ensures WorldAt(limit, w, n.processed, k) == WorldAt(limit, w, m.processed, k)
      {
        assert n.processed[..k] == m.processed[..k];
      }
    }
  }

  lemma {:induction false} LoopFollows(limit: nat, suppress: bool, w: World, m: Machine, turns: seq<Turn>)
    requires m == Machine(w.p, m.known, true, Running, [])
    ensures Follows(limit, w, Loop(limit, suppress, m, turns))
  {
    if turns != [] {
      LoopFollows(limit, suppress, w, m, turns[..|turns| - 1]);
      var before := Loop(limit, suppress, m, turns[..|turns| - 1]);
      if before.exit == Running {
        TurnFollows(limit, suppress, w, before, turns[|turns| - 1]);
      }
    }
  }

  /** The machine with which cmsWaitingLoop starts after a task has been created. */
  function LoopFrom(limit: nat, suppress: bool, turns: seq<Turn>): Machine {
    Loop(limit, suppress, Machine(START, map[], true, Running, []), turns)
  }

  /**
   End to end, for any sequence of turns and wherever the context is cancelled: no action is restarted successfully
   twice or attempted more than RestartRetryNumber times, the progress counter is the number of targets remembered
   as finished, and when the loop ends because everything is complete, every target was restarted or given up and
   the CMS holds no action of the task.
   */
  lemma WaitingLoopIsSafe(limit: nat, suppress: bool, targets: seq<Action>, turns: seq<Turn>, cut: nat)
    returns (remembered: set<ActionId>)
    requires limit >= 1 && Distinct(targets)
    requires Supplied(limit, targets, LoopFrom(limit, suppress, turns).processed, cut)
    ensures var m := LoopFrom(limit, suppress, turns);
      var w := After(limit, Begin(targets), m.processed);
      && m.p == w.p
      && Bounded(limit, targets, w.log)
      && Counts(targets, m.p, remembered) && remembered <= DoneUids(limit, targets, w.log)
      && (m.exit == AllCompleted ==> Over(limit, targets, w))
  {
    var m, w := LoopFrom(limit, suppress, turns), Begin(targets);
    LoopFollows(limit, suppress, w, Machine(START, map[], true, Running, []), turns);
    remembered := SuppliedIsSafe(limit, targets, m.processed, cut);
    if m.exit == AllCompleted {
      SuppliedExitIsSound(limit, targets, m.processed, cut);
    }
  }

  // ---------------------------------------------------------------------------
  // The version check
  // ---------------------------------------------------------------------------

  /** What must be so for a turn to end the loop in this way, or not to end it. */
  ghost predicate Justified(limit: nat, suppress: bool, m: Machine, t: Turn, exit: Exit) {
    var completed := m.hasTask && Completed(limit, m.p, t.round);
    var checked := t.refreshed && !suppress;
    match exit
    case AllCompleted => completed
    case Canceled => t.cancelled
    case ListingFailed => checked && t.nodes == NodesFailed
    case VersionsIncompatible =>
      checked && t.nodes.Nodes? && !Compatibility.Accepted(RecordAll(m.known, t.nodes.versions))
    case Running =>
      && !completed && !t.cancelled && (checked ==> t.nodes != NodesFailed)
      && (checked && t.nodes.Nodes? ==> Compatibility.Accepted(RecordAll(m.known, t.nodes.versions)))
  }

  /** Completion comes before cancellation and that before the version check; too many retries end nothing. */
  lemma TurnExit(limit: nat, suppress: bool, m: Machine, t: Turn)
    requires m.exit == Running && ValidKnown(m.known) && (t.nodes.Nodes? ==> ValidVersions(t.nodes.versions))
    ensures var exit := TakeTurn(limit, suppress, m, t).exit;
      && Justified(limit, suppress, m, t, exit)
      && (m.hasTask && Completed(limit, m.p, t.round) ==> exit == AllCompleted)
      && (t.cancelled ==> exit == AllCompleted || exit == Canceled)
      && (t.nodes == RetriesExceeded ==> exit == AllCompleted || exit == Canceled || exit == Running)
    ensures ValidKnown(TakeTurn(limit, suppress, m, t).known)
  {
    if t.nodes.Nodes? {
      RecordAddsReported(m.known, t.nodes.versions);
      VerdictMeans(RecordAll(m.known, t.nodes.versions));
    }
  }

  ghost predicate ValidTurns(turns: seq<Turn>) {
    forall t :: t in turns && t.nodes.Nodes? ==> ValidVersions(t.nodes.versions)
  }

  /**
   A loop that has ended was ended by one turn, for a reason found in that turn. So a listing that ran out of retries
   never ends the loop, and it ends as incompatible exactly on versions that are not accepted.
   */
  lemma {:induction false} OnlyVerdictsAbort(limit: nat, suppress: bool, m: Machine, turns: seq<Turn>) returns (k: nat)
    requires m.exit == Running && ValidKnown(m.known) && ValidTurns(turns)
    ensures ValidKnown(Loop(limit, suppress, m, turns).known)
    ensures k <= |turns|
    ensures Loop(limit, suppress, m, turns).exit == Running <==> k == |turns|
    ensures var before := Loop(limit, suppress, m, turns[..k]);
      && before.exit == Running
      && (k < |turns| ==>
            && Loop(limit, suppress, m, turns) == TakeTurn(limit, suppress, before, turns[k])
            && Justified(limit, suppress, before, turns[k], Loop(limit, suppress, m, turns).exit)
            && (turns[k].nodes == RetriesExceeded ==>
                  var exit := Loop(limit, suppress, m, turns).exit; exit == AllCompleted || exit == Canceled))
  {
    if turns == [] {
      return 0;
    }
    var n := |turns| - 1;
    assert turns == turns[..n] + [turns[n]];
    k := OnlyVerdictsAbort(limit, suppress, m, turns[..n]);
    if k == n {
      var before := Loop(limit, suppress, m, turns[..n]);
      TurnExit(limit, suppress, before, turns[n]);
      if TakeTurn(limit, suppress, before, turns[n]).exit == Running {
        k := n + 1;
        assert turns[..k] == turns;
      }
    } else {
      assert turns[..n][..k] == turns[..k];
    }
  }
}
