/** Progress inside a batch, and runs that go on after a batch was cut short. */
module Cancellation {
  import opened Collections
  import opened Progress
  import opened Runs
  import opened RunTheorems

  // ---------------------------------------------------------------------------
  // Inside a batch
  // ---------------------------------------------------------------------------

  /** The state in which the batch of a round starts. */
  function Resumed(w: World, r: Round): Progress {
    w.p.(completed := AlreadyDone(w.p.unreported, Performed(r.listing)))
  }

  /** The targets remembered as finished, once these statuses of a batch have been handled. */
  ghost function Remembered(limit: nat, targets: seq<Action>, w: World, handled: seq<Status>): set<ActionId> {
    DoneUids(limit, targets, w.log) + FinishedUids(limit, w.p.retries, handled)
  }

  /** The counter is the number of distinct remembered targets; the unreported ones are among them, once each. */
  ghost predicate Counts(targets: seq<Action>, p: Progress, remembered: set<ActionId>) {
    && p.restarted == |remembered| && |remembered| <= |targets|
    && remembered <= UidsOf(targets)
    && NoRepeats(p.unreported) && Uids(p.unreported) <= remembered
  }

  /** The round as it stands after the first n statuses. */
  function Prefix(r: Round, n: nat): Round
    requires n <= |r.batch.collected|
  {
    r.(batch := Batch(r.batch.collected[..n], r.batch.collected[n..] + r.batch.uncollected))
  }

  lemma PrefixIsOk(targets: seq<Action>, w: World, r: Round, n: nat)
    requires n <= |r.batch.collected| && RoundOk(targets, w, r)
    ensures RoundOk(targets, w, Prefix(r, n)) && Attempts(Prefix(r, n).batch) == Attempts(r.batch)
  {
    assert Attempts(Prefix(r, n).batch) == Attempts(r.batch);
  }

  /** Cut short or not, what a batch finishes is new among the targets, and done. */
  lemma {:induction false} FinishedAreNew(limit: nat, targets: seq<Action>, w: World, r: Round)
    requires Distinct(targets) && WorldInv(limit, targets, w) && RoundOk(targets, w, r)
    ensures DoneUids(limit, targets, w.log) !! Finished(limit, w, r)
    ensures DoneUids(limit, targets, w.log) + Finished(limit, w, r)
      <= DoneUids(limit, targets, w.log + Attempts(r.batch)) <= UidsOf(targets)
  {
    var now := w.log + Attempts(r.batch);
    forall u | u in Finished(limit, w, r)
      ensures u in DoneUids(limit, targets, now) && u !in DoneUids(limit, targets, w.log)
    {
      var st :| st in r.batch.collected && Finishes(limit, w.p.retries, st) && st.action.uid == u;
      FinishedIsDone(limit, targets, w, r, st);
      forall a | a in targets && a.uid == u
        ensures a == st.action
      {
        TargetByUid(targets, a, st.action);
      }
    }
    forall a | a in targets
      ensures Done(limit, w.log, a) ==> Done(limit, now, a)
    {
    }
  }

  lemma RememberedIsDone(limit: nat, targets: seq<Action>, w: World, r: Round)
    requires Distinct(targets) && WorldInv(limit, targets, w) && RoundOk(targets, w, r)
    ensures Remembered(limit, targets, w, r.batch.collected) <= DoneUids(limit, targets, w.log + Attempts(r.batch))
  {
    FinishedAreNew(limit, targets, w, r);
  }

  lemma BatchIsCounted(limit: nat, targets: seq<Action>, w: World, r: Round)
    requires Distinct(targets) && WorldInv(limit, targets, w) && RoundOk(targets, w, r)
    ensures Counts(targets, BeforeReply(limit, w.p, r), Remembered(limit, targets, w, r.batch.collected))
  {
    BeforeReplyIs(limit, targets, w, r);
    FinishedAreNew(limit, targets, w, r);
    UidCount(targets);
    SubsetSize(Remembered(limit, targets, w, r.batch.collected), UidsOf(targets));
  }

  /**
   At every point of every run: between rounds, and after each status that the collector of a round has handled,
   also if the round is cut short later, the progress counter is the number of distinct targets remembered as
   finished, and the unreported list has no repeats and lies within them.
   */
  lemma ProgressIsConserved(limit: nat, targets: seq<Action>, rounds: seq<Round>, r: Round, n: nat)
    requires limit >= 1 && Distinct(targets) && Run(limit, targets, Begin(targets), rounds)
    requires RoundOk(targets, After(limit, Begin(targets), rounds), r) && n <= |r.batch.collected|
    ensures var w := After(limit, Begin(targets), rounds);
      var handled := r.batch.collected[..n];
      && Counts(targets, w.p, DoneUids(limit, targets, w.log))
      && Counts(targets, HandleAll(limit, Resumed(w, r), handled), Remembered(limit, targets, w, handled))
      && Remembered(limit, targets, w, handled) <= DoneUids(limit, targets, w.log + Attempts(r.batch))
  {
    BeginInv(limit, targets);
    RunKeepsInv(limit, targets, Begin(targets), rounds);
    var w := After(limit, Begin(targets), rounds);
    PrefixIsCounted(limit, targets, w, r, n);
    BetweenRounds(limit, targets, w);
  }

  lemma {:induction false} PrefixIsCounted(limit: nat, targets: seq<Action>, w: World, r: Round, n: nat)
    requires Distinct(targets) && WorldInv(limit, targets, w) && RoundOk(targets, w, r) && n <= |r.batch.collected|
    ensures var handled := r.batch.collected[..n];
      && Counts(targets, HandleAll(limit, Resumed(w, r), handled), Remembered(limit, targets, w, handled))
      && Remembered(limit, targets, w, handled) <= DoneUids(limit, targets, w.log + Attempts(r.batch))
  {
    PrefixIsOk(targets, w, r, n);
    var q := Prefix(r, n);
    assert BeforeReply(limit, w.p, q) == HandleAll(limit, Resumed(w, r), q.batch.collected);
    BatchIsCounted(limit, targets, w, q);
    RememberedIsDone(limit, targets, w, q);
  }

  lemma BetweenRounds(limit: nat, targets: seq<Action>, w: World)
    requires Distinct(targets) && WorldInv(limit, targets, w)
    ensures Counts(targets, w.p, DoneUids(limit, targets, w.log))
  {
    UidCount(targets);
    SubsetSize(DoneUids(limit, targets, w.log), UidsOf(targets));
  }

  // ---------------------------------------------------------------------------
  // After a batch that was cut short
  // ---------------------------------------------------------------------------

  /**
   What survives a round cut short: the retries may lag behind the failures, and a finished action may not be
   remembered. But what is remembered is done, and what the CMS no longer holds is remembered.
   */
  ghost predicate Knows(limit: nat, targets: seq<Action>, w: World, remembered: set<ActionId>) {
    && Bounded(limit, targets, w.log)
    && remembered <= DoneUids(limit, targets, w.log)
    && Counts(targets, w.p, remembered)
    && w.live <= UidsOf(targets) && UidsOf(targets) <= w.live + remembered
  }

  lemma InvKnows(limit: nat, targets: seq<Action>, w: World)
    requires Distinct(targets) && WorldInv(limit, targets, w)
    ensures Knows(limit, targets, w, DoneUids(limit, targets, w.log))
  {
    BetweenRounds(limit, targets, w);
    forall u | u in UidsOf(targets) && u !in w.live
      ensures u in DoneUids(limit, targets, w.log)
    {
      var a :| a in targets && a.uid == u;
      assert ActionInv(limit, w, a);
    }
  }

  lemma ReportedAreRemembered(limit: nat, targets: seq<Action>, w: World, r: Round)
    requires Distinct(targets) && WorldInv(limit, targets, w) && RoundOk(targets, w, r)
    ensures Uids(BeforeReply(limit, w.p, r).completed) <= Remembered(limit, targets, w, r.batch.collected)
  {
    BeforeReplyIs(limit, targets, w, r);
    forall u | u in Uids(BeforeReply(limit, w.p, r).completed)
      ensures u in Remembered(limit, targets, w, r.batch.collected)
    {
      assert u in Finished(limit, w, r) || u in Uids(w.p.unreported);
    }
  }

  /** The context is cancelled at any point of a round, whatever the CMS lists and replies. */
  lemma CutKeepsKnowledge(limit: nat, targets: seq<Action>, w: World, r: Round)
    requires Distinct(targets) && WorldInv(limit, targets, w) && RoundOk(targets, w, r)
    ensures Knows(limit, targets, Advance(limit, w, r), Remembered(limit, targets, w, r.batch.collected))
  {
    InvKnows(limit, targets, w);
    if Performed(r.listing) == [] {
      NothingToRestart(targets, w, r);
      assert FinishedUids(limit, w.p.retries, []) == {};
    } else {
      CutWithRestarts(limit, targets, w, r);
    }
  }

  lemma {:induction false} CutWithRestarts(limit: nat, targets: seq<Action>, w: World, r: Round)
    requires Distinct(targets) && WorldInv(limit, targets, w) && RoundOk(targets, w, r) && Performed(r.listing) != []
    requires Knows(limit, targets, w, DoneUids(limit, targets, w.log))
    ensures Knows(limit, targets, Advance(limit, w, r), Remembered(limit, targets, w, r.batch.collected))
  {
    RoundKeepsBounds(limit, targets, w, r);
    FinishedAreNew(limit, targets, w, r);
    BatchIsCounted(limit, targets, w, r);
    ReportedAreRemembered(limit, targets, w, r);
    assert Uids([]) == {};
  }

  lemma NothingToRestart(targets: seq<Action>, w: World, r: Round)
    requires RoundOk(targets, w, r) && Performed(r.listing) == []
    ensures r.batch == Batch([], [])
  {
    var attempted := ActionsOf(Attempts(r.batch));
    forall a
      ensures multiset(attempted)[a] == 0
    {
      assert a in multiset(attempted) <==> a in attempted;
    }
    assert |multiset(attempted)| == |attempted|;
  }

  /** A round whose batch began under a cancelled context. */
  ghost predicate Silent(targets: seq<Action>, w: World, r: Round) {
    ListingOk(targets, w, r.listing) && r.batch == Batch([], [])
  }

  lemma SilentIs(limit: nat, targets: seq<Action>, w: World, r: Round)
    requires Silent(targets, w, r) && w.live <= UidsOf(targets)
    ensures BeforeReply(limit, w.p, r) == Resumed(w, r)
    ensures var completed := BeforeReply(limit, w.p, r).completed;
      NoRepeats(completed) && Uids(completed) <= w.live && Uids(completed) <= Uids(w.p.unreported)
  {
    PerformedIsPart(r.listing);
    PartOfDistinct(Performed(r.listing), ListedActions(r.listing));
    AlreadyDoneOnce(w.p.unreported, Performed(r.listing));
    SplitByUnreported(w.p.unreported, Performed(r.listing));
    forall a | a in Performed(r.listing)
      ensures a.uid in w.live
    {
      PerformedIsLive(targets, w, r.listing, a);
    }
  }

  lemma SilentKeepsKnowledge(limit: nat, targets: seq<Action>, w: World, r: Round, remembered: set<ActionId>)
    requires Knows(limit, targets, w, remembered) && Silent(targets, w, r)
    ensures Knows(limit, targets, Advance(limit, w, r), remembered)
  {
    SilentIs(limit, targets, w, r);
    assert w.log + Attempts(r.batch) == w.log;
    assert Uids([]) == {};
  }

  /** The loop may end on a round that was cut short, or on a silent one; the exit test is sound there as well. */
  lemma {:induction false} ExitAfterCutIsSound(limit: nat, targets: seq<Action>, w: World, r: Round,
                                               before: set<ActionId>, after: set<ActionId>)
    requires Distinct(targets) && Completed(limit, w.p, r)
    requires Knows(limit, targets, w, before) && Knows(limit, targets, Advance(limit, w, r), after)
    requires Silent(targets, w, r) || (WorldInv(limit, targets, w) && RoundOk(targets, w, r))
    ensures Over(limit, targets, Advance(limit, w, r))
  {
    var completed := BeforeReply(limit, w.p, r).completed;
    if Silent(targets, w, r) {
      SilentIs(limit, targets, w, r);
    } else {
      BeforeReplyIs(limit, targets, w, r);
      CompletedAreLive(limit, targets, w, r);
    }
    SizesOf(completed, ListedActions(r.listing), w.live);
    RememberedAreDone(limit, targets, Advance(limit, w, r), after);
  }

  /** Every target was restarted successfully once or failed the allowed number of times. */
  ghost predicate AllDone(limit: nat, targets: seq<Action>, log: seq<Status>) {
    forall a :: a in targets ==> Successes(log, a) == 1 || Failures(log, a) == limit
  }

  lemma RememberedAreDone(limit: nat, targets: seq<Action>, w: World, remembered: set<ActionId>)
    requires Distinct(targets) && Knows(limit, targets, w, remembered) && w.live == {}
    ensures AllDone(limit, targets, w.log)
  {
    forall a | a in targets
      ensures Done(limit, w.log, a)
    {
      assert a.uid in UidsOf(targets);
      var b :| b in targets && Done(limit, w.log, b) && b.uid == a.uid;
      TargetByUid(targets, a, b);
    }
  }

  // ---------------------------------------------------------------------------
  // Runs with a cancellation somewhere
  // ---------------------------------------------------------------------------

  /** Rounds that the environment may supply: the context is cancelled during round number cut, if there is one. */
  ghost predicate Supplied(limit: nat, targets: seq<Action>, rounds: seq<Round>, cut: nat) {
    forall k :: 0 <= k < |rounds| ==> Admissible(targets, WorldAt(limit, Begin(targets), rounds, k), rounds[k], k, cut)
  }

  ghost predicate Admissible(targets: seq<Action>, w: World, r: Round, k: nat, cut: nat) {
    if k < cut then Uncancelled(targets, w, r) && GrantsKept(w, r)
    else if k == cut then RoundOk(targets, w, r)
    else Silent(targets, w, r)
  }

  /** Up to the round in which the context is cancelled the whole invariant holds, and afterwards what survives it. */
  ghost predicate Holds(limit: nat, targets: seq<Action>, w: World, k: nat, cut: nat, remembered: set<ActionId>) {
    Knows(limit, targets, w, remembered) && (k <= cut ==> WorldInv(limit, targets, w))
  }

  lemma AdmissibleKeeps(limit: nat, targets: seq<Action>, w: World, r: Round, k: nat, cut: nat, before: set<ActionId>)
    returns (after: set<ActionId>)
    requires Distinct(targets) && Admissible(targets, w, r, k, cut) && Holds(limit, targets, w, k, cut, before)
    ensures Holds(limit, targets, Advance(limit, w, r), k + 1, cut, after)
  {
    if k > cut {
      SilentKeepsKnowledge(limit, targets, w, r, before);
      after := before;
    } else {
      CutKeepsKnowledge(limit, targets, w, r);
      after := Remembered(limit, targets, w, r.batch.collected);
      if k < cut {
        RoundKeepsInv(limit, targets, w, r);
      }
    }
  }

  ghost predicate SomethingHolds(limit: nat, targets: seq<Action>, w: World, k: nat, cut: nat) {
    exists remembered :: Holds(limit, targets, w, k, cut, remembered)
  }

  lemma BeginHolds(limit: nat, targets: seq<Action>, cut: nat)
    requires limit >= 1 && Distinct(targets)
    ensures SomethingHolds(limit, targets, Begin(targets), 0, cut)
  {
    BeginInv(limit, targets);
    InvKnows(limit, targets, Begin(targets));
    assert Holds(limit, targets, Begin(targets), 0, cut, DoneUids(limit, targets, Begin(targets).log));
  }

  /** Each world is the one before it, advanced by an admissible round. */
  ghost predicate History(limit: nat, targets: seq<Action>, worlds: seq<World>, rounds: seq<Round>, cut: nat) {
    && |worlds| == |rounds| + 1
    && forall k {:trigger rounds[k]} :: 0 <= k < |rounds| ==>
         Admissible(targets, worlds[k], rounds[k], k, cut) && worlds[k + 1] == Advance(limit, worlds[k], rounds[k])
  }

  lemma {:induction false} HistoryHolds(limit: nat, targets: seq<Action>, worlds: seq<World>, rounds: seq<Round>,
                                        cut: nat, n: nat)
    requires Distinct(targets) && History(limit, targets, worlds, rounds, cut) && n <= |rounds|
    requires SomethingHolds(limit, targets, worlds[0], 0, cut)
    ensures SomethingHolds(limit, targets, worlds[n], n, cut)
  {
    if n > 0 {
      var k := n - 1;
      HistoryHolds(limit, targets, worlds, rounds, cut, k);
      HistoryStep(limit, targets, worlds, rounds, cut, k);
    }
  }

  lemma HistoryStep(limit: nat, targets: seq<Action>, worlds: seq<World>, rounds: seq<Round>, cut: nat, k: nat)
    requires Distinct(targets) && History(limit, targets, worlds, rounds, cut) && k < |rounds|
    requires SomethingHolds(limit, targets, worlds[k], k, cut)
    ensures SomethingHolds(limit, targets, worlds[k + 1], k + 1, cut)
  {
    AdmissibleStep(limit, targets, worlds[k], rounds[k], k, cut);
  }

  lemma AdmissibleStep(limit: nat, targets: seq<Action>, w: World, r: Round, k: nat, cut: nat)
    requires Distinct(targets) && Admissible(targets, w, r, k, cut) && SomethingHolds(limit, targets, w, k, cut)
    ensures SomethingHolds(limit, targets, Advance(limit, w, r), k + 1, cut)
  {
    var before :| Holds(limit, targets, w, k, cut, before);
    var after := AdmissibleKeeps(limit, targets, w, r, k, cut, before);
  }

  /** The worlds before each round, and the one after the last. */
  lemma HistoryOf(limit: nat, targets: seq<Action>, rounds: seq<Round>, cut: nat) returns (worlds: seq<World>)
    requires Supplied(limit, targets, rounds, cut)
    ensures History(limit, targets, worlds, rounds, cut)
    ensures worlds[0] == Begin(targets) && worlds[|rounds|] == After(limit, Begin(targets), rounds)
    ensures forall k :: 0 <= k < |rounds| ==> worlds[k] == WorldAt(limit, Begin(targets), rounds, k)
  {
    var w := Begin(targets);
    worlds := seq(|rounds| + 1, k requires 0 <= k <= |rounds| => WorldAt(limit, w, rounds, k));
    forall k | 0 <= k < |rounds|
      ensures worlds[k + 1] == Advance(limit, worlds[k], rounds[k])
    {
      WorldAfter(limit, w, rounds, k + 1);
    }
    assert rounds[..0] == [] && rounds[..|rounds|] == rounds;
  }

  lemma WorldAfter(limit: nat, w: World, rounds: seq<Round>, k: nat)
    requires 1 <= k <= |rounds|
    ensures WorldAt(limit, w, rounds, k) == Advance(limit, WorldAt(limit, w, rounds, k - 1), rounds[k - 1])
  {
    assert rounds[..k] == rounds[..k - 1] + [rounds[k - 1]];
    AfterOneMore(limit, w, rounds[..k - 1], rounds[k - 1]);
  }

  /** The CMS holds no action of the task, and every target is done. */
  ghost predicate Over(limit: nat, targets: seq<Action>, w: World) {
    w.live == {} && AllDone(limit, targets, w.log)
  }

  lemma AdmissibleExitIsSound(limit: nat, targets: seq<Action>, w: World, r: Round, k: nat, cut: nat,
                              before: set<ActionId>)
    requires Distinct(targets) && Admissible(targets, w, r, k, cut) && Holds(limit, targets, w, k, cut, before)
    requires Completed(limit, w.p, r)
    ensures Over(limit, targets, Advance(limit, w, r))
  {
    var after := AdmissibleKeeps(limit, targets, w, r, k, cut, before);
    ExitAfterCutIsSound(limit, targets, w, r, before, after);
  }

  /** Wherever the context is cancelled, if the last round ends the loop then everything is done and nothing is held. */
  lemma SuppliedExitIsSound(limit: nat, targets: seq<Action>, rounds: seq<Round>, cut: nat)
    requires limit >= 1 && Distinct(targets) && Supplied(limit, targets, rounds, cut) && rounds != []
    requires var n := |rounds| - 1; Completed(limit, WorldAt(limit, Begin(targets), rounds, n).p, rounds[n])
    ensures Over(limit, targets, After(limit, Begin(targets), rounds))
  {
    var worlds := HistoryOf(limit, targets, rounds, cut);
    BeginHolds(limit, targets, cut);
    HistoryExitIsSound(limit, targets, worlds, rounds, cut);
  }

  lemma HistoryExitIsSound(limit: nat, targets: seq<Action>, worlds: seq<World>, rounds: seq<Round>, cut: nat)
    requires Distinct(targets) && History(limit, targets, worlds, rounds, cut) && rounds != []
    requires SomethingHolds(limit, targets, worlds[0], 0, cut)
    requires var n := |rounds| - 1; Completed(limit, worlds[n].p, rounds[n])
    ensures Over(limit, targets, worlds[|rounds|])
  {
    var n := |rounds| - 1;
    HistoryHolds(limit, targets, worlds, rounds, cut, n);
    var before :| Holds(limit, targets, worlds[n], n, cut, before);
    AdmissibleExitIsSound(limit, targets, worlds[n], rounds[n], n, cut, before);
  }

  lemma SuppliedIsSafe(limit: nat, targets: seq<Action>, rounds: seq<Round>, cut: nat)
    returns (remembered: set<ActionId>)
    requires limit >= 1 && Distinct(targets) && Supplied(limit, targets, rounds, cut)
    ensures Knows(limit, targets, After(limit, Begin(targets), rounds), remembered)
  {
    var worlds := HistoryOf(limit, targets, rounds, cut);
    BeginHolds(limit, targets, cut);
    HistoryHolds(limit, targets, worlds, rounds, cut, |rounds|);
    remembered :| Holds(limit, targets, worlds[|rounds|], |rounds|, cut, remembered);
  }
}
