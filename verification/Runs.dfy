/**
 Whole runs of the waiting loop against an arbitrary CMS: which actions it grants, how restarts end and
 which CompleteAction calls fail, before or after they took effect, is up to the environment.
 */
module Runs {
  import opened Progress

  /** The first action state of an action group in a task listing. */
  datatype Listed = Listed(action: Action, performed: bool)

  /** CompleteAction succeeded, failed without effect, or took effect while its reply was lost. */
  datatype Reply = Accepted | Refused | Lost

  /** The restarts of a round. Only cancellation leaves statuses uncollected. */
  datatype Batch = Batch(collected: seq<Status>, uncollected: seq<Status>)

  datatype Round = Round(listing: seq<Listed>, batch: Batch, reply: Reply)

  function Attempts(b: Batch): seq<Status> {
    b.collected + b.uncollected
  }

  // ---------------------------------------------------------------------------
  // processActionGroupStates, as a function
  // ---------------------------------------------------------------------------

  function Performed(listing: seq<Listed>): seq<Action> {
    if listing == [] then []
    else
      var last := listing[|listing| - 1];
      Performed(listing[..|listing| - 1]) + if last.performed then [last.action] else []
  }

  /** Restarted in an earlier round, but the CMS does not know yet. */
  function AlreadyDone(unreported: seq<ActionId>, actions: seq<Action>): seq<ActionId> {
    if actions == [] then []
    else
      var last := actions[|actions| - 1];
      AlreadyDone(unreported, actions[..|actions| - 1]) + if last.uid in unreported then [last.uid] else []
  }

  function ToRestart(unreported: seq<ActionId>, actions: seq<Action>): seq<Action> {
    if actions == [] then []
    else
      var last := actions[|actions| - 1];
      ToRestart(unreported, actions[..|actions| - 1]) + if last.uid in unreported then [] else [last]
  }

  /** The state when CompleteAction is called. */
  function BeforeReply(limit: nat, p: Progress, r: Round): Progress {
    HandleAll(limit, p.(completed := AlreadyDone(p.unreported, Performed(r.listing))), r.batch.collected)
  }

  function Process(limit: nat, p: Progress, r: Round): Progress {
    if Performed(r.listing) == [] then p
    else
      var q := BeforeReply(limit, p, r);
      if r.reply == Accepted then q.(unreported := []) else q
  }

  /** What processActionGroupStates returns: the loop ends. */
  predicate Completed(limit: nat, p: Progress, r: Round) {
    && Performed(r.listing) != []
    && r.reply == Accepted
    && |r.listing| == |BeforeReply(limit, p, r).completed|
  }

  // ---------------------------------------------------------------------------
  // The environment
  // ---------------------------------------------------------------------------

  /** live: the actions the CMS still holds. log: every RestartNode call so far and how it ended. */
  datatype World = World(p: Progress, live: set<ActionId>, log: seq<Status>)

  function Uids(s: seq<ActionId>): set<ActionId> {
    set u | u in s
  }

  function ListedActions(listing: seq<Listed>): (actions: seq<Action>)
    ensures |actions| == |listing|
    ensures forall i :: 0 <= i < |listing| ==> actions[i] == listing[i].action
  {
    seq(|listing|, i requires 0 <= i < |listing| => listing[i].action)
  }

  function UidsOf(actions: seq<Action>): set<ActionId> {
    set a | a in actions :: a.uid
  }

  function Begin(targets: seq<Action>): World {
    World(START, UidsOf(targets), [])
  }

  function Advance(limit: nat, w: World, r: Round): World {
    if Performed(r.listing) == [] then w
    else
      World(Process(limit, w.p, r),
            if r.reply == Refused then w.live else w.live - Uids(BeforeReply(limit, w.p, r).completed),
            w.log + Attempts(r.batch))
  }

  /** What a batch can do, cancelled or not: it restarts actions it was given, each at most once. */
  ghost predicate BatchOk(actions: seq<Action>, b: Batch) {
    Distinct(ActionsOf(Attempts(b))) && forall a :: a in ActionsOf(Attempts(b)) ==> a in actions
  }

  /** Uncancelled: it restarted all of them and collected every status. */
  ghost predicate Whole(actions: seq<Action>, b: Batch) {
    b.uncollected == [] && forall a :: a in actions ==> a in ActionsOf(b.collected)
  }

  function Dispatched(w: World, r: Round): seq<Action> {
    ToRestart(w.p.unreported, Performed(r.listing))
  }

  /** The listing is the task as the CMS holds it. */
  ghost predicate ListingOk(targets: seq<Action>, w: World, listing: seq<Listed>) {
    && Distinct(ListedActions(listing))
    && UidsOf(ListedActions(listing)) == w.live
    && forall l :: l in listing ==> l.action in targets
  }

  /** What was restarted but not reported is still PERFORMED. */
  ghost predicate StillPerformed(w: World, listing: seq<Listed>) {
    forall l :: l in listing && l.action.uid in w.p.unreported ==> l.performed
  }

  /** No grant was taken back when the list of unreported actions is cleared. */
  ghost predicate GrantsKept(w: World, r: Round) {
    Performed(r.listing) != [] && r.reply == Accepted ==> StillPerformed(w, r.listing)
  }

  ghost predicate RoundOk(targets: seq<Action>, w: World, r: Round) {
    ListingOk(targets, w, r.listing) && BatchOk(Dispatched(w, r), r.batch)
  }

  /** A run: rounds of the loop that are not cancelled, of which only the last can complete. */
  ghost predicate Run(limit: nat, targets: seq<Action>, w: World, rounds: seq<Round>)
    decreases |rounds|
  {
    rounds == [] ||
    (var r := rounds[0];
     && RoundOk(targets, w, r)
     && Whole(Dispatched(w, r), r.batch)
     && GrantsKept(w, r)
     && (Completed(limit, w.p, r) ==> |rounds| == 1)
     && Run(limit, targets, Advance(limit, w, r), rounds[1..]))
  }

  function After(limit: nat, w: World, rounds: seq<Round>): World
    decreases |rounds|
  {
    if rounds == [] then w else After(limit, Advance(limit, w, rounds[0]), rounds[1..])
  }

  lemma {:induction false} AfterOneMore(limit: nat, w: World, rounds: seq<Round>, r: Round)
    ensures After(limit, w, rounds + [r]) == Advance(limit, After(limit, w, rounds), r)
    decreases |rounds|
  {
    if rounds == [] {
      assert [r][1..] == [];
    } else {
      assert (rounds + [r])[1..] == rounds[1..] + [r];
      AfterOneMore(limit, Advance(limit, w, rounds[0]), rounds[1..], r);
    }
  }

  /** The world in which the k-th round is processed. */
  function WorldAt(limit: nat, w: World, rounds: seq<Round>, k: nat): World
    requires k <= |rounds|
  {
    After(limit, w, rounds[..k])
  }

  // ---------------------------------------------------------------------------
  // The invariant
  // ---------------------------------------------------------------------------

  function Successes(log: seq<Status>, a: Action): nat {
    multiset(log)[Status(a, true)]
  }

  function Failures(log: seq<Status>, a: Action): nat {
    multiset(log)[Status(a, false)]
  }

  /** Restarted, or given up after the last allowed attempt. */
  predicate Done(limit: nat, log: seq<Status>, a: Action) {
    Successes(log, a) >= 1 || Failures(log, a) >= limit
  }

  /** At most one successful restart and at most RestartRetryNumber attempts, for every action. */
  ghost predicate Bounded(limit: nat, targets: seq<Action>, log: seq<Status>) {
    && (forall st :: st in log ==> st.action in targets)
    && forall a :: a in targets ==> Successes(log, a) <= 1 && Successes(log, a) + Failures(log, a) <= limit
  }

  function DoneUids(limit: nat, targets: seq<Action>, log: seq<Status>): set<ActionId> {
    set a | a in targets && Done(limit, log, a) :: a.uid
  }

  ghost predicate NoRepeats(s: seq<ActionId>) {
    forall u :: multiset(s)[u] <= 1
  }

  /** What the rolling restart knows about one of its targets. */
  ghost predicate ActionInv(limit: nat, w: World, a: Action) {
    && RetriesMade(w.p.retries, a.node) == Failures(w.log, a)
    && (a.uid in w.p.unreported ==> Done(limit, w.log, a))
    && (Done(limit, w.log, a) ==> a.uid !in w.live || a.uid in w.p.unreported)
    && (!Done(limit, w.log, a) ==> a.uid in w.live)
  }

  ghost predicate WorldInv(limit: nat, targets: seq<Action>, w: World) {
    && Bounded(limit, targets, w.log)
    && (forall a :: a in targets ==> ActionInv(limit, w, a))
    && w.live <= UidsOf(targets)
    && NoRepeats(w.p.unreported) && Uids(w.p.unreported) <= UidsOf(targets)
    && w.p.restarted == |DoneUids(limit, targets, w.log)|
  }

  lemma BeginInv(limit: nat, targets: seq<Action>)
    requires limit >= 1
    ensures WorldInv(limit, targets, Begin(targets))
  {
    var w := Begin(targets);
    forall a | a in targets
      ensures ActionInv(limit, w, a)
    {
      assert a.uid in UidsOf(targets);
    }
    assert DoneUids(limit, targets, w.log) == {};
    assert Uids(w.p.unreported) == {};
  }

  // --- membership in the lists of a round

  lemma {:induction false} PerformedIsPart(listing: seq<Listed>)
    ensures multiset(Performed(listing)) <= multiset(ListedActions(listing))
    ensures forall a :: a in Performed(listing) <==> Listed(a, true) in listing
  {
    if listing != [] {
      var n := |listing| - 1;
      PerformedIsPart(listing[..n]);
      assert ListedActions(listing) == ListedActions(listing[..n]) + [listing[n].action];
      assert listing == listing[..n] + [listing[n]];
    }
  }

  lemma {:induction false} SplitByUnreported(unreported: seq<ActionId>, actions: seq<Action>)
    ensures forall u :: u in AlreadyDone(unreported, actions) <==> u in unreported && u in UidsOf(actions)
    ensures forall a :: a in ToRestart(unreported, actions) <==> a in actions && a.uid !in unreported
    ensures |AlreadyDone(unreported, actions)| + |ToRestart(unreported, actions)| == |actions|
  {
    if actions != [] {
      var n := |actions| - 1;
      SplitByUnreported(unreported, actions[..n]);
      assert actions == actions[..n] + [actions[n]];
      assert forall u :: u in UidsOf(actions) <==> u in UidsOf(actions[..n]) || u == actions[n].uid;
    }
  }

  lemma {:induction false} AlreadyDoneOnce(unreported: seq<ActionId>, actions: seq<Action>)
    requires Distinct(actions)
    ensures NoRepeats(AlreadyDone(unreported, actions))
  {
    if actions != [] {
      var n := |actions| - 1;
      AlreadyDoneOnce(unreported, actions[..n]);
      SplitByUnreported(unreported, actions[..n]);
      assert actions[n].uid !in UidsOf(actions[..n]);
      assert actions[n].uid !in multiset(AlreadyDone(unreported, actions[..n]));
    }
  }

  lemma {:induction false} CountByAction(statuses: seq<Status>, a: Action)
    ensures multiset(ActionsOf(statuses))[a] == Successes(statuses, a) + Failures(statuses, a)
  {
    if statuses != [] {
      var n := |statuses| - 1;
      CountByAction(statuses[..n], a);
      assert statuses == statuses[..n] + [statuses[n]];
      assert ActionsOf(statuses) == ActionsOf(statuses[..n]) + [statuses[n].action];
    }
  }

  /** A batch adds at most one attempt to an action, and none to an action it was not given. */
  lemma AttemptsOf(actions: seq<Action>, b: Batch, log: seq<Status>, a: Action)
    requires BatchOk(actions, b)
    ensures var now := log + Attempts(b);
      && Successes(now, a) == Successes(log, a) + Successes(Attempts(b), a)
      && Failures(now, a) == Failures(log, a) + Failures(Attempts(b), a)
    ensures Successes(Attempts(b), a) + Failures(Attempts(b), a) <= 1
    ensures a !in actions ==> Successes(Attempts(b), a) + Failures(Attempts(b), a) == 0
  {
    CountByAction(Attempts(b), a);
    OnceEach(ActionsOf(Attempts(b)), a);
    if a !in actions {
      assert a !in multiset(ActionsOf(Attempts(b)));
    }
  }

  /** Only actions the CMS lists as PERFORMED and that are not finished are restarted. */
  lemma DispatchedAreOpen(limit: nat, targets: seq<Action>, w: World, r: Round)
    requires WorldInv(limit, targets, w) && ListingOk(targets, w, r.listing)
    ensures Distinct(Performed(r.listing))
    ensures forall a :: a in Dispatched(w, r) ==>
      a in targets && Listed(a, true) in r.listing && a.uid in w.live && !Done(limit, w.log, a)
  {
    PerformedIsPart(r.listing);
    PartOfDistinct(Performed(r.listing), ListedActions(r.listing));
    SplitByUnreported(w.p.unreported, Performed(r.listing));
    forall a | a in Dispatched(w, r)
      ensures a in targets && Listed(a, true) in r.listing && a.uid in w.live && !Done(limit, w.log, a)
    {
      assert Listed(a, true) in r.listing;
      assert a in ListedActions(r.listing);
      assert ActionInv(limit, w, a);
    }
  }

  /** Even a cancelled round keeps the bounds on restarts. */
  lemma {:induction false} RoundKeepsBounds(limit: nat, targets: seq<Action>, w: World, r: Round)
    requires WorldInv(limit, targets, w) && RoundOk(targets, w, r)
    ensures Bounded(limit, targets, Advance(limit, w, r).log)
  {
    DispatchedAreOpen(limit, targets, w, r);
    var attempts := Attempts(r.batch);
    forall st | st in attempts
      ensures st.action in targets
    {
      var i :| 0 <= i < |attempts| && attempts[i] == st;
      assert ActionsOf(attempts)[i] == st.action;
    }
    forall a | a in targets
      ensures var log := w.log + attempts; Successes(log, a) <= 1 && Successes(log, a) + Failures(log, a) <= limit
    {
      AttemptsOf(Dispatched(w, r), r.batch, w.log, a);
    }
  }

  // --- an uncancelled round keeps the invariant

  lemma TargetByUid(targets: seq<Action>, a: Action, b: Action)
    requires Distinct(targets) && a in targets && b in targets && (a.uid == b.uid || a.node == b.node)
    ensures a == b
  {
  }

  /** A round that is not cut short. */
  ghost predicate Uncancelled(targets: seq<Action>, w: World, r: Round) {
    RoundOk(targets, w, r) && Whole(Dispatched(w, r), r.batch)
  }

  lemma Restarted(targets: seq<Action>, w: World, r: Round, a: Action) returns (st: Status)
    requires Uncancelled(targets, w, r) && a in Dispatched(w, r)
    ensures st in r.batch.collected && st.action == a
    ensures Attempts(r.batch) == r.batch.collected
    ensures Successes(Attempts(r.batch), a) == (if st.ok then 1 else 0)
    ensures Failures(Attempts(r.batch), a) == (if st.ok then 0 else 1)
  {
    var i :| 0 <= i < |r.batch.collected| && ActionsOf(r.batch.collected)[i] == a;
    st := r.batch.collected[i];
    assert Attempts(r.batch) == r.batch.collected;
    assert st in multiset(Attempts(r.batch));
    AttemptsOf(Dispatched(w, r), r.batch, w.log, a);
  }

  lemma CollectedIsDispatched(targets: seq<Action>, w: World, r: Round, st: Status)
    requires RoundOk(targets, w, r) && st in r.batch.collected
    ensures st.action in Dispatched(w, r)
  {
    var i :| 0 <= i < |r.batch.collected| && r.batch.collected[i] == st;
    assert ActionsOf(Attempts(r.batch))[i] == st.action;
  }

  function Finished(limit: nat, w: World, r: Round): set<ActionId> {
    FinishedUids(limit, w.p.retries, r.batch.collected)
  }

  /** Cut short or not, what the batch marks finished was not Done before and is Done now. */
  lemma FinishedIsDone(limit: nat, targets: seq<Action>, w: World, r: Round, st: Status)
    requires WorldInv(limit, targets, w) && RoundOk(targets, w, r)
    requires st in r.batch.collected && Finishes(limit, w.p.retries, st)
    ensures st.action in targets && st.action in Dispatched(w, r)
    ensures !Done(limit, w.log, st.action) && Done(limit, w.log + Attempts(r.batch), st.action)
  {
    CollectedIsDispatched(targets, w, r, st);
    DispatchedAreOpen(limit, targets, w, r);
    AttemptsOf(Dispatched(w, r), r.batch, w.log, st.action);
    assert ActionInv(limit, w, st.action);
    assert st in multiset(Attempts(r.batch));
    assert st == Status(st.action, st.ok);
  }

  /** The batch marks an action finished exactly when its attempt of this round made it Done. */
  lemma FinishedMeansDone(limit: nat, targets: seq<Action>, w: World, r: Round, a: Action)
    requires Distinct(targets) && WorldInv(limit, targets, w) && Uncancelled(targets, w, r) && a in targets
    ensures a.uid in Finished(limit, w, r) <==> a in Dispatched(w, r) && Done(limit, w.log + Attempts(r.batch), a)
    ensures a.node in FailedNodes(r.batch.collected) <==> Failures(Attempts(r.batch), a) == 1
  {
    DispatchedAreOpen(limit, targets, w, r);
    AttemptsOf(Dispatched(w, r), r.batch, w.log, a);
    assert ActionInv(limit, w, a);
    forall st | st in r.batch.collected && (st.action.uid == a.uid || st.action.node == a.node)
      ensures st.action == a && a in Dispatched(w, r)
    {
      CollectedIsDispatched(targets, w, r, st);
      TargetByUid(targets, st.action, a);
    }
    if a in Dispatched(w, r) {
      var st := Restarted(targets, w, r, a);
      OnlyStatusOf(r.batch, st);
    }
  }

  lemma OnlyStatusOf(b: Batch, st: Status)
    requires Distinct(ActionsOf(Attempts(b))) && st in b.collected
    ensures forall o :: o in b.collected && o.action == st.action ==> o == st
  {
    var i :| 0 <= i < |b.collected| && b.collected[i] == st;
    forall j | 0 <= j < |b.collected| && b.collected[j].action == st.action
      ensures j == i
    {
      assert ActionsOf(Attempts(b))[i].uid == ActionsOf(Attempts(b))[j].uid;
    }
  }

  lemma CollectedDistinct(b: Batch)
    requires Distinct(ActionsOf(Attempts(b)))
    ensures Distinct(ActionsOf(b.collected))
  {
    forall i, j | 0 <= i < j < |b.collected|
      ensures b.collected[i].action.uid != b.collected[j].action.uid &&
        b.collected[i].action.node != b.collected[j].action.node
    {
      assert ActionsOf(Attempts(b))[i].uid != ActionsOf(Attempts(b))[j].uid;
    }
  }

  /** The state when CompleteAction is called, said with sets. */
  lemma BeforeReplyIs(limit: nat, targets: seq<Action>, w: World, r: Round)
    requires WorldInv(limit, targets, w) && RoundOk(targets, w, r)
    ensures var q := BeforeReply(limit, w.p, r);
      && Bumped(w.p.retries, FailedNodes(r.batch.collected), q.retries)
      && Uids(q.unreported) == Uids(w.p.unreported) + Finished(limit, w, r)
      && Uids(q.completed) == (set a | a in Performed(r.listing) && a.uid in w.p.unreported :: a.uid) +
        Finished(limit, w, r)
      && NoRepeats(q.unreported) && NoRepeats(q.completed)
      && q.restarted == w.p.restarted + |Finished(limit, w, r)|
  {
    var resumed := w.p.(completed := AlreadyDone(w.p.unreported, Performed(r.listing)));
    var q, finished := BeforeReply(limit, w.p, r), Finished(limit, w, r);
    CollectedDistinct(r.batch);
    FoldIsOrderFree(limit, resumed, r.batch.collected);
    ResumedIs(limit, targets, w, r);
    AddFinished(q.unreported, w.p.unreported, finished);
    AddFinished(q.completed, resumed.completed, finished);
  }

  /** What was waiting to be reported is apart from what the batch finishes. */
  lemma ResumedIs(limit: nat, targets: seq<Action>, w: World, r: Round)
    requires WorldInv(limit, targets, w) && RoundOk(targets, w, r)
    ensures var waiting := AlreadyDone(w.p.unreported, Performed(r.listing));
      && NoRepeats(waiting)
      && Uids(waiting) == (set a | a in Performed(r.listing) && a.uid in w.p.unreported :: a.uid)
      && (forall u :: u in Finished(limit, w, r) ==> u !in w.p.unreported && u !in waiting)
  {
    DispatchedAreOpen(limit, targets, w, r);
    SplitByUnreported(w.p.unreported, Performed(r.listing));
    AlreadyDoneOnce(w.p.unreported, Performed(r.listing));
    forall u | u in Finished(limit, w, r)
      ensures u !in w.p.unreported
    {
      var st :| st in r.batch.collected && st.action.uid == u;
      CollectedIsDispatched(targets, w, r, st);
    }
  }

  lemma AddFinished(after: seq<ActionId>, before: seq<ActionId>, finished: set<ActionId>)
    requires multiset(after) == multiset(before) + multiset(finished)
    requires NoRepeats(before) && forall u :: u in finished ==> u !in before
    ensures NoRepeats(after) && Uids(after) == Uids(before) + finished
  {
    forall u
      ensures multiset(after)[u] <= 1 && (u in after <==> u in before || u in finished)
    {
      assert u in after <==> u in multiset(after);
      assert u in before <==> u in multiset(before);
    }
  }

  lemma {:induction false} DoneUidsGrow(limit: nat, targets: seq<Action>, w: World, r: Round)
    requires Distinct(targets) && WorldInv(limit, targets, w) && Uncancelled(targets, w, r)
    ensures DoneUids(limit, targets, w.log + Attempts(r.batch)) ==
      DoneUids(limit, targets, w.log) + Finished(limit, w, r)
    ensures DoneUids(limit, targets, w.log) !! Finished(limit, w, r)
  {
    var now := w.log + Attempts(r.batch);
    DispatchedAreOpen(limit, targets, w, r);
    forall a | a in targets
      ensures Done(limit, now, a) <==> Done(limit, w.log, a) || a.uid in Finished(limit, w, r)
      ensures Done(limit, w.log, a) ==> a.uid !in Finished(limit, w, r)
    {
      FinishedMeansDone(limit, targets, w, r, a);
      AttemptsOf(Dispatched(w, r), r.batch, w.log, a);
    }
    forall u | u in Finished(limit, w, r)
      ensures u in DoneUids(limit, targets, now) && u !in DoneUids(limit, targets, w.log)
    {
      var st :| st in r.batch.collected && st.action.uid == u;
      CollectedIsDispatched(targets, w, r, st);
      assert Done(limit, now, st.action) && !Done(limit, w.log, st.action);
      forall a | a in targets && a.uid == u
        ensures a == st.action
      {
        TargetByUid(targets, a, st.action);
      }
    }
  }

  /** What CompleteAction is called with: held actions that are done, and all of them if no grant was taken back. */
  lemma {:induction false} CompletedAreDone(limit: nat, targets: seq<Action>, w: World, r: Round, a: Action)
    requires Distinct(targets) && WorldInv(limit, targets, w) && Uncancelled(targets, w, r) && a in targets
    ensures a.uid in BeforeReply(limit, w.p, r).completed ==>
      a.uid in w.live && Done(limit, w.log + Attempts(r.batch), a)
    ensures StillPerformed(w, r.listing) && a.uid in w.live && Done(limit, w.log + Attempts(r.batch), a) ==>
      a.uid in BeforeReply(limit, w.p, r).completed
    ensures a.uid in BeforeReply(limit, w.p, r).unreported
       <==> a.uid in w.p.unreported || (a in Dispatched(w, r) && Done(limit, w.log + Attempts(r.batch), a))
  {
    var q := BeforeReply(limit, w.p, r);
    BeforeReplyIs(limit, targets, w, r);
    FinishedMeansDone(limit, targets, w, r, a);
    DispatchedAreOpen(limit, targets, w, r);
    AttemptsOf(Dispatched(w, r), r.batch, w.log, a);
    assert ActionInv(limit, w, a);
    PerformedIsPart(r.listing);
    SplitByUnreported(w.p.unreported, Performed(r.listing));
    assert a.uid in q.completed <==> a.uid in Uids(q.completed);
    assert a.uid in q.unreported <==> a.uid in Uids(q.unreported);
    forall b | b in Performed(r.listing) && b.uid == a.uid
      ensures b == a
    {
      assert Listed(b, true) in r.listing;
      TargetByUid(targets, a, b);
    }
  }

  lemma RetriesAfterRound(limit: nat, targets: seq<Action>, w: World, r: Round, a: Action)
    requires Distinct(targets) && WorldInv(limit, targets, w) && Uncancelled(targets, w, r) && a in targets
    ensures RetriesMade(BeforeReply(limit, w.p, r).retries, a.node) == Failures(w.log + Attempts(r.batch), a)
  {
    BeforeReplyIs(limit, targets, w, r);
    FinishedMeansDone(limit, targets, w, r, a);
    AttemptsOf(Dispatched(w, r), r.batch, w.log, a);
    assert ActionInv(limit, w, a);
  }

  lemma {:induction false} ActionAfterRound(limit: nat, targets: seq<Action>, w: World, r: Round, a: Action)
    requires Distinct(targets) && WorldInv(limit, targets, w) && Uncancelled(targets, w, r) && a in targets
    requires Performed(r.listing) != [] && GrantsKept(w, r)
    ensures ActionInv(limit, Advance(limit, w, r), a)
  {
    RetriesAfterRound(limit, targets, w, r, a);
    CompletedAreDone(limit, targets, w, r, a);
    assert ActionInv(limit, w, a);
    var completed := BeforeReply(limit, w.p, r).completed;
    assert a.uid in Uids(completed) <==> a.uid in completed;
  }

  lemma ListsAfterRound(limit: nat, targets: seq<Action>, w: World, r: Round)
    requires Distinct(targets) && WorldInv(limit, targets, w) && Uncancelled(targets, w, r)
    ensures var q := BeforeReply(limit, w.p, r);
      && NoRepeats(q.unreported) && Uids(q.unreported) <= UidsOf(targets)
      && q.restarted == |DoneUids(limit, targets, w.log + Attempts(r.batch))|
  {
    BeforeReplyIs(limit, targets, w, r);
    DoneUidsGrow(limit, targets, w, r);
    forall u | u in Finished(limit, w, r)
      ensures u in UidsOf(targets)
    {
      assert u in DoneUids(limit, targets, w.log + Attempts(r.batch));
    }
  }

  lemma {:induction false} RoundKeepsInv(limit: nat, targets: seq<Action>, w: World, r: Round)
    requires Distinct(targets) && WorldInv(limit, targets, w) && Uncancelled(targets, w, r) && GrantsKept(w, r)
    ensures WorldInv(limit, targets, Advance(limit, w, r))
  {
    if Performed(r.listing) != [] {
      RoundKeepsBounds(limit, targets, w, r);
      ListsAfterRound(limit, targets, w, r);
      forall a | a in targets
        ensures ActionInv(limit, Advance(limit, w, r), a)
      {
        ActionAfterRound(limit, targets, w, r, a);
      }
      assert Uids([]) == {};
    }
  }

  lemma {:induction false} RunKeepsInv(limit: nat, targets: seq<Action>, w: World, rounds: seq<Round>)
    requires Distinct(targets) && WorldInv(limit, targets, w) && Run(limit, targets, w, rounds)
    ensures WorldInv(limit, targets, After(limit, w, rounds))
    decreases |rounds|
  {
    if rounds != [] {
      RoundKeepsInv(limit, targets, w, rounds[0]);
      RunKeepsInv(limit, targets, Advance(limit, w, rounds[0]), rounds[1..]);
    }
  }
}
