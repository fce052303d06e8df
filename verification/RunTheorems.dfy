/** What holds over every run of the waiting loop. */
module RunTheorems {
  import opened Collections
  import opened Progress
  import opened Runs

  // ---------------------------------------------------------------------------
  // At most one success, bounded attempts, never again once finished
  // ---------------------------------------------------------------------------

  /**
   Over every run against any CMS that keeps its listing, with any restart outcomes and any CompleteAction
   calls failing with or without effect, and whether or not a further round is cancelled at any point: each
   action has at most one successful restart and at most RestartRetryNumber attempts, and what is restarted
   is listed PERFORMED, still held by the CMS and not finished.
   */
  lemma AtMostOneSuccess(limit: nat, targets: seq<Action>, rounds: seq<Round>, last: Round)
    requires limit >= 1 && Distinct(targets) && Run(limit, targets, Begin(targets), rounds)
    requires RoundOk(targets, After(limit, Begin(targets), rounds), last)
    ensures var w := After(limit, Begin(targets), rounds);
      && Bounded(limit, targets, w.log)
      && Bounded(limit, targets, Advance(limit, w, last).log)
      && forall st :: st in Attempts(last.batch) ==>
           && st.action in targets && Listed(st.action, true) in last.listing
           && st.action.uid in w.live && !Done(limit, w.log, st.action)
  {
    BeginInv(limit, targets);
    RunKeepsInv(limit, targets, Begin(targets), rounds);
    var w := After(limit, Begin(targets), rounds);
    RoundKeepsBounds(limit, targets, w, last);
    DispatchedAreOpen(limit, targets, w, last);
    forall st | st in Attempts(last.batch)
      ensures st.action in Dispatched(w, last)
    {
      var i :| 0 <= i < |Attempts(last.batch)| && Attempts(last.batch)[i] == st;
      assert ActionsOf(Attempts(last.batch))[i] == st.action;
    }
  }

  /** Once an action is finished, no later round of any run restarts it. */
  lemma {:induction false} FinishedIsNeverRestarted(limit: nat, targets: seq<Action>, w: World, rounds: seq<Round>,
                                                    a: Action)
    requires Distinct(targets) && WorldInv(limit, targets, w) && Run(limit, targets, w, rounds)
    requires a in targets && Done(limit, w.log, a)
    ensures Successes(After(limit, w, rounds).log, a) == Successes(w.log, a)
    ensures Failures(After(limit, w, rounds).log, a) == Failures(w.log, a)
    decreases |rounds|
  {
    if rounds != [] {
      DispatchedAreOpen(limit, targets, w, rounds[0]);
      AttemptsOf(Dispatched(w, rounds[0]), rounds[0].batch, w.log, a);
      RoundKeepsInv(limit, targets, w, rounds[0]);
      FinishedIsNeverRestarted(limit, targets, Advance(limit, w, rounds[0]), rounds[1..], a);
    }
  }

  lemma {:induction false} UidCount(actions: seq<Action>)
    requires Distinct(actions)
    ensures |UidsOf(actions)| == |actions|
  {
    if actions == [] {
      assert UidsOf(actions) == {};
    } else {
      var n := |actions| - 1;
      UidCount(actions[..n]);
      assert actions == actions[..n] + [actions[n]];
      assert UidsOf(actions) == UidsOf(actions[..n]) + {actions[n].uid};
      assert actions[n].uid !in UidsOf(actions[..n]);
    }
  }

  // ---------------------------------------------------------------------------
  // Termination measure
  // ---------------------------------------------------------------------------

  /** Attempts an action may still have. */
  function Budget(limit: nat, log: seq<Status>, a: Action): nat {
    if Done(limit, log, a) then 0 else limit - Failures(log, a)
  }

  function Remaining(limit: nat, log: seq<Status>, actions: seq<Action>): nat {
    if actions == [] then 0
    else Remaining(limit, log, actions[..|actions| - 1]) + Budget(limit, log, actions[|actions| - 1])
  }

  lemma {:induction false} RemainingAtStart(limit: nat, actions: seq<Action>)
    ensures Remaining(limit, [], actions) <= |actions| * limit
  {
    if actions != [] {
      RemainingAtStart(limit, actions[..|actions| - 1]);
    }
  }

  /** One attempt on an unfinished action lowers the sum. */
  lemma {:induction false} AttemptFalls(limit: nat, log: seq<Status>, st: Status, actions: seq<Action>)
    requires !Done(limit, log, st.action)
    ensures Remaining(limit, log + [st], actions) <= Remaining(limit, log, actions)
    ensures st.action in actions ==> Remaining(limit, log + [st], actions) < Remaining(limit, log, actions)
  {
    if actions != [] {
      var n := |actions| - 1;
      assert actions == actions[..n] + [actions[n]];
      AttemptFalls(limit, log, st, actions[..n]);
    }
  }

  lemma {:induction false} BatchFalls(limit: nat, log: seq<Status>, attempts: seq<Status>, actions: seq<Action>)
    requires Distinct(ActionsOf(attempts))
    requires forall st :: st in attempts ==> st.action in actions && !Done(limit, log, st.action)
    ensures Remaining(limit, log + attempts, actions) + |attempts| <= Remaining(limit, log, actions)
  {
    if attempts == [] {
      assert log + attempts == log;
    } else {
      var n := |attempts| - 1;
      var earlier, st := attempts[..n], attempts[n];
      CollectedDistinct(Batch(earlier, [st]));
      assert Attempts(Batch(earlier, [st])) == attempts;
      BatchFalls(limit, log, earlier, actions);
      EarlierIsOther(limit, log, earlier, st);
      AttemptFalls(limit, log + earlier, st, actions);
      assert log + attempts == log + earlier + [st];
    }
  }

  lemma EarlierIsOther(limit: nat, log: seq<Status>, earlier: seq<Status>, st: Status)
    requires Distinct(ActionsOf(earlier + [st])) && !Done(limit, log, st.action)
    ensures !Done(limit, log + earlier, st.action)
  {
    forall i | 0 <= i < |earlier|
      ensures earlier[i].action != st.action
    {
      assert ActionsOf(earlier + [st])[i].uid != ActionsOf(earlier + [st])[|earlier|].uid;
    }
    assert forall ok :: Status(st.action, ok) !in multiset(earlier);
  }

  lemma RoundFalls(limit: nat, targets: seq<Action>, w: World, r: Round)
    requires WorldInv(limit, targets, w) && RoundOk(targets, w, r)
    ensures Remaining(limit, w.log + Attempts(r.batch), targets) + |Attempts(r.batch)|
         <= Remaining(limit, w.log, targets)
  {
    DispatchedAreOpen(limit, targets, w, r);
    forall st | st in Attempts(r.batch)
      ensures st.action in targets && !Done(limit, w.log, st.action)
    {
      var i :| 0 <= i < |Attempts(r.batch)| && Attempts(r.batch)[i] == st;
      assert ActionsOf(Attempts(r.batch))[i] == st.action;
    }
    BatchFalls(limit, w.log, Attempts(r.batch), targets);
  }

  function PerformedRounds(rounds: seq<Round>): nat {
    if rounds == [] then 0 else (if Performed(rounds[0].listing) != [] then 1 else 0) + PerformedRounds(rounds[1..])
  }

  /** CompleteAction calls that did not return a reply. */
  function FailedCalls(rounds: seq<Round>): nat {
    if rounds == [] then 0
    else (if Performed(rounds[0].listing) != [] && rounds[0].reply != Accepted then 1 else 0) + FailedCalls(rounds[1..])
  }

  /** A failed report buys one round that restarts nothing. */
  function Credit(w: World): nat {
    if w.p.unreported == [] then 0 else 1
  }

  lemma {:induction false} RoundIsPaid(limit: nat, targets: seq<Action>, w: World, r: Round)
    requires Distinct(targets) && WorldInv(limit, targets, w)
    requires Uncancelled(targets, w, r) && Performed(r.listing) != []
    ensures var v := Advance(limit, w, r);
      1 + Remaining(limit, v.log, targets) + Credit(v)
      <= Remaining(limit, w.log, targets) + Credit(w) + if r.reply != Accepted then 1 else 0
  {
    RoundFalls(limit, targets, w, r);
    if Attempts(r.batch) == [] {
      SplitByUnreported(w.p.unreported, Performed(r.listing));
      var a := Performed(r.listing)[0];
      assert a !in Dispatched(w, r) by {
        assert r.batch.collected == [];
        assert a !in ActionsOf(r.batch.collected);
      }
    }
  }

  /**
   The attempts made and still possible never add up to more than N * RestartRetryNumber, and a run has at most
   that many rounds with something PERFORMED, plus one for each CompleteAction call that failed.
   */
  lemma {:induction false} RunIsPaid(limit: nat, targets: seq<Action>, w: World, rounds: seq<Round>)
    requires Distinct(targets) && WorldInv(limit, targets, w) && Run(limit, targets, w, rounds)
    ensures var v := After(limit, w, rounds);
      && |v.log| + Remaining(limit, v.log, targets) <= |w.log| + Remaining(limit, w.log, targets)
      && PerformedRounds(rounds) + Remaining(limit, v.log, targets) + Credit(v)
         <= Remaining(limit, w.log, targets) + Credit(w) + FailedCalls(rounds)
    decreases |rounds|
  {
    if rounds != [] {
      var r := rounds[0];
      RoundKeepsInv(limit, targets, w, r);
      RoundFalls(limit, targets, w, r);
      if Performed(r.listing) != [] {
        RoundIsPaid(limit, targets, w, r);
      }
      RunIsPaid(limit, targets, Advance(limit, w, r), rounds[1..]);
    }
  }

  lemma RunOneMore(limit: nat, targets: seq<Action>, w: World, r: Round, rounds: seq<Round>)
    requires Uncancelled(targets, w, r) && GrantsKept(w, r) && (Completed(limit, w.p, r) ==> rounds == [])
    requires Run(limit, targets, Advance(limit, w, r), rounds)
    ensures Run(limit, targets, w, [r] + rounds)
    ensures After(limit, w, [r] + rounds) == After(limit, Advance(limit, w, r), rounds)
    ensures Performed(r.listing) != [] ==>
      && PerformedRounds([r] + rounds) == 1 + PerformedRounds(rounds)
      && FailedCalls([r] + rounds) == (if r.reply != Accepted then 1 else 0) + FailedCalls(rounds)
  {
    assert ([r] + rounds)[1..] == rounds;
  }

  lemma RunBounds(limit: nat, targets: seq<Action>, rounds: seq<Round>)
    requires limit >= 1 && Distinct(targets) && Run(limit, targets, Begin(targets), rounds)
    ensures |After(limit, Begin(targets), rounds).log| <= |targets| * limit
    ensures PerformedRounds(rounds) <= |targets| * limit + FailedCalls(rounds)
  {
    BeginInv(limit, targets);
    RunIsPaid(limit, targets, Begin(targets), rounds);
    RemainingAtStart(limit, targets);
  }

  // ---------------------------------------------------------------------------
  // Exit
  // ---------------------------------------------------------------------------

  lemma {:induction false} NoRepeatsCount(s: seq<ActionId>)
    requires NoRepeats(s)
    ensures |Uids(s)| == |s|
  {
    if s == [] {
      assert Uids(s) == {};
    } else {
      var n := |s| - 1;
      assert s == s[..n] + [s[n]];
      assert multiset(s) == multiset(s[..n]) + multiset{s[n]};
      forall u
        ensures multiset(s[..n])[u] <= 1
      {
        assert multiset(s)[u] <= 1;
      }
      NoRepeatsCount(s[..n]);
      assert s[n] !in multiset(s[..n]) by {
        assert multiset(s)[s[n]] <= 1;
      }
      assert s[n] !in Uids(s[..n]);
      assert Uids(s) == Uids(s[..n]) + {s[n]};
    }
  }

  /** The two lengths compared by the exit test are the sizes of nested sets. */
  lemma SizesCompared(limit: nat, targets: seq<Action>, w: World, r: Round)
    requires WorldInv(limit, targets, w) && RoundOk(targets, w, r)
    ensures var completed := BeforeReply(limit, w.p, r).completed;
      && Uids(completed) <= w.live
      && (|r.listing| == |completed| <==> w.live - Uids(completed) == {})
  {
    var completed := BeforeReply(limit, w.p, r).completed;
    assert NoRepeats(completed) by {
      BeforeReplyIs(limit, targets, w, r);
    }
    assert Uids(completed) <= w.live by {
      CompletedAreLive(limit, targets, w, r);
    }
    SizesOf(completed, ListedActions(r.listing), w.live);
  }

  lemma SizesOf(completed: seq<ActionId>, listed: seq<Action>, live: set<ActionId>)
    requires NoRepeats(completed) && Distinct(listed) && UidsOf(listed) == live && Uids(completed) <= live
    ensures |listed| == |completed| <==> live - Uids(completed) == {}
  {
    NoRepeatsCount(completed);
    UidCount(listed);
    SubsetSize(Uids(completed), live);
    if live - Uids(completed) == {} {
      forall u | u in live
        ensures u in Uids(completed)
      {
        assert u !in live - Uids(completed);
      }
      assert Uids(completed) == live;
    }
  }

  /**
   The size test is sound and complete: the loop ends on a round exactly when that round's CompleteAction is
   acknowledged and leaves the CMS without actions of the task, and then every target was restarted
   successfully once or failed RestartRetryNumber times.
   */
  lemma ExitIsSound(limit: nat, targets: seq<Action>, rounds: seq<Round>, r: Round)
    requires limit >= 1 && Distinct(targets) && Run(limit, targets, Begin(targets), rounds)
    requires Uncancelled(targets, After(limit, Begin(targets), rounds), r) && Performed(r.listing) != []
    ensures var w := After(limit, Begin(targets), rounds);
      var v := Advance(limit, w, r);
      && (Completed(limit, w.p, r) <==> r.reply == Accepted && v.live == {})
      && (Completed(limit, w.p, r) ==> forall a :: a in targets ==>
        Successes(v.log, a) == 1 || Failures(v.log, a) == limit)
  {
    BeginInv(limit, targets);
    RunKeepsInv(limit, targets, Begin(targets), rounds);
    var w := After(limit, Begin(targets), rounds);
    SizesCompared(limit, targets, w, r);
    if Completed(limit, w.p, r) {
      var completed := BeforeReply(limit, w.p, r).completed;
      forall u | u in w.live
        ensures u in completed
      {
        assert u !in w.live - Uids(completed);
      }
      NothingHeldMeansDone(limit, targets, w, r);
    }
  }

  lemma {:induction false} NothingHeldMeansDone(limit: nat, targets: seq<Action>, w: World, r: Round)
    requires Distinct(targets) && WorldInv(limit, targets, w) && Uncancelled(targets, w, r)
    requires Performed(r.listing) != [] && forall u :: u in w.live ==> u in BeforeReply(limit, w.p, r).completed
    ensures forall a :: a in targets ==>
      var log := Advance(limit, w, r).log; Successes(log, a) == 1 || Failures(log, a) == limit
  {
    RoundKeepsBounds(limit, targets, w, r);
    forall a | a in targets
      ensures Done(limit, w.log + Attempts(r.batch), a)
    {
      NotHeldMeansDone(limit, targets, w, r, a);
    }
  }

  lemma NotHeldMeansDone(limit: nat, targets: seq<Action>, w: World, r: Round, a: Action)
    requires Distinct(targets) && WorldInv(limit, targets, w) && Uncancelled(targets, w, r) && a in targets
    requires a.uid !in w.live || a.uid in BeforeReply(limit, w.p, r).completed
    ensures Done(limit, w.log + Attempts(r.batch), a)
  {
    assert ActionInv(limit, w, a);
    CompletedAreDone(limit, targets, w, r, a);
  }

  lemma CompletedAreLive(limit: nat, targets: seq<Action>, w: World, r: Round)
    requires WorldInv(limit, targets, w) && RoundOk(targets, w, r)
    ensures Uids(BeforeReply(limit, w.p, r).completed) <= w.live
  {
    BeforeReplyIs(limit, targets, w, r);
    forall u | u in Uids(BeforeReply(limit, w.p, r).completed)
      ensures u in w.live
    {
      if u in Finished(limit, w, r) {
        FinishedIsLive(limit, targets, w, r, u);
      } else {
        var a :| a in Performed(r.listing) && a.uid == u;
        PerformedIsLive(targets, w, r.listing, a);
      }
    }
  }

  lemma FinishedIsLive(limit: nat, targets: seq<Action>, w: World, r: Round, u: ActionId)
    requires WorldInv(limit, targets, w) && RoundOk(targets, w, r) && u in Finished(limit, w, r)
    ensures u in w.live
  {
    DispatchedAreOpen(limit, targets, w, r);
    var st :| st in r.batch.collected && st.action.uid == u;
    CollectedIsDispatched(targets, w, r, st);
  }

  lemma PerformedIsLive(targets: seq<Action>, w: World, listing: seq<Listed>, a: Action)
    requires ListingOk(targets, w, listing) && a in Performed(listing)
    ensures a.uid in w.live
  {
    PerformedIsPart(listing);
    var i :| 0 <= i < |listing| && listing[i] == Listed(a, true);
    assert ListedActions(listing)[i] == a;
  }

  /** When the reply that reported the last actions is lost, no continuation of the run ever ends the loop. */
  lemma {:induction false} LostLastReplyNeverExits(limit: nat, targets: seq<Action>, w: World, rounds: seq<Round>)
    requires w.live == {} && Run(limit, targets, w, rounds)
    ensures forall i :: 0 <= i < |rounds| ==>
      rounds[i].listing == [] && !Completed(limit, WorldAt(limit, w, rounds, i).p, rounds[i])
    ensures After(limit, w, rounds) == w
    decreases |rounds|
  {
    if rounds != [] {
      var r := rounds[0];
      assert forall i :: 0 <= i < |r.listing| ==> ListedActions(r.listing)[i].uid in w.live;
      assert r.listing == [];
      LostLastReplyNeverExits(limit, targets, w, rounds[1..]);
      forall i | 0 <= i < |rounds|
        ensures rounds[i].listing == [] && !Completed(limit, After(limit, w, rounds[..i]).p, rounds[i])
      {
        if i > 0 {
          assert rounds[..i][1..] == rounds[1..][..i - 1];
        }
      }
    }
  }

  // ---------------------------------------------------------------------------
  // Where the bounds stop holding
  // ---------------------------------------------------------------------------

  /** A round that restarts one action, of a listing that grants just this one. */
  lemma OneRestart(limit: nat, w: World, r: Round, a: Action, st: Status)
    requires Performed(r.listing) == [a] && a.uid !in w.p.unreported && r.batch == Batch([st], [])
    ensures Dispatched(w, r) == [a] && Attempts(r.batch) == [st]
    ensures BeforeReply(limit, w.p, r) == HandleStatus(limit, w.p.(completed := []), st)
  {
    assert [a][..0] == [] && [st][..0] == [];
    assert AlreadyDone(w.p.unreported, [a]) == [];
    assert ToRestart(w.p.unreported, [a][..0]) == [];
    assert ToRestart(w.p.unreported, [a]) == [] + [a];
    assert HandleAll(limit, w.p.(completed := []), [st][..0]) == w.p.(completed := []);
  }

  lemma GrantsOf(a: Action, b: Action)
    ensures Performed([Listed(a, true)]) == [a]
    ensures Performed([Listed(a, true), Listed(b, false)]) == [a]
    ensures Performed([Listed(a, false), Listed(b, true)]) == [b]
  {
    assert [Listed(a, true)][..0] == [] && [Listed(a, false)][..0] == [];
    assert [Listed(a, true), Listed(b, false)][..1] == [Listed(a, true)];
    assert [Listed(a, false), Listed(b, true)][..1] == [Listed(a, false)];
    assert Performed([Listed(a, false)]) == [];
  }

  function FailingRound(a: Action): Round {
    Round([Listed(a, true)], Batch([Status(a, false)], []), Accepted)
  }

  lemma OneListed(w: World, a: Action)
    requires w.live == {a.uid}
    ensures ListingOk([a], w, [Listed(a, true)])
  {
    assert ListedActions([Listed(a, true)]) == [a];
    assert UidsOf([a]) == {a.uid};
  }

  lemma OneFailed(a: Action)
    ensures BatchOk([a], Batch([Status(a, false)], [])) && Whole([a], Batch([Status(a, false)], []))
  {
    assert Attempts(Batch([Status(a, false)], [])) == [Status(a, false)];
    assert ActionsOf([Status(a, false)]) == [a];
  }

  lemma FailingRoundIsUncancelled(limit: nat, w: World, a: Action)
    requires w.live == {a.uid} && w.p.unreported == []
    ensures Uncancelled([a], w, FailingRound(a))
    ensures Failures(Advance(limit, w, FailingRound(a)).log, a) == Failures(w.log, a) + 1
  {
    GrantsOf(a, a);
    OneRestart(limit, w, FailingRound(a), a, Status(a, false));
    OneListed(w, a);
    OneFailed(a);
    assert Advance(limit, w, FailingRound(a)).log == w.log + [Status(a, false)];
  }

  /** Unless it was the last attempt allowed, the action is open again. */
  lemma FailingRoundGoesOn(limit: nat, w: World, a: Action)
    requires w.live == {a.uid} && w.p.unreported == [] && RetriesMade(w.p.retries, a.node) + 1 != limit
    ensures var r := FailingRound(a); var v := Advance(limit, w, r);
      && !Completed(limit, w.p, r) && v.live == w.live && v.p.unreported == []
      && RetriesMade(v.p.retries, a.node) == RetriesMade(w.p.retries, a.node) + 1
  {
    GrantsOf(a, a);
    OneRestart(limit, w, FailingRound(a), a, Status(a, false));
    assert Uids([]) == {};
  }

  function FailingRounds(a: Action, times: nat): seq<Round> {
    if times == 0 then [] else [FailingRound(a)] + FailingRounds(a, times - 1)
  }

  /** A node can fail as often as the limit allows, and with limit 0 as often as it likes. */
  lemma {:induction false} FailsOn(limit: nat, w: World, a: Action, times: nat)
    requires w.live == {a.uid} && w.p.unreported == []
    requires limit == 0 || RetriesMade(w.p.retries, a.node) + times <= limit
    ensures Run(limit, [a], w, FailingRounds(a, times))
    ensures Failures(After(limit, w, FailingRounds(a, times)).log, a) == Failures(w.log, a) + times
    decreases times
  {
    if times > 0 {
      var r, rest := FailingRound(a), FailingRounds(a, times - 1);
      var v := Advance(limit, w, r);
      FailingRoundIsUncancelled(limit, w, a);
      if times == 1 {
        assert rest == [];
      } else {
        FailingRoundGoesOn(limit, w, a);
        FailsOn(limit, v, a, times - 1);
      }
      RunOneMore(limit, [a], w, r, rest);
    }
  }

  /** With RestartRetryNumber 0, which the option check accepts, a node that keeps failing is restarted without end. */
  lemma ZeroLimitRunsForever(w: World, a: Action, times: nat)
    requires w.live == {a.uid} && w.p.unreported == []
    ensures Run(0, [a], w, FailingRounds(a, times))
    ensures Failures(After(0, w, FailingRounds(a, times)).log, a) == Failures(w.log, a) + times
  {
    FailsOn(0, w, a, times);
  }

  ghost predicate Attempted(limit: nat, targets: seq<Action>, rounds: seq<Round>, a: Action, bound: nat)
    requires a in targets
  {
    var log := After(limit, Begin(targets), rounds).log;
    Successes(log, a) + Failures(log, a) <= bound
  }

  /** In every run over every list of targets each action is attempted at most so many times. */
  ghost predicate AttemptsBounded(limit: nat, bound: nat) {
    forall targets, rounds, a ::
      (Distinct(targets) && Run(limit, targets, Begin(targets), rounds) && a in targets) ==>
        Attempted(limit, targets, rounds, a, bound)
  }

  lemma LimitIsABound(limit: nat, bound: nat)
    requires 1 <= limit <= bound
    ensures AttemptsBounded(limit, bound)
  {
    forall targets, rounds, a | Distinct(targets) && Run(limit, targets, Begin(targets), rounds) && a in targets
      ensures Attempted(limit, targets, rounds, a, bound)
    {
      BeginInv(limit, targets);
      RunKeepsInv(limit, targets, Begin(targets), rounds);
    }
  }

  lemma FailsThisOften(limit: nat, a: Action, times: nat)
    requires limit == 0 || times <= limit
    ensures Distinct([a]) && Run(limit, [a], Begin([a]), FailingRounds(a, times))
    ensures Failures(After(limit, Begin([a]), FailingRounds(a, times)).log, a) == times
  {
    assert Begin([a]).live == {a.uid} by {
      assert a in [a];
    }
    FailsOn(limit, Begin([a]), a, times);
  }

  /** RestartRetryNumber bounds the attempts, no smaller number does, and without it nothing does. */
  lemma AttemptsBoundedIff(limit: nat, bound: nat)
    ensures AttemptsBounded(limit, bound) <==> 1 <= limit <= bound
  {
    if 1 <= limit <= bound {
      LimitIsABound(limit, bound);
    } else {
      var a, times := Action(1, 1), if limit == 0 then bound + 1 else limit;
      FailsThisOften(limit, a, times);
      assert a in [a] && !Attempted(limit, [a], FailingRounds(a, times), a, bound);
    }
  }

  /** There is some bound on the attempts exactly when the retry limit is positive. */
  lemma BoundedIffLimitPositive(limit: nat)
    ensures (exists bound: nat :: AttemptsBounded(limit, bound)) <==> limit >= 1
  {
    AttemptsBoundedIff(limit, limit);
    forall bound: nat
      ensures AttemptsBounded(limit, bound) <==> 1 <= limit <= bound
    {
      AttemptsBoundedIff(limit, bound);
    }
  }

  /** Round one of the run below: a succeeds, the report fails. */
  function ReportFails(a: Action, b: Action): Round {
    Round([Listed(a, true), Listed(b, false)], Batch([Status(a, true)], []), Refused)
  }

  /** Round two: the CMS shows a as PENDING, b succeeds and is reported. */
  function GrantTakenBack(a: Action, b: Action): Round {
    Round([Listed(a, false), Listed(b, true)], Batch([Status(b, true)], []), Accepted)
  }

  /** Round three: a is granted again. */
  function GrantAgain(a: Action): Round {
    Round([Listed(a, true)], Batch([Status(a, true)], []), Accepted)
  }

  /**
   The assumption on the listing is needed: if the CMS takes a grant back while its completion is unreported,
   accepting another completion clears the list of finished actions and the node is restarted again.
   */
  lemma GrantTakenBackRestartsAgain(limit: nat, a: Action, b: Action)
    requires limit >= 1 && a.uid != b.uid
    ensures var w := Advance(limit, Advance(limit, Begin([a, b]), ReportFails(a, b)), GrantTakenBack(a, b));
      && Done(limit, w.log, a) && a.uid in w.live
      && Dispatched(w, GrantAgain(a)) == [a]
      && Successes(Advance(limit, w, GrantAgain(a)).log, a) == 2
  {
    GrantsOf(a, b);
    var w0 := Begin([a, b]);
    OneRestart(limit, w0, ReportFails(a, b), a, Status(a, true));
    var w1 := Advance(limit, w0, ReportFails(a, b));
    OneRestart(limit, w1, GrantTakenBack(a, b), b, Status(b, true));
    var w2 := Advance(limit, w1, GrantTakenBack(a, b));
    OneRestart(limit, w2, GrantAgain(a), a, Status(a, true));
    assert [a, b][0] == a;
    assert w2.live == w0.live - {b.uid} by {
      assert Uids([b.uid]) == {b.uid};
    }
    assert w2.log == [Status(a, true), Status(b, true)];
    assert Advance(limit, w2, GrantAgain(a)).log == [Status(a, true), Status(b, true), Status(a, true)];
  }
}
