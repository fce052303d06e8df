/** How a run can still end, and which rounds take that away: lost replies and grants taken back. */
module Endings {
  import opened Progress
  import opened Runs
  import opened RunTheorems

  // ---------------------------------------------------------------------------
  // A round that the environment can always play
  // ---------------------------------------------------------------------------

  /** The held targets, of which some are granted. */
  function Relisted(targets: seq<Action>, live: set<ActionId>, granted: set<ActionId>): seq<Listed> {
    if targets == [] then []
    else
      var last := targets[|targets| - 1];
      Relisted(targets[..|targets| - 1], live, granted)
      + if last.uid in live then [Listed(last, last.uid in granted)] else []
  }

  function AllSucceed(actions: seq<Action>): seq<Status> {
    seq(|actions|, i requires 0 <= i < |actions| => Status(actions[i], true))
  }

  /** Every granted action that has to be restarted is restarted successfully. */
  function Finale(targets: seq<Action>, w: World, granted: set<ActionId>, reply: Reply): Round {
    var listing := Relisted(targets, w.live, granted);
    Round(listing, Batch(AllSucceed(ToRestart(w.p.unreported, Performed(listing))), []), reply)
  }

  lemma {:induction false} RelistedIs(targets: seq<Action>, live: set<ActionId>, granted: set<ActionId>)
    ensures forall l :: l in Relisted(targets, live, granted) <==>
      (l.action in targets && l.action.uid in live && l.performed == (l.action.uid in granted))
    ensures multiset(ListedActions(Relisted(targets, live, granted))) <= multiset(targets)
  {
    if targets != [] {
      var n := |targets| - 1;
      var earlier, last := Relisted(targets[..n], live, granted), targets[n];
      RelistedIs(targets[..n], live, granted);
      assert targets == targets[..n] + [last];
      assert ListedActions(earlier + [Listed(last, last.uid in granted)]) == ListedActions(earlier) + [last];
      assert earlier + [] == earlier;
    }
  }

  lemma RelistedOk(targets: seq<Action>, w: World, granted: set<ActionId>)
    requires Distinct(targets) && w.live <= UidsOf(targets)
    ensures ListingOk(targets, w, Relisted(targets, w.live, granted))
  {
    var listing := Relisted(targets, w.live, granted);
    RelistedIs(targets, w.live, granted);
    PartOfDistinct(ListedActions(listing), targets);
    forall u | u in w.live
      ensures u in UidsOf(ListedActions(listing))
    {
      var a :| a in targets && a.uid == u;
      var l := Listed(a, u in granted);
      var i :| 0 <= i < |listing| && listing[i] == l;
      assert ListedActions(listing)[i] == a;
    }
    forall u | u in UidsOf(ListedActions(listing))
      ensures u in w.live
    {
      var i :| 0 <= i < |listing| && ListedActions(listing)[i].uid == u;
      assert listing[i] in listing;
    }
  }

  lemma {:induction false} ToRestartIsPart(unreported: seq<ActionId>, actions: seq<Action>)
    ensures multiset(ToRestart(unreported, actions)) <= multiset(actions)
  {
    if actions != [] {
      var n := |actions| - 1;
      ToRestartIsPart(unreported, actions[..n]);
      assert actions == actions[..n] + [actions[n]];
      assert multiset(actions) == multiset(actions[..n]) + multiset{actions[n]};
    }
  }

  lemma AllSucceedIs(actions: seq<Action>)
    ensures ActionsOf(AllSucceed(actions)) == actions
    ensures forall a :: Status(a, true) in AllSucceed(actions) <==> a in actions
  {
    forall a | a in actions
      ensures Status(a, true) in AllSucceed(actions)
    {
      var i :| 0 <= i < |actions| && actions[i] == a;
      assert AllSucceed(actions)[i] == Status(a, true);
    }
  }

  lemma FinaleIs(targets: seq<Action>, w: World, granted: set<ActionId>, reply: Reply)
    requires Distinct(targets) && w.live <= UidsOf(targets)
    ensures var r := Finale(targets, w, granted, reply);
      && Uncancelled(targets, w, r)
      && Attempts(r.batch) == AllSucceed(Dispatched(w, r))
      && forall a :: a in Performed(r.listing) <==> a in targets && a.uid in w.live && a.uid in granted
  {
    var r := Finale(targets, w, granted, reply);
    var actions := Dispatched(w, r);
    RelistedOk(targets, w, granted);
    RelistedIs(targets, w.live, granted);
    PerformedIsPart(r.listing);
    PartOfDistinct(Performed(r.listing), ListedActions(r.listing));
    ToRestartIsPart(w.p.unreported, Performed(r.listing));
    PartOfDistinct(actions, Performed(r.listing));
    AllSucceedIs(actions);
    assert Attempts(r.batch) == AllSucceed(actions);
  }

  /** What is granted and not waiting to be reported succeeds. */
  lemma FinaleSucceeds(targets: seq<Action>, w: World, granted: set<ActionId>, reply: Reply, a: Action)
    requires Distinct(targets) && w.live <= UidsOf(targets)
    requires a in targets && a.uid in w.live && a.uid in granted && a.uid !in w.p.unreported
    ensures var r := Finale(targets, w, granted, reply);
      a in Dispatched(w, r) && Successes(w.log + Attempts(r.batch), a) == Successes(w.log, a) + 1
  {
    var r := Finale(targets, w, granted, reply);
    FinaleIs(targets, w, granted, reply);
    SplitByUnreported(w.p.unreported, Performed(r.listing));
    AllSucceedIs(Dispatched(w, r));
    assert Status(a, true) in multiset(Attempts(r.batch));
    AttemptsOf(Dispatched(w, r), r.batch, w.log, a);
  }

  // ---------------------------------------------------------------------------
  // Lost replies
  // ---------------------------------------------------------------------------

  /** The reply that would have ended the loop is lost. */
  predicate LostLastReply(limit: nat, w: World, r: Round) {
    r.reply == Lost && Completed(limit, w.p, r.(reply := Accepted))
  }

  /** Some continuation of the run ends the loop. */
  ghost predicate CanComplete(limit: nat, targets: seq<Action>, w: World) {
    exists rounds, r ::
      && Run(limit, targets, w, rounds)
      && Uncancelled(targets, After(limit, w, rounds), r)
      && Completed(limit, After(limit, w, rounds).p, r)
  }

  /** With everything granted and every restart successful, everything held is reported. */
  lemma FinaleReportsAll(limit: nat, targets: seq<Action>, w: World, reply: Reply)
    requires Distinct(targets) && WorldInv(limit, targets, w) && w.live != {}
    ensures var r := Finale(targets, w, w.live, reply);
      && Uncancelled(targets, w, r) && GrantsKept(w, r) && Performed(r.listing) != []
      && w.live - Uids(BeforeReply(limit, w.p, r).completed) == {}
  {
    var r := Finale(targets, w, w.live, reply);
    FinaleIs(targets, w, w.live, reply);
    RelistedIs(targets, w.live, w.live);
    forall u | u in w.live
      ensures u in BeforeReply(limit, w.p, r).completed && Performed(r.listing) != []
    {
      var a :| a in targets && a.uid == u;
      assert a in Performed(r.listing);
      FinaleReports(limit, targets, w, reply, a);
    }
  }

  lemma FinaleReports(limit: nat, targets: seq<Action>, w: World, reply: Reply, a: Action)
    requires Distinct(targets) && WorldInv(limit, targets, w) && a in targets && a.uid in w.live
    requires var r := Finale(targets, w, w.live, reply); Uncancelled(targets, w, r) && StillPerformed(w, r.listing)
    ensures a.uid in BeforeReply(limit, w.p, Finale(targets, w, w.live, reply)).completed
  {
    var r := Finale(targets, w, w.live, reply);
    if a.uid in w.p.unreported {
      assert ActionInv(limit, w, a);
    } else {
      FinaleSucceeds(targets, w, w.live, reply, a);
    }
    CompletedAreDone(limit, targets, w, r, a);
  }

  /** From every reachable state, the loop can still end if and only if the CMS holds an action. */
  lemma CanCompleteIff(limit: nat, targets: seq<Action>, w: World)
    requires Distinct(targets) && WorldInv(limit, targets, w)
    ensures CanComplete(limit, targets, w) <==> w.live != {}
  {
    if w.live != {} {
      var r := Finale(targets, w, w.live, Accepted);
      FinaleReportsAll(limit, targets, w, Accepted);
      SizesCompared(limit, targets, w, r);
      assert Run(limit, targets, w, []) && After(limit, w, []) == w;
    } else {
      forall rounds, r | Run(limit, targets, w, rounds) && Uncancelled(targets, After(limit, w, rounds), r)
        ensures !Completed(limit, After(limit, w, rounds).p, r)
      {
        LostLastReplyNeverExits(limit, targets, w, rounds);
        NothingListed(targets, w, r.listing);
      }
    }
  }

  lemma NothingListed(targets: seq<Action>, w: World, listing: seq<Listed>)
    requires ListingOk(targets, w, listing) && w.live == {}
    ensures listing == []
  {
    UidCount(ListedActions(listing));
  }

  /**
   A round that leaves the loop open empties the CMS exactly when it loses the reply that would have ended the loop.
   */
  lemma {:induction false} EmptiedIffLost(limit: nat, targets: seq<Action>, w: World, r: Round)
    requires Distinct(targets) && WorldInv(limit, targets, w) && w.live != {}
    requires Uncancelled(targets, w, r) && !Completed(limit, w.p, r)
    ensures Advance(limit, w, r).live == {} <==> LostLastReply(limit, w, r)
  {
    SizesCompared(limit, targets, w, r);
    assert BeforeReply(limit, w.p, r.(reply := Accepted)) == BeforeReply(limit, w.p, r);
  }

  /** No round so far has ended the loop. */
  ghost predicate StillOpen(limit: nat, w: World, rounds: seq<Round>) {
    forall k :: 0 <= k < |rounds| ==> !Completed(limit, WorldAt(limit, w, rounds, k).p, rounds[k])
  }

  ghost predicate SomeLastReplyLost(limit: nat, w: World, rounds: seq<Round>) {
    exists k :: 0 <= k < |rounds| && LostLastReply(limit, WorldAt(limit, w, rounds, k), rounds[k])
  }

  /** The first round apart from the others. */
  lemma FirstOfRounds(limit: nat, w: World, rounds: seq<Round>)
    requires rounds != []
    ensures var v := Advance(limit, w, rounds[0]);
      && (StillOpen(limit, w, rounds) <==> !Completed(limit, w.p, rounds[0]) && StillOpen(limit, v, rounds[1..]))
      && (SomeLastReplyLost(limit, w, rounds)
          <==> LostLastReply(limit, w, rounds[0]) || SomeLastReplyLost(limit, v, rounds[1..]))
  {
    var v, rest := Advance(limit, w, rounds[0]), rounds[1..];
    assert rounds[..0] == [];
    forall k | 0 <= k < |rest|
      ensures WorldAt(limit, v, rest, k) == WorldAt(limit, w, rounds, k + 1) && rest[k] == rounds[k + 1]
    {
      assert rounds[..k + 1][1..] == rest[..k];
    }
    if k :| 0 <= k < |rounds| && LostLastReply(limit, WorldAt(limit, w, rounds, k), rounds[k]) {
      if k > 0 {
        assert WorldAt(limit, v, rest, k - 1) == WorldAt(limit, w, rounds, k);
      }
    }
    if k :| 0 <= k < |rest| && LostLastReply(limit, WorldAt(limit, v, rest, k), rest[k]) {
      assert LostLastReply(limit, WorldAt(limit, w, rounds, k + 1), rounds[k + 1]);
    }
    if StillOpen(limit, w, rounds) {
      forall k | 0 <= k < |rest|
        ensures !Completed(limit, WorldAt(limit, v, rest, k).p, rest[k])
      {
        assert !Completed(limit, WorldAt(limit, w, rounds, k + 1).p, rounds[k + 1]);
      }
      assert !Completed(limit, WorldAt(limit, w, rounds, 0).p, rounds[0]);
    }
    if !Completed(limit, w.p, rounds[0]) && StillOpen(limit, v, rest) {
      forall k | 0 <= k < |rounds|
        ensures !Completed(limit, WorldAt(limit, w, rounds, k).p, rounds[k])
      {
        if k > 0 {
          assert WorldAt(limit, v, rest, k - 1) == WorldAt(limit, w, rounds, k);
        }
      }
    }
  }

  lemma {:induction false} EmptyIffLost(limit: nat, targets: seq<Action>, w: World, rounds: seq<Round>)
    requires Distinct(targets) && WorldInv(limit, targets, w) && w.live != {}
    requires Run(limit, targets, w, rounds) && StillOpen(limit, w, rounds)
    ensures After(limit, w, rounds).live == {} <==> SomeLastReplyLost(limit, w, rounds)
    decreases |rounds|
  {
    if rounds != [] {
      var v := Advance(limit, w, rounds[0]);
      FirstOfRounds(limit, w, rounds);
      EmptiedIffLost(limit, targets, w, rounds[0]);
      if v.live == {} {
        LostLastReplyNeverExits(limit, targets, v, rounds[1..]);
      } else {
        RoundKeepsInv(limit, targets, w, rounds[0]);
        EmptyIffLost(limit, targets, v, rounds[1..]);
      }
    }
  }

  /**
   A run that has not ended can no longer end, whatever the CMS grants and however restarts go, if and only if
   one of its rounds lost the reply that would have ended it.
   */
  lemma StuckIffLastReplyLost(limit: nat, targets: seq<Action>, rounds: seq<Round>)
    requires limit >= 1 && Distinct(targets) && targets != []
    requires Run(limit, targets, Begin(targets), rounds) && StillOpen(limit, Begin(targets), rounds)
    ensures !CanComplete(limit, targets, After(limit, Begin(targets), rounds))
      <==> SomeLastReplyLost(limit, Begin(targets), rounds)
  {
    var w := Begin(targets);
    assert targets[0].uid in w.live;
    BeginInv(limit, targets);
    RunKeepsInv(limit, targets, w, rounds);
    CanCompleteIff(limit, targets, After(limit, w, rounds));
    EmptyIffLost(limit, targets, w, rounds);
  }

  /** And it can happen: every run that can end has a next round after which it cannot. */
  lemma {:induction false} LastReplyCanBeLost(limit: nat, targets: seq<Action>, w: World) returns (r: Round)
    requires Distinct(targets) && WorldInv(limit, targets, w) && w.live != {}
    ensures Run(limit, targets, w, [r]) && LostLastReply(limit, w, r) && !Completed(limit, w.p, r)
    ensures !CanComplete(limit, targets, Advance(limit, w, r))
  {
    r := Finale(targets, w, w.live, Lost);
    FinaleReportsAll(limit, targets, w, Lost);
    SizesCompared(limit, targets, w, r);
    EmptiedIffLost(limit, targets, w, r);
    RoundKeepsInv(limit, targets, w, r);
    CanCompleteIff(limit, targets, Advance(limit, w, r));
    assert [r][1..] == [];
  }

  // ---------------------------------------------------------------------------
  // Grants taken back
  // ---------------------------------------------------------------------------

  /** Whatever follows, even a round cut short, keeps the bounds on restarts. */
  ghost predicate StaysBounded(limit: nat, targets: seq<Action>, w: World) {
    forall rounds, last ::
      Run(limit, targets, w, rounds) && RoundOk(targets, After(limit, w, rounds), last)
      ==> Bounded(limit, targets, Advance(limit, After(limit, w, rounds), last).log)
  }

  lemma {:induction false} InvStaysBounded(limit: nat, targets: seq<Action>, w: World)
    requires Distinct(targets) && WorldInv(limit, targets, w)
    ensures StaysBounded(limit, targets, w)
  {
    forall rounds, last | Run(limit, targets, w, rounds) && RoundOk(targets, After(limit, w, rounds), last)
      ensures Bounded(limit, targets, Advance(limit, After(limit, w, rounds), last).log)
    {
      RunKeepsInv(limit, targets, w, rounds);
      RoundKeepsBounds(limit, targets, After(limit, w, rounds), last);
    }
  }

  /** A finished action whose completion is forgotten can be granted, and so restarted, once more. */
  lemma ForgottenIsRestarted(limit: nat, targets: seq<Action>, w: World, a: Action)
    requires Distinct(targets) && w.live <= UidsOf(targets) && w.p.unreported == []
    requires a in targets && a.uid in w.live && Done(limit, w.log, a)
    ensures !StaysBounded(limit, targets, w)
  {
    var r := Finale(targets, w, {a.uid}, Accepted);
    FinaleIs(targets, w, {a.uid}, Accepted);
    FinaleSucceeds(targets, w, {a.uid}, Accepted, a);
    AttemptsOf(Dispatched(w, r), r.batch, w.log, a);
    assert Run(limit, targets, w, []) && After(limit, w, []) == w;
    assert a in Performed(r.listing);
    var log := Advance(limit, w, r).log;
    assert Successes(log, a) > 1 || Successes(log, a) + Failures(log, a) > limit;
  }

  lemma NotPerformed(listing: seq<Listed>, a: Action)
    requires Distinct(ListedActions(listing)) && Listed(a, false) in listing
    ensures forall b :: b in Performed(listing) ==> b.uid != a.uid
  {
    PerformedIsPart(listing);
    forall b | b in Performed(listing)
      ensures b.uid != a.uid
    {
      var i :| 0 <= i < |listing| && listing[i] == Listed(a, false);
      var j :| 0 <= j < |listing| && listing[j] == Listed(b, true);
      assert ListedActions(listing)[i] == a && ListedActions(listing)[j] == b;
    }
  }

  /** The action whose grant was taken back is not among those reported. */
  lemma TakenBackIsNotReported(limit: nat, targets: seq<Action>, w: World, r: Round, a: Action)
    requires Distinct(targets) && WorldInv(limit, targets, w) && RoundOk(targets, w, r)
    requires Listed(a, false) in r.listing && a.uid in w.p.unreported
    ensures a in targets && a.uid in w.live && a.uid !in BeforeReply(limit, w.p, r).completed
  {
    BeforeReplyIs(limit, targets, w, r);
    ResumedIs(limit, targets, w, r);
    NotPerformed(r.listing, a);
    assert a.uid in BeforeReply(limit, w.p, r).completed <==> a.uid in Uids(BeforeReply(limit, w.p, r).completed);
  }

  /**
   After a round, the bounds on restarts hold for whatever follows if and only if that round kept the grants:
   when its completion was accepted, every unreported action was still listed as PERFORMED.
   */
  lemma BoundedIffGrantsKept(limit: nat, targets: seq<Action>, w: World, r: Round)
    requires Distinct(targets) && WorldInv(limit, targets, w) && Uncancelled(targets, w, r)
    ensures StaysBounded(limit, targets, Advance(limit, w, r)) <==> GrantsKept(w, r)
  {
    var v := Advance(limit, w, r);
    if GrantsKept(w, r) {
      RoundKeepsInv(limit, targets, w, r);
      InvStaysBounded(limit, targets, v);
    } else {
      var l :| l in r.listing && l.action.uid in w.p.unreported && !l.performed;
      var a := l.action;
      assert l == Listed(a, false);
      TakenBackIsNotReported(limit, targets, w, r, a);
      assert ActionInv(limit, w, a);
      ForgottenIsRestarted(limit, targets, v, a);
    }
  }
}
