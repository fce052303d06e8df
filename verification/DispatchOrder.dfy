/** Order and outcomes in a batch: actions are handed over in list order, and how a restart ended is what is told. */
module DispatchOrder {
  import opened Progress
  import opened Sums
  import opened Collections
  import opened Dispatch

  // ---------------------------------------------------------------------------
  // Outcomes
  // ---------------------------------------------------------------------------

  /** The status a worker is about to send. */
  function ToSend(w: Worker): multiset<Status> {
    if w.Sending? then multiset{w.status} else multiset{}
  }

  function Unsent(h: Handler): multiset<Status> {
    Gather(h.workers, ToSend)
  }

  /** All statuses there are: about to be sent, in the channel, and collected. */
  function Told(s: State): multiset<Status> {
    Gather(s.handlers, Unsent) + multiset(s.buffer) + multiset(s.collected)
  }

  /** How the call of RestartNode ended that ends with this step, if any does. */
  function EndedBy(s: State, step: Step): multiset<Status> {
    if step.FinishRestart? && AtWorker(s, step.g, step.w) && WorkerAt(s, step.g, step.w).Restarting? then
      multiset{Status(WorkerAt(s, step.g, step.w).action, step.ok)}
    else multiset{}
  }

  /** How all calls of RestartNode ended that end in the course of these steps. */
  function Ended(c: Config, s: State, steps: seq<Step>): multiset<Status>
    requires Interleaving(c, s, steps)
    decreases |steps|
  {
    if steps == [] then multiset{} else EndedBy(s, steps[0]) + Ended(c, Apply(c, s, steps[0]), steps[1..])
  }

  /** What one handler gains was ended, and what it loses is in the channel. */
  lemma HandlerTells(s: State, t: State, g: nat, k: Handler, lost: multiset<Status>, gained: multiset<Status>)
    requires g < |s.handlers| && t.handlers == s.handlers[g := k]
    requires Unsent(k) + lost == Unsent(s.handlers[g]) + gained
    requires multiset(t.buffer) == multiset(s.buffer) + lost && t.collected == s.collected
    ensures Told(t) == Told(s) + gained
  {
    Relocate(s.handlers, g, k, Unsent, lost, gained);
    Carry(Gather(t.handlers, Unsent), Gather(s.handlers, Unsent), lost, gained, multiset(s.buffer),
      multiset(s.collected));
  }

  lemma Carry(now: multiset<Status>, was: multiset<Status>, lost: multiset<Status>, gained: multiset<Status>,
              buffer: multiset<Status>, collected: multiset<Status>)
    requires now + lost == was + gained
    ensures now + (buffer + lost) + collected == was + buffer + collected + gained
  {
    forall x
      ensures (now + (buffer + lost) + collected)[x] == (was + buffer + collected + gained)[x]
    {
      assert (now + lost)[x] == (was + gained)[x];
    }
  }

  lemma WorkerTells(s: State, t: State, g: nat, w: nat, x: Worker, lost: multiset<Status>, gained: multiset<Status>)
    requires AtWorker(s, g, w) && t.handlers == SetWorker(s, g, w, x).handlers
    requires ToSend(x) + lost == ToSend(WorkerAt(s, g, w)) + gained
    requires multiset(t.buffer) == multiset(s.buffer) + lost && t.collected == s.collected
    ensures Told(t) == Told(s) + gained
  {
    var h := s.handlers[g];
    var k := h.(workers := h.workers[w := x]);
    WorkerMoves(h, k, w, x, ToSend, lost, gained);
    HandlerTells(s, t, g, k, lost, gained);
  }

  lemma FinishTells(c: Config, s: State, g: nat, w: nat, ok: bool)
    requires Enabled(c, s, FinishRestart(g, w, ok))
    ensures Told(Apply(c, s, FinishRestart(g, w, ok))) == Told(s) + EndedBy(s, FinishRestart(g, w, ok))
  {
    var st := Status(WorkerAt(s, g, w).action, ok);
    WorkerTells(s, Apply(c, s, FinishRestart(g, w, ok)), g, w, Sending(st), multiset{}, multiset{st});
  }

  lemma SendTells(c: Config, s: State, g: nat, w: nat)
    requires Enabled(c, s, SendStatus(g, w))
    ensures Told(Apply(c, s, SendStatus(g, w))) == Told(s)
  {
    var st := WorkerAt(s, g, w).status;
    WorkerTells(s, Apply(c, s, SendStatus(g, w)), g, w, Delaying, multiset{st}, multiset{});
  }

  lemma CollectTells(c: Config, s: State)
    requires Enabled(c, s, Collect)
    ensures Told(Apply(c, s, Collect)) == Told(s)
  {
    assert s.buffer == [s.buffer[0]] + s.buffer[1..];
  }

  lemma OthersTell(c: Config, s: State, step: Step)
    requires Enabled(c, s, step) && !step.FinishRestart? && !step.SendStatus? && !step.Collect?
    ensures Told(Apply(c, s, step)) == Told(s)
  {
    var t := Apply(c, s, step);
    assert t.buffer == s.buffer && t.collected == s.collected;
    var g := HandlerOfStep(c, s, step);
    if t.handlers != s.handlers {
      SameUnsent(c, s, step, g);
      HandlerTells(s, t, g, t.handlers[g], multiset{}, multiset{});
    }
  }

  /** Other steps touch no worker that has a status to send, and leave none with one. */
  lemma SameUnsent(c: Config, s: State, step: Step, g: nat)
    requires Enabled(c, s, step) && !step.FinishRestart? && !step.SendStatus? && g < |s.handlers|
    requires g < |Apply(c, s, step).handlers|
    ensures Unsent(Apply(c, s, step).handlers[g]) == Unsent(s.handlers[g])
  {
    var ws, w, x := s.handlers[g].workers, 0, Idle;
    if Apply(c, s, step).handlers[g].workers != ws {
      w, x := SilentWorker(c, s, step, g);
      SameGathered(ws, w, x, ToSend);
    }
  }

  lemma SilentWorker(c: Config, s: State, step: Step, g: nat) returns (w: nat, x: Worker)
    requires Enabled(c, s, step) && !step.FinishRestart? && !step.SendStatus? && g < |s.handlers|
    requires g < |Apply(c, s, step).handlers| && Apply(c, s, step).handlers[g].workers != s.handlers[g].workers
    ensures var ws := s.handlers[g].workers;
      w < |ws| && Apply(c, s, step).handlers[g].workers == ws[w := x] && !ws[w].Sending? && !x.Sending?
  {
    w, x := step.w, Apply(c, s, step).handlers[g].workers[step.w];
  }

  lemma StepTells(c: Config, s: State, step: Step)
    requires Enabled(c, s, step)
    ensures Told(Apply(c, s, step)) == Told(s) + EndedBy(s, step)
  {
    match step {
      case FinishRestart(g, w, ok) => FinishTells(c, s, g, w, ok);
      case SendStatus(g, w) => SendTells(c, s, g, w);
      case Collect => CollectTells(c, s);
      case _ => OthersTell(c, s, step);
    }
  }

  /**
   In every interleaving, the statuses told are exactly the calls of RestartNode that ended, each with its action and
   with the way it ended: none is lost, repeated or turned around between the worker and the collector.
   */
  lemma {:induction false} OutcomesAreTold(c: Config, s: State, steps: seq<Step>)
    requires Interleaving(c, s, steps)
    ensures Told(Outcome(c, s, steps)) == Told(s) + Ended(c, s, steps)
    decreases |steps|
  {
    if steps != [] {
      StepTells(c, s, steps[0]);
      OutcomesAreTold(c, Apply(c, s, steps[0]), steps[1..]);
    }
  }

  /** The statuses in the order in which they were sent: those collected, then those in the channel. */
  function Sent(s: State): seq<Status> {
    s.collected + s.buffer
  }

  lemma StepKeepsSent(c: Config, s: State, step: Step)
    requires Enabled(c, s, step)
    ensures Sent(s) <= Sent(Apply(c, s, step)) && s.collected <= Apply(c, s, step).collected
  {
    if step == Collect {
      assert Sent(Apply(c, s, step)) == Sent(s);
    }
  }

  /** The channel is first in, first out: what was sent keeps its order, so it is collected in the order of sending. */
  lemma {:induction false} SentInOrder(c: Config, s: State, steps: seq<Step>)
    requires Interleaving(c, s, steps)
    ensures Sent(s) <= Sent(Outcome(c, s, steps)) && s.collected <= Outcome(c, s, steps).collected
    decreases |steps|
  {
    if steps != [] {
      StepKeepsSent(c, s, steps[0]);
      SentInOrder(c, Apply(c, s, steps[0]), steps[1..]);
    }
  }

  // ---------------------------------------------------------------------------
  // Order
  // ---------------------------------------------------------------------------

  /** The actions of one group, in this order. */
  function Within(group: seq<Action>, actions: seq<Action>): seq<Action> {
    Filter(actions, (a: Action) => a in group)
  }

  /** Where the actions of a handler are: handed over, then dropped, then still in the queue, in list order. */
  ghost predicate InListOrder(c: Config, s: State) {
    && |s.handlers| == |c.groups| && (s.dropped != [] ==> s.cancelled)
    && forall g :: 0 <= g < |c.groups| ==> GroupInOrder(c.groups[g], s.taken, s.dropped, s.handlers[g].pending)
  }

  ghost predicate GroupInOrder(group: seq<Action>, taken: seq<Action>, dropped: seq<Action>, pending: seq<Action>) {
    Within(group, taken) + Within(group, dropped) + pending == group
  }

  lemma WithinOneMore(group: seq<Action>, actions: seq<Action>, a: Action)
    ensures Within(group, actions + [a]) == if a in group then Within(group, actions) + [a] else Within(group, actions)
  {
    assert (actions + [a])[..|actions|] == actions;
    assert Within(group, actions) + [] == Within(group, actions);
  }

  /** An action is in one group only. */
  lemma {:induction false} OneGroupOnly(groups: seq<seq<Action>>, g: nat, k: nat, a: Action)
    requires Distinct(Concat(groups)) && g < k < |groups| && a in groups[k]
    ensures a !in groups[g]
  {
    var n := |groups| - 1;
    var before := Concat(groups[..n]);
    assert Concat(groups) == before + groups[n];
    if k < n {
      forall i, j | 0 <= i < j < |before|
        ensures before[i].uid != before[j].uid && before[i].node != before[j].node
      {
        assert Concat(groups)[i] == before[i] && Concat(groups)[j] == before[j];
      }
      OneGroupOnly(groups[..n], g, k, a);
    } else {
      NotInBoth(before, groups[n], a);
      if a in groups[g] {
        InConcat(groups[..n], g, a);
      }
    }
  }

  lemma NotInBoth(one: seq<Action>, other: seq<Action>, a: Action)
    requires Distinct(one + other) && a in other
    ensures a !in one
  {
    var j :| 0 <= j < |other| && other[j] == a;
    forall i | 0 <= i < |one|
      ensures one[i] != a
    {
      assert (one + other)[i].uid != (one + other)[|one| + j].uid;
    }
  }

  lemma OtherGroup(c: Config, g: nat, k: nat, a: Action)
    requires Distinct(Actions(c)) && g < |c.groups| && k < |c.groups| && g != k && a in c.groups[g]
    ensures a !in c.groups[k]
  {
    if k < g {
      OneGroupOnly(c.groups, k, g, a);
    } else if a in c.groups[k] {
      OneGroupOnly(c.groups, g, k, a);
    }
  }

  lemma HeadIsInGroup(group: seq<Action>, taken: seq<Action>, dropped: seq<Action>, pending: seq<Action>)
    requires GroupInOrder(group, taken, dropped, pending) && pending != []
    ensures pending[0] in group
  {
    assert pending[0] in Within(group, taken) + Within(group, dropped) + pending;
  }

  lemma TakenNext(group: seq<Action>, taken: seq<Action>, pending: seq<Action>)
    requires GroupInOrder(group, taken, [], pending) && pending != []
    ensures GroupInOrder(group, taken + [pending[0]], [], pending[1..])
  {
    var none, a := Within(group, []), pending[0];
    HeadIsInGroup(group, taken, [], pending);
    WithinOneMore(group, taken, a);
    assert none == [];
    assert Within(group, taken) + none == Within(group, taken);
    assert Within(group, taken) + [a] + none == Within(group, taken) + [a];
    MoveFirst(Within(group, taken), pending);
  }

  lemma DroppedNext(group: seq<Action>, taken: seq<Action>, dropped: seq<Action>, pending: seq<Action>)
    requires GroupInOrder(group, taken, dropped, pending) && pending != []
    ensures GroupInOrder(group, taken, dropped + [pending[0]], pending[1..])
  {
    HeadIsInGroup(group, taken, dropped, pending);
    WithinOneMore(group, dropped, pending[0]);
    Associates(Within(group, taken), Within(group, dropped), [pending[0]]);
    MoveFirst(Within(group, taken) + Within(group, dropped), pending);
  }

  lemma MoveFirst(done: seq<Action>, pending: seq<Action>)
    requires pending != []
    ensures done + [pending[0]] + pending[1..] == done + pending
  {
  }

  lemma HandoffInOrder(c: Config, s: State, g: nat, w: nat)
    requires Distinct(Actions(c)) && InListOrder(c, s) && Enabled(c, s, Handoff(g, w))
    ensures InListOrder(c, Apply(c, s, Handoff(g, w)))
  {
    var t, a := Apply(c, s, Handoff(g, w)), s.handlers[g].pending[0];
    HeadIsInGroup(c.groups[g], s.taken, s.dropped, s.handlers[g].pending);
    TakenNext(c.groups[g], s.taken, s.handlers[g].pending);
    forall k | 0 <= k < |c.groups|
      ensures GroupInOrder(c.groups[k], t.taken, t.dropped, t.handlers[k].pending)
    {
      if k != g {
        OtherGroup(c, g, k, a);
        WithinOneMore(c.groups[k], s.taken, a);
        assert GroupInOrder(c.groups[k], s.taken, s.dropped, s.handlers[k].pending);
      }
    }
  }

  lemma DropInOrder(c: Config, s: State, g: nat)
    requires Distinct(Actions(c)) && InListOrder(c, s) && Enabled(c, s, DropPush(g))
    ensures InListOrder(c, Apply(c, s, DropPush(g)))
  {
    var t, a := Apply(c, s, DropPush(g)), s.handlers[g].pending[0];
    HeadIsInGroup(c.groups[g], s.taken, s.dropped, s.handlers[g].pending);
    DroppedNext(c.groups[g], s.taken, s.dropped, s.handlers[g].pending);
    forall k | 0 <= k < |c.groups|
      ensures GroupInOrder(c.groups[k], t.taken, t.dropped, t.handlers[k].pending)
    {
      if k != g {
        OtherGroup(c, g, k, a);
        WithinOneMore(c.groups[k], s.dropped, a);
        assert GroupInOrder(c.groups[k], s.taken, s.dropped, s.handlers[k].pending);
      }
    }
  }

  lemma OthersInOrder(c: Config, s: State, step: Step)
    requires InListOrder(c, s) && Enabled(c, s, step) && !step.Handoff? && !step.DropPush?
    ensures InListOrder(c, Apply(c, s, step))
  {
    var t := Apply(c, s, step);
    assert t.taken == s.taken && t.dropped == s.dropped && |t.handlers| == |s.handlers|;
    forall k | 0 <= k < |c.groups|
      ensures GroupInOrder(c.groups[k], t.taken, t.dropped, t.handlers[k].pending)
    {
      assert GroupInOrder(c.groups[k], s.taken, s.dropped, s.handlers[k].pending);
      assert t.handlers[k].pending == s.handlers[k].pending;
    }
  }

  lemma {:induction false} StaysInOrder(c: Config, s: State, steps: seq<Step>)
    requires Distinct(Actions(c)) && InListOrder(c, s) && Interleaving(c, s, steps)
    ensures InListOrder(c, Outcome(c, s, steps))
    decreases |steps|
  {
    if steps != [] {
      match steps[0] {
        case Handoff(g, w) => HandoffInOrder(c, s, g, w);
        case DropPush(g) => DropInOrder(c, s, g);
        case _ => OthersInOrder(c, s, steps[0]);
      }
      StaysInOrder(c, Apply(c, s, steps[0]), steps[1..]);
    }
  }

  /**
   In every interleaving, cancelled or not, each handler hands over its actions in list order; what it drops after a
   cancellation is the rest of the list.
   */
  lemma HandedOverInListOrder(c: Config, steps: seq<Step>)
    requires WellFormed(c) && Interleaving(c, Fresh(c), steps)
    ensures InListOrder(c, Outcome(c, Fresh(c), steps))
  {
    forall g | 0 <= g < |c.groups|
      ensures GroupInOrder(c.groups[g], [], [], c.groups[g])
    {
      assert Within(c.groups[g], []) == [];
    }
    StaysInOrder(c, Fresh(c), steps);
  }
}
