/**
 What the collector goroutine of a batch writes: the finished but unreported action ids, the
 list handed to CompleteAction, the failures counted per node and the progress counter.
 */
module Progress {

  type ActionId = nat
  type NodeId = nat

  /** A lock action of the maintenance task together with the node in its scope. */
  datatype Action = Action(uid: ActionId, node: NodeId)

  /** What a worker sends after RestartNode returned. */
  datatype Status = Status(action: Action, ok: bool)

  datatype Progress = Progress(
    unreported: seq<ActionId>,   // unreportedButFinishedActionIds
    completed: seq<ActionId>,    // completedActions
    retries: map<NodeId, nat>,   // retriesMadeForNode
    restarted: nat)              // alreadyRestartedNodes

  const START := Progress([], [], map[], 0)

  function RetriesMade(retries: map<NodeId, nat>, node: NodeId): nat {
    if node in retries then retries[node] else 0
  }

  function Remember(p: Progress, uid: ActionId): Progress {
    p.(unreported := p.unreported + [uid], completed := p.completed + [uid], restarted := p.restarted + 1)
  }

  function HandleStatus(limit: nat, p: Progress, st: Status): Progress {
    if st.ok then
      Remember(p, st.action.uid)
    else
      var made := RetriesMade(p.retries, st.action.node);
      var q := p.(retries := p.retries[st.action.node := made + 1]);
      if made + 1 == limit then Remember(q, st.action.uid) else q
  }

  /** The statuses in the order in which the collector received them. */
  function HandleAll(limit: nat, p: Progress, statuses: seq<Status>): Progress {
    if statuses == [] then p
    else HandleStatus(limit, HandleAll(limit, p, statuses[..|statuses| - 1]), statuses[|statuses| - 1])
  }

  /** No action and no node occurs twice: one single-action group per target node. */
  ghost predicate Distinct(actions: seq<Action>) {
    forall i, j :: 0 <= i < j < |actions| ==> actions[i].uid != actions[j].uid && actions[i].node != actions[j].node
  }

  function ActionsOf(statuses: seq<Status>): (actions: seq<Action>)
    ensures |actions| == |statuses|
    ensures forall i :: 0 <= i < |statuses| ==> actions[i] == statuses[i].action
  {
    seq(|statuses|, i requires 0 <= i < |statuses| => statuses[i].action)
  }

  // ---------------------------------------------------------------------------
  // The fold does not depend on the order of arrival
  // ---------------------------------------------------------------------------

  /** Whether this status finishes its action, given the failures counted before the batch. */
  predicate Finishes(limit: nat, retries: map<NodeId, nat>, st: Status) {
    st.ok || RetriesMade(retries, st.action.node) + 1 == limit
  }

  function FinishedUids(limit: nat, retries: map<NodeId, nat>, statuses: seq<Status>): set<ActionId> {
    set st | st in statuses && Finishes(limit, retries, st) :: st.action.uid
  }

  function FailedNodes(statuses: seq<Status>): set<NodeId> {
    set st | st in statuses && !st.ok :: st.action.node
  }

  /** One more failure counted on each of these nodes. */
  ghost predicate Bumped(before: map<NodeId, nat>, nodes: set<NodeId>, after: map<NodeId, nat>) {
    && after.Keys == before.Keys + nodes
    && forall n :: RetriesMade(after, n) == RetriesMade(before, n) + if n in nodes then 1 else 0
  }

  /** q is p after a batch that finished some actions and failed on some nodes, said without any order. */
  ghost predicate Shifted(p: Progress, finished: set<ActionId>, failed: set<NodeId>, q: Progress) {
    && Bumped(p.retries, failed, q.retries)
    && multiset(q.unreported) == multiset(p.unreported) + multiset(finished)
    && multiset(q.completed) == multiset(p.completed) + multiset(finished)
    && q.restarted == p.restarted + |finished|
  }

  ghost predicate AfterBatch(limit: nat, p: Progress, statuses: seq<Status>, q: Progress) {
    Shifted(p, FinishedUids(limit, p.retries, statuses), FailedNodes(statuses), q)
  }

  lemma {:induction false} FoldIsOrderFree(limit: nat, p: Progress, statuses: seq<Status>)
    requires Distinct(ActionsOf(statuses))
    ensures AfterBatch(limit, p, statuses, HandleAll(limit, p, statuses))
  {
    if statuses == [] {
      assert FinishedUids(limit, p.retries, statuses) == {};
    } else {
      var n := |statuses| - 1;
      var rest, last := statuses[..n], statuses[n];
      assert Distinct(ActionsOf(rest)) by {
        forall i, j | 0 <= i < j < n
          ensures rest[i].action.uid != rest[j].action.uid && rest[i].action.node != rest[j].action.node
        {
          assert ActionsOf(statuses)[i].uid != ActionsOf(statuses)[j].uid;
        }
      }
      FoldIsOrderFree(limit, p, rest);
      LastIsNew(limit, p.retries, statuses);
      StatusStep(limit, p, FinishedUids(limit, p.retries, rest), FailedNodes(rest), HandleAll(limit, p, rest), last);
    }
  }

  lemma {:induction false} StatusStep(limit: nat, p: Progress, finished: set<ActionId>, failed: set<NodeId>,
                                      q: Progress, st: Status)
    requires Shifted(p, finished, failed, q) && st.action.uid !in finished && st.action.node !in failed
    ensures Shifted(p,
                    finished + (if Finishes(limit, p.retries, st) then {st.action.uid} else {}),
                    failed + (if st.ok then {} else {st.action.node}),
                    HandleStatus(limit, q, st))
  {
    assert finished + {} == finished && failed + {} == failed;
    if st.ok {
    } else if Finishes(limit, p.retries, st) {
      GiveUpStep(limit, p, finished, failed, q, st);
    } else {
      RetryStep(limit, p, finished, failed, q, st);
    }
  }

  lemma RetryStep(limit: nat, p: Progress, finished: set<ActionId>, failed: set<NodeId>, q: Progress, st: Status)
    requires Shifted(p, finished, failed, q) && st.action.node !in failed
    requires !st.ok && !Finishes(limit, p.retries, st)
    ensures Shifted(p, finished, failed + {st.action.node}, HandleStatus(limit, q, st))
  {
  }

  lemma GiveUpStep(limit: nat, p: Progress, finished: set<ActionId>, failed: set<NodeId>, q: Progress, st: Status)
    requires Shifted(p, finished, failed, q) && st.action.uid !in finished && st.action.node !in failed
    requires !st.ok && Finishes(limit, p.retries, st)
    ensures Shifted(p, finished + {st.action.uid}, failed + {st.action.node}, HandleStatus(limit, q, st))
  {
    var counted := q.(retries := q.retries[st.action.node := RetriesMade(q.retries, st.action.node) + 1]);
  }

  lemma LastIsNew(limit: nat, retries: map<NodeId, nat>, statuses: seq<Status>)
    requires statuses != [] && Distinct(ActionsOf(statuses))
    ensures var n := |statuses| - 1; var last := statuses[n];
      && last.action.uid !in FinishedUids(limit, retries, statuses[..n])
      && last.action.node !in FailedNodes(statuses[..n])
      && FinishedUids(limit, retries, statuses)
         == FinishedUids(limit, retries, statuses[..n])
            + (if Finishes(limit, retries, last) then {last.action.uid} else {})
      && FailedNodes(statuses) == FailedNodes(statuses[..n]) + (if last.ok then {} else {last.action.node})
  {
    var n := |statuses| - 1;
    var last := statuses[n];
    assert forall st :: st in statuses <==> st in statuses[..n] || st == last;
    forall st | st in statuses[..n]
      ensures st.action.uid != last.action.uid && st.action.node != last.action.node
    {
      var i :| 0 <= i < n && statuses[i] == st;
      assert ActionsOf(statuses)[i].uid != ActionsOf(statuses)[n].uid;
    }
  }

  /** Equal up to the order inside the two lists, which no caller looks at. */
  ghost predicate Same(p: Progress, q: Progress) {
    && multiset(p.unreported) == multiset(q.unreported)
    && multiset(p.completed) == multiset(q.completed)
    && p.retries == q.retries
    && p.restarted == q.restarted
  }

  /** Two arrival orders of the same statuses leave the same state. */
  lemma {:induction false} ArrivalOrderIrrelevant(limit: nat, p: Progress, one: seq<Status>, other: seq<Status>)
    requires Distinct(ActionsOf(one)) && Distinct(ActionsOf(other))
    requires forall st :: st in one <==> st in other
    ensures Same(HandleAll(limit, p, one), HandleAll(limit, p, other))
  {
    FoldIsOrderFree(limit, p, one);
    FoldIsOrderFree(limit, p, other);
    assert FinishedUids(limit, p.retries, one) == FinishedUids(limit, p.retries, other);
    assert FailedNodes(one) == FailedNodes(other);
    BumpedIsUnique(p.retries, FailedNodes(one),
                   HandleAll(limit, p, one).retries, HandleAll(limit, p, other).retries);
  }

  lemma BumpedIsUnique(before: map<NodeId, nat>, nodes: set<NodeId>, one: map<NodeId, nat>, other: map<NodeId, nat>)
    requires Bumped(before, nodes, one) && Bumped(before, nodes, other)
    ensures one == other
  {
    forall n | n in one
      ensures one[n] == other[n]
    {
      assert RetriesMade(one, n) == RetriesMade(other, n);
    }
  }

  // ---------------------------------------------------------------------------
  // Sub-multisets of distinct actions
  // ---------------------------------------------------------------------------

  lemma Twice<T>(s: seq<T>, i: nat, j: nat)
    requires i < j < |s| && s[i] == s[j]
    ensures multiset(s)[s[i]] >= 2
  {
    assert s == s[..j] + [s[j]] + s[j + 1..];
    assert s[i] in s[..j];
    assert multiset(s) == multiset(s[..j]) + multiset{s[j]} + multiset(s[j + 1..]);
  }

  lemma {:induction false} OnceEach(actions: seq<Action>, a: Action)
    requires Distinct(actions)
    ensures multiset(actions)[a] <= 1
  {
    if actions != [] {
      var n := |actions| - 1;
      assert actions == actions[..n] + [actions[n]];
      OnceEach(actions[..n], a);
      assert actions[n] !in actions[..n];
    }
  }

  lemma PartOfDistinct(part: seq<Action>, actions: seq<Action>)
    requires Distinct(actions) && multiset(part) <= multiset(actions)
    ensures Distinct(part) && forall a :: a in part ==> a in actions
  {
    forall a | a in part
      ensures a in actions
    {
      assert a in multiset(part);
      assert a in multiset(actions);
    }
    forall i, j | 0 <= i < j < |part|
      ensures part[i].uid != part[j].uid && part[i].node != part[j].node
    {
      if part[i] == part[j] {
        Twice(part, i, j);
        OnceEach(actions, part[i]);
      }
      assert part[i] in part && part[j] in part;
      var x :| 0 <= x < |actions| && actions[x] == part[i];
      var y :| 0 <= y < |actions| && actions[y] == part[j];
      assert x != y;
    }
  }
}
