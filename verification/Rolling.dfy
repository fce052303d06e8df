/**
 The Rolling object: the state that processActionGroupStates and the waiting loop update in place, and what
 they compute against the rounds that CMS and restarts supply.
 */
module Rolling {
  import opened Progress
  import opened Runs
  import opened Compatibility

  /** The answer of cms.Nodes: RetriesExceeded is the error of WrapWithRetries after the last attempt. */
  datatype NodesReply = Nodes(versions: seq<Version>) | RetriesExceeded | NodesFailed

  datatype Verdict = Compatible | Incompatible | Unknown(reply: NodesReply)

  /**
   One iteration of the waiting loop: the round if there is a task, whether the wait saw the cancelled context,
   whether the refresh succeeded, and the nodes for the version check. The refreshed task is the listing of
   the next turn's round.
   */
  datatype Turn = Turn(round: Round, cancelled: bool, refreshed: bool, nodes: NodesReply)

  datatype Exit = Running | AllCompleted | Canceled | VersionsIncompatible | ListingFailed

  // ---------------------------------------------------------------------------
  // The waiting loop, as a function
  // ---------------------------------------------------------------------------

  datatype Machine = Machine(p: Progress, known: Known, hasTask: bool, exit: Exit, processed: seq<Round>)

  function VersionCheck(known: Known, nodes: NodesReply): (Known, Verdict) {
    match nodes
    case Nodes(versions) =>
      var later := RecordAll(known, versions);
      (later, if Rejected(later) then Incompatible else Compatible)
    case _ => (known, Unknown(nodes))
  }

  function ExitOf(v: Verdict): Exit {
    match v
    case Compatible => Running
    case Incompatible => VersionsIncompatible
    case Unknown(reply) => if reply == RetriesExceeded then Running else ListingFailed
  }

  function TakeTurn(limit: nat, suppress: bool, m: Machine, t: Turn): Machine {
    var done := m.hasTask && Completed(limit, m.p, t.round);
    var n := if m.hasTask then m.(p := Process(limit, m.p, t.round), processed := m.processed + [t.round]) else m;
    if done then n.(exit := AllCompleted)
    else if t.cancelled then n.(exit := Canceled)
    else if !t.refreshed then n.(hasTask := false)
    else if suppress then n.(hasTask := true)
    else
      var (known, verdict) := VersionCheck(n.known, t.nodes);
      n.(hasTask := true, known := known, exit := ExitOf(verdict))
  }

  /** The first turn that ends the loop decides; Running means that the turns ran out. */
  function Loop(limit: nat, suppress: bool, m: Machine, turns: seq<Turn>): Machine {
    if turns == [] then m
    else
      var before := Loop(limit, suppress, m, turns[..|turns| - 1]);
      if before.exit != Running then before else TakeTurn(limit, suppress, before, turns[|turns| - 1])
  }

  // ---------------------------------------------------------------------------
  // The object
  // ---------------------------------------------------------------------------

  class Rolling {
    const restartRetryNumber: nat
    const suppressCompatibilityCheck: bool

    var unreportedButFinishedActionIds: seq<ActionId>
    var completedActions: seq<ActionId>
    var retriesMadeForNode: map<NodeId, nat>
    var alreadyRestartedNodes: nat
    var knownVersions: Known

    constructor (restartRetryNumber: nat, suppressCompatibilityCheck: bool)
      ensures this.restartRetryNumber == restartRetryNumber
      ensures this.suppressCompatibilityCheck == suppressCompatibilityCheck
      ensures State() == START && knownVersions == map[]
    {
      this.restartRetryNumber := restartRetryNumber;
      this.suppressCompatibilityCheck := suppressCompatibilityCheck;
      unreportedButFinishedActionIds := [];
      completedActions := [];
      retriesMadeForNode := map[];
      alreadyRestartedNodes := 0;
      knownVersions := map[];
    }

    ghost function State(): Progress
      reads this
    {
      Progress(unreportedButFinishedActionIds, completedActions, retriesMadeForNode, alreadyRestartedNodes)
    }

    method AtomicRememberComplete(uid: ActionId)
      modifies this
      ensures State() == Remember(old(State()), uid) && knownVersions == old(knownVersions)
    {
      unreportedButFinishedActionIds := unreportedButFinishedActionIds + [uid];
      completedActions := completedActions + [uid];
      alreadyRestartedNodes := alreadyRestartedNodes + 1;
    }

    method AtomicHasActionInUnreported(uid: ActionId) returns (found: bool)
      ensures found <==> uid in unreportedButFinishedActionIds
    {
      found := false;
      for i := 0 to |unreportedButFinishedActionIds|
        invariant !found && uid !in unreportedButFinishedActionIds[..i]
      {
        if unreportedButFinishedActionIds[i] == uid {
          return true;
        }
      }
    }

    /** statuses: what the channel delivered before the count was reached or the context was cancelled. */
    method HandleRestartStatus(statuses: seq<Status>)
      modifies this
      ensures State() == HandleAll(restartRetryNumber, old(State()), statuses) && knownVersions == old(knownVersions)
    {
      ghost var start := State();
      for i := 0 to |statuses|
        invariant State() == HandleAll(restartRetryNumber, start, statuses[..i]) && knownVersions == old(knownVersions)
      {
        assert statuses[..i + 1][..i] == statuses[..i];
        var st := statuses[i];
        if st.ok {
          AtomicRememberComplete(st.action.uid);
          continue;
        }
        var retriesUntilNow := RetriesMade(retriesMadeForNode, st.action.node);
        retriesMadeForNode := retriesMadeForNode[st.action.node := retriesUntilNow + 1];
        if retriesUntilNow + 1 == restartRetryNumber {
          AtomicRememberComplete(st.action.uid);
        }
      }
      assert statuses[..|statuses|] == statuses;
    }

    method GetPerformedActions(listing: seq<Listed>) returns (performed: seq<Action>)
      ensures performed == Performed(listing)
    {
      performed := [];
      for i := 0 to |listing|
        invariant performed == Performed(listing[..i])
      {
        assert listing[..i + 1][..i] == listing[..i];
        if listing[i].performed {
          performed := performed + [listing[i].action];
        }
      }
      assert listing[..|listing|] == listing;
    }

    /** Splits the PERFORMED actions: those already restarted are only reported again. */
    method SelectForRestart(performed: seq<Action>) returns (filteredActions: seq<Action>)
      modifies this
      ensures State() == old(State()).(completed := AlreadyDone(old(State()).unreported, performed))
      ensures filteredActions == ToRestart(old(State()).unreported, performed)
      ensures knownVersions == old(knownVersions)
    {
      completedActions := [];
      filteredActions := [];
      for i := 0 to |performed|
        invariant State() == old(State()).(completed := AlreadyDone(old(State()).unreported, performed[..i]))
        invariant filteredActions == ToRestart(old(State()).unreported, performed[..i])
        invariant knownVersions == old(knownVersions)
      {
        assert performed[..i + 1][..i] == performed[..i];
        var uid := performed[i].uid;
        var known := AtomicHasActionInUnreported(uid);
        if known {
          completedActions := completedActions + [uid];
          continue;
        }
        filteredActions := filteredActions + [performed[i]];
      }
      assert performed[..|performed|] == performed;
    }

    /** r.batch is what dispatchActions and the collector did with the selected actions, r.reply how it was reported. */
    method ProcessActionGroupStates(r: Round) returns (restartCompleted: bool)
      modifies this
      ensures State() == Process(restartRetryNumber, old(State()), r) && knownVersions == old(knownVersions)
      ensures restartCompleted <==> Completed(restartRetryNumber, old(State()), r)
    {
      var performed := GetPerformedActions(r.listing);
      if |performed| == 0 {
        return false;
      }
      var filteredActions := SelectForRestart(performed);
      HandleRestartStatus(r.batch.collected);
      if r.reply != Accepted {
        return false;
      }
      unreportedButFinishedActionIds := [];
      restartCompleted := |r.listing| == |completedActions|;
    }

    method TryDetectCompatibilityIssues(nodes: NodesReply) returns (verdict: Verdict)
      requires ValidKnown(knownVersions) && (nodes.Nodes? ==> ValidVersions(nodes.versions))
      modifies `knownVersions
      ensures (knownVersions, verdict) == VersionCheck(old(knownVersions), nodes)
      ensures ValidKnown(knownVersions)
      ensures forall major, minor :: Has(knownVersions, major, minor) <==>
        Has(old(knownVersions), major, minor) || (nodes.Nodes? && Parsed(major, minor) in nodes.versions)
      ensures verdict == if !nodes.Nodes? then Unknown(nodes)
                         else if Compatibility.Accepted(knownVersions) then Compatible else Incompatible
    {
      match nodes {
        case Nodes(versions) =>
          var unknownVersionNodes;
          RecordAddsReported(knownVersions, versions);
          knownVersions, unknownVersionNodes := Record(knownVersions, versions);
          VerdictMeans(knownVersions);
          var message := Check(knownVersions);
          verdict := if |message| > 0 then Incompatible else Compatible;
        case _ =>
          verdict := Unknown(nodes);
      }
    }

    method CmsWaitingLoop(turns: seq<Turn>) returns (exit: Exit)
      requires ValidKnown(knownVersions)
      requires forall t :: t in turns && t.nodes.Nodes? ==> ValidVersions(t.nodes.versions)
      modifies this
      ensures var m := Loop(restartRetryNumber, suppressCompatibilityCheck,
                            Machine(old(State()), old(knownVersions), true, Running, []), turns);
        exit == m.exit && State() == m.p && knownVersions == m.known
    {
      ghost var start := Machine(State(), knownVersions, true, Running, []);
      ghost var m := start;
      var hasTask := true;
      exit := Running;
      for i := 0 to |turns|
        invariant m == Loop(restartRetryNumber, suppressCompatibilityCheck, start, turns[..i])
        invariant exit == m.exit && State() == m.p && knownVersions == m.known && hasTask == m.hasTask
        invariant exit == Running && ValidKnown(knownVersions)
      {
        var t := turns[i];
        assert turns[..i + 1][..i] == turns[..i];
        StopKeeps(restartRetryNumber, suppressCompatibilityCheck, start, turns, i + 1);
        m := TakeTurn(restartRetryNumber, suppressCompatibilityCheck, m, t);
        if hasTask {
          var completed := ProcessActionGroupStates(t.round);
          if completed {
            exit := AllCompleted;
            return;
          }
        }
        if t.cancelled {
          exit := Canceled;
          return;
        }
        hasTask := t.refreshed;
        if !t.refreshed {
          continue;
        }
        if !suppressCompatibilityCheck {
          var incompatible := TryDetectCompatibilityIssues(t.nodes);
          if incompatible != Compatible && incompatible != Unknown(RetriesExceeded) {
            exit := if incompatible == Incompatible then VersionsIncompatible else ListingFailed;
            return;
          }
        }
      }
      assert turns[..|turns|] == turns;
    }
  }

  /** Once the loop has ended, later turns change nothing. */
  lemma {:induction false} StopKeeps(limit: nat, suppress: bool, m: Machine, turns: seq<Turn>, n: nat)
    requires n <= |turns|
    ensures Loop(limit, suppress, m, turns[..n]).exit != Running ==>
      Loop(limit, suppress, m, turns) == Loop(limit, suppress, m, turns[..n])
    decreases |turns| - n
  {
    if n < |turns| {
      assert turns[..n + 1][..n] == turns[..n];
      StopKeeps(limit, suppress, m, turns, n + 1);
    } else {
      assert turns[..n] == turns;
    }
  }
}
