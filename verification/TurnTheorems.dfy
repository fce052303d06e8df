/** What the waiting loop does, from its turns alone: which rounds it processes, what it knows, and how it ends. */
module TurnTheorems {
  import opened Progress
  import opened Runs
  import opened Compatibility
  import opened Rolling
  import opened LoopTheorems

  /** The options, and the state and the known versions with which the loop starts. */
  datatype Setup = Setup(limit: nat, suppress: bool, p: Progress, known: Known)

  // ---------------------------------------------------------------------------
  // Turns
  // ---------------------------------------------------------------------------

  /** Turn i has a task: the one the loop starts with, or the one that the turn before refreshed. */
  predicate HasTask(turns: seq<Turn>, i: nat)
    requires i <= |turns|
  {
    i == 0 || turns[i - 1].refreshed
  }

  /** The rounds of the turns before turn i that have a task. */
  function RoundsBefore(turns: seq<Turn>, i: nat): seq<Round>
    requires i <= |turns|
  {
    if i == 0 then []
    else RoundsBefore(turns, i - 1) + if HasTask(turns, i - 1) then [turns[i - 1].round] else []
  }

  function ProcessAll(limit: nat, p: Progress, rounds: seq<Round>): Progress {
    if rounds == [] then p
    else Process(limit, ProcessAll(limit, p, rounds[..|rounds| - 1]), rounds[|rounds| - 1])
  }

  /** The state in which turn i begins. */
  function StateBefore(e: Setup, turns: seq<Turn>, i: nat): Progress
    requires i <= |turns|
  {
    ProcessAll(e.limit, e.p, RoundsBefore(turns, i))
  }

  predicate CompletesAt(e: Setup, turns: seq<Turn>, i: nat)
    requires i < |turns|
  {
    HasTask(turns, i) && Completed(e.limit, StateBefore(e, turns, i), turns[i].round)
  }

  /** Turn i gets to the version check. */
  predicate ChecksAt(e: Setup, turns: seq<Turn>, i: nat)
    requires i < |turns|
  {
    !e.suppress && !CompletesAt(e, turns, i) && !turns[i].cancelled && turns[i].refreshed
  }

  predicate ListsAt(e: Setup, turns: seq<Turn>, i: nat)
    requires i < |turns|
  {
    ChecksAt(e, turns, i) && turns[i].nodes.Nodes?
  }

  /** The versions known when turn i begins. */
  function KnownBefore(e: Setup, turns: seq<Turn>, i: nat): Known
    requires i <= |turns|
  {
    if i == 0 then e.known
    else
      var before := KnownBefore(e, turns, i - 1);
      if ListsAt(e, turns, i - 1) then RecordAll(before, turns[i - 1].nodes.versions) else before
  }

  ghost predicate RejectsAt(e: Setup, turns: seq<Turn>, i: nat)
    requires i < |turns|
  {
    && ListsAt(e, turns, i)
    && !Compatibility.Accepted(KnownBefore(e, turns, i + 1))
  }

  predicate FailsAt(e: Setup, turns: seq<Turn>, i: nat)
    requires i < |turns|
  {
    ChecksAt(e, turns, i) && turns[i].nodes == NodesFailed
  }

  ghost predicate EndsAt(e: Setup, turns: seq<Turn>, i: nat)
    requires i < |turns|
  {
    || CompletesAt(e, turns, i) || turns[i].cancelled
    || FailsAt(e, turns, i) || RejectsAt(e, turns, i)
  }

  ghost predicate RunsUpTo(e: Setup, turns: seq<Turn>, n: nat) {
    n <= |turns| && forall i :: 0 <= i < n ==> !EndsAt(e, turns, i)
  }

  function Started(e: Setup): Machine {
    Machine(e.p, e.known, true, Running, [])
  }

  /** How turn i has to end the loop, if it has a reason: a completed round comes before a cancelled context. */
  ghost predicate EndsWith(e: Setup, turns: seq<Turn>, i: nat, exit: Exit)
    requires i < |turns|
  {
    && (CompletesAt(e, turns, i) ==> exit == AllCompleted)
    && (turns[i].cancelled && !CompletesAt(e, turns, i) ==> exit == Canceled)
    && (FailsAt(e, turns, i) ==> exit == ListingFailed)
    && (RejectsAt(e, turns, i) ==> exit == VersionsIncompatible)
  }

  // ---------------------------------------------------------------------------
  // The loop, turn by turn
  // ---------------------------------------------------------------------------

  ghost predicate At(e: Setup, turns: seq<Turn>, i: nat, m: Machine)
    requires i <= |turns|
  {
    && m.processed == RoundsBefore(turns, i) && m.p == StateBefore(e, turns, i)
    && m.known == KnownBefore(e, turns, i) && ValidKnown(m.known)
  }

  /** A turn from the state in which it begins. */
  lemma TurnAt(e: Setup, turns: seq<Turn>, i: nat, m: Machine)
    requires i < |turns| && ValidTurns(turns) && At(e, turns, i, m)
    requires m.exit == Running && m.hasTask == HasTask(turns, i)
    ensures var n := TakeTurn(e.limit, e.suppress, m, turns[i]);
      && At(e, turns, i + 1, n) && EndsWith(e, turns, i, n.exit)
      && (!EndsAt(e, turns, i) ==> n.exit == Running && n.hasTask == HasTask(turns, i + 1))
  {
    var t := turns[i];
    if m.hasTask {
      assert RoundsBefore(turns, i + 1)[..|m.processed|] == m.processed;
    }
    if t.nodes.Nodes? {
      RecordAddsReported(m.known, t.nodes.versions);
      VerdictMeans(RecordAll(m.known, t.nodes.versions));
    }
  }

  lemma OneMoreTurn(e: Setup, turns: seq<Turn>, k: nat)
    requires k < |turns| && Loop(e.limit, e.suppress, Started(e), turns[..k]).exit == Running
    ensures Loop(e.limit, e.suppress, Started(e), turns[..k + 1])
         == TakeTurn(e.limit, e.suppress, Loop(e.limit, e.suppress, Started(e), turns[..k]), turns[k])
  {
    assert turns[..k + 1][..k] == turns[..k];
  }

  /** As long as no turn ends it, the loop processes the rounds that have a task and records what the checks list. */
  lemma {:induction false} LoopRunsOn(e: Setup, turns: seq<Turn>, n: nat)
    requires ValidKnown(e.known) && ValidTurns(turns) && RunsUpTo(e, turns, n)
    ensures var m := Loop(e.limit, e.suppress, Started(e), turns[..n]);
      At(e, turns, n, m) && m.exit == Running && m.hasTask == HasTask(turns, n)
  {
    if n > 0 {
      var k := n - 1;
      LoopRunsOn(e, turns, k);
      OneMoreTurn(e, turns, k);
      TurnAt(e, turns, k, Loop(e.limit, e.suppress, Started(e), turns[..k]));
    }
  }

  /** The first turn that has a reason to end the loop ends it for that reason, and nothing is processed after it. */
  lemma LoopEndsAt(e: Setup, turns: seq<Turn>, k: nat)
    requires ValidKnown(e.known) && ValidTurns(turns)
    requires k < |turns| && RunsUpTo(e, turns, k) && EndsAt(e, turns, k)
    ensures var m := Loop(e.limit, e.suppress, Started(e), turns);
      At(e, turns, k + 1, m) && EndsWith(e, turns, k, m.exit) && m.exit != Running
  {
    LoopRunsOn(e, turns, k);
    OneMoreTurn(e, turns, k);
    var before := Loop(e.limit, e.suppress, Started(e), turns[..k]);
    TurnAt(e, turns, k, before);
    ReasonEnds(e, turns, k, TakeTurn(e.limit, e.suppress, before, turns[k]).exit);
    StopKeeps(e.limit, e.suppress, Started(e), turns, k + 1);
  }

  lemma ReasonEnds(e: Setup, turns: seq<Turn>, k: nat, exit: Exit)
    requires k < |turns| && EndsAt(e, turns, k) && EndsWith(e, turns, k, exit)
    ensures exit != Running
  {
  }

  /**
   From the turns alone: the loop takes the turns up to the first that has a reason to end it, or all of them. It
   processes, in order, the round of the first turn and of each turn after a refresh that succeeded, and no other.
   */
  lemma {:induction false} LoopIsDecided(e: Setup, turns: seq<Turn>)
    returns (taken: nat)
    requires ValidKnown(e.known) && ValidTurns(turns)
    ensures taken <= |turns|
    ensures var m := Loop(e.limit, e.suppress, Started(e), turns);
      && m.processed == RoundsBefore(turns, taken) && m.p == ProcessAll(e.limit, e.p, m.processed)
      && m.known == KnownBefore(e, turns, taken)
      && (m.exit == Running ==> taken == |turns| && RunsUpTo(e, turns, taken))
      && (m.exit != Running ==>
            && taken > 0 && RunsUpTo(e, turns, taken - 1)
            && EndsAt(e, turns, taken - 1))
  {
    if RunsUpTo(e, turns, |turns|) {
      LoopRunsOn(e, turns, |turns|);
      assert turns[..|turns|] == turns;
      taken := |turns|;
    } else {
      var k := FirstToEnd(e, turns, |turns|);
      LoopEndsAt(e, turns, k);
      taken := k + 1;
    }
  }

  lemma {:induction false} FirstToEnd(e: Setup, turns: seq<Turn>, n: nat)
    returns (k: nat)
    requires n <= |turns| && !RunsUpTo(e, turns, n)
    ensures k < n && EndsAt(e, turns, k) && RunsUpTo(e, turns, k)
  {
    if RunsUpTo(e, turns, n - 1) {
      k := n - 1;
    } else {
      k := FirstToEnd(e, turns, n - 1);
    }
  }

  // ---------------------------------------------------------------------------
  // What the loop knows
  // ---------------------------------------------------------------------------

  /** Some turn before turn n that gets to the check lists the version. */
  predicate ListedBefore(e: Setup, turns: seq<Turn>, n: nat, v: Version)
    requires n <= |turns|
  {
    exists i :: 0 <= i < n && ListsAt(e, turns, i) && v in turns[i].nodes.versions
  }

  lemma ListedOneMore(e: Setup, turns: seq<Turn>, n: nat, v: Version)
    requires n < |turns|
    ensures ListedBefore(e, turns, n + 1, v)
       <==> ListedBefore(e, turns, n, v) || (ListsAt(e, turns, n) && v in turns[n].nodes.versions)
  {
  }

  lemma {:induction false} KnownIsListed(e: Setup, turns: seq<Turn>, n: nat, major: nat, minor: nat)
    requires n <= |turns|
    ensures Has(KnownBefore(e, turns, n), major, minor)
       <==> Has(e.known, major, minor) || ListedBefore(e, turns, n, Parsed(major, minor))
  {
    if n > 0 {
      var k := n - 1;
      KnownIsListed(e, turns, k, major, minor);
      ListedOneMore(e, turns, k, Parsed(major, minor));
      if ListsAt(e, turns, k) {
        RecordAddsReported(KnownBefore(e, turns, k), turns[k].nodes.versions);
      }
    }
  }

  /** A version is known at the end exactly when it was before, or a turn that got to the check listed it. */
  lemma LoopKnows(e: Setup, turns: seq<Turn>) returns (taken: nat)
    requires ValidKnown(e.known) && ValidTurns(turns)
    ensures taken <= |turns|
    ensures var m := Loop(e.limit, e.suppress, Started(e), turns);
      && m.processed == RoundsBefore(turns, taken)
      && forall major, minor :: Has(m.known, major, minor) <==>
           Has(e.known, major, minor) || ListedBefore(e, turns, taken, Parsed(major, minor))
  {
    taken := LoopIsDecided(e, turns);
    forall major, minor
      ensures Has(KnownBefore(e, turns, taken), major, minor)
         <==> Has(e.known, major, minor) || ListedBefore(e, turns, taken, Parsed(major, minor))
    {
      KnownIsListed(e, turns, taken, major, minor);
    }
  }

  lemma {:induction false} KnownIsValid(e: Setup, turns: seq<Turn>, n: nat)
    requires ValidKnown(e.known) && ValidTurns(turns) && n <= |turns|
    ensures ValidKnown(KnownBefore(e, turns, n))
  {
    if n > 0 {
      var k := n - 1;
      KnownIsValid(e, turns, k);
      if ListsAt(e, turns, k) {
        RecordAddsReported(KnownBefore(e, turns, k), turns[k].nodes.versions);
      }
    }
  }

  /** What two listings contain. */
  function Both(one: seq<Version>, other: seq<Version>): Known {
    RecordAll(RecordAll(map[], one), other)
  }

  lemma BothAreKnown(e: Setup, turns: seq<Turn>, i: nat, j: nat)
    requires i < j < |turns| && ListsAt(e, turns, i) && ListsAt(e, turns, j)
    ensures forall major, minor :: Has(Both(turns[i].nodes.versions, turns[j].nodes.versions), major, minor) ==>
      Has(KnownBefore(e, turns, j + 1), major, minor)
  {
    RecordAddsReported(map[], turns[i].nodes.versions);
    RecordAddsReported(RecordAll(map[], turns[i].nodes.versions), turns[j].nodes.versions);
    forall major, minor | Has(Both(turns[i].nodes.versions, turns[j].nodes.versions), major, minor)
      ensures Has(KnownBefore(e, turns, j + 1), major, minor)
    {
      KnownIsListed(e, turns, j + 1, major, minor);
    }
  }

  lemma RejectedTogether(one: seq<Version>, other: seq<Version>, all: Known)
    requires ValidVersions(one) && ValidVersions(other) && ValidKnown(all)
    requires !Compatibility.Accepted(Both(one, other))
    requires forall major, minor :: Has(Both(one, other), major, minor) ==> Has(all, major, minor)
    ensures !Compatibility.Accepted(all)
  {
    RecordAddsReported(map[], one);
    RecordAddsReported(RecordAll(map[], one), other);
    VerdictMeans(Both(one, other));
    forall major | major in Both(one, other)
      ensures major in all
    {
      var minor :| minor in Both(one, other)[major];
      assert Has(Both(one, other), major, minor);
    }
    MoreIsRejected(Both(one, other), all);
    VerdictMeans(all);
  }

  lemma TooFarIsRejected(e: Setup, turns: seq<Turn>, i: nat, j: nat)
    requires ValidKnown(e.known) && ValidTurns(turns) && i < j < |turns|
    requires ListsAt(e, turns, i) && ListsAt(e, turns, j)
    requires !Compatibility.Accepted(Both(turns[i].nodes.versions, turns[j].nodes.versions))
    ensures RejectsAt(e, turns, j)
  {
    BothAreKnown(e, turns, i, j);
    KnownIsValid(e, turns, j + 1);
    RejectedTogether(turns[i].nodes.versions, turns[j].nodes.versions, KnownBefore(e, turns, j + 1));
  }

  /**
   Listings of two turns that are not accepted together end the loop: nothing is forgotten between them.
   */
  lemma ListingsAreComparedAcrossTurns(e: Setup, turns: seq<Turn>, i: nat, j: nat)
    requires ValidKnown(e.known) && ValidTurns(turns) && i < j < |turns| && RunsUpTo(e, turns, j)
    requires ListsAt(e, turns, i) && ListsAt(e, turns, j)
    requires !Compatibility.Accepted(Both(turns[i].nodes.versions, turns[j].nodes.versions))
    ensures Loop(e.limit, e.suppress, Started(e), turns).exit == VersionsIncompatible
  {
    TooFarIsRejected(e, turns, i, j);
    LoopEndsAt(e, turns, j);
  }
}
