/**
 The version check of the waiting loop. Every version ever seen during the run is kept, grouped by major;
 the maps are visited in any order.
 */
module Compatibility {
  import opened Collections

  const MAX_INT: int := 0x7FFF_FFFF_FFFF_FFFF
  const MIN_INT: int := -0x8000_0000_0000_0000

  /** A version as reported by a node, or one that matches no known pattern. */
  datatype Version = Parsed(major: nat, minor: nat) | Unparsable

  /** MajorToMinors */
  type Known = map<nat, set<nat>>

  datatype Issue =
    | MinorsTooFar(major: nat, high: int, low: int)
    | MajorIncompatible(current: nat, previous: nat, low: int)

  /** A major is only entered together with a minor, and the parser clamps at the largest int. */
  ghost predicate ValidKnown(known: Known) {
    forall major :: major in known ==> known[major] != {} && forall m :: m in known[major] ==> m <= MAX_INT
  }

  ghost predicate ValidVersions(versions: seq<Version>) {
    forall v :: v in versions && v.Parsed? ==> v.minor <= MAX_INT
  }

  // ---------------------------------------------------------------------------
  // Recording versions
  // ---------------------------------------------------------------------------

  function RecordOne(known: Known, v: Version): Known {
    match v
    case Parsed(major, minor) => known[major := (if major in known then known[major] else {}) + {minor}]
    case Unparsable => known
  }

  function RecordAll(known: Known, versions: seq<Version>): Known {
    if versions == [] then known
    else RecordOne(RecordAll(known, versions[..|versions| - 1]), versions[|versions| - 1])
  }

  lemma RecordNext(known: Known, versions: seq<Version>, i: nat)
    requires i < |versions|
    ensures RecordAll(known, versions[..i + 1]) == RecordOne(RecordAll(known, versions[..i]), versions[i])
    ensures multiset(versions[..i + 1])[Unparsable] ==
      multiset(versions[..i])[Unparsable] + if versions[i] == Unparsable then 1 else 0
  {
    TakeOneMore(versions, i);
  }

  method Record(known: Known, versions: seq<Version>) returns (result: Known, unknown: nat)
    ensures result == RecordAll(known, versions)
    ensures unknown == multiset(versions)[Unparsable]
  {
    result, unknown := known, 0;
    for i := 0 to |versions|
      invariant result == RecordAll(known, versions[..i])
      invariant unknown == multiset(versions[..i])[Unparsable]
    {
      RecordNext(known, versions, i);
      match versions[i] {
        case Parsed(major, minor) =>
          if major !in result {
            result := result[major := {}];
          }
          result := result[major := result[major] + {minor}];
        case Unparsable =>
          unknown := unknown + 1;
      }
    }
    assert versions[..|versions|] == versions;
  }

  /** The minor was reported under the major at some time. */
  predicate Has(known: Known, major: nat, minor: nat) {
    major in known && minor in known[major]
  }

  /** Recording adds exactly the reported versions, in whatever order the nodes are listed. */
  lemma {:induction false} RecordAddsReported(known: Known, versions: seq<Version>)
    ensures forall major, minor ::
      Has(RecordAll(known, versions), major, minor) <==> Has(known, major, minor) || Parsed(major, minor) in versions
    ensures ValidKnown(known) && ValidVersions(versions) ==> ValidKnown(RecordAll(known, versions))
  {
    if versions != [] {
      var n := |versions| - 1;
      assert versions == versions[..n] + [versions[n]];
      RecordAddsReported(known, versions[..n]);
    }
  }

  // ---------------------------------------------------------------------------
  // The check
  // ---------------------------------------------------------------------------

  ghost predicate IsRange(minors: set<nat>, low: int, high: int) {
    && low in minors && high in minors
    && forall m :: m in minors ==> low <= m <= high
  }

  method FindLowHigh(minors: set<nat>) returns (low: int, high: int)
    requires forall m :: m in minors ==> m <= MAX_INT
    ensures minors == {} ==> low == MAX_INT && high == MIN_INT
    ensures minors != {} ==> IsRange(minors, low, high)
  {
    low, high := MAX_INT, MIN_INT;
    var rest := minors;
    while rest != {}
      invariant rest <= minors
      invariant low <= MAX_INT && high >= MIN_INT
      invariant rest == minors ==> low == MAX_INT && high == MIN_INT
      invariant forall m :: m in minors && m !in rest ==> low <= m <= high
      invariant rest != minors ==> low in minors && high in minors
      decreases |rest|
    {
      var minor :| minor in rest;
      if minor < low {
        low := minor;
      }
      if minor > high {
        high := minor;
      }
      rest := rest - {minor};
    }
  }

  /** Two minors of one major that are more than one apart. */
  predicate Spread(minors: set<nat>) {
    exists a, b :: a in minors && b in minors && b > a + 1
  }

  predicate Several(minors: set<nat>) {
    exists a, b :: a in minors && b in minors && a < b
  }

  method CheckWithinOneMajor(major: nat, minors: set<nat>, message: seq<Issue>) returns (result: seq<Issue>)
    requires minors != {} && forall m :: m in minors ==> m <= MAX_INT
    ensures !Spread(minors) ==> result == message
    ensures Spread(minors) ==>
      exists low, high :: IsRange(minors, low, high) && high - low > 1 &&
        result == message + [MinorsTooFar(major, high, low)]
  {
    var low, high := FindLowHigh(minors);
    result := message;
    if high - low > 1 {
      result := result + [MinorsTooFar(major, high, low)];
    }
  }

  /** Some major below has more than one minor. */
  predicate Blocked(known: Known, current: nat) {
    exists previous :: previous in known && previous < current && Several(known[previous])
  }

  method CheckWithPreviousMajors(current: nat, known: Known, message: seq<Issue>) returns (result: seq<Issue>)
    requires ValidKnown(known)
    ensures message <= result
    ensures result == message <==> !Blocked(known, current)
    ensures forall issue :: issue in result[|message|..] ==>
      && issue.MajorIncompatible? && issue.current == current && issue.previous < current
      && issue.previous in known && Several(known[issue.previous])
  {
    result := message;
    var rest := known.Keys;
    while rest != {}
      invariant rest <= known.Keys
      invariant message <= result
      invariant result == message <==>
        !exists previous :: previous in known.Keys - rest && previous < current && Several(known[previous])
      invariant forall issue :: issue in result[|message|..] ==>
        && issue.MajorIncompatible? && issue.current == current && issue.previous < current
        && issue.previous in known && Several(known[issue.previous])
      decreases |rest|
    {
      var previous :| previous in rest;
      rest := rest - {previous};
      if previous >= current {
        continue;
      }
      var low, high := FindLowHigh(known[previous]);
      if low != high {
        assert Several(known[previous]);
        result := result + [MajorIncompatible(current, previous, low)];
      }
    }
  }

  /** The verdict of the check, said without any order of iteration. */
  predicate Rejected(known: Known) {
    exists major :: major in known && (Spread(known[major]) || Blocked(known, major))
  }

  method Check(known: Known) returns (message: seq<Issue>)
    requires ValidKnown(known)
    ensures message != [] <==> Rejected(known)
  {
    message := [];
    var rest := known.Keys;
    while rest != {}
      invariant rest <= known.Keys
      invariant message != [] <==>
        exists major :: major in known.Keys - rest && (Spread(known[major]) || Blocked(known, major))
      decreases |rest|
    {
      var major :| major in rest;
      rest := rest - {major};
      var before := message;
      message := CheckWithinOneMajor(major, known[major], message);
      message := CheckWithPreviousMajors(major, known, message);
      assert message != before <==> Spread(known[major]) || Blocked(known, major);
    }
  }

  // ---------------------------------------------------------------------------
  // What the verdict means
  // ---------------------------------------------------------------------------

  predicate Newest(known: Known, major: nat) {
    major in known && forall other :: other in known ==> other <= major
  }

  ghost predicate Adjacent(minors: set<nat>) {
    forall a, b :: a in minors && b in minors && a <= b ==> b <= a + 1
  }

  /** Accepted: every major but the newest has exactly one minor, and the newest at most two adjacent ones. */
  ghost predicate Accepted(known: Known) {
    forall major :: major in known ==>
      if Newest(known, major) then Adjacent(known[major]) && |known[major]| <= 2 else |known[major]| == 1
  }

  lemma AdjacentIsSmall(minors: set<nat>)
    requires minors != {}
    ensures Adjacent(minors) <==> !Spread(minors)
    ensures Adjacent(minors) ==> |minors| <= 2
    ensures Several(minors) <==> |minors| != 1
  {
    var x :| x in minors;
    if Several(minors) {
      SeveralHasTwo(minors);
    } else {
      assert forall m :: m in minors ==> m == x;
      assert minors == {x};
    }
  }

  lemma SeveralHasTwo(minors: set<nat>)
    requires Several(minors)
    ensures |minors| >= 2
    ensures Adjacent(minors) ==> |minors| == 2
  {
    var a, b :| a in minors && b in minors && a < b;
    var others := minors - {a, b};
    assert minors == {a, b} + others;
    if Adjacent(minors) {
      assert forall m :: m in minors ==> m == a || m == b;
      assert others == {};
    }
  }

  lemma VerdictMeans(known: Known)
    requires ValidKnown(known)
    ensures Rejected(known) <==> !Accepted(known)
  {
    forall major | major in known
      ensures Adjacent(known[major]) <==> !Spread(known[major])
      ensures Adjacent(known[major]) ==> |known[major]| <= 2
      ensures Several(known[major]) <==> |known[major]| != 1
    {
      AdjacentIsSmall(known[major]);
    }
    if Rejected(known) {
      var major :| major in known && (Spread(known[major]) || Blocked(known, major));
      if !Spread(known[major]) {
        var previous :| previous in known && previous < major && Several(known[previous]);
        assert !Newest(known, previous);
      }
    } else {
      forall major | major in known
        ensures if Newest(known, major) then Adjacent(known[major]) && |known[major]| <= 2 else |known[major]| == 1
      {
        assert !Spread(known[major]);
        if !Newest(known, major) {
          var other :| other in known && other > major;
          assert !Blocked(known, other);
        }
      }
    }
  }

  /** A rejection stands when more versions are known. */
  lemma MoreIsRejected(known: Known, later: Known)
    requires Rejected(known) && forall major :: major in known ==> major in later
    requires forall major, minor :: Has(known, major, minor) ==> Has(later, major, minor)
    ensures Rejected(later)
  {
    var major :| major in known && (Spread(known[major]) || Blocked(known, major));
    if Spread(known[major]) {
      var a, b :| a in known[major] && b in known[major] && b > a + 1;
      assert Has(known, major, a) && Has(known, major, b);
      assert Spread(later[major]);
    } else {
      var previous :| previous in known && previous < major && Several(known[previous]);
      var a, b :| a in known[previous] && b in known[previous] && a < b;
      assert Has(known, previous, a) && Has(known, previous, b);
      assert Several(later[previous]);
      assert Blocked(later, major);
    }
  }

  /** Versions are never forgotten, so a rejection stands for the rest of the run. */
  lemma RejectionIsPermanent(known: Known, versions: seq<Version>)
    requires Rejected(known)
    ensures Rejected(RecordAll(known, versions))
  {
    RecordAddsReported(known, versions);
    forall major | major in known
      ensures major in RecordAll(known, versions)
    {
      MajorStays(known, versions, major);
    }
    MoreIsRejected(known, RecordAll(known, versions));
  }

  lemma {:induction false} MajorStays(known: Known, versions: seq<Version>, major: nat)
    requires major in known
    ensures major in RecordAll(known, versions)
  {
    if versions != [] {
      MajorStays(known, versions[..|versions| - 1], major);
    }
  }

  /** Two listings of the same versions lead to the same verdict. */
  lemma VerdictIgnoresListingOrder(known: Known, one: seq<Version>, other: seq<Version>)
    requires ValidKnown(known) && ValidVersions(one) && ValidVersions(other)
    requires forall v :: v in one <==> v in other
    ensures Rejected(RecordAll(known, one)) <==> Rejected(RecordAll(known, other))
  {
    SameVersionsSameMap(known, one, other);
  }

  lemma SameVersionsSameMap(known: Known, one: seq<Version>, other: seq<Version>)
    requires ValidKnown(known) && ValidVersions(one) && ValidVersions(other)
    requires forall v :: v in one <==> v in other
    ensures RecordAll(known, one) == RecordAll(known, other)
  {
    RecordAddsReported(known, one);
    RecordAddsReported(known, other);
    var p, q := RecordAll(known, one), RecordAll(known, other);
    forall major
      ensures major in p <==> major in q
      ensures major in p && major in q ==> p[major] == q[major]
    {
      assert forall minor :: Has(p, major, minor) <==> Has(q, major, minor);
      if major in p {
        var minor :| minor in p[major];
        assert Has(p, major, minor);
      }
      if major in q {
        var minor :| minor in q[major];
        assert Has(q, major, minor);
      }
      if major in p && major in q {
        forall minor
          ensures minor in p[major] <==> minor in q[major]
        {
          assert Has(p, major, minor) <==> Has(q, major, minor);
        }
      }
    }
  }

  /**
   The error text says that nodes must not differ by more than one major, but that is not what is checked:
   any number of majors pass as long as each has a single minor.
   */
  lemma AnyNumberOfMajorsPasses(known: Known)
    requires forall major :: major in known ==> |known[major]| == 1
    ensures !Rejected(known)
  {
    forall major | major in known
      ensures !Several(known[major])
    {
      AdjacentIsSmall(known[major]);
    }
  }
}
