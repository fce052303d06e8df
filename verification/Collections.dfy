/** The slice and map helpers that everything else uses. */
module Collections {

  function Filter<T>(items: seq<T>, f: T -> bool): seq<T> {
    if items == [] then []
    else Filter(items[..|items| - 1], f) + if f(items[|items| - 1]) then [items[|items| - 1]] else []
  }

  lemma SplitLast<T>(a: seq<T>, b: seq<T>)
    requires b != []
    ensures b[..|b| - 1] + [b[|b| - 1]] == b && a + b[..|b| - 1] + [b[|b| - 1]] == a + b
  {
  }

  lemma Associates<T>(a: seq<T>, b: seq<T>, c: seq<T>)
    ensures a + b + c == a + (b + c)
  {
  }

  /** One more item of a list. */
  lemma TakeOneMore<T>(items: seq<T>, i: nat)
    requires i < |items|
    ensures items[..i + 1] == items[..i] + [items[i]] && items[..i + 1][..i] == items[..i]
  {
  }

  method FilterBy<T>(items: seq<T>, f: T -> bool) returns (result: seq<T>)
    ensures result == Filter(items, f)
    ensures forall x :: x in result <==> x in items && f(x)
  {
    FilterMembers(items, f);
    result := [];
    for i := 0 to |items|
      invariant result == Filter(items[..i], f)
    {
      assert items[..i + 1][..i] == items[..i];
      if f(items[i]) {
        result := result + [items[i]];
      }
    }
    assert items[..|items|] == items;
  }

  lemma {:induction false} FilterMembers<T>(items: seq<T>, f: T -> bool)
    ensures forall x :: x in Filter(items, f) <==> x in items && f(x)
    ensures multiset(Filter(items, f)) <= multiset(items)
  {
    if items != [] {
      var n := |items| - 1;
      assert items == items[..n] + [items[n]];
      FilterMembers(items[..n], f);
    }
  }

  /** The order is kept. */
  lemma {:induction false} FilterOfSum<T>(a: seq<T>, b: seq<T>, f: T -> bool)
    ensures Filter(a + b, f) == Filter(a, f) + Filter(b, f)
  {
    if b == [] {
      assert a + b == a;
    } else {
      var n := |b| - 1;
      assert (a + b)[..|a| + n] == a + b[..n];
      FilterOfSum(a, b[..n], f);
    }
  }

  /** Only the verdicts on the items matter. */
  lemma {:induction false} FilterAgrees<T>(items: seq<T>, f: T -> bool, g: T -> bool)
    requires forall x :: x in items ==> f(x) == g(x)
    ensures Filter(items, f) == Filter(items, g)
  {
    if items != [] {
      FilterAgrees(items[..|items| - 1], f, g);
    }
  }

  lemma {:induction false} FilterTwice<T>(items: seq<T>, f: T -> bool, g: T -> bool, both: T -> bool)
    requires forall x :: both(x) == (f(x) && g(x))
    ensures Filter(Filter(items, f), g) == Filter(items, both)
  {
    if items == [] {
      assert Filter(items, f) == [];
    } else {
      var n := |items| - 1;
      FilterTwice(items[..n], f, g, both);
      var kept := Filter(items[..n], f);
      assert kept + [] == kept;
    }
  }

  method Contains<T(==)>(elems: seq<T>, elem: T) returns (found: bool)
    ensures found <==> elem in elems
  {
    for i := 0 to |elems|
      invariant elem !in elems[..i]
    {
      if elem == elems[i] {
        return true;
      }
    }
    return false;
  }

  // ---------------------------------------------------------------------------
  // Maps
  // ---------------------------------------------------------------------------

  /** The last item with a key wins. */
  function LastByKey<T, K>(items: seq<T>, keyF: T -> K): map<K, T> {
    if items == [] then map[]
    else LastByKey(items[..|items| - 1], keyF)[keyF(items[|items| - 1]) := items[|items| - 1]]
  }

  method ToMap<T, K(==)>(items: seq<T>, keyF: T -> K) returns (m: map<K, T>)
    ensures m == LastByKey(items, keyF)
  {
    m := map[];
    for i := 0 to |items|
      invariant m == LastByKey(items[..i], keyF)
    {
      assert items[..i + 1][..i] == items[..i];
      m := m[keyF(items[i]) := items[i]];
    }
    assert items[..|items|] == items;
  }

  lemma {:induction false} LastByKeyMembers<T, K>(items: seq<T>, keyF: T -> K)
    ensures forall k :: k in LastByKey(items, keyF) ==>
      LastByKey(items, keyF)[k] in items && keyF(LastByKey(items, keyF)[k]) == k
    ensures forall x :: x in items ==> keyF(x) in LastByKey(items, keyF)
  {
    if items != [] {
      var n := |items| - 1;
      assert items == items[..n] + [items[n]];
      LastByKeyMembers(items[..n], keyF);
    }
  }

  /** The item with a key after which no other has this key. */
  lemma {:induction false} LastWins<T, K>(items: seq<T>, keyF: T -> K, i: nat)
    requires i < |items| && forall j :: i < j < |items| ==> keyF(items[j]) != keyF(items[i])
    ensures keyF(items[i]) in LastByKey(items, keyF) && LastByKey(items, keyF)[keyF(items[i])] == items[i]
  {
    if i < |items| - 1 {
      LastWins(items[..|items| - 1], keyF, i);
    }
  }

  /** values lists the map in some order of its keys, each once. */
  ghost predicate ListsValues<K, V>(m: map<K, V>, keys: seq<K>, values: seq<V>) {
    && |keys| == |values|
    && (forall i, j :: 0 <= i < j < |keys| ==> keys[i] != keys[j])
    && m.Keys == (set k | k in keys)
    && forall i :: 0 <= i < |keys| ==> keys[i] in m && values[i] == m[keys[i]]
  }

  method Values<K(==), V>(m: map<K, V>) returns (values: seq<V>, ghost keys: seq<K>)
    ensures ListsValues(m, keys, values)
    ensures |values| == |m| && forall v :: v in values <==> exists k :: k in m && m[k] == v
  {
    values, keys := [], [];
    var rest := m.Keys;
    while rest != {}
      invariant rest <= m.Keys
      invariant |keys| == |values| && |values| + |rest| == |m|
      invariant forall i, j :: 0 <= i < j < |keys| ==> keys[i] != keys[j]
      invariant forall k :: k in m.Keys - rest <==> k in keys
      invariant forall i :: 0 <= i < |keys| ==> keys[i] in m && values[i] == m[keys[i]]
      decreases |rest|
    {
      var k :| k in rest;
      assert k !in keys;
      rest := rest - {k};
      values, keys := values + [m[k]], keys + [k];
    }
  }

  // ---------------------------------------------------------------------------
  // Grouping
  // ---------------------------------------------------------------------------

  /** The items of one group, in list order. */
  function GroupOf<K(==), V>(items: seq<V>, fn: V -> K, k: K): seq<V> {
    if items == [] then []
    else GroupOf(items[..|items| - 1], fn, k) + if fn(items[|items| - 1]) == k then [items[|items| - 1]] else []
  }

  method GroupByFunc<K(==), V>(items: seq<V>, fn: V -> K) returns (result: map<K, seq<V>>)
    ensures forall k :: k in result <==> GroupOf(items, fn, k) != []
    ensures forall k :: k in result ==> result[k] == GroupOf(items, fn, k)
  {
    result := map[];
    for i := 0 to |items|
      invariant forall k :: k in result <==> GroupOf(items[..i], fn, k) != []
      invariant forall k :: k in result ==> result[k] == GroupOf(items[..i], fn, k)
    {
      var k := fn(items[i]);
      forall other
        ensures GroupOf(items[..i + 1], fn, other)
             == if other == k then GroupOf(items[..i], fn, other) + [items[i]] else GroupOf(items[..i], fn, other)
      {
        assert items[..i + 1][..i] == items[..i];
      }
      var group := if k in result then result[k] else [];
      assert group == GroupOf(items[..i], fn, k);
      result := result[k := group + [items[i]]];
      assert result[k] == GroupOf(items[..i + 1], fn, k);
    }
    assert items[..|items|] == items;
  }

  /** In list order. */
  lemma {:induction false} GroupIsFilter<K, V>(items: seq<V>, fn: V -> K, k: K)
    ensures GroupOf(items, fn, k) == Filter(items, x => fn(x) == k)
  {
    if items != [] {
      GroupIsFilter(items[..|items| - 1], fn, k);
    }
  }

  lemma {:induction false} GroupMembers<K, V>(items: seq<V>, fn: V -> K, k: K)
    ensures forall x :: x in GroupOf(items, fn, k) <==> x in items && fn(x) == k
    ensures forall x :: multiset(GroupOf(items, fn, k))[x] == if fn(x) == k then multiset(items)[x] else 0
  {
    if items != [] {
      var n := |items| - 1;
      assert items == items[..n] + [items[n]];
      GroupMembers(items[..n], fn, k);
    }
  }

  function Concat<V>(groups: seq<seq<V>>): seq<V> {
    if groups == [] then [] else Concat(groups[..|groups| - 1]) + groups[|groups| - 1]
  }

  lemma {:induction false} InConcat<V>(groups: seq<seq<V>>, g: nat, x: V)
    requires g < |groups| && x in groups[g]
    ensures x in Concat(groups)
  {
    if g < |groups| - 1 {
      InConcat(groups[..|groups| - 1], g, x);
    }
  }

  lemma ConcatOne<V>(group: seq<V>)
    ensures Concat([group]) == group
  {
    assert [group][..0] == [];
    assert [] + group == group;
  }

  lemma ConcatTwo<V>(a: seq<V>, b: seq<V>)
    ensures Concat([a, b]) == a + b
  {
    assert [a, b][..1] == [a];
    ConcatOne(a);
  }

  function GroupsInOrder<K(==), V>(items: seq<V>, fn: V -> K, keys: seq<K>): seq<seq<V>> {
    seq(|keys|, i requires 0 <= i < |keys| => GroupOf(items, fn, keys[i]))
  }

  lemma {:induction false} GroupsCount<K, V>(items: seq<V>, fn: V -> K, keys: seq<K>, x: V)
    requires forall i, j :: 0 <= i < j < |keys| ==> keys[i] != keys[j]
    ensures multiset(Concat(GroupsInOrder(items, fn, keys)))[x] == if fn(x) in keys then multiset(items)[x] else 0
  {
    if keys != [] {
      var n := |keys| - 1;
      GroupsCount(items, fn, keys[..n], x);
      GroupMembers(items, fn, keys[n]);
      assert GroupsInOrder(items, fn, keys)[..n] == GroupsInOrder(items, fn, keys[..n]);
      assert keys == keys[..n] + [keys[n]];
      assert keys[n] !in keys[..n];
    } else {
      assert GroupsInOrder(items, fn, keys) == [];
    }
  }

  /** Grouping is a partition: in whatever order the groups are visited, every item is visited exactly once. */
  lemma GroupsPartition<K, V>(items: seq<V>, fn: V -> K, keys: seq<K>)
    requires forall i, j :: 0 <= i < j < |keys| ==> keys[i] != keys[j]
    requires forall x :: x in items ==> fn(x) in keys
    ensures forall x :: multiset(Concat(GroupsInOrder(items, fn, keys)))[x] == multiset(items)[x]
  {
    forall x
      ensures multiset(Concat(GroupsInOrder(items, fn, keys)))[x] == multiset(items)[x]
    {
      GroupsCount(items, fn, keys, x);
      if fn(x) !in keys {
        assert x !in items;
        assert x !in multiset(items);
      }
    }
  }

  lemma SubsetSize<T>(a: set<T>, b: set<T>)
    requires a <= b
    ensures |a| <= |b|
    ensures |a| == |b| ==> a == b
  {
    assert b == a + (b - a);
    assert |b| == |a| + |b - a|;
  }
}
