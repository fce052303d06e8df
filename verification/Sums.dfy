/** Totals over a sequence, and how one pointwise update changes them. */
module Sums {

  function Sum<T>(s: seq<T>, f: T -> nat): nat {
    if s == [] then 0 else Sum(s[..|s| - 1], f) + f(s[|s| - 1])
  }

  function Gather<T, U>(s: seq<T>, f: T -> multiset<U>): multiset<U> {
    if s == [] then multiset{} else Gather(s[..|s| - 1], f) + f(s[|s| - 1])
  }

  lemma {:induction false} SumUpdate<T>(s: seq<T>, i: nat, x: T, f: T -> nat)
    requires i < |s|
    ensures Sum(s[i := x], f) + f(s[i]) == Sum(s, f) + f(x)
  {
    var n := |s| - 1;
    if i == n {
      assert s[i := x][..n] == s[..n];
    } else {
      assert s[i := x][..n] == s[..n][i := x];
      SumUpdate(s[..n], i, x, f);
    }
  }

  lemma {:induction false} GatherUpdate<T, U>(s: seq<T>, i: nat, x: T, f: T -> multiset<U>)
    requires i < |s|
    ensures Gather(s[i := x], f) + f(s[i]) == Gather(s, f) + f(x)
  {
    var n := |s| - 1;
    if i == n {
      assert s[i := x][..n] == s[..n];
    } else {
      assert s[i := x][..n] == s[..n][i := x];
      GatherUpdate(s[..n], i, x, f);
      var before, after, last := Gather(s[..n], f), Gather(s[..n][i := x], f), f(s[n]);
      assert after + last + f(s[i]) == before + last + f(x) by {
        assert after + f(s[i]) == before + f(x);
        assert after + last + f(s[i]) == (after + f(s[i])) + last;
        assert before + last + f(x) == (before + f(x)) + last;
      }
    }
  }

  lemma {:induction false} GatherContains<T, U>(s: seq<T>, i: nat, f: T -> multiset<U>)
    requires i < |s|
    ensures f(s[i]) <= Gather(s, f)
  {
    if i < |s| - 1 {
      GatherContains(s[..|s| - 1], i, f);
    }
  }

  lemma {:induction false} GatherEmpty<T, U>(s: seq<T>, f: T -> multiset<U>)
    requires forall i :: 0 <= i < |s| ==> f(s[i]) == multiset{}
    ensures Gather(s, f) == multiset{}
  {
    if s != [] {
      GatherEmpty(s[..|s| - 1], f);
    }
  }

  lemma {:induction false} SumBound<T>(s: seq<T>, f: T -> nat, bound: nat)
    requires forall i :: 0 <= i < |s| ==> f(s[i]) <= bound
    ensures Sum(s, f) <= |s| * bound
  {
    if s != [] {
      SumBound(s[..|s| - 1], f, bound);
    }
  }

  lemma {:induction false} SumRemove<T>(s: seq<T>, i: nat, f: T -> nat)
    requires i < |s|
    ensures Sum(s, f) == Sum(s[..i] + s[i + 1..], f) + f(s[i])
  {
    var n := |s| - 1;
    if i < n {
      SumRemove(s[..n], i, f);
      var earlier := s[..n][..i] + s[..n][i + 1..];
      assert s[..i] + s[i + 1..] == earlier + [s[n]];
    } else {
      assert s[..i] + s[i + 1..] == s[..n];
    }
  }

  /** Equal bags stay equal when the last element of one is taken from both. */
  lemma RemoveLast<T>(s: seq<T>, t: seq<T>) returns (i: nat)
    requires s != [] && multiset(s) == multiset(t)
    ensures i < |t| && t[i] == s[|s| - 1]
    ensures multiset(s[..|s| - 1]) == multiset(t[..i] + t[i + 1..])
  {
    var n := |s| - 1;
    assert s == s[..n] + [s[n]];
    assert s[n] in multiset(t);
    i :| 0 <= i < |t| && t[i] == s[n];
    assert t == t[..i] + [t[i]] + t[i + 1..];
    assert multiset(s[..n]) == multiset(s) - multiset{s[n]};
    assert multiset(t[..i] + t[i + 1..]) == multiset(t) - multiset{t[i]};
  }

  /** The order of the summands does not matter. */
  lemma {:induction false} SumPermuted<T>(s: seq<T>, t: seq<T>, f: T -> nat)
    requires multiset(s) == multiset(t)
    ensures Sum(s, f) == Sum(t, f)
  {
    if s == [] {
      assert |multiset(t)| == |t|;
    } else {
      var i := RemoveLast(s, t);
      SumPermuted(s[..|s| - 1], t[..i] + t[i + 1..], f);
      SumRemove(t, i, f);
    }
  }
}
