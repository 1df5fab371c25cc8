/** Sums over finite sets of keys. */
module Sums {

  function Min(a: int, b: int): int {
    if a < b then a else b
  }

  ghost function SumOver<K>(keys: set<K>, f: K -> nat): nat {
    if keys == {} then 0
    else
      var k :| k in keys;
      f(k) + SumOver(keys - {k}, f)
  }

  /** Any key may be taken out first. */
  lemma {:induction false} SumTake<K>(keys: set<K>, f: K -> nat, k: K)
    requires k in keys
    ensures SumOver(keys, f) == f(k) + SumOver(keys - {k}, f)
    decreases keys
  {
    var j :| j in keys && SumOver(keys, f) == f(j) + SumOver(keys - {j}, f);
    if j != k {
      SumTake(keys - {j}, f, k);
      SumTake(keys - {k}, f, j);
      assert keys - {j} - {k} == keys - {k} - {j};
    }
  }

  lemma {:induction false} SumCongruent<K>(keys: set<K>, f: K -> nat, g: K -> nat)
    requires forall k :: k in keys ==> f(k) == g(k)
    ensures SumOver(keys, f) == SumOver(keys, g)
    decreases keys
  {
    if keys != {} {
      var k :| k in keys;
      SumTake(keys, f, k);
      SumTake(keys, g, k);
      SumCongruent(keys - {k}, f, g);
    }
  }

  /** Raising one summand raises the sum by as much; a key that was missing counts as zero. */
  lemma SumRaise<K>(keys: set<K>, f: K -> nat, g: K -> nat, k: K, delta: nat)
    requires forall j :: j in keys && j != k ==> f(j) == g(j)
    requires g(k) == delta + if k in keys then f(k) else 0
    ensures SumOver(keys + {k}, g) == SumOver(keys, f) + delta
  {
    SumTake(keys + {k}, g, k);
    assert keys + {k} - {k} == keys - {k};
    if k in keys {
      SumTake(keys, f, k);
    } else {
      assert keys - {k} == keys;
    }
    SumCongruent(keys - {k}, f, g);
  }

  // ---------- sequences ----------

  function SumSeq<T>(s: seq<T>, f: T -> nat): nat {
    if s == [] then 0 else SumSeq(s[..|s| - 1], f) + f(s[|s| - 1])
  }

  predicate Distinct<T(==)>(s: seq<T>) {
    forall i, j :: 0 <= i < j < |s| ==> s[i] != s[j]
  }

  lemma {:induction false} SumSeqCongruent<T>(s: seq<T>, f: T -> nat, g: T -> nat)
    requires forall x :: x in s ==> f(x) == g(x)
    ensures SumSeq(s, f) == SumSeq(s, g)
  {
    if s != [] {
      assert s[|s| - 1] in s;
      SumSeqCongruent(s[..|s| - 1], f, g);
    }
  }

  /** Among distinct elements, raising the summand of one of them raises the sum by as much. */
  lemma {:induction false} SumSeqRaise<T>(s: seq<T>, f: T -> nat, g: T -> nat, x: T, delta: nat)
    requires Distinct(s) && x in s
    requires g(x) == f(x) + delta && forall y :: y in s && y != x ==> g(y) == f(y)
    ensures SumSeq(s, g) == SumSeq(s, f) + delta
  {
    var init, last := s[..|s| - 1], s[|s| - 1];
    assert s == init + [last];
    if last == x {
      SumSeqCongruent(init, f, g);
    } else {
      assert x in init;
      SumSeqRaise(init, f, g, x, delta);
    }
  }

  lemma {:induction false} SumSeqZero<T>(s: seq<T>, f: T -> nat)
    requires forall x :: x in s ==> f(x) == 0
    ensures SumSeq(s, f) == 0
  {
    if s != [] {
      assert s[|s| - 1] in s;
      SumSeqZero(s[..|s| - 1], f);
    }
  }

  // ---------- mapping ----------

  function Mapped<T, U>(s: seq<T>, f: T -> U): seq<U> {
    if s == [] then [] else Mapped(s[..|s| - 1], f) + [f(s[|s| - 1])]
  }

  lemma {:induction false} MappedAt<T, U>(s: seq<T>, f: T -> U)
    ensures |Mapped(s, f)| == |s| && forall i :: 0 <= i < |s| ==> Mapped(s, f)[i] == f(s[i])
  {
    if s != [] { MappedAt(s[..|s| - 1], f); }
  }

  lemma MappedNext<T, U>(s: seq<T>, f: T -> U, i: nat)
    requires i < |s|
    ensures Mapped(s[..i + 1], f) == Mapped(s[..i], f) + [f(s[i])]
  {
    assert s[..i + 1][..i] == s[..i];
  }

  lemma {:induction false} MappedAppend<T, U>(a: seq<T>, b: seq<T>, f: T -> U)
    ensures Mapped(a + b, f) == Mapped(a, f) + Mapped(b, f)
  {
    if b == [] {
      assert a + b == a;
    } else {
      assert (a + b)[..|a + b| - 1] == a + b[..|b| - 1];
      MappedAppend(a, b[..|b| - 1], f);
    }
  }

  lemma {:induction false} MappedSum<T, U>(s: seq<T>, f: T -> U, g: U -> nat, h: T -> nat)
    requires forall x :: x in s ==> g(f(x)) == h(x)
    ensures SumSeq(Mapped(s, f), g) == SumSeq(s, h)
  {
    if s != [] {
      assert s[|s| - 1] in s;
      MappedSum(s[..|s| - 1], f, g, h);
      var m := Mapped(s, f);
      assert m[..|m| - 1] == Mapped(s[..|s| - 1], f);
    }
  }

  // ---------- counting ----------

  function CountIf<T>(s: seq<T>, p: T -> bool): nat {
    if s == [] then 0 else CountIf(s[..|s| - 1], p) + if p(s[|s| - 1]) then 1 else 0
  }

  lemma {:induction false} CountAppend<T>(a: seq<T>, b: seq<T>, p: T -> bool)
    ensures CountIf(a + b, p) == CountIf(a, p) + CountIf(b, p)
  {
    if b == [] {
      assert a + b == a;
    } else {
      assert (a + b)[..|a + b| - 1] == a + b[..|b| - 1];
      CountAppend(a, b[..|b| - 1], p);
    }
  }

  lemma CountTakenOut<T>(t: seq<T>, i: nat, p: T -> bool)
    requires i < |t|
    ensures CountIf(t, p) == CountIf(t[..i] + t[i + 1..], p) + if p(t[i]) then 1 else 0
  {
    var a, b := t[..i], t[i + 1..];
    assert t == a + [t[i]] + b;
    CountAppend(a, b, p);
    CountAppend(a, [t[i]], p);
    CountAppend(a + [t[i]], b, p);
    assert [t[i]][..0] == [];
  }

  lemma WithoutBoth<T>(front: seq<T>, x: T, t: seq<T>, i: nat)
    requires i < |t| && t[i] == x && multiset(front + [x]) == multiset(t)
    ensures multiset(front) == multiset(t[..i] + t[i + 1..])
  {
    assert t == t[..i] + [x] + t[i + 1..];
    assert multiset(front) == multiset(front + [x]) - multiset{x};
  }

  /** A count does not depend on the order. */
  lemma {:induction false} CountPermuted<T>(s: seq<T>, t: seq<T>, p: T -> bool)
    requires multiset(s) == multiset(t)
    ensures CountIf(s, p) == CountIf(t, p)
  {
    hide *;
    if s == [] {
      assert |multiset(t)| == |t|;
    } else {
      var front, x := s[..|s| - 1], s[|s| - 1];
      assert s == front + [x];
      var i := Whereabouts(front, x, t);
      WithoutBoth(front, x, t, i);
      CountPermuted(front, t[..i] + t[i + 1..], p);
      CountTakenOut(t, i, p);
      CountLast(s, p);
    }
  }

  lemma Whereabouts<T>(front: seq<T>, x: T, t: seq<T>) returns (i: nat)
    requires multiset(front + [x]) == multiset(t)
    ensures i < |t| && t[i] == x
  {
    assert x in multiset(t);
    i :| 0 <= i < |t| && t[i] == x;
  }

  lemma CountLast<T>(s: seq<T>, p: T -> bool)
    requires s != []
    ensures CountIf(s, p) == CountIf(s[..|s| - 1], p) + if p(s[|s| - 1]) then 1 else 0
  {
  }

  /** Mapping a permutation gives a permutation. */
  lemma {:induction false} MappedPermuted<T, U>(s: seq<T>, t: seq<T>, f: T -> U)
    requires multiset(s) == multiset(t)
    ensures multiset(Mapped(s, f)) == multiset(Mapped(t, f))
  {
    hide *;
    if s == [] {
      assert |multiset(t)| == |t|;
    } else {
      var front, x := s[..|s| - 1], s[|s| - 1];
      assert s == front + [x];
      var i := Whereabouts(front, x, t);
      WithoutBoth(front, x, t, i);
      MappedPermuted(front, t[..i] + t[i + 1..], f);
      MappedTakenOut(t, i, f);
      MappedLast(s, f);
    }
  }

  lemma MappedTakenOut<T, U>(t: seq<T>, i: nat, f: T -> U)
    requires i < |t|
    ensures multiset(Mapped(t, f)) == multiset(Mapped(t[..i] + t[i + 1..], f)) + multiset{f(t[i])}
  {
    var a, b := t[..i], t[i + 1..];
    assert t == a + [t[i]] + b;
    MappedAppend(a, b, f);
    MappedAppend(a, [t[i]], f);
    MappedAppend(a + [t[i]], b, f);
    assert [t[i]][..0] == [];
  }

  lemma MappedLast<T, U>(s: seq<T>, f: T -> U)
    requires s != []
    ensures Mapped(s, f) == Mapped(s[..|s| - 1], f) + [f(s[|s| - 1])]
  {
  }
}
