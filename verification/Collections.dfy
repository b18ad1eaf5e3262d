/** Shared value types, ordered iteration over keys, and sums over finite maps. */
module Collections {
  import opened Arithmetic

  datatype Option<+T> = None | Some(value: T)

  datatype Result<+T, +E> = Ok(value: T) | Err(error: E)

  /** A network name, as the number its bytes spell; ordered maps iterate in this order. */
  type XorName = nat

  /** A public key stands for the network name derived from it. */
  type PublicKey = XorName

  /** `MessageId::combine` of two names, idealised as collision free. */
  function CombineId(a: XorName, b: XorName): nat
  {
    Times(a + b, a + b) + a
  }

  lemma CombineIdInjective(a: XorName, b: XorName, c: XorName, d: XorName)
    ensures CombineId(a, b) == CombineId(c, d) ==> a == c && b == d
  {
    if a + b < c + d {
      CombineIdOrdered(a, b, c, d);
    } else if c + d < a + b {
      CombineIdOrdered(c, d, a, b);
    }
  }

  lemma CombineIdOrdered(a: XorName, b: XorName, c: XorName, d: XorName)
    requires a + b < c + d
    ensures CombineId(a, b) < CombineId(c, d)
  {
    SquareGap(a + b, c + d);
    TimesIs(a + b, a + b);
    TimesIs(c + d, c + d);
  }

  // ---------- ordered iteration ----------

  lemma {:induction false} HasLeast(s: set<nat>)
    requires s != {}
    ensures exists m :: m in s && forall y :: y in s ==> m <= y
  {
    var x :| x in s;
    var rest := s - {x};
    if rest == {} {
      assert s == {x};
    } else {
      HasLeast(rest);
      var m :| m in rest && forall y :: y in rest ==> m <= y;
      var least := if x <= m then x else m;
      assert forall y :: y in s ==> y == x || y in rest;
      assert least in s && forall y :: y in s ==> least <= y;
    }
  }

  function Least(s: set<nat>): (m: nat)
    requires s != {}
    ensures m in s && forall y :: y in s ==> m <= y
  {
    HasLeast(s);
    var m :| m in s && forall y :: y in s ==> m <= y;
    m
  }

  ghost predicate Increasing(q: seq<nat>)
  {
    forall i, j :: 0 <= i < j < |q| ==> q[i] < q[j]
  }

  /** The keys of an ordered map in iteration order. */
  function SortedKeys(s: set<nat>): (q: seq<nat>)
    ensures Increasing(q)
    ensures forall x :: x in q <==> x in s
    ensures |q| == |s|
  {
    if s == {} then []
    else
      var m := Least(s);
      [m] + SortedKeys(s - {m})
  }

  ghost predicate Distinct<T(!new)>(q: seq<T>)
  {
    forall i, j :: 0 <= i < j < |q| ==> q[i] != q[j]
  }

  /** A repetition-free list drawn from a set is no longer than the set. */
  lemma {:induction false} DistinctWithin<T(!new)>(q: seq<T>, s: set<T>)
    requires Distinct(q)
    requires forall x :: x in q ==> x in s
    ensures |q| <= |s|
  {
    if q == [] {
    } else {
      var x := q[|q| - 1];
      var front := q[..|q| - 1];
      assert forall y :: y in front ==> y in q && y != x;
      DistinctWithin(front, s - {x});
    }
  }

  lemma TakenFrom<T>(all: set<T>, todo: set<T>, x: T)
    requires todo <= all && x in todo
    ensures (all - todo) + {x} == all - (todo - {x})
  {
  }

  lemma SubsetSize<T>(a: set<T>, b: set<T>)
    requires a <= b
    ensures |a| <= |b|
  {
    assert b == a + (b - a);
    assert |a + (b - a)| == |a| + |b - a|;
  }

  /** If, as long as p holds, the next step keeps it exactly when q does not strike, then p holds throughout exactly when
      q never strikes. */
  lemma {:induction false} HoldsThroughout(from: nat, to: nat, p: nat -> bool, q: nat -> bool)
    requires from <= to && p(from)
    requires forall k: nat :: from <= k < to && p(k) ==> (p(k + 1) <==> !q(k))
    ensures (forall k: nat :: from <= k <= to ==> p(k)) <==> (forall k: nat :: from <= k < to ==> !q(k))
  {
    if from < to {
      var last := to - 1;
      HoldsThroughout(from, last, p, q);
      assert p(last) ==> (p(last + 1) <==> !q(last));
      assert (forall k: nat :: from <= k <= to ==> p(k)) <==> (forall k: nat :: from <= k <= last ==> p(k)) && p(to);
      assert (forall k: nat :: from <= k < to ==> !q(k)) <==> (forall k: nat :: from <= k < last ==> !q(k)) && !q(last);
    }
  }

  // ---------- sums over maps ----------

  ghost function Pick<K>(s: set<K>): (k: K)
    requires s != {}
    ensures k in s
  {
    var k :| k in s; k
  }

  /** The sum of the values a map gives to a set of its keys. */
  ghost function SumOver<K>(keys: set<K>, m: map<K, nat>): nat
    requires keys <= m.Keys
  {
    if keys == {} then 0
    else
      var k := Pick(keys);
      m[k] + SumOver(keys - {k}, m)
  }

  /** The sum of the values of a map. */
  ghost function Total<K>(m: map<K, nat>): nat
  {
    SumOver(m.Keys, m)
  }

  lemma {:induction false} SumRemove<K(!new)>(keys: set<K>, m: map<K, nat>, k: K)
    requires keys <= m.Keys && k in keys
    ensures SumOver(keys, m) == m[k] + SumOver(keys - {k}, m)
  {
    var p := Pick(keys);
    if p != k {
      SumRemove(keys - {p}, m, k);
      SumRemove(keys - {k}, m, p);
      assert keys - {p} - {k} == keys - {k} - {p};
    }
  }

  lemma {:induction false} SumAgree<K(!new)>(keys: set<K>, m: map<K, nat>, n: map<K, nat>)
    requires keys <= m.Keys && keys <= n.Keys
    requires forall k :: k in keys ==> m[k] == n[k]
    ensures SumOver(keys, m) == SumOver(keys, n)
  {
    if keys != {} {
      SumAgree(keys - {Pick(keys)}, m, n);
    }
  }

  lemma {:induction false} SumUnion<K(!new)>(a: set<K>, b: set<K>, m: map<K, nat>)
    requires a !! b && a + b <= m.Keys
    ensures SumOver(a + b, m) == SumOver(a, m) + SumOver(b, m)
  {
    if b == {} {
      assert a + b == a;
    } else {
      var k := Pick(b);
      SumUnion(a, b - {k}, m);
      SumRemove(a + b, m, k);
      assert a + b - {k} == a + (b - {k});
    }
  }

  lemma TotalInsert<K(!new)>(m: map<K, nat>, k: K, v: nat)
    requires k !in m
    ensures Total(m[k := v]) == Total(m) + v
  {
    var n := m[k := v];
    SumRemove(n.Keys, n, k);
    assert n.Keys - {k} == m.Keys;
    SumAgree(m.Keys, m, n);
  }

  /** Overwriting one value changes the sum by the difference. */
  lemma TotalUpdate<K(!new)>(m: map<K, nat>, k: K, v: nat)
    requires k in m
    ensures Total(m[k := v]) + m[k] == Total(m) + v
  {
    var n := m[k := v];
    assert n.Keys == m.Keys;
    SumRemove(n.Keys, n, k);
    SumRemove(m.Keys, m, k);
    SumAgree(m.Keys - {k}, m, n);
  }

  lemma TotalRemove<K(!new)>(m: map<K, nat>, k: K)
    requires k in m
    ensures Total(m) == m[k] + Total(m - {k})
  {
    SumRemove(m.Keys, m, k);
    assert (m - {k}).Keys == m.Keys - {k};
    SumAgree(m.Keys - {k}, m, m - {k});
  }

  /** Renaming the keys injectively keeps the sum. */
  lemma {:induction false} SumRename<K(!new), L(!new)>(keys: set<K>, a: map<K, nat>, b: map<L, nat>, f: K -> L)
    requires keys <= a.Keys
    requires forall k :: k in keys ==> f(k) in b && b[f(k)] == a[k]
    requires forall k, l :: k in keys && l in keys && f(k) == f(l) ==> k == l
    ensures SumOver(keys, a) == SumOver(set k | k in keys :: f(k), b)
  {
    var image := set k | k in keys :: f(k);
    if keys != {} {
      var k := Pick(keys);
      var rest := keys - {k};
      SumRename(rest, a, b, f);
      SumRemove(image, b, f(k));
      assert image - {f(k)} == set x | x in rest :: f(x);
    }
  }

  lemma TotalRename<K(!new), L(!new)>(a: map<K, nat>, b: map<L, nat>, f: K -> L)
    requires forall k :: k in a ==> f(k) in b && b[f(k)] == a[k]
    requires forall k, l :: k in a && l in a && f(k) == f(l) ==> k == l
    requires forall x :: x in b ==> exists k :: k in a && f(k) == x
    ensures Total(a) == Total(b)
  {
    SumRename(a.Keys, a, b, f);
    assert (set k | k in a.Keys :: f(k)) == b.Keys;
  }

  lemma {:induction false} SumZero<K(!new)>(keys: set<K>, m: map<K, nat>)
    requires keys <= m.Keys && forall k :: k in keys ==> m[k] == 0
    ensures SumOver(keys, m) == 0
  {
    if keys != {} {
      SumZero(keys - {Pick(keys)}, m);
    }
  }
}
