/** Keyed items: a stable sort by numeric key, and keeping the first item of each key. */
module Sorting {
  import opened Collections

  // ---------- sorting ----------

  ghost predicate SortedByKey<T>(q: seq<(nat, T)>)
  {
    forall i, j :: 0 <= i < j < |q| ==> q[i].0 <= q[j].0
  }

  /** Insert behind everything that is not greater. */
  function InsertItem<T>(q: seq<(nat, T)>, x: (nat, T)): (r: seq<(nat, T)>)
    ensures multiset(r) == multiset(q) + multiset{x}
  {
    if q == [] then [x]
    else if q[|q| - 1].0 <= x.0 then q + [x]
    else
      var last := q[|q| - 1];
      assert q == q[..|q| - 1] + [last];
      InsertItem(q[..|q| - 1], x) + [last]
  }

  function SortItems<T>(q: seq<(nat, T)>): (r: seq<(nat, T)>)
    ensures multiset(r) == multiset(q)
  {
    if q == [] then []
    else
      assert q == q[..|q| - 1] + [q[|q| - 1]];
      InsertItem(SortItems(q[..|q| - 1]), q[|q| - 1])
  }

  lemma InMultiset<T(!new)>(q: seq<T>, x: T)
    ensures x in q <==> x in multiset(q)
  {
  }

  lemma {:induction false} InsertKeepsSorted<T(!new)>(q: seq<(nat, T)>, x: (nat, T))
    requires SortedByKey(q)
    ensures SortedByKey(InsertItem(q, x))
  {
    if q != [] && q[|q| - 1].0 > x.0 {
      var front, last := q[..|q| - 1], q[|q| - 1];
      InsertKeepsSorted(front, x);
      var r := InsertItem(front, x);
      forall i | 0 <= i < |r| ensures r[i].0 <= last.0 {
        assert r[i] in multiset(r);
        assert r[i] in multiset(front) + multiset{x};
        if r[i] != x {
          assert r[i] in front;
        }
      }
    }
  }

  lemma {:induction false} SortSorts<T(!new)>(q: seq<(nat, T)>)
    ensures SortedByKey(SortItems(q))
  {
    if q != [] {
      SortSorts(q[..|q| - 1]);
      InsertKeepsSorted(SortItems(q[..|q| - 1]), q[|q| - 1]);
    }
  }

  /** The in-place sort of a vector. */
  method SortVector<T>(q: seq<(nat, T)>) returns (r: seq<(nat, T)>)
    ensures r == SortItems(q)
  {
    r := [];
    for i := 0 to |q|
      invariant r == SortItems(q[..i])
    {
      assert q[..i + 1][..i] == q[..i];
      r := InsertItem(r, q[i]);
    }
    assert q[..|q|] == q;
  }

  /** The items with one key, in their order. */
  ghost function WithKey<T>(q: seq<(nat, T)>, k: nat): seq<(nat, T)>
  {
    if q == [] then []
    else WithKey(q[..|q| - 1], k) + if q[|q| - 1].0 == k then [q[|q| - 1]] else []
  }

  lemma WithKeyAppend<T(!new)>(q: seq<(nat, T)>, x: (nat, T), k: nat)
    ensures WithKey(q + [x], k) == WithKey(q, k) + if x.0 == k then [x] else []
  {
    assert (q + [x])[..|q|] == q;
  }

  lemma {:induction false} InsertIsStable<T(!new)>(q: seq<(nat, T)>, x: (nat, T), k: nat)
    ensures WithKey(InsertItem(q, x), k) == WithKey(q, k) + if x.0 == k then [x] else []
  {
    if q != [] && q[|q| - 1].0 > x.0 {
      var front, last := q[..|q| - 1], q[|q| - 1];
      InsertIsStable(front, x, k);
      WithKeyAppend(InsertItem(front, x), last, k);
    } else {
      assert q == [] ==> [x] == q + [x];
      WithKeyAppend(q, x, k);
    }
  }

  /** The sort is stable: items of one key keep their order. */
  lemma {:induction false} SortIsStable<T(!new)>(q: seq<(nat, T)>, k: nat)
    ensures WithKey(SortItems(q), k) == WithKey(q, k)
  {
    if q != [] {
      SortIsStable(q[..|q| - 1], k);
      InsertIsStable(SortItems(q[..|q| - 1]), q[|q| - 1], k);
    }
  }

  lemma InsertLast<T(!new)>(q: seq<(nat, T)>, x: (nat, T))
    requires q == [] || q[|q| - 1].0 <= x.0
    ensures InsertItem(q, x) == q + [x]
  {
  }

  /** A sorted list is left as it is. */
  lemma {:induction false} SortOfSorted<T(!new)>(q: seq<(nat, T)>)
    requires SortedByKey(q)
    ensures SortItems(q) == q
  {
    if q != [] {
      var front, last := q[..|q| - 1], q[|q| - 1];
      SortOfSorted(front);
      assert InsertItem(front, last) == q by {
        InsertLast(front, last);
        FrontAndLast(q);
      }
      SortStep(q);
    }
  }

  lemma SortStep<T(!new)>(q: seq<(nat, T)>)
    requires q != []
    ensures SortItems(q) == InsertItem(SortItems(q[..|q| - 1]), q[|q| - 1])
  {
  }

  lemma FrontAndLast<T>(q: seq<T>)
    requires q != []
    ensures q[..|q| - 1] + [q[|q| - 1]] == q
  {
  }

  ghost predicate DistinctKeys<K(!new), T(!new)>(q: seq<(K, T)>)
  {
    forall i, j :: 0 <= i < j < |q| ==> q[i].0 != q[j].0
  }

  /** With distinct keys, the sorted order depends on the items alone. */
  lemma {:induction false} SortedUnique<T(!new)>(a: seq<(nat, T)>, b: seq<(nat, T)>)
    requires SortedByKey(a) && SortedByKey(b)
    requires DistinctKeys(a) && DistinctKeys(b)
    requires forall x :: x in a <==> x in b
    ensures a == b
  {
    if a == [] {
      HeadIs(b);
    } else {
      HeadIs(a);
      HeadIs(b);
      var i :| 0 <= i < |b| && b[i] == a[0];
      var j :| 0 <= j < |a| && a[j] == b[0];
      assert i == 0 by {
        assert a[0].0 <= a[j].0 && b[0].0 <= b[i].0;
      }
      forall x | x in a[1..] ensures x in b[1..] {
        OtherThanHead(a, x);
        assert x in b && x != b[0];
      }
      forall x | x in b[1..] ensures x in a[1..] {
        OtherThanHead(b, x);
        assert x in a && x != a[0];
      }
      SortedUnique(a[1..], b[1..]);
    }
  }

  lemma HeadIs<T(!new)>(q: seq<T>)
    ensures q != [] ==> q[0] in q
  {
  }

  lemma OtherThanHead<T(!new)>(q: seq<(nat, T)>, x: (nat, T))
    requires q != [] && DistinctKeys(q) && x in q[1..]
    ensures x in q && x != q[0]
  {
  }

  /** Sorting repeats nothing. */
  lemma SortRepeatsNothing<T(!new)>(q: seq<(nat, T)>)
    requires Distinct(q)
    ensures Distinct(SortItems(q))
  {
    var r := SortItems(q);
    forall i, j | 0 <= i < j < |r| ensures r[i] != r[j] {
      OnceIn(q, r[i]);
      if r[i] == r[j] {
        TwiceIn(r, i, j);
      }
    }
  }

  lemma SortedHas<T(!new)>(q: seq<(nat, T)>, x: (nat, T))
    ensures x in SortItems(q) <==> x in q
  {
    InMultiset(SortItems(q), x);
    InMultiset(q, x);
  }

  lemma SortKeepsDistinct<T(!new)>(q: seq<(nat, T)>)
    requires DistinctKeys(q)
    ensures DistinctKeys(SortItems(q))
  {
    var r := SortItems(q);
    SortRepeatsNothing(q);
    forall i, j | 0 <= i < j < |r| ensures r[i].0 != r[j].0 {
      SortedHas(q, r[i]);
      SortedHas(q, r[j]);
    }
  }

  lemma TwiceIn<T(!new)>(q: seq<T>, i: nat, j: nat)
    requires i < j < |q| && q[i] == q[j]
    ensures multiset(q)[q[i]] >= 2
  {
    assert q == q[..j] + [q[j]] + q[j + 1..];
    assert q[..j][i] == q[i];
    assert q[i] in q[..j];
    assert multiset(q[..j])[q[i]] >= 1;
  }

  lemma {:induction false} OnceIn<T(!new)>(q: seq<T>, x: T)
    requires Distinct(q)
    ensures multiset(q)[x] <= 1
  {
    if q != [] {
      var front, last := q[..|q| - 1], q[|q| - 1];
      assert q == front + [last];
      OnceIn(front, x);
      if x == last {
        assert x !in front;
        assert multiset(front)[x] == 0;
      }
    }
  }

  // ---------- the first of each key ----------

  predicate HasKey<K(==), T>(q: seq<(K, T)>, k: K)
  {
    exists i :: 0 <= i < |q| && q[i].0 == k
  }

  /** `unique_by`: later items of a key already seen are dropped. */
  function FirstOfEach<K(==), T>(q: seq<(K, T)>): seq<(K, T)>
  {
    if q == [] then []
    else
      var u := FirstOfEach(q[..|q| - 1]);
      if HasKey(u, q[|q| - 1].0) then u else u + [q[|q| - 1]]
  }

  lemma {:induction false} FirstKeys<K(!new), T(!new)>(q: seq<(K, T)>)
    ensures DistinctKeys(FirstOfEach(q))
    ensures forall x :: x in FirstOfEach(q) ==> x in q
    ensures forall k :: HasKey(FirstOfEach(q), k) <==> HasKey(q, k)
  {
    if q != [] {
      var front, last := q[..|q| - 1], q[|q| - 1];
      var u := FirstOfEach(front);
      FirstKeys(front);
      forall k ensures HasKey(FirstOfEach(q), k) <==> HasKey(q, k) {
        GrowKey(front, last, k);
        assert front + [last] == q;
        if !HasKey(u, last.0) {
          GrowKey(u, last, k);
        }
      }
    }
  }

  lemma GrowKey<K(!new), T(!new)>(q: seq<(K, T)>, x: (K, T), k: K)
    ensures HasKey(q + [x], k) <==> HasKey(q, k) || x.0 == k
  {
    var r := q + [x];
    assert r[|q|] == x;
    if HasKey(q, k) {
      var i :| 0 <= i < |q| && q[i].0 == k;
      assert r[i].0 == k;
    }
  }

  /** Nothing is dropped when the keys are distinct. */
  lemma {:induction false} FirstOfDistinct<K(!new), T(!new)>(q: seq<(K, T)>)
    requires DistinctKeys(q)
    ensures FirstOfEach(q) == q
  {
    if q != [] {
      FirstOfDistinct(q[..|q| - 1]);
      assert q == q[..|q| - 1] + [q[|q| - 1]];
    }
  }

  /** Items whose keys have all been seen add nothing. */
  lemma {:induction false} FirstOfSeen<K(!new), T(!new)>(q: seq<(K, T)>, r: seq<(K, T)>)
    requires forall x :: x in r ==> HasKey(q, x.0)
    ensures FirstOfEach(q + r) == FirstOfEach(q)
  {
    if r == [] {
      assert q + r == q;
    } else {
      var front, last := r[..|r| - 1], r[|r| - 1];
      assert last in r;
      FirstOfSeen(q, front);
      FirstKeys(q);
      assert (q + r)[..|q + r| - 1] == q + front;
    }
  }

  /** The first item is never dropped. */
  lemma {:induction false} FirstStays<K(!new), T(!new)>(q: seq<(K, T)>)
    requires q != []
    ensures FirstOfEach(q) != [] && FirstOfEach(q)[0] == q[0]
  {
    if |q| > 1 {
      FirstStays(q[..|q| - 1]);
    } else {
      assert q[..0] == [];
    }
  }

  lemma {:induction false} WithKeyHead<T(!new)>(q: seq<(nat, T)>, k: nat)
    requires q != [] && q[0].0 == k
    ensures WithKey(q, k) != [] && WithKey(q, k)[0] == q[0]
  {
    if |q| > 1 {
      WithKeyHead(q[..|q| - 1], k);
    } else {
      assert WithKey(q[..0], k) == [];
    }
  }

  // ---------- the first of each key, by position ----------

  /** The keyed items picked from a list, in order. */
  function Picked<E, K, T>(events: seq<E>, f: E -> Option<(K, T)>): seq<(K, T)>
  {
    if events == [] then []
    else
      var x := f(events[|events| - 1]);
      Picked(events[..|events| - 1], f) + if x.Some? then [x.value] else []
  }

  /** The items stand at these positions, in order. */
  ghost predicate StandAt<E(!new), K(!new), T(!new)>(events: seq<E>, f: E -> Option<(K, T)>, items: seq<(K, T)>, ks: seq<nat>)
  {
    && |ks| == |items| && Increasing(ks)
    && forall i :: 0 <= i < |ks| ==> ks[i] < |events| && f(events[ks[i]]) == Some(items[i])
  }

  /** The key of what is picked at k occurs at one of these positions, no later than there. */
  ghost predicate SeenBy<E(!new), K(!new), T(!new)>(events: seq<E>, f: E -> Option<(K, T)>, items: seq<(K, T)>, ks: seq<nat>, k: nat)
    requires k < |events| && |ks| == |items|
  {
    f(events[k]).Some? ==> exists i :: 0 <= i < |ks| && ks[i] <= k && items[i].0 == f(events[k]).value.0
  }

  ghost predicate FirstsAt<E(!new), K(!new), T(!new)>(events: seq<E>, f: E -> Option<(K, T)>, items: seq<(K, T)>, ks: seq<nat>)
  {
    StandAt(events, f, items, ks) && forall k :: 0 <= k < |events| ==> SeenBy(events, f, items, ks, k)
  }

  lemma FirstsStay<E(!new), K(!new), T(!new)>(events: seq<E>, f: E -> Option<(K, T)>, items: seq<(K, T)>, ks: seq<nat>, e: E)
    requires FirstsAt(events, f, items, ks) && (f(e).Some? ==> HasKey(items, f(e).value.0))
    ensures FirstsAt(events + [e], f, items, ks)
  {
    var all := events + [e];
    forall k | 0 <= k < |all| ensures SeenBy(all, f, items, ks, k) {
      if k < |events| {
        assert all[k] == events[k] && SeenBy(events, f, items, ks, k);
      } else if f(e).Some? {
        var i :| 0 <= i < |items| && items[i].0 == f(e).value.0;
        assert ks[i] <= k;
      }
    }
  }

  lemma StandMore<E(!new), K(!new), T(!new)>(events: seq<E>, f: E -> Option<(K, T)>, items: seq<(K, T)>, ks: seq<nat>, e: E)
    requires StandAt(events, f, items, ks) && f(e).Some?
    ensures StandAt(events + [e], f, items + [f(e).value], ks + [|events|])
  {
  }

  lemma SeenStill<E(!new), K(!new), T(!new)>(events: seq<E>, f: E -> Option<(K, T)>, items: seq<(K, T)>, ks: seq<nat>, e: E, k: nat)
    requires f(e).Some? && k < |events| && |ks| == |items| && SeenBy(events, f, items, ks, k)
    ensures SeenBy(events + [e], f, items + [f(e).value], ks + [|events|], k)
  {
    var more, at := items + [f(e).value], ks + [|events|];
    assert (events + [e])[k] == events[k];
    if f(events[k]).Some? {
      var i :| 0 <= i < |ks| && ks[i] <= k && items[i].0 == f(events[k]).value.0;
      assert at[i] <= k && more[i].0 == f(events[k]).value.0;
    }
  }

  lemma FirstsGrow<E(!new), K(!new), T(!new)>(events: seq<E>, f: E -> Option<(K, T)>, items: seq<(K, T)>, ks: seq<nat>, e: E)
    requires FirstsAt(events, f, items, ks) && f(e).Some?
    ensures FirstsAt(events + [e], f, items + [f(e).value], ks + [|events|])
  {
    var all, more, at := events + [e], items + [f(e).value], ks + [|events|];
    StandMore(events, f, items, ks, e);
    forall k | 0 <= k < |all| ensures SeenBy(all, f, more, at, k) {
      if k < |events| {
        SeenStill(events, f, items, ks, e, k);
      } else {
        assert at[|ks|] <= k && more[|ks|].0 == f(all[k]).value.0;
      }
    }
  }

  lemma FirstOfSnoc<K(!new), T(!new)>(q: seq<(K, T)>, x: (K, T))
    ensures FirstOfEach(q + [x]) == if HasKey(FirstOfEach(q), x.0) then FirstOfEach(q) else FirstOfEach(q) + [x]
  {
    assert (q + [x])[..|q|] == q;
  }

  /** Keeping the first of each key is picking those positions. */
  lemma {:induction false} FirstsOf<E(!new), K(!new), T(!new)>(events: seq<E>, f: E -> Option<(K, T)>) returns (ks: seq<nat>)
    ensures FirstsAt(events, f, FirstOfEach(Picked(events, f)), ks)
  {
    ks := [];
    if events != [] {
      var front, e := events[..|events| - 1], events[|events| - 1];
      assert front + [e] == events;
      ks := FirstsOf(front, f);
      var q, u := Picked(front, f), FirstOfEach(Picked(front, f));
      if f(e).Some? {
        FirstOfSnoc(q, f(e).value);
      } else {
        assert q + [] == q;
      }
      if f(e).Some? && !HasKey(u, f(e).value.0) {
        FirstsGrow(front, f, u, ks, e);
        ks := ks + [|front|];
      } else {
        FirstsStay(front, f, u, ks, e);
      }
    }
  }

  /** Position k holds the first item of its key. */
  ghost predicate FirstOfKey<E(!new), K(!new), T(!new)>(events: seq<E>, f: E -> Option<(K, T)>, k: nat)
  {
    && k < |events| && f(events[k]).Some?
    && forall j :: 0 <= j < k && f(events[j]).Some? ==> f(events[j]).value.0 != f(events[k]).value.0
  }

  lemma FirstsExactly<E(!new), K(!new), T(!new)>(events: seq<E>, f: E -> Option<(K, T)>, items: seq<(K, T)>, ks: seq<nat>, k: nat)
    requires FirstsAt(events, f, items, ks) && DistinctKeys(items)
    ensures k in ks <==> FirstOfKey(events, f, k)
  {
    if k in ks {
      var i :| 0 <= i < |ks| && ks[i] == k;
      forall j | 0 <= j < k && f(events[j]).Some? ensures f(events[j]).value.0 != f(events[k]).value.0 {
        assert SeenBy(events, f, items, ks, j);
        var m :| 0 <= m < |ks| && ks[m] <= j && items[m].0 == f(events[j]).value.0;
        assert m < i;
      }
    }
    if FirstOfKey(events, f, k) {
      assert SeenBy(events, f, items, ks, k);
      var i :| 0 <= i < |ks| && ks[i] <= k && items[i].0 == f(events[k]).value.0;
      assert f(events[ks[i]]).value.0 == items[i].0;
    }
  }
}
