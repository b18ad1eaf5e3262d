/** Section caps as shares of the supply, and the global bound they add up to. */
module SupplyCap {
  import opened Arithmetic
  import opened RewardCalc

  /** A section prefix, as its bits. */
  type Prefix = seq<bool>

  /** The proportional supply of a section; the shift is a 64-bit power of two. */
  function SectionCap(prefix: Prefix): nat
    requires |prefix| < 64
  {
    Quotient(MAX_SUPPLY, Pow2(|prefix|))
  }

  /** The cap is the supply divided by the number of sections of this size. */
  lemma CapIs(prefix: Prefix)
    requires |prefix| < 64
    ensures SectionCap(prefix) == MAX_SUPPLY / Pow2(|prefix|)
  {
    QuotientIs(MAX_SUPPLY, Pow2(|prefix|));
  }

  datatype Section = Section(prefix: Prefix, managed: nat, payments: nat)

  /** What a section manages once its payments are replaced by the payout. */
  function ManagedAfter(s: Section): int
    requires |s.prefix| < 64
  {
    s.managed + RewardAndMintAmount(s.payments, s.managed, SectionCap(s.prefix)) - s.payments
  }

  /** A payout moves the managed amount towards the cap, by as much as the payments allow, and never across it. */
  lemma PayoutTowardsCap(payments: nat, managed: nat, cap: nat)
    ensures
      var after := managed + RewardAndMintAmount(payments, managed, cap) - payments;
      && (managed <= cap ==> after == Min(managed + payments, cap))
      && (managed >= cap ==> after == Max(Monus(managed, payments), cap))
    ensures RewardAndMintAmount(payments, managed, cap) <= 2 * payments
  {
  }

  // ---------- halving ----------

  function Halve(m: nat, k: nat): nat
  {
    if k == 0 then m else Halve(m / 2, k - 1)
  }

  lemma {:induction false} HalveIsDivision(m: nat, k: nat)
    ensures Halve(m, k) == m / Pow2(k)
  {
    if k > 0 {
      HalveIsDivision(m / 2, k - 1);
      DivDiv(m, 2, Pow2(k - 1));
    }
  }

  // ---------- prefix-free sets ----------

  ghost predicate Apart(p: Prefix, q: Prefix)
  {
    !(p <= q) && !(q <= p)
  }

  /** No prefix of the list covers another. */
  ghost predicate PrefixFree(ps: seq<Prefix>)
  {
    ps == [] || ((forall q :: q in ps[1..] ==> Apart(ps[0], q)) && PrefixFree(ps[1..]))
  }

  function HalvedSum(m: nat, ps: seq<Prefix>): nat
  {
    if ps == [] then 0 else Halve(m, |ps[0]|) + HalvedSum(m, ps[1..])
  }

  /** The prefixes on one side of the first bit, without that bit. */
  function Tails(ps: seq<Prefix>, bit: bool): seq<Prefix>
  {
    if ps == [] then []
    else if ps[0] != [] && ps[0][0] == bit then [ps[0][1..]] + Tails(ps[1..], bit)
    else Tails(ps[1..], bit)
  }

  lemma {:induction false} TailsFrom(ps: seq<Prefix>, bit: bool, q: Prefix)
    requires q in Tails(ps, bit)
    ensures [bit] + q in ps
  {
    if ps[0] != [] && ps[0][0] == bit && q == ps[0][1..] {
      assert ps[0] == [bit] + q;
    } else {
      TailsFrom(ps[1..], bit, q);
    }
  }

  lemma {:induction false} TailsFree(ps: seq<Prefix>, bit: bool)
    requires PrefixFree(ps)
    ensures PrefixFree(Tails(ps, bit))
  {
    if ps != [] {
      TailsFree(ps[1..], bit);
      if ps[0] != [] && ps[0][0] == bit {
        var rest := Tails(ps[1..], bit);
        assert Tails(ps, bit)[1..] == rest;
        forall q | q in rest ensures Apart(ps[0][1..], q) {
          TailsFrom(ps[1..], bit, q);
          assert ps[0] == [bit] + ps[0][1..];
          TailsApart(bit, ps[0][1..], q);
        }
      }
    }
  }

  lemma TailsApart(bit: bool, p: Prefix, q: Prefix)
    requires Apart([bit] + p, [bit] + q)
    ensures Apart(p, q)
  {
    assert p <= q ==> [bit] + p <= [bit] + q;
    assert q <= p ==> [bit] + q <= [bit] + p;
  }

  lemma {:induction false} SplitSum(m: nat, ps: seq<Prefix>)
    requires [] !in ps
    ensures HalvedSum(m, ps) == HalvedSum(m / 2, Tails(ps, false)) + HalvedSum(m / 2, Tails(ps, true))
  {
    if ps != [] {
      SplitSum(m, ps[1..]);
      var p := ps[0];
      assert p in ps;
      assert Tails(ps, p[0]) == [p[1..]] + Tails(ps[1..], p[0]);
      assert Tails(ps, !p[0]) == Tails(ps[1..], !p[0]);
    }
  }

  /** The whole-address-space prefix tolerates no other. */
  lemma {:induction false} RootAlone(ps: seq<Prefix>)
    requires PrefixFree(ps) && [] in ps
    ensures ps == [[]]
  {
    assert [ps[0]] + ps[1..] == ps;
    assert forall q :: q in ps[1..] ==> Apart(ps[0], q);
    HeadIn(ps[1..]);
  }

  lemma HeadIn<T>(q: seq<T>)
    ensures q != [] ==> q[0] in q
  {
  }

  /** Kraft's inequality, with the rounding down of every share. */
  lemma {:induction false} HalvesFit(m: nat, ps: seq<Prefix>, depth: nat)
    requires PrefixFree(ps)
    requires forall p :: p in ps ==> |p| <= depth
    ensures HalvedSum(m, ps) <= m
    decreases depth
  {
    assert ps != [] ==> ps[0] in ps;
    if [] in ps {
      RootAlone(ps);
      assert HalvedSum(m, ps) == Halve(m, 0) + HalvedSum(m, ps[1..]);
    } else if depth > 0 {
      SplitSum(m, ps);
      forall bit: bool ensures HalvedSum(m / 2, Tails(ps, bit)) <= m / 2 {
        TailsFree(ps, bit);
        forall q | q in Tails(ps, bit) ensures |q| <= depth - 1 {
          TailsFrom(ps, bit, q);
        }
        HalvesFit(m / 2, Tails(ps, bit), depth - 1);
      }
      assert HalvedSum(m / 2, Tails(ps, false)) <= m / 2 && HalvedSum(m / 2, Tails(ps, true)) <= m / 2;
    }
  }

  // ---------- the network ----------

  function Prefixes(sections: seq<Section>): (ps: seq<Prefix>)
    ensures |ps| == |sections|
    ensures forall i :: 0 <= i < |ps| ==> ps[i] == sections[i].prefix
  {
    if sections == [] then [] else [sections[0].prefix] + Prefixes(sections[1..])
  }

  function SumAfter(sections: seq<Section>): int
    requires forall s :: s in sections ==> |s.prefix| < 64
  {
    if sections == [] then 0 else ManagedAfter(sections[0]) + SumAfter(sections[1..])
  }

  lemma {:induction false} SumWithinCaps(sections: seq<Section>)
    requires forall s :: s in sections ==> |s.prefix| < 64 && s.managed <= SectionCap(s.prefix)
    ensures SumAfter(sections) <= HalvedSum(MAX_SUPPLY, Prefixes(sections))
  {
    if sections != [] {
      SumWithinCaps(sections[1..]);
      var s := sections[0];
      assert s in sections;
      HalveIsDivision(MAX_SUPPLY, |s.prefix|);
      QuotientIs(MAX_SUPPLY, Pow2(|s.prefix|));
      PayoutTowardsCap(s.payments, s.managed, SectionCap(s.prefix));
      assert Prefixes(sections)[1..] == Prefixes(sections[1..]);
    }
  }

  /** If every section of the network is within its cap, the payouts of all sections together keep the
      managed total within the supply, whatever the payments. */
  lemma GlobalSupplyCap(sections: seq<Section>)
    requires PrefixFree(Prefixes(sections))
    requires forall s :: s in sections ==> |s.prefix| < 64 && s.managed <= SectionCap(s.prefix)
    ensures SumAfter(sections) <= MAX_SUPPLY
  {
    var ps := Prefixes(sections);
    forall p | p in ps ensures |p| <= 63 {
      var i :| 0 <= i < |ps| && ps[i] == p;
      assert sections[i] in sections;
    }
    HalvesFit(MAX_SUPPLY, ps, 63);
    SumWithinCaps(sections);
  }
}
