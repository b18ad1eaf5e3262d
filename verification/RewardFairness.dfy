/** Fairness of the payout: at most one node in the whole section gets more than its age's share. */
module RewardFairness {
  import opened Collections
  import opened Arithmetic
  import opened RewardCalc
  import opened RewardPayout
  import opened RewardLaws

  /** The counter of an age in ordinary arithmetic: full rounds, then the rest of the last round. */
  lemma CounterClosedForm(amount: nat, buckets: Buckets, i: nat)
    requires Rewardable(buckets) && i < |Ages(buckets)|
    ensures Ages(buckets)[i] in buckets
    ensures
      var ages, ws := Ages(buckets), Weights(amount, buckets);
      var round := SumTo(ws, |ws|);
      && round > 0
      && ws[i] == Pow2(ages[i]) * |buckets[ages[i]]| * Multiplier(amount, buckets)
      && CounterOf(amount, buckets, ages[i]) ==
           (amount / round) * ws[i] + Min(ws[i], Monus(amount % round, SumTo(ws, i)))
  {
    var ws := Weights(amount, buckets);
    CounterAtAge(amount, buckets, i);
    WeightIs(Ages(buckets)[i], Lengths(buckets)[i], Multiplier(amount, buckets));
    QuotientIs(amount, SumTo(ws, |ws|));
    TimesIs(Quotient(amount, SumTo(ws, |ws|)), ws[i]);
  }

  // ---------- divisibility ----------

  lemma {:induction false} RemainderAdd(a: nat, b: nat, d: nat)
    requires d > 0 && Remainder(a, d) == 0 && Remainder(b, d) == 0
    ensures Remainder(a + b, d) == 0
  {
    if a >= d {
      RemainderAdd(a - d, b, d);
    }
  }

  lemma {:induction false} RemainderTimes(k: nat, w: nat, d: nat)
    requires d > 0 && Remainder(w, d) == 0
    ensures Remainder(Times(k, w), d) == 0
  {
    if k > 0 {
      RemainderTimes(k - 1, w, d);
      RemainderAdd(w, Times(k - 1, w), d);
    }
  }

  lemma WeightDivides(age: nat, nodes: nat, multiplier: nat)
    requires nodes > 0
    ensures Remainder(Weight(age, nodes, multiplier), nodes) == 0
  {
    var w, p := Weight(age, nodes, multiplier), Pow2(age);
    WeightIs(age, nodes, multiplier);
    assert w == (p * multiplier) * nodes + 0 by {
      MulAssoc(p, nodes, multiplier);
      MulAssoc(p, multiplier, nodes);
      assert nodes * multiplier == multiplier * nodes;
    }
    DivModUnique(w, nodes, p * multiplier, 0);
    QuotientIs(w, nodes);
  }

  // ---------- the one partial entry ----------

  /** Entry i is the one at which the pouring of r stops midway. */
  ghost predicate Partial(ws: seq<nat>, r: nat, i: nat)
    requires i < |ws|
  {
    SumTo(ws, i) < r < SumTo(ws, i + 1)
  }

  lemma PartialUnique(ws: seq<nat>, r: nat, i: nat, j: nat)
    requires i < |ws| && j < |ws| && Partial(ws, r, i) && Partial(ws, r, j)
    ensures i == j
  {
    if i < j {
      SumToMonotone(ws, i + 1, j);
    } else if j < i {
      SumToMonotone(ws, j + 1, i);
    }
  }

  lemma WholeCounter(ws: seq<nat>, amount: nat, i: nat, d: nat)
    requires i < |ws| && SumTo(ws, |ws|) > 0 && d > 0
    requires Remainder(ws[i], d) == 0
    requires !Partial(ws, Remainder(amount, SumTo(ws, |ws|)), i)
    ensures Remainder(CounterAt(ws, amount, i), d) == 0
  {
    var round := SumTo(ws, |ws|);
    var q, r := Quotient(amount, round), Remainder(amount, round);
    assert SumTo(ws, i + 1) == SumTo(ws, i) + ws[i];
    assert Fill(ws, r, i) == 0 || Fill(ws, r, i) == ws[i];
    RemainderTimes(q, ws[i], d);
    RemainderAdd(Times(q, ws[i]), Fill(ws, r, i), d);
  }

  lemma AgeWholeOrPartial(amount: nat, buckets: Buckets, i: nat)
    requires Rewardable(buckets) && i < |Ages(buckets)|
    ensures Ages(buckets)[i] in buckets && |buckets[Ages(buckets)[i]]| > 0
    ensures
      var ws := Weights(amount, buckets);
      && SumTo(ws, |ws|) > 0
      && (!Partial(ws, Remainder(amount, SumTo(ws, |ws|)), i) ==>
            Remainder(CounterOf(amount, buckets, Ages(buckets)[i]), |buckets[Ages(buckets)[i]]|) == 0)
  {
    var ws := Weights(amount, buckets);
    var age := Ages(buckets)[i];
    CounterAtAge(amount, buckets, i);
    WeightDivides(age, |buckets[age]|, Multiplier(amount, buckets));
    if !Partial(ws, Remainder(amount, SumTo(ws, |ws|)), i) {
      WholeCounter(ws, amount, i, |buckets[age]|);
    }
  }

  /** Only one age can have a remainder to give away. */
  lemma OneRemainder(amount: nat, buckets: Buckets) returns (special: Option<nat>)
    requires Rewardable(buckets)
    ensures special.Some? ==> special.value in buckets
    ensures forall a :: a in buckets && special != Some(a) ==> Remainder(CounterOf(amount, buckets, a), |buckets[a]|) == 0
  {
    var ages, ws := Ages(buckets), Weights(amount, buckets);
    AgesOf(buckets);
    AgeWholeOrPartial(amount, buckets, 0);
    var r := Remainder(amount, SumTo(ws, |ws|));
    special := None;
    if p: nat :| p < |ws| && Partial(ws, r, p) {
      special := Some(ages[p]);
    }
    forall a | a in buckets && special != Some(a) ensures Remainder(CounterOf(amount, buckets, a), |buckets[a]|) == 0 {
      var i := IndexOfAge(buckets, a);
      AgeWholeOrPartial(amount, buckets, i);
      if Partial(ws, r, i) && special.Some? {
        var p: nat :| p < |ws| && Partial(ws, r, p) && special == Some(ages[p]);
        PartialUnique(ws, r, i, p);
      }
    }
  }

  // ---------- fairness ----------

  ghost predicate EqualExcept(paid: Payments, lucky: Option<XorName>)
  {
    forall a, b :: a in paid && b in paid && paid[a].age == paid[b].age && lucky != Some(a) && lucky != Some(b)
      ==> paid[a].amount == paid[b].amount
  }

  /** The lucky node is the first of its bucket, and its extra is smaller than the bucket. */
  ghost predicate SmallExtra(paid: Payments, nodes: Nodes, lucky: XorName)
  {
    && lucky in nodes
    && (forall b :: b in nodes && nodes[b].age == nodes[lucky].age ==> lucky <= b)
    && (forall b :: b in paid && lucky in paid && b != lucky && paid[b].age == paid[lucky].age ==>
          paid[b].amount <= paid[lucky].amount < paid[b].amount + |BucketOf(nodes, nodes[lucky].age)|)
  }

  lemma FairBy(nodes: Nodes, counters: map<nat, nat>, special: Option<nat>) returns (lucky: Option<XorName>)
    requires forall a :: a in counters ==> BucketOf(nodes, a).Keys != {}
    requires forall a :: a in counters && special != Some(a) ==> Remainder(counters[a], |BucketOf(nodes, a)|) == 0
    ensures EqualExcept(PayoutBy(nodes, counters), lucky)
    ensures lucky.Some? ==> SmallExtra(PayoutBy(nodes, counters), nodes, lucky.value)
  {
    var paid := PayoutBy(nodes, counters);
    lucky := None;
    if special.Some? && special.value in counters {
      lucky := Some(Least(BucketOf(nodes, special.value).Keys));
      assert lucky.value in BucketOf(nodes, special.value);
      assert forall b :: b in nodes && nodes[b].age == special.value ==> b in BucketOf(nodes, special.value);
    }
    forall n | n in paid && lucky != Some(n)
      ensures paid[n].amount == Quotient(counters[paid[n].age], |BucketOf(nodes, paid[n].age)|)
    {
      assert n in BucketOf(nodes, paid[n].age);
    }
  }

  /** Same-age nodes are paid alike, but for the first node of at most one bucket, whose extra is less
      than that bucket's size. */
  lemma Fairness(amount: nat, nodes: Nodes) returns (lucky: Option<XorName>)
    ensures EqualExcept(Payout(amount, nodes), lucky)
    ensures lucky.Some? ==> SmallExtra(Payout(amount, nodes), nodes, lucky.value)
  {
    var buckets := GetBuckets(nodes);
    lucky := None;
    if buckets != map[] {
      var counters := Counters(amount, buckets);
      BucketsReady(nodes, counters);
      ReadyBuckets(nodes, counters);
      var special := OneRemainder(amount, buckets);
      SpecialBucket(amount, nodes, special);
      lucky := FairBy(nodes, counters, special);
    }
  }

  /** Young nodes are never paid, and each paid node keeps its own age and wallet. */
  lemma PaidAsThemselves(amount: nat, nodes: Nodes, n: XorName)
    requires n in Payout(amount, nodes)
    ensures n in nodes && nodes[n].age >= MIN_REWARD_AGE
    ensures Payout(amount, nodes)[n].age == nodes[n].age && Payout(amount, nodes)[n].wallet == nodes[n].wallet
  {
    assert nodes[n].age in GetBuckets(nodes);
  }

  lemma SpecialBucket(amount: nat, nodes: Nodes, special: Option<nat>)
    requires GetBuckets(nodes) != map[]
    requires forall a :: a in GetBuckets(nodes) ==> |GetBuckets(nodes)[a]| > 0
    requires forall a :: a in GetBuckets(nodes) && special != Some(a) ==>
      Remainder(CounterOf(amount, GetBuckets(nodes), a), |GetBuckets(nodes)[a]|) == 0
    ensures forall a :: a in Counters(amount, GetBuckets(nodes)) && special != Some(a) ==>
              BucketOf(nodes, a).Keys != {} &&
              Remainder(Counters(amount, GetBuckets(nodes))[a], |BucketOf(nodes, a)|) == 0
  {
    var buckets := GetBuckets(nodes);
    var counters := Counters(amount, buckets);
    forall a | a in counters && special != Some(a)
      ensures BucketOf(nodes, a).Keys != {} && Remainder(counters[a], |BucketOf(nodes, a)|) == 0
    {
      assert |buckets[a]| > 0 && buckets[a] == BucketOf(nodes, a);
    }
  }

  ghost function SameAge(nodes: Nodes, age: nat): set<XorName>
  {
    set n | n in nodes && nodes[n].age == age
  }

  lemma BucketIsSameAge(nodes: Nodes, age: nat)
    ensures BucketOf(nodes, age).Keys == SameAge(nodes, age) && |BucketOf(nodes, age)| == |SameAge(nodes, age)|
  {
  }

  /** Exactly the nodes old enough whose age has a counter are paid. */
  lemma PaidExactly(amount: nat, nodes: Nodes, n: XorName)
    ensures n in Payout(amount, nodes) <==>
            && n in nodes && nodes[n].age in GetBuckets(nodes)
            && CounterOf(amount, GetBuckets(nodes), nodes[n].age) > 0
  {
    var buckets := GetBuckets(nodes);
    if n in nodes && nodes[n].age in buckets {
      HeldIsCounter(amount, buckets, nodes[n].age);
    }
  }

  lemma ShareIs(nodes: Nodes, counters: map<nat, nat>, n: XorName)
    requires n in nodes && nodes[n].age in counters
    ensures
      var peers := SameAge(nodes, nodes[n].age);
      n in peers && |peers| > 0 &&
      PayoutBy(nodes, counters)[n].amount ==
        counters[nodes[n].age] / |peers| + if n == Least(peers) then counters[nodes[n].age] % |peers| else 0
  {
    BucketIsSameAge(nodes, nodes[n].age);
    NonEmptyBucket(BucketOf(nodes, nodes[n].age), n);
    QuotientIs(counters[nodes[n].age], |SameAge(nodes, nodes[n].age)|);
  }

  /** Each gets an even share of its age's counter, and the first by name the rest. */
  lemma PaidShare(amount: nat, nodes: Nodes, n: XorName)
    requires n in Payout(amount, nodes)
    ensures n in nodes && nodes[n].age in GetBuckets(nodes)
    ensures
      var peers := SameAge(nodes, nodes[n].age);
      var counter := CounterOf(amount, GetBuckets(nodes), nodes[n].age);
      n in peers && |peers| > 0 &&
      Payout(amount, nodes)[n].amount == counter / |peers| + if n == Least(peers) then counter % |peers| else 0
  {
    PaidExactly(amount, nodes, n);
    HeldIsCounter(amount, GetBuckets(nodes), nodes[n].age);
    ShareIs(nodes, Counters(amount, GetBuckets(nodes)), n);
  }
}
