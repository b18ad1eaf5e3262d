/** Conservation of the payout. */
module RewardLaws {
  import opened Collections
  import opened Arithmetic
  import opened RewardCalc
  import opened RewardPayout

  function Amounts(paid: Payments): map<XorName, nat>
  {
    map n | n in paid :: paid[n].amount
  }

  function NamesOf(nodes: Nodes, ages: set<nat>): set<XorName>
  {
    set n | n in nodes && nodes[n].age in ages
  }

  // ---------- a bucket pays out its counter ----------

  lemma {:induction false} SumConstant<K(!new)>(keys: set<K>, m: map<K, nat>, v: nat)
    requires keys <= m.Keys && forall k :: k in keys ==> m[k] == v
    ensures SumOver(keys, m) == Times(|keys|, v)
  {
    if keys != {} {
      SumConstant(keys - {Pick(keys)}, m, v);
    }
  }

  lemma {:induction false} TimesSwap(a: nat, b: nat)
    ensures Times(a, b) == Times(b, a)
  {
    TimesIs(a, b);
    TimesIs(b, a);
  }

  /** The shares of one bucket sum to its counter. */
  lemma BucketSum(bucket: Bucket, counter: nat, m: map<XorName, nat>)
    requires bucket.Keys != {} && bucket.Keys <= m.Keys
    requires forall n :: n in bucket ==> m[n] == NodeShare(bucket, counter, n)
    ensures SumOver(bucket.Keys, m) == counter
  {
    var first, size := Least(bucket.Keys), |bucket|;
    var q, r := Quotient(counter, size), Remainder(counter, size);
    SumRemove(bucket.Keys, m, first);
    SumConstant(bucket.Keys - {first}, m, q);
    QuotientTimes(counter, size);
    TimesSwap(size, q);
    assert |bucket.Keys - {first}| == size - 1;
  }

  /** The payments of all ages sum to the counters. */
  lemma {:induction false} PaidSum(nodes: Nodes, counters: map<nat, nat>, ages: set<nat>, m: map<XorName, nat>)
    requires ages <= counters.Keys && NamesOf(nodes, ages) <= m.Keys
    requires forall a :: a in ages ==> BucketOf(nodes, a).Keys != {}
    requires forall n :: n in NamesOf(nodes, ages) ==> m[n] == NodeReward(nodes, counters, n).amount
    ensures SumOver(NamesOf(nodes, ages), m) == SumOver(ages, counters)
  {
    if ages == {} {
      assert NamesOf(nodes, ages) == {};
    } else {
      var a := Pick(ages);
      var bucket := BucketOf(nodes, a);
      SplitNames(nodes, ages, a);
      PaidSum(nodes, counters, ages - {a}, m);
      BucketSum(bucket, counters[a], m);
      SumUnion(NamesOf(nodes, ages - {a}), bucket.Keys, m);
    }
  }

  lemma SplitNames(nodes: Nodes, ages: set<nat>, a: nat)
    requires a in ages
    ensures NamesOf(nodes, ages - {a}) !! BucketOf(nodes, a).Keys
    ensures NamesOf(nodes, ages) == NamesOf(nodes, ages - {a}) + BucketOf(nodes, a).Keys
  {
  }

  lemma PayoutTotal(nodes: Nodes, counters: map<nat, nat>)
    requires forall a :: a in counters ==> BucketOf(nodes, a).Keys != {}
    ensures Total(Amounts(PayoutBy(nodes, counters))) == Total(counters)
  {
    var m := Amounts(PayoutBy(nodes, counters));
    assert m.Keys == NamesOf(nodes, counters.Keys);
    PaidSum(nodes, counters, counters.Keys, m);
  }

  // ---------- the counters hold the amount ----------

  /** Pouring hands out everything up to what the entries can take. */
  lemma {:induction false} CountersSum(ws: seq<nat>, amount: nat, vals: seq<nat>, k: nat)
    requires k <= |ws| == |vals| && SumTo(ws, |ws|) > 0
    requires forall i :: 0 <= i < |ws| ==> vals[i] == CounterAt(ws, amount, i)
    ensures
      var round := SumTo(ws, |ws|);
      SumTo(vals, k) == Times(Quotient(amount, round), SumTo(ws, k)) + Min(Remainder(amount, round), SumTo(ws, k))
  {
    if k == 0 {
      TimesIs(Quotient(amount, SumTo(ws, |ws|)), 0);
    } else {
      CountersSum(ws, amount, vals, k - 1);
      TimesAdd(Quotient(amount, SumTo(ws, |ws|)), SumTo(ws, k - 1), ws[k - 1]);
    }
  }

  function Elements(q: seq<nat>): set<nat>
  {
    set a | a in q
  }

  lemma {:induction false} HeldSum(ages: seq<nat>, counters: map<nat, nat>, vals: seq<nat>, k: nat)
    requires k <= |ages| == |vals| && Increasing(ages)
    requires forall i :: 0 <= i < |ages| ==> vals[i] == Held(counters, ages[i])
    ensures SumOver(Elements(ages[..k]) * counters.Keys, counters) == SumTo(vals, k)
  {
    var seen := Elements(ages[..k]) * counters.Keys;
    if k > 0 {
      HeldSum(ages, counters, vals, k - 1);
      var last := ages[k - 1];
      var before := Elements(ages[..k - 1]) * counters.Keys;
      assert ages[..k] == ages[..k - 1] + [last];
      assert last !in ages[..k - 1];
      if last in counters {
        assert seen - {last} == before;
        SumRemove(seen, counters, last);
      } else {
        assert seen == before;
      }
    }
  }

  lemma CountersTotal(ages: seq<nat>, ws: seq<nat>, amount: nat, counters: map<nat, nat>)
    requires Increasing(ages) && |ages| == |ws|
    requires CountersWithin(counters, ages)
    requires Counted(ages, ws, amount, counters)
    ensures Total(counters) == amount
  {
    var round := SumTo(ws, |ws|);
    var vals := seq(|ws|, i requires 0 <= i < |ws| => CounterAt(ws, amount, i));
    CountersSum(ws, amount, vals, |ws|);
    QuotientTimes(amount, round);
    HeldSum(ages, counters, vals, |ages|);
    assert ages[..|ages|] == ages;
    assert Elements(ages) * counters.Keys == counters.Keys;
  }

  lemma CounterAtAge(amount: nat, buckets: Buckets, i: nat)
    requires Rewardable(buckets) && i < |Ages(buckets)|
    ensures Ages(buckets)[i] in buckets
    ensures
      var ws := Weights(amount, buckets);
      SumTo(ws, |ws|) > 0 && CounterOf(amount, buckets, Ages(buckets)[i]) == CounterAt(ws, amount, i)
  {
    WeightsPositive(buckets, Multiplier(amount, buckets));
    RoundPositive(Weights(amount, buckets));
    assert Ages(buckets)[i] in Ages(buckets);
    assert IndexIn(Ages(buckets), Ages(buckets)[i]) == i;
  }

  lemma HeldIsCounter(amount: nat, buckets: Buckets, age: nat)
    requires Rewardable(buckets) && age in buckets
    ensures Held(Counters(amount, buckets), age) == CounterOf(amount, buckets, age)
  {
    HeldPositive(AllCounters(amount, buckets), age);
  }

  lemma HeldPositive(all: map<nat, nat>, age: nat)
    requires age in all
    ensures Held(Positives(all), age) == all[age]
  {
  }

  lemma ClosedFormCounts(amount: nat, buckets: Buckets)
    requires Rewardable(buckets)
    ensures CountersWithin(Counters(amount, buckets), Ages(buckets))
    ensures Counted(Ages(buckets), Weights(amount, buckets), amount, Counters(amount, buckets))
  {
    var ages, counters := Ages(buckets), Counters(amount, buckets);
    WeightsPositive(buckets, Multiplier(amount, buckets));
    RoundPositive(Weights(amount, buckets));
    forall i | 0 <= i < |ages|
      ensures Held(counters, ages[i]) == CounterAt(Weights(amount, buckets), amount, i)
    {
      CounterAtAge(amount, buckets, i);
      HeldIsCounter(amount, buckets, ages[i]);
    }
  }

  /** A payout hands out the whole amount, exactly when some node is old enough to be paid. */
  lemma Conservation(amount: nat, nodes: Nodes)
    ensures (exists n :: n in nodes && nodes[n].age >= MIN_REWARD_AGE) ==> Total(Amounts(Payout(amount, nodes))) == amount
    ensures !(exists n :: n in nodes && nodes[n].age >= MIN_REWARD_AGE) ==> Payout(amount, nodes) == map[]
  {
    var buckets := GetBuckets(nodes);
    if n :| n in nodes && nodes[n].age >= MIN_REWARD_AGE {
      assert nodes[n].age in buckets;
      var counters := Counters(amount, buckets);
      ClosedFormCounts(amount, buckets);
      CountersTotal(Ages(buckets), Weights(amount, buckets), amount, counters);
      BucketsReady(nodes, counters);
      ReadyBuckets(nodes, counters);
      PayoutTotal(nodes, counters);
    } else {
      assert buckets.Keys == {};
    }
  }

  lemma ReadyBuckets(nodes: Nodes, counters: map<nat, nat>)
    requires forall a :: a in counters ==> BucketReady(nodes, GetBuckets(nodes), a)
    ensures forall a :: a in counters ==> BucketOf(nodes, a).Keys != {}
  {
    forall a | a in counters ensures BucketOf(nodes, a).Keys != {} {
      assert BucketReady(nodes, GetBuckets(nodes), a);
    }
  }

  // ---------- how many nodes are counted ----------

  lemma NamesGrow(nodes: Nodes, ages: seq<nat>, k: nat)
    requires Increasing(ages) && k < |ages|
    ensures |NamesOf(nodes, Elements(ages[..k + 1]))| == |NamesOf(nodes, Elements(ages[..k]))| + |BucketOf(nodes, ages[k])|
  {
    var before, after := Elements(ages[..k]), Elements(ages[..k + 1]);
    assert ages[..k + 1] == ages[..k] + [ages[k]];
    assert ages[k] !in ages[..k];
    assert after - {ages[k]} == before;
    SplitNames(nodes, after, ages[k]);
    assert |BucketOf(nodes, ages[k])| == |BucketOf(nodes, ages[k]).Keys|;
  }

  lemma {:induction false} CountTo(nodes: Nodes, ages: seq<nat>, lens: seq<nat>, k: nat)
    requires Increasing(ages) && k <= |ages| == |lens|
    requires forall i :: 0 <= i < |ages| ==> lens[i] == |BucketOf(nodes, ages[i])|
    ensures SumTo(lens, k) == |NamesOf(nodes, Elements(ages[..k]))|
  {
    if k == 0 {
      assert NamesOf(nodes, Elements(ages[..0])) == {};
    } else {
      CountTo(nodes, ages, lens, k - 1);
      NamesGrow(nodes, ages, k - 1);
    }
  }

  function OldEnough(nodes: Nodes): set<XorName>
  {
    set n | n in nodes && nodes[n].age >= MIN_REWARD_AGE
  }

  lemma NamesAreOldEnough(nodes: Nodes, ages: seq<nat>)
    requires forall a :: a in ages <==> a in RewardedAges(nodes)
    ensures NamesOf(nodes, Elements(ages)) == OldEnough(nodes)
  {
  }

  lemma LengthsAre(nodes: Nodes, i: nat)
    requires i < |Ages(GetBuckets(nodes))|
    ensures Lengths(GetBuckets(nodes))[i] == |BucketOf(nodes, Ages(GetBuckets(nodes))[i])|
  {
    assert Ages(GetBuckets(nodes))[i] in Ages(GetBuckets(nodes));
  }

  lemma CountAll(nodes: Nodes, ages: seq<nat>, lens: seq<nat>)
    requires Increasing(ages) && |ages| == |lens| && forall a :: a in ages <==> a in RewardedAges(nodes)
    requires forall i :: 0 <= i < |ages| ==> lens[i] == |BucketOf(nodes, ages[i])|
    ensures SumTo(lens, |lens|) == |OldEnough(nodes)|
  {
    CountTo(nodes, ages, lens, |ages|);
    assert ages[..|ages|] == ages;
    NamesAreOldEnough(nodes, ages);
  }

  /** The node count of the payout is the number of nodes old enough to be paid. */
  lemma NodeCountIs(nodes: Nodes)
    ensures NodeCount(GetBuckets(nodes)) == |OldEnough(nodes)|
  {
    forall i | 0 <= i < |Ages(GetBuckets(nodes))|
      ensures Lengths(GetBuckets(nodes))[i] == |BucketOf(nodes, Ages(GetBuckets(nodes))[i])|
    {
      LengthsAre(nodes, i);
    }
    CountAll(nodes, Ages(GetBuckets(nodes)), Lengths(GetBuckets(nodes)));
  }
}
