/** The payout of an amount over the nodes of a section, in closed form, and the loops that compute it. */
module RewardPayout {
  import opened Collections
  import opened Arithmetic
  import opened RewardCalc

  type Payments = map<XorName, Reward>

  function IndexIn(q: seq<nat>, x: nat): (i: nat)
    requires x in q
    ensures i < |q| && q[i] == x
  {
    if q[0] == x then 0 else 1 + IndexIn(q[1..], x)
  }

  /** The final counter of an age, in closed form. */
  function CounterOf(amount: nat, buckets: Buckets, age: nat): nat
    requires Rewardable(buckets) && age in buckets
  {
    var ws := Weights(amount, buckets);
    WeightsPositive(buckets, Multiplier(amount, buckets));
    RoundPositive(ws);
    CounterAt(ws, amount, IndexIn(Ages(buckets), age))
  }

  function AllCounters(amount: nat, buckets: Buckets): map<nat, nat>
    requires Rewardable(buckets)
  {
    map a | a in buckets :: CounterOf(amount, buckets, a)
  }

  function Positives(m: map<nat, nat>): map<nat, nat>
  {
    map a | a in m && m[a] > 0 :: m[a]
  }

  /** The counters the loop ends with: an age the amount did not reach has none. */
  function Counters(amount: nat, buckets: Buckets): map<nat, nat>
    requires Rewardable(buckets)
  {
    Positives(AllCounters(amount, buckets))
  }

  lemma NonEmptyBucket(bucket: Bucket, n: XorName)
    requires n in bucket
    ensures |bucket| > 0 && bucket.Keys != {}
  {
    assert n in bucket.Keys;
  }

  /** An even share; the first node of the bucket also gets the remainder. */
  function NodeShare(bucket: Bucket, counter: nat, n: XorName): nat
    requires n in bucket
  {
    NonEmptyBucket(bucket, n);
    Quotient(counter, |bucket|) + if n == Least(bucket.Keys) then Remainder(counter, |bucket|) else 0
  }

  function NodeReward(nodes: Nodes, counters: map<nat, nat>, n: XorName): Reward
    requires n in nodes && nodes[n].age in counters
  {
    var node := nodes[n];
    Reward(node.age, node.wallet, NodeShare(BucketOf(nodes, node.age), counters[node.age], n))
  }

  /** Every node whose age has a counter is paid its share of that counter. */
  function PayoutBy(nodes: Nodes, counters: map<nat, nat>): Payments
  {
    map n | n in nodes && nodes[n].age in counters :: NodeReward(nodes, counters, n)
  }

  function Payout(amount: nat, nodes: Nodes): Payments
  {
    var buckets := GetBuckets(nodes);
    if buckets == map[] then map[] else PayoutBy(nodes, Counters(amount, buckets))
  }

  // ---------- the loops compute it ----------

  /** The names in `done` hold their reward from this bucket; all else is as before. */
  ghost predicate BucketPaid(before: Payments, after: Payments, age: nat, bucket: Bucket, reward: nat, done: set<nat>)
  {
    && after.Keys == before.Keys + done
    && (forall n :: n in done ==> n in bucket && after[n] == Reward(age, bucket[n], NodeShare(bucket, reward, n)))
    && (forall n :: n in before && n !in done ==> after[n] == before[n])
  }

  method PayBucket(age: nat, bucket: Bucket, reward: nat, paid: Payments) returns (paid': Payments)
    requires bucket.Keys != {}
    ensures BucketPaid(paid, paid', age, bucket, reward, bucket.Keys)
  {
    assert |bucket| > 0;
    var rewardPerWallet := Quotient(reward, |bucket|);
    var remainder := Remainder(reward, |bucket|);
    paid' := paid;
    var firstAdded := false;
    var todo := bucket.Keys;
    while todo != {}
      invariant todo <= bucket.Keys
      invariant firstAdded <==> Least(bucket.Keys) !in todo
      invariant BucketPaid(paid, paid', age, bucket, reward, bucket.Keys - todo)
    {
      var name := Least(todo);
      var share := if firstAdded then rewardPerWallet else rewardPerWallet + remainder;
      assert share == NodeShare(bucket, reward, name);
      paid' := paid'[name := Reward(age, bucket[name], share)];
      firstAdded := true;
      todo := todo - {name};
    }
    assert bucket.Keys - todo == bucket.Keys;
  }

  ghost predicate AgesPaid(paid: Payments, nodes: Nodes, counters: map<nat, nat>, ages: set<nat>)
  {
    && ages <= counters.Keys
    && (forall n :: n in paid <==> n in nodes && nodes[n].age in ages)
    && forall n :: n in paid ==> paid[n] == NodeReward(nodes, counters, n)
  }

  lemma PayNextAge(paid: Payments, paid': Payments, nodes: Nodes, counters: map<nat, nat>, ages: set<nat>, age: nat)
    requires AgesPaid(paid, nodes, counters, ages) && age in counters
    requires BucketPaid(paid, paid', age, BucketOf(nodes, age), counters[age], BucketOf(nodes, age).Keys)
    ensures AgesPaid(paid', nodes, counters, ages + {age})
  {
    var bucket := BucketOf(nodes, age);
    assert forall n :: n in bucket <==> n in nodes && nodes[n].age == age;
    forall n | n in paid' ensures n in nodes && nodes[n].age in ages + {age} && paid'[n] == NodeReward(nodes, counters, n) {
      assert n in bucket || n in paid;
    }
  }

  ghost predicate BucketReady(nodes: Nodes, buckets: Buckets, age: nat)
  {
    age in buckets && buckets[age] == BucketOf(nodes, age) && buckets[age].Keys != {}
  }

  lemma BucketsReady(nodes: Nodes, counters: map<nat, nat>)
    requires counters.Keys <= GetBuckets(nodes).Keys
    ensures forall a :: a in counters ==> BucketReady(nodes, GetBuckets(nodes), a)
  {
    var buckets := GetBuckets(nodes);
    forall a | a in counters ensures BucketReady(nodes, buckets, a) {
      assert |buckets[a]| > 0;
    }
  }

  method PayAll(nodes: Nodes, buckets: Buckets, counters: map<nat, nat>) returns (payout: Payments)
    requires forall a :: a in counters ==> BucketReady(nodes, buckets, a)
    ensures payout == PayoutBy(nodes, counters)
  {
    payout := map[];
    var todo := counters.Keys;
    while todo != {}
      invariant todo <= counters.Keys
      invariant AgesPaid(payout, nodes, counters, counters.Keys - todo)
    {
      var age := Least(todo);
      ghost var before := payout;
      assert BucketReady(nodes, buckets, age);
      payout := PayBucket(age, buckets[age], counters[age], payout);
      PayNextAge(before, payout, nodes, counters, counters.Keys - todo, age);
      TakenFrom(counters.Keys, todo, age);
      todo := todo - {age};
    }
    assert counters.Keys - todo == counters.Keys;
    PaidIsPayout(nodes, counters, payout);
  }

  lemma PaidIsPayout(nodes: Nodes, counters: map<nat, nat>, paid: Payments)
    requires AgesPaid(paid, nodes, counters, counters.Keys)
    ensures paid == PayoutBy(nodes, counters)
  {
  }

  /** `distribute_rewards`: the buckets, the counter rounds and the payout loops. */
  method DistributeRewards(amount: nat, nodes: Nodes) returns (payout: Payments, ghost rounds: nat)
    ensures payout == Payout(amount, nodes)
    ensures GetBuckets(nodes) != map[] ==>
              var ws := Weights(amount, GetBuckets(nodes));
              SumTo(ws, |ws|) > 0 && rounds == Rounds(ws, amount)
  {
    var buckets := ComputeBuckets(nodes);
    payout, rounds := map[], 0;
    if buckets == map[] {
      return;
    }
    var counters: map<nat, nat>;
    counters, rounds := FillCounters(amount, buckets, Multiplier(amount, buckets));
    CountersAreClosedForm(amount, buckets, counters);
    BucketsReady(nodes, counters);
    payout := PayAll(nodes, buckets, counters);
  }

  lemma CountersAreClosedForm(amount: nat, buckets: Buckets, counters: map<nat, nat>)
    requires Rewardable(buckets)
    requires CountersWithin(counters, Ages(buckets))
    requires Counted(Ages(buckets), Weights(amount, buckets), amount, counters)
    ensures counters == Counters(amount, buckets)
  {
    forall a | a in buckets ensures Held(counters, a) == CounterOf(amount, buckets, a) {
      assert a in Ages(buckets);
    }
    SameCounters(AllCounters(amount, buckets), counters);
  }

  lemma SameCounters(all: map<nat, nat>, counters: map<nat, nat>)
    requires forall a :: a in counters ==> a in all && counters[a] > 0
    requires forall a :: a in all ==> Held(counters, a) == all[a]
    ensures counters == Positives(all)
  {
  }
}
