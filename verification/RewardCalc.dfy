/** Minting against the section cap and splitting an amount over nodes by age. */
module RewardCalc {
  import opened Collections
  import opened Decimals
  import opened Arithmetic

  const MAX_SUPPLY: nat := 0xFFFF_FFFF * 1_000_000_000
  const MIN_REWARD_AGE: nat := 6

  datatype Node = Node(age: nat, wallet: PublicKey)
  datatype Reward = Reward(age: nat, wallet: PublicKey, amount: nat)

  type Nodes = map<XorName, Node>
  type Bucket = map<XorName, PublicKey>
  type Buckets = map<nat, Bucket>

  /** The amount to pay out: payments plus minted, or payments minus burned, tokens. */
  function RewardAndMintAmount(payments: nat, managed: nat, cap: nat): nat
  {
    if cap > managed then
      payments + Min(payments, cap - managed)
    else
      var excess := managed - cap;
      if payments > excess then payments - excess else 0
  }

  // ---------- buckets ----------

  function RewardedAges(nodes: Nodes): set<nat>
  {
    set n | n in nodes && nodes[n].age >= MIN_REWARD_AGE :: nodes[n].age
  }

  function BucketOf(nodes: Nodes, age: nat): Bucket
  {
    map n | n in nodes && nodes[n].age == age :: nodes[n].wallet
  }

  /** Nodes old enough for a reward, grouped by age. */
  function GetBuckets(nodes: Nodes): (b: Buckets)
    ensures b.Keys == RewardedAges(nodes)
    ensures forall a :: a in b ==> a >= MIN_REWARD_AGE && |b[a]| > 0
  {
    var b := map a | a in RewardedAges(nodes) :: BucketOf(nodes, a);
    assert forall a :: a in b ==> |b[a]| > 0 by {
      forall a | a in b ensures |b[a]| > 0 {
        var n :| n in nodes && nodes[n].age == a;
        assert n in b[a];
      }
    }
    b
  }

  /** The buckets built from the nodes visited so far. */
  ghost predicate Groups(buckets: Buckets, nodes: Nodes)
  {
    && buckets.Keys == RewardedAges(nodes)
    && forall a :: a in buckets ==> buckets[a] == BucketOf(nodes, a)
  }

  /** A node old enough enters the bucket of its age, creating the bucket if needed. */
  function AddNode(buckets: Buckets, name: XorName, node: Node): Buckets
  {
    if node.age < MIN_REWARD_AGE then buckets
    else
      var bucket: Bucket := if node.age in buckets then buckets[node.age] else map[];
      var grown: Bucket := bucket[name := node.wallet];
      buckets[node.age := grown]
  }

  /** The insertion loop computes the grouping. */
  method ComputeBuckets(nodes: Nodes) returns (buckets: Buckets)
    ensures buckets == GetBuckets(nodes)
  {
    buckets := map[];
    var todo := nodes.Keys;
    ghost var seen: Nodes := map[];
    while todo != {}
      invariant todo <= nodes.Keys && seen == nodes - todo
      invariant Groups(buckets, seen)
    {
      var name := Least(todo);
      GrowBuckets(buckets, seen, name, nodes[name]);
      buckets := AddNode(buckets, name, nodes[name]);
      SeenNext(nodes, todo, name);
      seen, todo := seen[name := nodes[name]], todo - {name};
    }
    assert seen == nodes;
    GroupsUnique(buckets, nodes);
  }

  lemma SeenNext(nodes: Nodes, todo: set<nat>, name: XorName)
    requires todo <= nodes.Keys && name in todo
    ensures (nodes - todo)[name := nodes[name]] == nodes - (todo - {name})
  {
  }

  lemma GroupsUnique(buckets: Buckets, nodes: Nodes)
    requires Groups(buckets, nodes)
    ensures buckets == GetBuckets(nodes)
  {
  }

  /** Adding one node adds it to the bucket of its age and touches no other bucket. */
  lemma GrowBuckets(b: Buckets, seen: Nodes, name: XorName, node: Node)
    requires name !in seen && Groups(b, seen)
    ensures Groups(AddNode(b, name, node), seen[name := node])
  {
    GrowAges(seen, name, node);
    forall a
      ensures BucketOf(seen[name := node], a) ==
              if a == node.age then BucketOf(seen, a)[name := node.wallet] else BucketOf(seen, a)
    {
      GrowBucket(seen, name, node, a);
    }
    if node.age !in b && node.age >= MIN_REWARD_AGE {
      assert BucketOf(seen, node.age) == map[];
    }
  }

  lemma GrowAges(seen: Nodes, name: XorName, node: Node)
    requires name !in seen
    ensures RewardedAges(seen[name := node]) ==
            RewardedAges(seen) + if node.age >= MIN_REWARD_AGE then {node.age} else {}
  {
    var next := seen[name := node];
    assert next[name] == node;
    forall a | a in RewardedAges(seen) ensures a in RewardedAges(next) {
      var n :| n in seen && seen[n].age == a;
      assert next[n].age == a;
    }
  }

  lemma GrowBucket(seen: Nodes, name: XorName, node: Node, a: nat)
    requires name !in seen
    ensures BucketOf(seen[name := node], a) ==
            if a == node.age then BucketOf(seen, a)[name := node.wallet] else BucketOf(seen, a)
  {
  }

  // ---------- weights ----------

  function Ages(buckets: Buckets): seq<nat>
  {
    SortedKeys(buckets.Keys)
  }

  function Lengths(buckets: Buckets): (q: seq<nat>)
    ensures |q| == |Ages(buckets)|
    ensures forall i :: 0 <= i < |q| ==> q[i] == |buckets[Ages(buckets)[i]]|
  {
    var ages := Ages(buckets);
    seq(|ages|, i requires 0 <= i < |ages| => |buckets[ages[i]]|)
  }

  function NodeCount(buckets: Buckets): nat
  {
    SumTo(Lengths(buckets), |Lengths(buckets)|)
  }

  ghost predicate Rewardable(buckets: Buckets)
  {
    buckets != map[] && forall a :: a in buckets ==> a >= MIN_REWARD_AGE && |buckets[a]| > 0
  }

  lemma AgesOf(buckets: Buckets)
    requires Rewardable(buckets)
    ensures |Ages(buckets)| > 0
    ensures forall i :: 0 <= i < |Ages(buckets)| ==>
              Ages(buckets)[i] in buckets && Ages(buckets)[i] >= MIN_REWARD_AGE && Lengths(buckets)[i] > 0
  {
    assert |buckets.Keys| > 0;
    forall i | 0 <= i < |Ages(buckets)| ensures Ages(buckets)[i] in buckets {
      assert Ages(buckets)[i] in Ages(buckets);
    }
  }

  lemma IndexOfAge(buckets: Buckets, age: nat) returns (i: nat)
    requires age in buckets
    ensures i < |Ages(buckets)| && Ages(buckets)[i] == age
  {
    assert age in Ages(buckets);
    i :| 0 <= i < |Ages(buckets)| && Ages(buckets)[i] == age;
  }

  function MaxAge(buckets: Buckets): (a: nat)
    requires Rewardable(buckets)
    ensures a in buckets && a >= MIN_REWARD_AGE
  {
    AgesOf(buckets);
    Ages(buckets)[|Ages(buckets)| - 1]
  }

  lemma MaxAgeIsMax(buckets: Buckets, age: nat)
    requires Rewardable(buckets) && age in buckets
    ensures age <= MaxAge(buckets)
  {
    var i := IndexOfAge(buckets, age);
  }

  lemma CountPositive(buckets: Buckets)
    requires Rewardable(buckets)
    ensures NodeCount(buckets) > 0
  {
    AgesOf(buckets);
    var q := Lengths(buckets);
    SumToMonotone(q, 1, |q|);
    assert SumTo(q, 1) == SumTo(q, 0) + q[0];
  }

  lemma {:induction false} TimesPositive(k: nat, w: nat)
    requires k > 0 && w > 0
    ensures Times(k, w) > 0
  {
  }

  /** The factor that shortens the loop: share / divisor, with share = amount / (maxAge * nodeCount)
      and divisor = maxAge * digits(amount), but at least one. */
  function ShareFactor(amount: nat, maxAge: nat, nodeCount: nat): (m: nat)
    requires maxAge > 0 && nodeCount > 0
    ensures m >= 1
  {
    TimesPositive(maxAge, nodeCount);
    TimesPositive(maxAge, |Decimal(amount)|);
    var share := Quotient(amount, Times(maxAge, nodeCount));
    var divisor := Times(maxAge, |Decimal(amount)|);
    Max(1, Quotient(share, divisor))
  }

  function Multiplier(amount: nat, buckets: Buckets): (m: nat)
    requires Rewardable(buckets)
    ensures m >= 1
  {
    CountPositive(buckets);
    ShareFactor(amount, MaxAge(buckets), NodeCount(buckets))
  }

  /** One round's reward of a bucket: 2^age * nodes * multiplier. */
  function Weight(age: nat, nodes: nat, multiplier: nat): nat
  {
    Times(multiplier, Times(nodes, Pow2(age)))
  }

  lemma WeightPositive(age: nat, nodes: nat, multiplier: nat)
    requires nodes > 0 && multiplier > 0
    ensures Weight(age, nodes, multiplier) > 0
  {
    TimesPositive(nodes, Pow2(age));
    TimesPositive(multiplier, Times(nodes, Pow2(age)));
  }

  lemma WeightIs(age: nat, nodes: nat, multiplier: nat)
    ensures Weight(age, nodes, multiplier) == (Pow2(age) * nodes) * multiplier
  {
    var y := Times(nodes, Pow2(age));
    assert y == Pow2(age) * nodes by { TimesIs(nodes, Pow2(age)); }
    assert Times(multiplier, y) == y * multiplier by { TimesIs(multiplier, y); }
  }

  /** What one full round hands to each age, in age order. */
  function WeightsBy(buckets: Buckets, multiplier: nat): (ws: seq<nat>)
    ensures |ws| == |Ages(buckets)|
    ensures forall i :: 0 <= i < |ws| ==> ws[i] == Weight(Ages(buckets)[i], Lengths(buckets)[i], multiplier)
  {
    var ages, lens := Ages(buckets), Lengths(buckets);
    seq(|ages|, i requires 0 <= i < |ages| => Weight(ages[i], lens[i], multiplier))
  }

  function Weights(amount: nat, buckets: Buckets): seq<nat>
    requires Rewardable(buckets)
  {
    WeightsBy(buckets, Multiplier(amount, buckets))
  }

  lemma WeightsPositive(buckets: Buckets, multiplier: nat)
    requires Rewardable(buckets) && multiplier > 0
    ensures Positive(WeightsBy(buckets, multiplier))
  {
    AgesOf(buckets);
    var ages, lens := Ages(buckets), Lengths(buckets);
    forall i | 0 <= i < |ages| ensures Weight(ages[i], lens[i], multiplier) > 0 {
      WeightPositive(ages[i], lens[i], multiplier);
    }
  }

  // ---------- closed form of the counters ----------

  /** What entry i gets when r units are poured over the entries in order. */
  function Fill(ws: seq<nat>, r: nat, i: nat): nat
    requires i < |ws|
  {
    Min(ws[i], Monus(r, SumTo(ws, i)))
  }

  /** Full rounds, then the last partial round. */
  function CounterAt(ws: seq<nat>, amount: nat, i: nat): nat
    requires i < |ws| && SumTo(ws, |ws|) > 0
  {
    var round := SumTo(ws, |ws|);
    Times(Quotient(amount, round), ws[i]) + Fill(ws, Remainder(amount, round), i)
  }

  function Rounds(ws: seq<nat>, amount: nat): nat
    requires SumTo(ws, |ws|) > 0
  {
    if amount == 0 then 0 else Quotient(amount - 1, SumTo(ws, |ws|)) + 1
  }

  ghost predicate Positive(ws: seq<nat>)
  {
    |ws| > 0 && forall i :: 0 <= i < |ws| ==> ws[i] > 0
  }

  lemma RoundPositive(ws: seq<nat>)
    requires Positive(ws)
    ensures SumTo(ws, |ws|) > 0
  {
    assert SumTo(ws, |ws|) == SumTo(ws, |ws| - 1) + ws[|ws| - 1];
  }

  lemma FullRound(ws: seq<nat>, r: nat)
    requires SumTo(ws, |ws|) <= r
    ensures forall i :: 0 <= i < |ws| ==> Fill(ws, r, i) == ws[i]
  {
    forall i | 0 <= i < |ws| ensures Fill(ws, r, i) == ws[i] {
      SumToMonotone(ws, i + 1, |ws|);
    }
  }

  lemma EmptyTail(ws: seq<nat>, r: nat, j: nat)
    requires j <= |ws| && r <= SumTo(ws, j)
    ensures forall i :: j <= i < |ws| ==> Fill(ws, r, i) == 0
  {
    forall i | j <= i < |ws| ensures Fill(ws, r, i) == 0 {
      SumToMonotone(ws, j, i);
    }
  }

  lemma {:induction false} LastRoundQuotient(round: nat, amount: nat, rounds: nat, rest: nat)
    requires amount == Times(rounds, round) + rest
    requires 0 < rest <= round
    ensures Quotient(amount - 1, round) == rounds
    ensures rest < round ==> Quotient(amount, round) == rounds && Remainder(amount, round) == rest
    ensures rest == round ==> Quotient(amount, round) == rounds + 1 && Remainder(amount, round) == 0
  {
    if rounds > 0 {
      LastRoundQuotient(round, amount - round, rounds - 1, rest);
    }
  }

  /** The state when the last round starts determines the counters. */
  lemma LastRound(ws: seq<nat>, amount: nat, rounds: nat, rest: nat)
    requires SumTo(ws, |ws|) > 0
    requires amount == Times(rounds, SumTo(ws, |ws|)) + rest
    requires 0 < rest <= SumTo(ws, |ws|)
    ensures Rounds(ws, amount) == rounds + 1
    ensures forall i :: 0 <= i < |ws| ==> CounterAt(ws, amount, i) == Times(rounds, ws[i]) + Fill(ws, rest, i)
  {
    LastRoundQuotient(SumTo(ws, |ws|), amount, rounds, rest);
    if rest == SumTo(ws, |ws|) {
      FullRound(ws, rest);
      EmptyTail(ws, 0, 0);
    }
  }

  // ---------- the loops ----------

  function Held(counters: map<nat, nat>, age: nat): nat
  {
    if age in counters then counters[age] else 0
  }

  ghost predicate CountersWithin(counters: map<nat, nat>, ages: seq<nat>)
  {
    forall a :: a in counters ==> a in ages && counters[a] > 0
  }

  /** The counters hold, age by age, what they held before plus the poured amounts. */
  ghost predicate Poured(ages: seq<nat>, ws: seq<nat>, before: map<nat, nat>, after: map<nat, nat>, r: nat, j: nat)
    requires j <= |ages| == |ws|
  {
    && (forall i :: 0 <= i < j ==> Held(after, ages[i]) == Held(before, ages[i]) + Fill(ws, r, i))
    && (forall i :: j <= i < |ages| ==> Held(after, ages[i]) == Held(before, ages[i]))
  }

  /** Where the inner loop stands after j ages of a round that started with r. */
  ghost predicate RoundState(ages: seq<nat>, ws: seq<nat>, before: map<nat, nat>, after: map<nat, nat>,
                             r: nat, rest: nat, j: nat)
    requires j <= |ages| == |ws|
  {
    && CountersWithin(after, ages)
    && rest == Monus(r, SumTo(ws, j))
    && Poured(ages, ws, before, after, r, j)
  }

  /** A counter goes up by a reward, starting at the reward. */
  function Credited(counters: map<nat, nat>, age: nat, reward: nat): map<nat, nat>
  {
    counters[age := Held(counters, age) + reward]
  }

  lemma RoundStep(ages: seq<nat>, ws: seq<nat>, before: map<nat, nat>, after: map<nat, nat>, r: nat, rest: nat, j: nat)
    requires j < |ages| == |ws| && Positive(ws) && Increasing(ages)
    requires rest > 0 && RoundState(ages, ws, before, after, r, rest, j)
    ensures
      var reward := Min(ws[j], rest);
      RoundState(ages, ws, before, Credited(after, ages[j], reward), r, rest - reward, j + 1)
  {
    assert SumTo(ws, j + 1) == SumTo(ws, j) + ws[j];
    assert Min(ws[j], rest) == Fill(ws, r, j);
    assert ages[j] in ages;
  }

  lemma RoundDone(ages: seq<nat>, ws: seq<nat>, before: map<nat, nat>, after: map<nat, nat>, r: nat, rest: nat, j: nat)
    requires j <= |ages| == |ws|
    requires RoundState(ages, ws, before, after, r, rest, j)
    requires j == |ages| || rest == 0
    ensures RoundState(ages, ws, before, after, r, rest, |ages|)
  {
    if j < |ages| {
      EmptyTail(ws, r, j);
      SumToMonotone(ws, j, |ws|);
    }
  }

  ghost predicate WeighsAt(ws: seq<nat>, buckets: Buckets, ages: seq<nat>, multiplier: nat, i: nat)
    requires i < |ages| == |ws|
  {
    ages[i] in buckets && ws[i] == Weight(ages[i], |buckets[ages[i]]|, multiplier)
  }

  ghost predicate Weighs(ws: seq<nat>, buckets: Buckets, ages: seq<nat>, multiplier: nat)
  {
    |ws| == |ages| && forall i :: 0 <= i < |ages| ==> WeighsAt(ws, buckets, ages, multiplier, i)
  }

  /** Every tick up in age stands for about double the work. */
  method RoundReward(buckets: Buckets, ages: seq<nat>, multiplier: nat, ghost ws: seq<nat>, j: nat, remaining: nat)
    returns (reward: nat)
    requires Weighs(ws, buckets, ages, multiplier) && j < |ages|
    ensures reward == Min(ws[j], remaining)
  {
    assert WeighsAt(ws, buckets, ages, multiplier, j);
    reward := Min(Weight(ages[j], |buckets[ages[j]]|, multiplier), remaining);
  }

  /** Counters and remaining amount together are the amount. */
  ghost predicate Sums(counters: map<nat, nat>, remaining: nat, amount: nat)
  {
    Total(counters) + remaining == amount
  }

  lemma SumsStep(counters: map<nat, nat>, remaining: nat, amount: nat, age: nat, reward: nat)
    requires Sums(counters, remaining, amount) && reward <= remaining
    ensures Sums(Credited(counters, age, reward), remaining - reward, amount)
  {
    CounterRaised(counters, age, reward);
  }

  lemma CounterRaised(counters: map<nat, nat>, age: nat, reward: nat)
    ensures Total(Credited(counters, age, reward)) == Total(counters) + reward
  {
    if age in counters {
      TotalUpdate(counters, age, counters[age] + reward);
    } else {
      TotalInsert(counters, age, reward);
    }
  }

  /** While counters and remaining amount sum to the amount, no counter exceeds it. */
  lemma CounterWithin(counters: map<nat, nat>, remaining: nat, amount: nat, age: nat)
    requires Sums(counters, remaining, amount)
    ensures Held(counters, age) + remaining <= amount
  {
    if age in counters {
      TotalRemove(counters, age);
    }
  }

  /** One pass of the inner loop, leaving early when the amount is used up. */
  method FillRound(buckets: Buckets, ages: seq<nat>, multiplier: nat, ghost ws: seq<nat>,
                   counters: map<nat, nat>, remaining: nat)
    returns (counters': map<nat, nat>, remaining': nat)
    requires Weighs(ws, buckets, ages, multiplier) && Positive(ws) && Increasing(ages)
    requires remaining > 0
    requires CountersWithin(counters, ages)
    ensures RoundState(ages, ws, counters, counters', remaining, remaining', |ages|)
    ensures Sums(counters', remaining', Total(counters) + remaining)
  {
    counters', remaining' := counters, remaining;
    var j: nat := 0;
    while j < |ages| && remaining' > 0
      invariant j <= |ages|
      invariant Sums(counters', remaining', Total(counters) + remaining)
      invariant RoundState(ages, ws, counters, counters', remaining, remaining', j)
    {
      var reward := RoundReward(buckets, ages, multiplier, ws, j, remaining');
      RoundStep(ages, ws, counters, counters', remaining, remaining', j);
      SumsStep(counters', remaining', Total(counters) + remaining, ages[j], reward);
      counters' := Credited(counters', ages[j], reward);
      remaining' := remaining' - reward;
      j := j + 1;
    }
    RoundDone(ages, ws, counters, counters', remaining, remaining', j);
  }

  /** The counters agree with the closed form. */
  ghost predicate Counted(ages: seq<nat>, ws: seq<nat>, amount: nat, counters: map<nat, nat>)
    requires |ages| == |ws|
  {
    && SumTo(ws, |ws|) > 0
    && forall i :: 0 <= i < |ws| ==> Held(counters, ages[i]) == CounterAt(ws, amount, i)
  }

  lemma NothingToCount(ages: seq<nat>, ws: seq<nat>)
    requires |ages| == |ws| && SumTo(ws, |ws|) > 0
    ensures Counted(ages, ws, 0, map[])
  {
    EmptyTail(ws, 0, 0);
  }

  /** The outer loop refines the closed form, in exactly `Rounds` rounds. */
  method FillCounters(amount: nat, buckets: Buckets, multiplier: nat) returns (counters: map<nat, nat>, ghost rounds: nat)
    requires Rewardable(buckets) && multiplier > 0
    ensures CountersWithin(counters, Ages(buckets))
    ensures Counted(Ages(buckets), WeightsBy(buckets, multiplier), amount, counters)
    ensures rounds == Rounds(WeightsBy(buckets, multiplier), amount)
  {
    var ages := Ages(buckets);
    ghost var ws := WeightsBy(buckets, multiplier);
    AgesOf(buckets);
    WeightsPositive(buckets, multiplier);
    RoundPositive(ws);
    assert Weighs(ws, buckets, ages, multiplier);
    NothingToCount(ages, ws);
    counters, rounds := map[], 0;
    var remaining := amount;
    while remaining > 0
      invariant CountersWithin(counters, ages)
      invariant Sums(counters, remaining, amount)
      invariant remaining > 0 ==> MidRound(ages, ws, amount, counters, rounds, remaining)
      invariant remaining == 0 ==> rounds == Rounds(ws, amount) && Counted(ages, ws, amount, counters)
    {
      ghost var before, start := counters, remaining;
      counters, remaining := FillRound(buckets, ages, multiplier, ws, counters, remaining);
      NextRound(ages, ws, amount, before, counters, rounds, start);
      rounds := rounds + 1;
    }
  }

  /** Between rounds every age has had the same number of full rounds. */
  ghost predicate MidRound(ages: seq<nat>, ws: seq<nat>, amount: nat, counters: map<nat, nat>, rounds: nat, rest: nat)
    requires |ages| == |ws|
  {
    && amount == Times(rounds, SumTo(ws, |ws|)) + rest
    && forall i :: 0 <= i < |ws| ==> Held(counters, ages[i]) == Times(rounds, ws[i])
  }

  lemma NextRound(ages: seq<nat>, ws: seq<nat>, amount: nat, before: map<nat, nat>, after: map<nat, nat>, rounds: nat, rest: nat)
    requires |ages| == |ws| && Positive(ws) && rest > 0
    requires SumTo(ws, |ws|) > 0
    requires MidRound(ages, ws, amount, before, rounds, rest)
    requires Poured(ages, ws, before, after, rest, |ages|)
    ensures
      var left := Monus(rest, SumTo(ws, |ws|));
      if left > 0 then MidRound(ages, ws, amount, after, rounds + 1, left)
      else Rounds(ws, amount) == rounds + 1 && Counted(ages, ws, amount, after)
  {
    var round := SumTo(ws, |ws|);
    if rest > round {
      FullRound(ws, rest);
    } else {
      LastRound(ws, amount, rounds, rest);
    }
  }
}
