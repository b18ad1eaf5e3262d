/** How many rounds the payout loop can take, and when its 64-bit arithmetic stays in range. */
module RewardBounds {
  import opened Decimals
  import opened Arithmetic
  import opened RewardCalc
  import opened SupplyCap

  const U64_LIMIT: nat := 0x1_0000_0000_0000_0000

  /** 2^51 * 13^2 * 19: the least amount some section of ages up to 13 cannot be paid. */
  const SAFE_AMOUNT: nat := 0x8_0000_0000_0000 * 3211

  // ---------- facts about the multiplier ----------

  /** The multiplier is the amount divided by maxAge^2 * nodes * digits, or one. */
  lemma FactorValue(amount: nat, maxAge: nat, nodeCount: nat)
    requires maxAge > 0 && nodeCount > 0
    ensures
      var scale := (maxAge * nodeCount) * (maxAge * |Decimal(amount)|);
      scale > 0 && ShareFactor(amount, maxAge, nodeCount) == Max(1, amount / scale)
  {
    var d := |Decimal(amount)|;
    MulPos(maxAge, nodeCount);
    MulPos(maxAge, d);
    MulPos(maxAge * nodeCount, maxAge * d);
    TimesIs(maxAge, nodeCount);
    TimesIs(maxAge, d);
    QuotientIs(amount, maxAge * nodeCount);
    QuotientIs(amount / (maxAge * nodeCount), maxAge * d);
    DivDiv(amount, maxAge * nodeCount, maxAge * d);
  }

  lemma ScaleShape(maxAge: nat, nodeCount: nat, d: nat)
    ensures (maxAge * nodeCount) * (maxAge * d) == (maxAge * maxAge * d) * nodeCount
  {
    MulAssoc(maxAge, nodeCount, maxAge * d);
    assert nodeCount * (maxAge * d) == (maxAge * d) * nodeCount;
    MulAssoc(maxAge, maxAge * d, nodeCount);
    MulAssoc(maxAge, maxAge, d);
  }

  /** The amount is less than twice the multiplier times maxAge^2 * digits * nodes. */
  lemma FactorCovers(amount: nat, maxAge: nat, nodeCount: nat)
    requires maxAge > 0 && nodeCount > 0
    ensures
      var scale := (maxAge * maxAge * |Decimal(amount)|) * nodeCount;
      amount < 2 * (ShareFactor(amount, maxAge, nodeCount) * scale)
  {
    var m := ShareFactor(amount, maxAge, nodeCount);
    FactorValue(amount, maxAge, nodeCount);
    ScaleShape(maxAge, nodeCount, |Decimal(amount)|);
    var scale := (maxAge * maxAge * |Decimal(amount)|) * nodeCount;
    DivBounds(amount, scale);
    MulMono(amount / scale + 1, m + m, scale);
    MulDistrib(m, m, scale);
  }

  // ---------- the iteration bound ----------

  lemma {:induction false} WeightsSum(lens: seq<nat>, ws: seq<nat>, multiplier: nat, k: nat)
    requires k <= |lens| == |ws|
    requires forall i :: 0 <= i < |ws| ==> ws[i] >= 64 * Times(multiplier, lens[i])
    ensures SumTo(ws, k) >= 64 * Times(multiplier, SumTo(lens, k))
  {
    if k == 0 {
      TimesIs(multiplier, 0);
    } else {
      WeightsSum(lens, ws, multiplier, k - 1);
      TimesAdd(multiplier, SumTo(lens, k - 1), lens[k - 1]);
    }
  }

  lemma WeightAtLeast(age: nat, nodes: nat, multiplier: nat)
    requires age >= MIN_REWARD_AGE
    ensures Weight(age, nodes, multiplier) >= 64 * Times(multiplier, nodes)
  {
    TimesIs(multiplier, nodes);
    WeightIs(age, nodes, multiplier);
    Pow2Monotone(6, age);
    assert Pow2(6) == 64 by {
      assert Pow2(3) == 8;
      assert Pow2(5) == 4 * Pow2(3);
    }
    MulAssoc(Pow2(age), nodes, multiplier);
    MulMono(64, Pow2(age), nodes * multiplier);
  }

  /** (T - 1) full rounds fit below the amount, so 32 (T - 1) is below maxAge^2 * digits. */
  lemma RoundsCancel(t: nat, m: nat, n: nat, x: nat, round: nat, amount: nat)
    requires m > 0 && n > 0
    requires t * round < amount
    requires round >= 64 * (m * n)
    requires amount < 2 * (m * (x * n))
    ensures 32 * t < x
  {
    var c := m * n;
    MulMono(64 * c, round, t);
    assert t * (64 * c) < 2 * (m * (x * n));
    MulAssoc(m, x, n);
    assert m * x == x * m;
    MulAssoc(x, m, n);
    assert m * (x * n) == x * c;
    assert t * (64 * c) == 2 * ((32 * t) * c) by { MulAssoc(32, t, c); }
    MulLtCancel(32 * t, x, c);
  }

  /** One round hands out at least 64 * multiplier per node. */
  lemma RoundAtLeast(amount: nat, buckets: Buckets)
    requires Rewardable(buckets)
    ensures
      var ws := Weights(amount, buckets);
      SumTo(ws, |ws|) >= 64 * Times(Multiplier(amount, buckets), NodeCount(buckets))
  {
    var ws, m, lens := Weights(amount, buckets), Multiplier(amount, buckets), Lengths(buckets);
    AgesOf(buckets);
    forall i | 0 <= i < |ws| ensures ws[i] >= 64 * Times(m, lens[i]) {
      WeightAtLeast(Ages(buckets)[i], lens[i], m);
    }
    WeightsSum(lens, ws, m, |ws|);
  }

  lemma RoundsBound(round: nat, m: nat, n: nat, x: nat, amount: nat)
    requires m > 0 && n > 0 && round > 0 && amount > 0
    requires round >= 64 * (m * n)
    requires amount < 2 * (m * (x * n))
    ensures 32 * Quotient(amount - 1, round) < x
  {
    var t := Quotient(amount - 1, round);
    QuotientIs(amount - 1, round);
    DivBounds(amount - 1, round);
    RoundsCancel(t, m, n, x, round, amount);
  }

  function LoopLimit(maxAge: nat, amount: nat): nat
  {
    Times(maxAge, Times(maxAge, |Decimal(amount)|))
  }

  lemma LimitIs(maxAge: nat, amount: nat)
    ensures LoopLimit(maxAge, amount) == maxAge * maxAge * |Decimal(amount)|
  {
    var d := |Decimal(amount)|;
    assert Times(maxAge, d) == maxAge * d by { TimesIs(maxAge, d); }
    assert LoopLimit(maxAge, amount) == maxAge * (maxAge * d) by { TimesIs(maxAge, maxAge * d); }
    MulAssoc(maxAge, maxAge, d);
  }

  lemma LimitCovers(amount: nat, maxAge: nat, nodeCount: nat, round: nat)
    requires maxAge > 0 && nodeCount > 0 && amount > 0 && round > 0
    requires round >= 64 * Times(ShareFactor(amount, maxAge, nodeCount), nodeCount)
    ensures 32 * Quotient(amount - 1, round) < LoopLimit(maxAge, amount)
  {
    var m := ShareFactor(amount, maxAge, nodeCount);
    assert Times(m, nodeCount) == m * nodeCount by { TimesIs(m, nodeCount); }
    LimitIs(maxAge, amount);
    FactorCovers(amount, maxAge, nodeCount);
    RoundsBound(round, m, nodeCount, LoopLimit(maxAge, amount), amount);
  }

  /** For a positive amount, T rounds of the outer loop satisfy 32 (T - 1) < maxAge^2 * digits(amount):
      neither the size of the amount nor the number of nodes matters. */
  lemma IterationBound(amount: nat, buckets: Buckets)
    requires Rewardable(buckets) && amount > 0
    ensures
      var ws := Weights(amount, buckets);
      SumTo(ws, |ws|) > 0 && 32 * (Rounds(ws, amount) - 1) < LoopLimit(MaxAge(buckets), amount)
    ensures LoopLimit(MaxAge(buckets), amount) == MaxAge(buckets) * MaxAge(buckets) * |Decimal(amount)|
  {
    var ws := Weights(amount, buckets);
    CountPositive(buckets);
    WeightsPositive(buckets, Multiplier(amount, buckets));
    RoundPositive(ws);
    RoundAtLeast(amount, buckets);
    LimitCovers(amount, MaxAge(buckets), NodeCount(buckets), SumTo(ws, |ws|));
    LimitIs(MaxAge(buckets), amount);
  }

  // ---------- the overflow bound ----------

  lemma {:induction false} LengthWithin(q: seq<nat>, i: nat, k: nat)
    requires i < k <= |q|
    ensures q[i] <= SumTo(q, k)
  {
    if i < k - 1 {
      LengthWithin(q, i, k - 1);
    }
  }

  /** 2^a grows faster than a^2 from age 6 on. */
  lemma PowerAgainstSquare(a: nat)
    requires MIN_REWARD_AGE <= a <= 13
    ensures Pow2(a) <= 8192
    ensures 169 * Pow2(a) <= 8192 * (a * a)
  {
    assert Pow2(6) == 64 by {
      assert Pow2(3) == 8;
      assert Pow2(5) == 4 * Pow2(3);
    }
    assert Pow2(8) == 4 * Pow2(6);
    assert Pow2(10) == 4 * Pow2(8);
    assert Pow2(12) == 4 * Pow2(10);
    assert Pow2(13) == 2 * Pow2(12);
  }

  /** Safe amounts, against the length of their decimal text. */
  lemma AmountAgainstDigits(amount: nat)
    requires amount < SAFE_AMOUNT
    ensures 8192 * amount < U64_LIMIT * (169 * |Decimal(amount)|)
  {
    var d := |Decimal(amount)|;
    DecimalLength(amount);
    PowersOfTen();
    if d <= 17 {
      Pow10Monotone(d, 17);
    } else if d == 18 {
      assert amount < 1_000_000_000_000_000_000;
    } else {
      MulMono(19, d, 169);
    }
  }

  lemma PowersOfTen()
    ensures Pow10(17) == 100_000_000_000_000_000 && Pow10(18) == 1_000_000_000_000_000_000
    ensures Pow10(19) == 10_000_000_000_000_000_000
  {
    assert Pow10(3) == 1000;
    assert Pow10(6) == 1000 * Pow10(3);
    assert Pow10(9) == 1000 * Pow10(6);
    assert Pow10(12) == 1000 * Pow10(9);
    assert Pow10(15) == 1000 * Pow10(12);
    assert Pow10(17) == 100 * Pow10(15);
  }

  /** With a multiplier above one, nodes * multiplier stays below amount / (maxAge^2 * digits). */
  lemma FactorWithin(amount: nat, maxAge: nat, nodeCount: nat, nodes: nat)
    requires maxAge > 0 && 0 < nodes <= nodeCount
    ensures
      var m := ShareFactor(amount, maxAge, nodeCount);
      m == 1 || (nodes * m) * (maxAge * maxAge * |Decimal(amount)|) <= amount
  {
    var m := ShareFactor(amount, maxAge, nodeCount);
    FactorValue(amount, maxAge, nodeCount);
    ScaleShape(maxAge, nodeCount, |Decimal(amount)|);
    var x := maxAge * maxAge * |Decimal(amount)|;
    DivBounds(amount, x * nodeCount);
    if m > 1 {
      MulMono(nodes, nodeCount, m * x);
      assert (nodes * m) * x == nodes * (m * x) by { MulAssoc(nodes, m, x); }
      assert nodeCount * (m * x) == m * (x * nodeCount) by {
        MulAssoc(m, x, nodeCount);
      }
    }
  }

  lemma ProductInRange(p: nat, y: nat, square: nat, d: nat, amount: nat)
    requires d > 0
    requires 169 * p <= 8192 * square
    requires y * (square * d) <= amount
    requires 8192 * amount < U64_LIMIT * (169 * d)
    ensures p * y < U64_LIMIT
  {
    MulMono(169 * p, 8192 * square, y * d);
    assert (8192 * square) * (y * d) == 8192 * (y * (square * d)) by {
      MulAssoc(8192, square, y * d);
      MulAssoc(square, y, d);
      assert square * y == y * square;
      MulAssoc(y, square, d);
    }
    assert (169 * p) * (y * d) == (p * y) * (169 * d) by {
      MulAssoc(169, p, y * d);
      MulAssoc(p, y, d);
      MulAssoc(p * y, 169, d);
      MulAssoc(169, p * y, d);
      assert 169 * (p * y) == (p * y) * 169;
    }
    MulLtCancel(p * y, U64_LIMIT, 169 * d);
  }

  /** Every product the loops form for this age fits in 64 bits. */
  ghost predicate ProductsInRange(amount: nat, buckets: Buckets, age: nat)
    requires Rewardable(buckets) && age in buckets
  {
    && MaxAge(buckets) * NodeCount(buckets) < U64_LIMIT
    && MaxAge(buckets) * |Decimal(amount)| < U64_LIMIT
    && Pow2(age) * |buckets[age]| < U64_LIMIT
    && (Pow2(age) * |buckets[age]|) * Multiplier(amount, buckets) < U64_LIMIT
  }

  lemma DigitsOfSafe(amount: nat)
    requires amount < SAFE_AMOUNT
    ensures |Decimal(amount)| <= 19
  {
    DecimalLength(amount);
    PowersOfTen();
    if |Decimal(amount)| > 19 {
      Pow10Monotone(19, |Decimal(amount)| - 1);
    }
  }

  lemma WeightInRange(amount: nat, maxAge: nat, nodeCount: nat, age: nat, nodes: nat)
    requires amount < SAFE_AMOUNT
    requires MIN_REWARD_AGE <= age <= maxAge <= 13
    requires 0 < nodes <= nodeCount <= 0x4_0000_0000_0000
    ensures Pow2(age) * nodes < U64_LIMIT
    ensures (Pow2(age) * nodes) * ShareFactor(amount, maxAge, nodeCount) < U64_LIMIT
  {
    var m, d := ShareFactor(amount, maxAge, nodeCount), |Decimal(amount)|;
    PowerAgainstSquare(age);
    PowerAgainstSquare(maxAge);
    Pow2Monotone(age, maxAge);
    MulMono(Pow2(age), 8192, nodes);
    FactorWithin(amount, maxAge, nodeCount, nodes);
    if m > 1 {
      AmountAgainstDigits(amount);
      MulAssoc(maxAge, maxAge, d);
      ProductInRange(Pow2(maxAge), nodes * m, maxAge * maxAge, d, amount);
      MulMono(Pow2(age), Pow2(maxAge), nodes * m);
      MulAssoc(Pow2(age), nodes, m);
    }
  }

  ghost predicate Usual(buckets: Buckets)
    requires Rewardable(buckets)
  {
    MaxAge(buckets) <= 13 && NodeCount(buckets) <= 0x4_0000_0000_0000
  }

  /** Ages up to 13, up to 2^50 nodes and a safe amount keep every product of the payout in range. */
  lemma NoOverflow(amount: nat, buckets: Buckets, age: nat)
    requires Rewardable(buckets) && age in buckets
    requires amount < SAFE_AMOUNT && Usual(buckets)
    ensures ProductsInRange(amount, buckets, age)
  {
    var i := IndexOfAge(buckets, age);
    MaxAgeIsMax(buckets, age);
    LengthWithin(Lengths(buckets), i, |Lengths(buckets)|);
    DigitsOfSafe(amount);
    MulMono(MaxAge(buckets), 13, NodeCount(buckets));
    MulMono(MaxAge(buckets), 13, |Decimal(amount)|);
    CountPositive(buckets);
    WeightInRange(amount, MaxAge(buckets), NodeCount(buckets), age, |buckets[age]|);
  }

  lemma SingleBucket(age: nat, bucket: Bucket)
    requires age >= MIN_REWARD_AGE && |bucket| == 1
    ensures
      var buckets: Buckets := map[age := bucket];
      Rewardable(buckets) && MaxAge(buckets) == age && NodeCount(buckets) == 1
  {
    var buckets: Buckets := map[age := bucket];
    assert buckets[age] == bucket && buckets.Keys == {age};
    assert |Ages(buckets)| == 1;
    assert Ages(buckets)[0] in Ages(buckets);
    assert SumTo(Lengths(buckets), 1) == SumTo(Lengths(buckets), 0) + Lengths(buckets)[0];
  }

  /** The bound is tight: one node of age 14 and the whole supply already overflow. */
  lemma AgeFourteenOverflows(bucket: Bucket)
    requires |bucket| == 1
    ensures
      var buckets: Buckets := map[14 := bucket];
      Rewardable(buckets) && !ProductsInRange(MAX_SUPPLY, buckets, 14)
  {
    SingleBucket(14, bucket);
    DigitsOfSafe(MAX_SUPPLY);
    FactorValue(MAX_SUPPLY, 14, 1);
    FactorAtFourteen(|Decimal(MAX_SUPPLY)|);
    assert Pow2(14) == 16384 by {
      assert Pow2(4) == 16;
      assert Pow2(8) == 16 * Pow2(4);
      assert Pow2(12) == 16 * Pow2(8);
    }
  }

  lemma FactorAtFourteen(d: nat)
    requires 0 < d <= 19
    ensures (14 * 1) * (14 * d) > 0 && 16384 * Max(1, MAX_SUPPLY / ((14 * 1) * (14 * d))) >= U64_LIMIT
  {
    assert (14 * 1) * (14 * d) == 196 * d;
    DivBounds(MAX_SUPPLY, 196 * d);
    var q := MAX_SUPPLY / (196 * d);
    MulMono(196 * d, 196 * 19, q + 1);
  }

  // ---------- which amounts are safe ----------

  /** No product overflows when this amount is paid to nodes up to age 13. */
  ghost predicate Payable(amount: nat)
  {
    forall buckets: Buckets, age :: Rewardable(buckets) && Usual(buckets) && age in buckets ==> ProductsInRange(amount, buckets, age)
  }

  lemma UnsafeDigits(amount: nat)
    requires SAFE_AMOUNT <= amount < U64_LIMIT
    ensures |Decimal(amount)| == 19 || (|Decimal(amount)| == 20 && amount >= 10_000_000_000_000_000_000)
  {
    var d := |Decimal(amount)|;
    DecimalLength(amount);
    PowersOfTen();
    assert Pow10(20) == 10 * Pow10(19);
    if d <= 18 {
      Pow10Monotone(d, 18);
    } else if d >= 21 {
      Pow10Monotone(20, d - 1);
    }
  }

  lemma FactorAtThirteen(amount: nat, d: nat)
    requires SAFE_AMOUNT <= amount
    requires d == 19 || (d == 20 && amount >= 10_000_000_000_000_000_000)
    ensures (13 * 1) * (13 * d) > 0 && 8192 * Max(1, amount / ((13 * 1) * (13 * d))) >= U64_LIMIT
  {
    assert (13 * 1) * (13 * d) == 169 * d;
    DivBounds(amount, 169 * d);
    var q := amount / (169 * d);
    if q + 1 <= 0x8_0000_0000_0000 {
      MulMono(q + 1, 0x8_0000_0000_0000, 169 * d);
    }
  }

  lemma PowerThirteen()
    ensures Pow2(13) == 8192
  {
    assert Pow2(4) == 16;
    assert Pow2(8) == 16 * Pow2(4);
    assert Pow2(12) == 16 * Pow2(8);
  }

  /** From that amount on, one node of age 13 overflows. */
  lemma AgeThirteenOverflows(amount: nat, bucket: Bucket)
    requires SAFE_AMOUNT <= amount < U64_LIMIT && |bucket| == 1
    ensures
      var buckets: Buckets := map[13 := bucket];
      Rewardable(buckets) && Usual(buckets) && !ProductsInRange(amount, buckets, 13)
  {
    SingleBucket(13, bucket);
    UnsafeDigits(amount);
    FactorValue(amount, 13, 1);
    FactorAtThirteen(amount, |Decimal(amount)|);
    PowerThirteen();
  }

  /** The 64-bit amounts that can be paid to any nodes up to age 13 are exactly those below the bound. */
  lemma PayableExactly(amount: nat)
    requires amount < U64_LIMIT
    ensures Payable(amount) <==> amount < SAFE_AMOUNT
  {
    if amount < SAFE_AMOUNT {
      forall buckets: Buckets, age | Rewardable(buckets) && Usual(buckets) && age in buckets
        ensures ProductsInRange(amount, buckets, age)
      {
        NoOverflow(amount, buckets, age);
      }
    } else {
      var bucket: Bucket := map[0 := 0];
      var buckets: Buckets := map[13 := bucket];
      AgeThirteenOverflows(amount, bucket);
      assert 13 in buckets;
    }
  }

  // ---------- the amount a section pays ----------

  lemma CapWithinSupply(prefix: Prefix)
    requires |prefix| < 64
    ensures SectionCap(prefix) <= MAX_SUPPLY
  {
    QuotientIs(MAX_SUPPLY, Pow2(|prefix|));
    DivBounds(MAX_SUPPLY, Pow2(|prefix|));
    MulMono(1, Pow2(|prefix|), SectionCap(prefix));
  }

  /** Payments that are part of what the section manages are never rewarded beyond the supply. */
  lemma RewardWithinSupply(payments: nat, managed: nat, cap: nat)
    requires payments <= managed <= MAX_SUPPLY && cap <= MAX_SUPPLY
    ensures RewardAndMintAmount(payments, managed, cap) <= MAX_SUPPLY
  {
  }

  /** A section that manages at least what was paid, and no more than the supply, pays its nodes up to age 13
      without overflow, in the sum and in every product. */
  lemma RewardInRange(prefix: Prefix, payments: nat, managed: nat)
    requires |prefix| < 64 && payments <= managed <= MAX_SUPPLY
    ensures
      var amount := RewardAndMintAmount(payments, managed, SectionCap(prefix));
      amount <= MAX_SUPPLY < SAFE_AMOUNT < U64_LIMIT && Payable(amount)
  {
    CapWithinSupply(prefix);
    RewardWithinSupply(payments, managed, SectionCap(prefix));
    PayableExactly(RewardAndMintAmount(payments, managed, SectionCap(prefix)));
  }

  /** Without that condition it can fail: payments of the whole supply into a section that manages nothing are
      doubled, and one node of age 13 then overflows. */
  lemma DoubledSupplyOverflows(bucket: Bucket)
    requires |bucket| == 1
    ensures RewardAndMintAmount(MAX_SUPPLY, 0, SectionCap([])) == 2 * MAX_SUPPLY
    ensures
      var buckets: Buckets := map[13 := bucket];
      Rewardable(buckets) && !ProductsInRange(2 * MAX_SUPPLY, buckets, 13)
  {
    QuotientIs(MAX_SUPPLY, 1);
    AgeThirteenOverflows(2 * MAX_SUPPLY, bucket);
  }
}
