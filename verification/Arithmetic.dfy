/** Powers of two, prefix sums and the few division facts the reward sums need. */
module Arithmetic {

  function Pow2(k: nat): (p: nat)
    ensures p > 0
  {
    if k == 0 then 1 else 2 * Pow2(k - 1)
  }

  lemma {:induction false} Pow2Monotone(a: nat, b: nat)
    requires a <= b
    ensures Pow2(a) <= Pow2(b)
  {
    if a < b {
      Pow2Monotone(a, b - 1);
    }
  }

  function Min(a: nat, b: nat): nat
  {
    if a <= b then a else b
  }

  function Max(a: nat, b: nat): nat
  {
    if a <= b then b else a
  }

  // Multiplication, quotient and remainder by recursion: the solver unfolds these a step at a
  // time instead of reasoning about products of variables. `TimesIs` and `QuotientIs` give the
  // ordinary operators back.

  function Times(k: nat, w: nat): nat
  {
    if k == 0 then 0 else w + Times(k - 1, w)
  }

  function Quotient(n: nat, d: nat): nat
    requires d > 0
  {
    if n < d then 0 else 1 + Quotient(n - d, d)
  }

  function Remainder(n: nat, d: nat): (r: nat)
    requires d > 0
    ensures r < d
  {
    if n < d then n else Remainder(n - d, d)
  }

  lemma {:induction false} TimesIs(k: nat, w: nat)
    ensures Times(k, w) == k * w
  {
    if k > 0 {
      TimesIs(k - 1, w);
      MulDistrib(k - 1, 1, w);
    }
  }

  lemma {:induction false} TimesAdd(k: nat, a: nat, b: nat)
    ensures Times(k, a + b) == Times(k, a) + Times(k, b)
  {
    if k > 0 {
      TimesAdd(k - 1, a, b);
    }
  }

  lemma {:induction false} QuotientIs(n: nat, d: nat)
    requires d > 0
    ensures Quotient(n, d) == n / d && Remainder(n, d) == n % d
  {
    if n < d {
      DivModUnique(n, d, 0, n);
    } else {
      QuotientIs(n - d, d);
      var q, r := Quotient(n - d, d), Remainder(n - d, d);
      MulDistrib(q, 1, d);
      DivModUnique(n, d, q + 1, r);
    }
  }

  lemma {:induction false} QuotientTimes(n: nat, d: nat)
    requires d > 0
    ensures n == Times(Quotient(n, d), d) + Remainder(n, d)
  {
    if n >= d {
      QuotientTimes(n - d, d);
    }
  }

  /** Subtraction stopping at zero, as `saturating_sub`. */
  function Monus(a: nat, b: nat): nat
  {
    if a <= b then 0 else a - b
  }

  /** The sum of the first k entries. */
  function SumTo(q: seq<nat>, k: nat): nat
    requires k <= |q|
  {
    if k == 0 then 0 else SumTo(q, k - 1) + q[k - 1]
  }

  lemma {:induction false} SumToMonotone(q: seq<nat>, i: nat, j: nat)
    requires i <= j <= |q|
    ensures SumTo(q, i) <= SumTo(q, j)
  {
    if i < j {
      SumToMonotone(q, i, j - 1);
    }
  }

  lemma MulMono(a: nat, b: nat, c: nat)
    requires a <= b
    ensures a * c <= b * c
  {
  }

  lemma MulLtCancel(a: nat, b: nat, c: nat)
    requires a * c < b * c
    ensures a < b
  {
    if b <= a {
      MulMono(b, a, c);
    }
  }

  /** Quotient and remainder are unique. */
  lemma DivModUnique(n: nat, d: nat, q: nat, r: nat)
    requires n == q * d + r && r < d
    ensures n / d == q && n % d == r
  {
    var q', r' := n / d, n % d;
    assert n == q' * d + r';
    if q < q' {
      MulMono(q + 1, q', d);
    } else if q' < q {
      MulMono(q' + 1, q, d);
    }
  }

  lemma DivBounds(n: nat, d: nat)
    requires d > 0
    ensures (n / d) * d <= n < (n / d + 1) * d
  {
  }

  lemma MulPos(a: nat, b: nat)
    requires a > 0 && b > 0
    ensures a * b > 0
  {
  }

  lemma MulAssoc(a: int, b: int, c: int)
    ensures (a * b) * c == a * (b * c)
  {
  }

  lemma MulDistrib(a: int, b: int, c: int)
    ensures (a + b) * c == a * c + b * c
    ensures (a - b) * c == a * c - b * c
  {
  }

  /** Dividing twice is dividing by the product. */
  lemma DivDiv(n: nat, a: nat, b: nat)
    requires a > 0 && b > 0 && a * b > 0
    ensures (n / a) / b == n / (a * b)
  {
    var x := n / a;
    var y := x / b;
    DivBounds(n, a);
    DivBounds(x, b);
    MulDistrib(y, 1, b);
    RecombineRemainders(n, a, b, x, y);
  }

  lemma RecombineRemainders(n: nat, a: nat, b: nat, x: nat, y: nat)
    requires a * b > 0
    requires x * a <= n < (x + 1) * a
    requires y * b <= x < y * b + b
    ensures n / (a * b) == y
  {
    MulDistrib(x, 1, a);
    MulMono(y * b, x, a);
    MulMono(x + 1, y * b + b, a);
    MulDistrib(y * b, b, a);
    MulAssoc(y, b, a);
    assert b * a == a * b;
    DivModUnique(n, a * b, y, n - y * (a * b));
  }

  lemma SquareGap(s: nat, t: nat)
    requires s < t
    ensures s * s + s < t * t
  {
    MulMono(s + 1, t, s);
    MulMono(s, t, t);
    assert t * s + t <= t * t by { MulDistrib(s, 1, t); MulMono(s + 1, t, t); }
    MulDistrib(s, 1, s);
  }
}
