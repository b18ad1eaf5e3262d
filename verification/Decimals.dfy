/** Decimal text of numbers, as produced by `to_string` and read by `parse::<usize>`. */
module Decimals {
  import opened Collections

  const USIZE_LIMIT: nat := 0x1_0000_0000_0000_0000

  function Digit(d: nat): char
    requires d < 10
  {
    (('0' as int) + d) as char
  }

  function Decimal(n: nat): (s: string)
    ensures |s| > 0
  {
    if n < 10 then [Digit(n)] else Decimal(n / 10) + [Digit(n % 10)]
  }

  predicate IsDigit(c: char)
  {
    '0' <= c <= '9'
  }

  /** The number read from a run of digits. */
  function DigitsValue(s: string): Option<nat>
  {
    if s == [] then Some(0)
    else
      var last := s[|s| - 1];
      match DigitsValue(s[..|s| - 1])
      case None => None
      case Some(v) => if IsDigit(last) then Some(10 * v + (last as int - '0' as int)) else None
  }

  /** `str::parse::<usize>`: an optional plus sign, at least one digit, no overflow. */
  function ParseUsize(s: string): Option<nat>
  {
    var body := if |s| > 1 && s[0] == '+' then s[1..] else s;
    if body == [] then None
    else
      match DigitsValue(body)
      case None => None
      case Some(v) => if v < USIZE_LIMIT then Some(v) else None
  }

  lemma {:induction false} DecimalDigits(n: nat)
    ensures DigitsValue(Decimal(n)) == Some(n)
    ensures forall c :: c in Decimal(n) ==> IsDigit(c)
  {
    if n < 10 {
      assert Decimal(n)[..0] == [];
    } else {
      DecimalDigits(n / 10);
      assert Decimal(n)[..|Decimal(n)| - 1] == Decimal(n / 10);
    }
  }

  /** Printing then parsing gives the number back, for every number a `usize` holds. */
  lemma ParsePrinted(n: nat)
    requires n < USIZE_LIMIT
    ensures ParseUsize(Decimal(n)) == Some(n)
  {
    DecimalDigits(n);
    assert Decimal(n)[0] in Decimal(n);
  }

  lemma DecimalInjective(m: nat, n: nat)
    requires Decimal(m) == Decimal(n)
    ensures m == n
  {
    DecimalDigits(m);
    DecimalDigits(n);
  }

  function Pow10(k: nat): (p: nat)
    ensures p > 0
  {
    if k == 0 then 1 else 10 * Pow10(k - 1)
  }

  /** The text of a number is as long as its size demands. */
  lemma {:induction false} DecimalLength(n: nat)
    ensures n < Pow10(|Decimal(n)|)
    ensures n > 0 ==> Pow10(|Decimal(n)| - 1) <= n
  {
    if n < 10 {
      assert Pow10(1) == 10 * Pow10(0) == 10;
    } else {
      DecimalLength(n / 10);
      var k := |Decimal(n / 10)|;
      assert Pow10(k + 1) == 10 * Pow10(k);
      assert Pow10(k) == 10 * Pow10(k - 1);
    }
  }

  lemma {:induction false} Pow10Monotone(a: nat, b: nat)
    requires a <= b
    ensures Pow10(a) <= Pow10(b)
  {
    if a < b {
      Pow10Monotone(a, b - 1);
    }
  }
}
