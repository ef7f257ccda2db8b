/** Python's `round(x, digits)`, taken on the exact value: the nearest multiple
    of 10^-digits, ties going to the even neighbour. */
module Rounding {

  function Pow10(digits: nat): (p: nat)
    ensures p >= 1
  {
    if digits == 0 then 1 else 10 * Pow10(digits - 1)
  }

  /** 10^digits as a real: the unit of the last kept decimal is 1 / Scale(digits). */
  function Scale(digits: nat): (s: real)
    ensures s >= 1.0
  {
    Pow10(digits) as real
  }

  /** The integer nearest to z; on a tie, the even one. */
  function RoundHalfEven(z: real): (n: int)
    ensures z - 0.5 <= n as real <= z + 0.5
    ensures (n as real == z - 0.5 || n as real == z + 0.5) ==> n % 2 == 0
  {
    var f := z.Floor;
    var frac := z - f as real;
    if frac < 0.5 then f
    else if frac > 0.5 then f + 1
    else if f % 2 == 0 then f
    else f + 1
  }

  /** x in units of the last kept decimal. */
  function Up(x: real, digits: nat): real {
    x * Scale(digits)
  }

  /** A whole number of such units, back as a real. */
  function Down(n: int, digits: nat): real {
    n as real / Scale(digits)
  }

  /** `round(x, digits)`. */
  function Round(x: real, digits: nat): real {
    Down(RoundHalfEven(Up(x, digits)), digits)
  }

  /** The rounded value is within half a unit of the last kept decimal. */
  lemma RoundNearest(x: real, digits: nat)
    ensures x - 0.5 / Scale(digits) <= Round(x, digits) <= x + 0.5 / Scale(digits)
  {
    var s := Scale(digits);
    var z := Up(x, digits);
    var n := RoundHalfEven(z);
    assert z - 0.5 <= n as real <= z + 0.5;
    DivideMonotone(z - 0.5, n as real, s);
    DivideMonotone(n as real, z + 0.5, s);
    assert (z - 0.5) / s == x - 0.5 / s;
    assert (z + 0.5) / s == x + 0.5 / s;
  }

  lemma DivideMonotone(a: real, b: real, s: real)
    requires s > 0.0 && a <= b
    ensures a / s <= b / s
  {
    assert b / s - a / s == (b - a) / s;
  }

  lemma UpMonotone(x: real, y: real, digits: nat)
    requires x <= y
    ensures Up(x, digits) <= Up(y, digits)
  {
    var s := Scale(digits);
    assert y * s - x * s == (y - x) * s;
  }

  lemma DownMonotone(m: int, n: int, digits: nat)
    requires m <= n
    ensures Down(m, digits) <= Down(n, digits)
  {
    DivideMonotone(m as real, n as real, Scale(digits));
  }

  lemma RoundHalfEvenMonotone(z: real, w: real)
    requires z <= w
    ensures RoundHalfEven(z) <= RoundHalfEven(w)
  {
  }

  /** Rounding never reverses an order. */
  lemma RoundMonotone(x: real, y: real, digits: nat)
    requires x <= y
    ensures Round(x, digits) <= Round(y, digits)
  {
    UpMonotone(x, y, digits);
    RoundHalfEvenMonotone(Up(x, digits), Up(y, digits));
    DownMonotone(RoundHalfEven(Up(x, digits)), RoundHalfEven(Up(y, digits)), digits);
  }

  /** Whole numbers are left as they are. */
  lemma RoundInteger(k: int, digits: nat)
    ensures Round(k as real, digits) == k as real
  {
    var p := Pow10(digits);
    assert Up(k as real, digits) == (k * p) as real;
    assert RoundHalfEven(Up(k as real, digits)) == k * p;
    assert Down(k * p, digits) == k as real;
  }

  /** A value in [lo, hi] for whole bounds rounds to a value in [lo, hi]. */
  lemma RoundWithin(x: real, lo: int, hi: int, digits: nat)
    requires lo as real <= x <= hi as real
    ensures lo as real <= Round(x, digits) <= hi as real
  {
    RoundMonotone(lo as real, x, digits);
    RoundMonotone(x, hi as real, digits);
    RoundInteger(lo, digits);
    RoundInteger(hi, digits);
  }
}
