/**
 * `round(x, 3)` on the exact real value of `x`. Python's `round` sends ties
 * to the even neighbour; it works on binary floats, which a real does not
 * model.
 */
module Rounding {

  /** The nearest multiple of 0.001, the even one of the two at a tie. */
  function Round3(x: real): (r: real)
    ensures (r * 1000.0).Floor as real == r * 1000.0
    ensures -0.0005 <= r - x <= 0.0005
    ensures r - x == 0.0005 || r - x == -0.0005 ==> (r * 1000.0).Floor % 2 == 0
  {
    var y := x * 1000.0;
    var f := y.Floor;
    var frac := y - f as real;
    var n := if frac > 0.5 then f + 1 else if frac < 0.5 then f else if f % 2 == 0 then f else f + 1;
    n as real / 1000.0
  }

  /** A value with at most three decimals is left as it is. */
  lemma Round3Exact(k: int)
    ensures Round3(k as real / 1000.0) == k as real / 1000.0
  {
    var y := (k as real / 1000.0) * 1000.0;
    assert y == k as real;
    assert y.Floor == k;
  }

  /** Rounding keeps order. */
  lemma Round3Monotone(x: real, y: real)
    requires x <= y
    ensures Round3(x) <= Round3(y)
  {
    var fx, fy := (x * 1000.0).Floor, (y * 1000.0).Floor;
    assert x * 1000.0 <= y * 1000.0;
    assert fx <= fy;
  }

  /** A value between two three-decimal bounds rounds between them. */
  lemma Round3Between(x: real, lo: int, hi: int)
    requires lo as real / 1000.0 <= x <= hi as real / 1000.0
    ensures lo as real / 1000.0 <= Round3(x) <= hi as real / 1000.0
  {
    Round3Monotone(lo as real / 1000.0, x);
    Round3Monotone(x, hi as real / 1000.0);
    Round3Exact(lo);
    Round3Exact(hi);
  }

  /** Milliseconds shown as seconds: `round(ms / 1000, 3)`. */
  function Seconds(ms: real): real {
    Round3(ms / 1000.0)
  }

  /** `round(part / whole * 100, 3)`. */
  function Percent(part: real, whole: real): real
    requires whole > 0.0
  {
    Round3(part / whole * 100.0)
  }

  /** A whole number of milliseconds is shown exactly. */
  lemma SecondsExact(ms: nat)
    ensures Seconds(ms as real) == ms as real / 1000.0
  {
    Round3Exact(ms);
  }

  /** A duration between 0 and `hi` milliseconds is shown between 0 and `hi / 1000`. */
  lemma SecondsBetween(x: real, hi: nat)
    requires 0.0 <= x <= hi as real
    ensures 0.0 <= Seconds(x) <= hi as real / 1000.0
  {
    Round3Between(x / 1000.0, 0, hi);
  }

  lemma PositiveProduct(a: real, b: real)
    ensures a > 0.0 && b > 0.0 ==> a * b > 0.0
  {
  }

  /** A part of a whole is a share between 0 and 100 percent. */
  lemma PercentBetween(part: nat, whole: nat)
    requires 0 < whole && part <= whole
    ensures 0.0 <= Percent(part as real, whole as real) <= 100.0
  {
    var p, w := part as real, whole as real;
    var q := p / w;
    assert q * w == p;
    PositiveProduct(-q, w);
    assert -q * w == -p;
    PositiveProduct(q - 1.0, w);
    assert (q - 1.0) * w == p - w;
    assert 0.0 <= q <= 1.0;
    assert 0.0 <= q * 100.0 <= 100000 as real / 1000.0;
    Round3Between(q * 100.0, 0, 100000);
  }

  /** The whole is 100 percent of itself. */
  lemma PercentOfWhole(whole: nat)
    requires 0 < whole
    ensures Percent(whole as real, whole as real) == 100.0
  {
    assert whole as real / whole as real * 100.0 == 100000 as real / 1000.0;
    Round3Exact(100000);
  }
}
