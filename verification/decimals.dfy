/** `utils/decimal.py`: the `D` coercion and the `q2`/`q4` quantisers.
    Python `Decimal` values are exact `real`s here; quantising to `places`
    fraction digits is described by the integer number of units of
    `10^-places` it yields. */
module Decimals {
  import opened Wrappers
  import Text

  /** What `D` is handed: Python `None`, a `Decimal`, or anything else, which
      `D` turns into a `Decimal` through its `str()` text. */
  datatype Input = PyNone | Dec(v: real) | Other(text: string)

  /** `D(x)`; `None` in the result stands for `InvalidOperation`. */
  function D(x: Input): (r: Option<real>)
    ensures x.PyNone? ==> r == Some(0.0)
    ensures x.Dec? ==> r == Some(x.v)
    ensures x.Other? ==> r == Text.ParseDecimal(x.text)
  {
    match x
    case PyNone => Some(0.0)
    case Dec(v) => Some(v)
    case Other(t) => Text.ParseDecimal(t)
  }

  function Abs(y: real): real {
    if y < 0.0 then -y else y
  }

  /** Rounding to an integer, ties away from zero (`ROUND_HALF_UP`). */
  function RoundHalfUp(y: real): (n: int)
    ensures Abs(y - n as real) <= 0.5
    ensures Abs(y - n as real) == 0.5 ==> Abs(n as real) > Abs(y)
  {
    if y >= 0.0 then (y + 0.5).Floor else -((-y + 0.5).Floor)
  }

  lemma RoundHalfUpNearest(y: real, m: int)
    ensures Abs(y - RoundHalfUp(y) as real) <= Abs(y - m as real)
  {
    var n := RoundHalfUp(y);
    if m < n {
      assert m as real <= n as real - 1.0;
    } else if m > n {
      assert m as real >= n as real + 1.0;
    }
  }

  lemma RoundHalfUpInteger(k: int)
    ensures RoundHalfUp(k as real) == k
  {
  }

  function Scale(places: nat): (s: real)
    ensures s >= 1.0
  {
    Text.Pow10(places) as real
  }

  /** The number of `10^-places` units `x.quantize(10^-places, ROUND_HALF_UP)`
      holds. */
  function Units(x: real, places: nat): int {
    RoundHalfUp(x * Scale(places))
  }

  lemma AbsScale(a: real, s: real)
    requires s > 0.0
    ensures Abs(a) * s == Abs(a * s)
  {
    if a < 0.0 {
      assert a * s < 0.0;
    } else {
      assert a * s >= 0.0;
    }
  }

  /** `x.quantize(10^-places, rounding=ROUND_HALF_UP)`: a whole number of
      units, at most half a unit away from `x`. */
  function Quantize(x: real, places: nat): (r: real)
    ensures r * Scale(places) == Units(x, places) as real
    ensures Abs(r - x) * Scale(places) <= 0.5
  {
    var s := Scale(places);
    var n := Units(x, places);
    var r := n as real / s;
    assert (r - x) * s == n as real - x * s;
    AbsScale(r - x, s);
    r
  }

  /** The quantised value is `x` scaled, rounded and scaled back. */
  lemma QuantizeIsRounded(x: real, places: nat)
    ensures Quantize(x, places) == RoundHalfUp(x * Scale(places)) as real / Scale(places)
  {
    QuantizeIsUnits(x, places);
  }

  /** The quantised value is its unit count divided by the scale. */
  lemma QuantizeIsUnits(x: real, places: nat)
    ensures Quantize(x, places) == Units(x, places) as real / Scale(places)
  {
    var q := Quantize(x, places);
    var s := Scale(places);
    DivideBack(q, s, Units(x, places) as real);
  }

  lemma DivideBack(q: real, s: real, n: real)
    requires s > 0.0 && q * s == n
    ensures q == n / s
  {
  }

  /** `q2(x)`: a multiple of 0.01 within 0.005 of `x`. */
  function Q2(x: real): (r: real)
    ensures Abs(r - x) <= 0.005
  {
    assert Scale(2) == 100.0;
    Quantize(x, 2)
  }

  /** `q4(x)`: a multiple of 0.0001 within 0.00005 of `x`. */
  function Q4(x: real): (r: real)
    ensures Abs(r - x) <= 0.00005
  {
    assert Scale(4) == 10000.0;
    Quantize(x, 4)
  }

  lemma MulCancel(a: real, b: real, s: real)
    requires s > 0.0 && a * s <= b * s
    ensures a <= b
  {
    assert (b - a) * s >= 0.0;
  }

  lemma MulCancelStrict(a: real, b: real, s: real)
    requires s > 0.0 && a * s < b * s
    ensures a < b
  {
    assert (b - a) * s > 0.0;
  }

  lemma Distribute(p: real, x: real, s: real)
    ensures (p - x) * s == p * s - x * s
  {
  }

  lemma DivSub(n: real, x: real, s: real)
    requires s > 0.0
    ensures n / s - x == (n - x * s) / s
  {
  }

  lemma AbsDiv(a: real, s: real)
    requires s > 0.0
    ensures Abs(a / s) == Abs(a) / s
  {
    if a < 0.0 {
      assert a / s < 0.0;
    } else {
      assert a / s >= 0.0;
    }
  }

  lemma DivMono(a: real, b: real, s: real)
    requires s > 0.0 && a <= b
    ensures a / s <= b / s
  {
    assert b / s - a / s == (b - a) / s;
  }

  /** Scaling by a positive factor keeps which of two points is closer. */
  lemma ScaledCloser(x: real, s: real, n: real, m: real)
    requires s > 0.0
    requires Abs(x * s - n) <= Abs(x * s - m)
    ensures Abs(n / s - x) <= Abs(m / s - x)
  {
    DivSub(n, x, s);
    DivSub(m, x, s);
    AbsDiv(n - x * s, s);
    AbsDiv(m - x * s, s);
    assert Abs(n - x * s) == Abs(x * s - n);
    assert Abs(m - x * s) == Abs(x * s - m);
    DivMono(Abs(n - x * s), Abs(m - x * s), s);
  }

  lemma RoundedCloser(x: real, s: real, m: int)
    requires s > 0.0
    ensures Abs(RoundHalfUp(x * s) as real / s - x) <= Abs(m as real / s - x)
  {
    RoundHalfUpNearest(x * s, m);
    ScaledCloser(x, s, RoundHalfUp(x * s) as real, m as real);
  }

  /** No multiple of `10^-places` is closer to `x` than the quantised value. */
  lemma QuantizeNearest(x: real, places: nat, m: int)
    ensures Abs(Quantize(x, places) - x) <= Abs(m as real / Scale(places) - x)
  {
    QuantizeIsRounded(x, places);
    RoundedCloser(x, Scale(places), m);
  }

  /** A tie between two multiples of `10^-places` goes to the one farther
      from zero. */
  lemma QuantizeTieAwayFromZero(x: real, places: nat)
    requires Abs(Quantize(x, places) - x) * Scale(places) == 0.5
    ensures Abs(Quantize(x, places)) > Abs(x)
  {
    var s := Scale(places);
    var n := Units(x, places);
    var q := Quantize(x, places);
    Distribute(q, x, s);
    AbsScale(q - x, s);
    AbsScale(q, s);
    AbsScale(x, s);
    MulCancelStrict(Abs(x), Abs(q), s);
  }

  /** Quantising an already quantised value changes nothing. */
  lemma QuantizeIdempotent(x: real, places: nat)
    ensures Quantize(Quantize(x, places), places) == Quantize(x, places)
  {
    var q := Quantize(x, places);
    RoundHalfUpInteger(Units(x, places));
    assert Units(q, places) == Units(x, places);
  }

  lemma Q2Idempotent(x: real)
    ensures Q2(Q2(x)) == Q2(x)
  {
    QuantizeIdempotent(x, 2);
  }

  lemma Q4Idempotent(x: real)
    ensures Q4(Q4(x)) == Q4(x)
  {
    QuantizeIdempotent(x, 4);
  }
}
