/** `fmt` from `app.py`: a price or amount rounded with `q2` or `q4` and
    written the Turkish way, '.' between thousands and ',' before the
    fraction ("1.234,56"). The quantised value is described by its integer
    count of units (hundredths or ten-thousandths). */
module Format {
  import opened Wrappers
  import Text
  import Decimals

  /** What `fmt(v, None)` shows. */
  const DASH: string := "\U{2014}"

  /** `fmt` quantises with `q2` when `d == 2` and with `q4` for any other `d`. */
  function Places(d: int): (p: nat)
    ensures p == 2 || p == 4
  {
    if d == 2 then 2 else 4
  }

  /** `"{:,}".format(k).replace(",", ".")` for a non-negative `k`: the digits
      of `k` in groups of three from the right, joined by '.'. */
  function Group(k: nat): (s: string)
    ensures |s| > 0 && Text.IsDigit(s[0]) && Text.IsDigit(s[|s| - 1])
    ensures forall i :: 0 <= i < |s| ==> Text.IsDigit(s[i]) || s[i] == '.'
    ensures Text.AllDigits(Text.Remove(s, '.')) && Text.Value(Text.Remove(s, '.')) == k
    ensures k < 1000 <==> '.' !in s
  {
    if k < 1000 then
      var s := Text.Digits(k);
      NoDot(s);
      s
    else
      var g := Group(k / 1000);
      assert Text.Pow10(3) == 1000;
      var p := Text.Pad(k % 1000, 3);
      GroupStep(k, g, p);
      g + "." + p
  }

  /** The groups of `k / 1000`, a '.', and the last three digits spell `k`. */
  lemma GroupStep(k: nat, g: string, p: string)
    requires k >= 1000
    requires |g| > 0 && Text.IsDigit(g[0]) && Text.IsDigit(g[|g| - 1])
    requires forall i :: 0 <= i < |g| ==> Text.IsDigit(g[i]) || g[i] == '.'
    requires Text.AllDigits(Text.Remove(g, '.')) && Text.Value(Text.Remove(g, '.')) == k / 1000
    requires |p| == 3 && Text.AllDigits(p) && Text.Value(p) == k % 1000
    ensures var s := g + "." + p;
      |s| > 0 && Text.IsDigit(s[0]) && Text.IsDigit(s[|s| - 1]) && '.' in s
      && (forall i :: 0 <= i < |s| ==> Text.IsDigit(s[i]) || s[i] == '.')
      && Text.AllDigits(Text.Remove(s, '.')) && Text.Value(Text.Remove(s, '.')) == k
  {
    JoinGroups(g, p);
    assert Text.Pow10(3) == 1000;
    DivMod(k, 1000);
  }

  /** Joining a grouped part and more digits with '.' keeps every character
      a digit or '.', and starts and ends with a digit. */
  lemma JoinGroups(g: string, p: string)
    requires |g| > 0 && Text.IsDigit(g[0])
    requires forall i :: 0 <= i < |g| ==> Text.IsDigit(g[i]) || g[i] == '.'
    requires Text.AllDigits(Text.Remove(g, '.'))
    requires |p| > 0 && Text.AllDigits(p)
    ensures var s := g + "." + p;
      Text.IsDigit(s[0]) && Text.IsDigit(s[|s| - 1]) && '.' in s
      && (forall i :: 0 <= i < |s| ==> Text.IsDigit(s[i]) || s[i] == '.')
      && Text.AllDigits(Text.Remove(s, '.'))
      && Text.Value(Text.Remove(s, '.')) == Text.Value(Text.Remove(g, '.')) * Text.Pow10(|p|) + Text.Value(p)
  {
    var s := g + "." + p;
    assert s[|g|] == '.';
    forall i | 0 <= i < |s| ensures Text.IsDigit(s[i]) || s[i] == '.' {
      if i < |g| {
        assert s[i] == g[i];
      } else if i > |g| {
        assert s[i] == p[i - |g| - 1];
      }
    }
    RemoveJoin(g, p);
    Text.ValueAppend(Text.Remove(g, '.'), p);
  }

  lemma RemoveJoin(g: string, p: string)
    requires Text.AllDigits(p)
    ensures Text.Remove(g + "." + p, '.') == Text.Remove(g, '.') + p
  {
    NoDot(p);
    Text.RemoveAppend(g + ".", p, '.');
    Text.RemoveAppend(g, ".", '.');
    assert Text.Remove(".", '.') == [];
    assert Text.Remove(g, '.') + [] == Text.Remove(g, '.');
  }

  /** A run of digits holds no '.' and loses nothing to its removal. */
  lemma NoDot(p: string)
    requires Text.AllDigits(p)
    ensures '.' !in p && Text.Remove(p, '.') == p
  {
    assert '.' !in p by {
      forall i | 0 <= i < |p| ensures p[i] != '.' {
        assert Text.IsDigit(p[i]);
      }
    }
    Text.RemoveAbsent(p, '.');
  }

  /** The sign, grouped whole part, ',' and the fraction padded to `places`
      digits. */
  function Render(negative: bool, whole: nat, frac: nat, places: nat): (s: string)
    requires frac < Text.Pow10(places)
    ensures |s| > 0 && (s[0] == '-' <==> negative)
  {
    (if negative then "-" else "") + Group(whole) + "," + Text.Pad(frac, places)
  }

  /** The whole and fraction parts of `|n|` units of `10^-places`. */
  function Split(n: int, places: nat): (r: (nat, nat))
    ensures r.1 < Text.Pow10(places)
    ensures r.0 * Text.Pow10(places) + r.1 == if n < 0 then -n else n
  {
    var a := if n < 0 then -n else n;
    var m := Text.Pow10(places);
    DivMod(a, m);
    var w: nat := a / m;
    var f: nat := a % m;
    (w, f)
  }

  /** `fmt(v, d)` as `app.py` writes it. `int(left)` turns the text "-0"
      into 0, so a negative value above -1 loses its sign. */
  function FmtAsWritten(v: Option<real>, d: int): (r: string)
    ensures v.None? ==> r == DASH
    ensures v.Some? ==> (|r| > 0 && (r[0] == '-' <==> Decimals.Quantize(v.value, Places(d)) <= -1.0))
  {
    match v
    case None => DASH
    case Some(x) =>
      var p := Places(d);
      var n := Decimals.Units(x, p);
      var (whole, frac) := Split(n, p);
      QuantizeSign(x, p);
      WholePart(n, Text.Pow10(p), whole, frac);
      Render(n < 0 && whole > 0, whole, frac, p)
  }

  /** `fmt(v, d)` keeping the sign of every negative quantised value. */
  function Fmt(v: Option<real>, d: int): (r: string)
    ensures v.None? ==> r == DASH
    ensures v.Some? ==> (|r| > 0 && (r[0] == '-' <==> Decimals.Quantize(v.value, Places(d)) < 0.0))
  {
    match v
    case None => DASH
    case Some(x) =>
      var p := Places(d);
      var n := Decimals.Units(x, p);
      var (whole, frac) := Split(n, p);
      QuantizeSign(x, p);
      Render(n < 0, whole, frac, p)
  }

  /** The sign of a quantised value is the sign of its unit count, and it is
      at most -1 exactly when the whole part of a negative count is non-zero. */
  lemma QuantizeSign(x: real, p: nat)
    ensures Decimals.Quantize(x, p) < 0.0 <==> Decimals.Units(x, p) < 0
    ensures Decimals.Quantize(x, p) <= -1.0 <==> Decimals.Units(x, p) <= -(Text.Pow10(p) as int)
  {
    QuantizeNegative(x, p);
    QuantizeWhole(x, p);
  }

  lemma QuantizeNegative(x: real, p: nat)
    ensures Decimals.Quantize(x, p) < 0.0 <==> Decimals.Units(x, p) < 0
  {
    Decimals.QuantizeIsUnits(x, p);
    NegativeRatio(Decimals.Units(x, p), Text.Pow10(p));
  }

  lemma QuantizeWhole(x: real, p: nat)
    ensures Decimals.Quantize(x, p) <= -1.0 <==> Decimals.Units(x, p) <= -(Text.Pow10(p) as int)
  {
    Decimals.QuantizeIsUnits(x, p);
    WholeRatio(Decimals.Units(x, p), Text.Pow10(p));
  }

  /** Dividing by a positive count keeps the sign. */
  lemma NegativeRatio(n: int, m: int)
    requires m > 0
    ensures n as real / m as real < 0.0 <==> n < 0
  {
    var q, s := n as real / m as real, m as real;
    assert q * s == n as real;
    if q < 0.0 {
      PositiveProduct(-q, s);
    } else if q > 0.0 {
      PositiveProduct(q, s);
    }
  }

  /** Divided by `m`, `-m` becomes minus one whole. */
  lemma WholeRatio(n: int, m: int)
    requires m > 0
    ensures n as real / m as real <= -1.0 <==> n <= -m
  {
    var q, s := n as real / m as real, m as real;
    assert q * s == n as real;
    if q < -1.0 {
      PositiveProduct(-(q + 1.0), s);
    } else if q > -1.0 {
      PositiveProduct(q + 1.0, s);
    }
  }

  lemma PositiveProduct(a: real, b: real)
    requires a > 0.0 && b > 0.0
    ensures a * b > 0.0
  {
  }

  /** A negative count has a non-zero whole part exactly when it is at
      most minus one whole unit. */
  lemma WholePart(n: int, m: int, whole: nat, frac: nat)
    requires m > 0 && frac < m && whole * m + frac == (if n < 0 then -n else n)
    ensures n < 0 && whole > 0 <==> n <= -m
  {
    if whole > 0 {
      AtLeastOnce(whole, m);
    }
  }

  lemma AtLeastOnce(w: int, m: int)
    requires w >= 1 && m > 0
    ensures w * m >= m
  {
    assert w * m == (w - 1) * m + m;
  }

  lemma DivMod(a: int, m: int)
    requires m > 0
    ensures (a / m) * m + a % m == a && 0 <= a % m < m
    ensures a >= 0 ==> a / m >= 0
  {
  }
}
