/** `fmt` followed by the Kapalıçarşı `_to_dec`: the text `fmt` writes for a
    value reads back as the value rounded to the places `fmt` shows. The
    round trip holds for the corrected `Fmt` and fails for the code as
    written on negative values above -1. */
module RoundTrip {
  import opened Wrappers
  import opened Text
  import Decimals
  import opened Format
  import Kapalicarsi

  /** Neither sign nor digits hold a separator. */
  lemma NoSeparators(sign: string, p: string)
    requires sign == "" || sign == "-"
    requires AllDigits(p)
    ensures ',' !in p && '.' !in p && ',' !in sign && '.' !in sign
  {
    assert ',' !in p && '.' !in p by {
      forall i | 0 <= i < |p| ensures p[i] != ',' && p[i] != '.' {
        assert IsDigit(p[i]);
      }
    }
  }

  /** Turning the one ',' of a rendered number into '.'. */
  lemma CommaToPoint(sign: string, g: string, p: string, s: string, t: string)
    requires ',' !in sign && ',' !in g && ',' !in p
    requires s == sign + g + "," + p && t == sign + (g + "." + p)
    ensures Replace(s, ',', '.') == t
  {
    var r := Replace(s, ',', '.');
    ReplaceAt(s, ',', '.');
    forall i | 0 <= i < |t| ensures r[i] == t[i] {
      if i < |sign| + |g| {
        assert s[i] == t[i];
      } else if i > |sign| + |g| {
        assert s[i] == t[i];
      }
    }
  }

  /** Dropping the thousands separators of a rendered number. */
  lemma DropGroupDots(sign: string, g: string, p: string, s: string, w: string)
    requires '.' !in sign && '.' !in p
    requires s == sign + g + "," + p && w == Remove(g, '.')
    ensures Remove(s, '.') == sign + w + "," + p
  {
    RemoveAppend(sign + g + ",", p, '.');
    RemoveAppend(sign + g, ",", '.');
    RemoveAppend(sign, g, '.');
    RemoveAbsent(sign, '.');
    RemoveAbsent(",", '.');
    RemoveAbsent(p, '.');
  }

  /** `_to_dec` undoes the Turkish separators of a rendered number with a
      thousands separator: the '.' go and the ',' becomes the point. */
  lemma NormalizedGrouped(sign: string, g: string, p: string, s: string, w: string, t: string)
    requires sign == "" || sign == "-"
    requires ',' !in g && '.' in g
    requires AllDigits(p)
    requires s == sign + g + "," + p && w == Remove(g, '.') && t == sign + (w + "." + p)
    ensures Kapalicarsi.NormalizeSeparators(s) == t
  {
    NoSeparators(sign, p);
    assert s[|sign| + |g|] == ',';
    assert '.' in s by {
      var i :| 0 <= i < |g| && g[i] == '.';
      assert s[|sign| + i] == '.';
    }
    DropGroupDots(sign, g, p, s, w);
    RemoveKeeps(g, '.', ',');
    CommaToPoint(sign, w, p, sign + w + "," + p, t);
  }

  /** Without a thousands separator only the ',' changes. */
  lemma NormalizedPlain(sign: string, g: string, p: string, s: string, t: string)
    requires sign == "" || sign == "-"
    requires ',' !in g && '.' !in g
    requires AllDigits(p)
    requires s == sign + g + "," + p && t == sign + (g + "." + p)
    ensures Kapalicarsi.NormalizeSeparators(s) == t
  {
    NoSeparators(sign, p);
    assert s[|sign| + |g|] == ',';
    CommaToPoint(sign, g, p, s, t);
  }

  /** Removing one character keeps another character out. */
  lemma {:induction false} RemoveKeeps(s: string, c: char, d: char)
    requires d !in s
    ensures d !in Remove(s, c)
  {
    if |s| > 0 {
      assert d !in s[1..] by {
        forall i | 0 <= i < |s[1..]| ensures s[1..][i] != d {
          assert s[1..][i] == s[i + 1];
        }
      }
      RemoveKeeps(s[1..], c, d);
    }
  }

  /** A rendered number has no surrounding whitespace. */
  lemma RenderedStripped(sign: string, g: string, p: string)
    requires sign == "" || sign == "-"
    requires |g| > 0 && IsDigit(g[0])
    requires |p| > 0 && IsDigit(p[|p| - 1])
    ensures Strip(sign + g + "," + p) == sign + g + "," + p
  {
    var s := sign + g + "," + p;
    assert s[0] == (if sign == "" then g[0] else '-');
    assert s[|s| - 1] == p[|p| - 1];
    StripUnchanged(s);
  }

  /** Digits spelling `whole` and `frac` read as `whole.frac` are
      `whole * 10^|frac| + frac` units of `10^-|frac|`. */
  lemma RenderedMagnitude(w: string, p: string, whole: nat, frac: nat, a: nat)
    requires AllDigits(w) && AllDigits(p)
    requires Value(w) == whole && Value(p) == frac
    requires whole * Pow10(|p|) + frac == a
    ensures Text.Magnitude(w, p) == a as real / Decimals.Scale(|p|)
  {
    var m := Pow10(|p|);
    assert Text.Magnitude(w, p) == whole as real + frac as real / m as real;
    assert Decimals.Scale(|p|) == m as real;
    UnitsQuotient(whole, frac, m, a);
  }

  /** `whole + frac / m` is `(whole * m + frac) / m`. */
  lemma UnitsQuotient(whole: nat, frac: nat, m: nat, a: nat)
    requires m > 0 && whole * m + frac == a
    ensures whole as real + frac as real / m as real == a as real / m as real
  {
    assert (whole * m) as real == whole as real * m as real;
    assert (whole as real + frac as real / m as real) * m as real == a as real;
  }

  /** Removing '.' from a string that starts with something else leaves a
      non-empty string. */
  lemma RemoveHead(s: string)
    requires |s| > 0 && s[0] != '.'
    ensures |Remove(s, '.')| > 0
  {
  }

  /** `Group` writes no ','. */
  lemma GroupNoComma(k: nat)
    ensures ',' !in Group(k)
  {
    var g := Group(k);
    forall i | 0 <= i < |g| ensures g[i] != ',' {
      assert IsDigit(g[i]) || g[i] == '.';
    }
  }

  /** The first two steps of `_to_dec` on a rendered number: nothing to
      strip, and the separators become a plain decimal point. */
  lemma Normalized(negative: bool, whole: nat, g: string, p: string, s: string, t: string)
    requires g == Group(whole) && |p| > 0 && AllDigits(p)
    requires s == (if negative then "-" else "") + g + "," + p
    requires t == (if negative then "-" else "") + (Remove(g, '.') + "." + p)
    ensures Strip(s) == s && Kapalicarsi.NormalizeSeparators(s) == t
  {
    var sign := if negative then "-" else "";
    GroupNoComma(whole);
    RenderedStripped(sign, g, p);
    var w := Remove(g, '.');
    if '.' in g {
      NormalizedGrouped(sign, g, p, s, w, t);
    } else {
      RemoveAbsent(g, '.');
      NormalizedPlain(sign, g, p, s, t);
    }
  }

  /** The last step: the plain numeral is `a` units of `10^-|p|`, signed. */
  lemma ParsedBack(negative: bool, w: string, p: string, whole: nat, frac: nat, a: nat, t: string, x: real)
    requires |w| > 0 && AllDigits(w) && Value(w) == whole
    requires |p| > 0 && AllDigits(p) && Value(p) == frac
    requires whole * Pow10(|p|) + frac == a
    requires t == (if negative then "-" else "") + (w + "." + p)
    requires x == (if negative then -(a as real) else a as real) / Decimals.Scale(|p|)
    ensures ParseDecimal(t) == Some(x)
  {
    var m := Text.Magnitude(w, p);
    SignedMagnitude(negative, w, p, whole, frac, a, m, x);
    if negative {
      ParseMinusAt(w, p, t, m);
    } else {
      ParsePlainAt(w, p, t, m);
    }
  }

  lemma SignedMagnitude(negative: bool, w: string, p: string, whole: nat, frac: nat, a: nat, m: real, x: real)
    requires AllDigits(w) && Value(w) == whole
    requires AllDigits(p) && Value(p) == frac
    requires whole * Pow10(|p|) + frac == a && m == Text.Magnitude(w, p)
    requires x == (if negative then -(a as real) else a as real) / Decimals.Scale(|p|)
    ensures x == (if negative then -m else m)
  {
    RenderedMagnitude(w, p, whole, frac, a);
    NegateQuotient(a as real, Decimals.Scale(|p|));
  }

  lemma ParseMinusAt(w: string, p: string, t: string, m: real)
    requires |w| > 0 && AllDigits(w) && |p| > 0 && AllDigits(p)
    requires t == "-" + (w + "." + p) && m == Text.Magnitude(w, p)
    ensures ParseDecimal(t) == Some(-m)
  {
    var u := w + "." + p;
    ParseUnsignedRendered(w, p);
    assert u[0] == w[0] && u[|u| - 1] == p[|p| - 1];
    ParseNegated(u, m);
  }

  lemma ParsePlainAt(w: string, p: string, t: string, m: real)
    requires |w| > 0 && AllDigits(w) && |p| > 0 && AllDigits(p)
    requires t == "" + (w + "." + p) && m == Text.Magnitude(w, p)
    ensures ParseDecimal(t) == Some(m)
  {
    assert t == w + "." + p;
    ParseRenderedPositive(w, p);
  }

  /** `_to_dec` reads a rendered number back: `a` units of `10^-|p|`, with
      the sign. */
  lemma ReadBack(negative: bool, whole: nat, g: string, p: string, frac: nat, a: nat, s: string)
    requires g == Group(whole) && |p| > 0 && AllDigits(p) && Value(p) == frac
    requires whole * Pow10(|p|) + frac == a
    requires s == (if negative then "-" else "") + g + "," + p
    ensures Kapalicarsi.ToDecText(s) == Success((if negative then -(a as real) else a as real) / Decimals.Scale(|p|))
  {
    var w := Remove(g, '.');
    var t := (if negative then "-" else "") + (w + "." + p);
    var x := (if negative then -(a as real) else a as real) / Decimals.Scale(|p|);
    assert Strip(s) == s && Kapalicarsi.NormalizeSeparators(s) == t by {
      Normalized(negative, whole, g, p, s, t);
    }
    assert ParseDecimal(t) == Some(x) by {
      RemoveHead(g);
      ParsedBack(negative, w, p, whole, frac, a, t, x);
    }
    ToDecSteps(s, s, t, x);
  }

  /** `_to_dec` step by step: strip, fix separators, parse. */
  lemma ToDecSteps(x: string, y: string, t: string, value: real)
    requires Strip(x) == y && Kapalicarsi.NormalizeSeparators(y) == t && ParseDecimal(t) == Some(value)
    ensures Kapalicarsi.ToDecText(x) == Success(value)
  {
  }

  lemma NegateQuotient(a: real, s: real)
    requires s > 0.0
    ensures -(a / s) == -a / s
  {
  }

  /** The round trip: `_to_dec(fmt(v, d)) == q2(v)` (or `q4(v)`), for the
      corrected `Fmt`. */
  lemma FmtRoundTrip(v: real, d: int)
    ensures Kapalicarsi.ToDecText(Fmt(Some(v), d)) == Success(Decimals.Quantize(v, Places(d)))
  {
    var places := Places(d);
    var n := Decimals.Units(v, places);
    var (whole, frac) := Format.Split(n, places);
    var g := Group(whole);
    var p := Pad(frac, places);
    var s := Fmt(Some(v), d);
    assert s == (if n < 0 then "-" else "") + g + "," + p;
    var a := if n < 0 then -n else n;
    assert Kapalicarsi.ToDecText(s) == Success((if n < 0 then -(a as real) else a as real) / Decimals.Scale(places)) by {
      ReadBack(n < 0, whole, g, p, frac, a, s);
    }
    assert (if n < 0 then -(a as real) else a as real) == n as real;
    Decimals.QuantizeIsUnits(v, places);
  }

  /** `fmt` as written reads back as the rounded value, except that a
      negative rounded value above -1 comes back with its sign dropped. */
  lemma FmtAsWrittenRoundTrip(v: real, d: int, q: real)
    requires q == Decimals.Quantize(v, Places(d))
    ensures Kapalicarsi.ToDecText(FmtAsWritten(Some(v), d)) == Success(if -1.0 < q < 0.0 then -q else q)
  {
    var places := Places(d);
    var n := Decimals.Units(v, places);
    var (whole, frac) := Format.Split(n, places);
    var a := if n < 0 then -n else n;
    var x := (if n < 0 && whole > 0 then -(a as real) else a as real) / Decimals.Scale(places);
    AsWrittenText(v, d, places, n, whole, frac, a, x);
    AsWrittenValue(v, places, n, whole, frac, a, x, q);
  }

  /** The text `fmt` as written produces reads back as `a` units, negated
      only when the whole part is non-zero. */
  lemma AsWrittenText(v: real, d: int, places: nat, n: int, whole: nat, frac: nat, a: nat, x: real)
    requires places == Places(d) && n == Decimals.Units(v, places) && (whole, frac) == Format.Split(n, places)
    requires a == (if n < 0 then -n else n)
    requires x == (if n < 0 && whole > 0 then -(a as real) else a as real) / Decimals.Scale(places)
    ensures Kapalicarsi.ToDecText(FmtAsWritten(Some(v), d)) == Success(x)
  {
    var g := Group(whole);
    var p := Pad(frac, places);
    var s := FmtAsWritten(Some(v), d);
    var negative := n < 0 && whole > 0;
    assert s == (if negative then "-" else "") + g + "," + p;
    ReadBack(negative, whole, g, p, frac, a, s);
  }

  lemma AsWrittenValue(v: real, places: nat, n: int, whole: nat, frac: nat, a: nat, x: real, q: real)
    requires n == Decimals.Units(v, places) && (whole, frac) == Format.Split(n, places)
    requires a == (if n < 0 then -n else n) && q == Decimals.Quantize(v, places)
    requires x == (if n < 0 && whole > 0 then -(a as real) else a as real) / Decimals.Scale(places)
    ensures x == (if -1.0 < q < 0.0 then -q else q)
  {
    DroppedSign(n, whole, frac, a, Pow10(places), Decimals.Scale(places), q);
  }

  /** The value the as-written text denotes, in terms of the rounded value
      `q = n / s`. */
  lemma DroppedSign(n: int, whole: nat, frac: nat, a: nat, m: nat, s: real, q: real)
    requires m > 0 && s == m as real && q * s == n as real
    requires a == (if n < 0 then -n else n) && whole * m + frac == a && frac < m
    ensures (if n < 0 && whole > 0 then -(a as real) else a as real) / s == (if -1.0 < q < 0.0 then -q else q)
  {
    Decimals.DivideBack(q, s, n as real);
    NegativeRatio(n, m);
    WholeRatio(n, m);
    if n < 0 {
      assert whole > 0 <==> a >= m;
      assert a as real == -(n as real);
    }
  }

  /** `fmt(Decimal("-0.5"), 2)` writes "0,50", which reads back as 0.5
      although `q2(-0.5)` is -0.5. */
  lemma FmtAsWrittenDropsSign()
    ensures Decimals.Q2(-0.5) == -0.5
    ensures Kapalicarsi.ToDecText(FmtAsWritten(Some(-0.5), 2)) == Success(0.5)
  {
    assert Decimals.Scale(2) == 100.0;
    assert Decimals.Units(-0.5, 2) == -50;
    Decimals.QuantizeIsUnits(-0.5, 2);
    FmtAsWrittenRoundTrip(-0.5, 2, -0.5);
  }
}
