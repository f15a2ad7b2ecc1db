/** String helpers the Python code gets from `str` and `decimal`: digit
    strings and their values, whitespace stripping, `split`, `splitlines`,
    `replace`, `lower`, substring search, and the `Decimal(str)` constructor
    restricted to plain positional numerals. */
module Text {
  import opened Wrappers

  // ---------------------------------------------------------------- digits

  predicate IsDigit(c: char) {
    '0' <= c <= '9'
  }

  predicate AllDigits(s: string) {
    forall i :: 0 <= i < |s| ==> IsDigit(s[i])
  }

  function DigitValue(c: char): nat
    requires IsDigit(c)
  {
    c as int - '0' as int
  }

  function DigitChar(k: nat): (c: char)
    requires k < 10
    ensures IsDigit(c) && DigitValue(c) == k
  {
    ('0' as int + k) as char
  }

  function Pow10(n: nat): (p: nat)
    ensures p >= 1
  {
    if n == 0 then 1 else 10 * Pow10(n - 1)
  }

  /** The number a string of decimal digits denotes, most significant digit
      first; the empty string denotes 0. */
  function Value(s: string): nat
    requires AllDigits(s)
  {
    if |s| == 0 then 0 else 10 * Value(s[..|s| - 1]) + DigitValue(s[|s| - 1])
  }

  lemma {:induction false} ValueAppend(a: string, b: string)
    requires AllDigits(a) && AllDigits(b)
    ensures AllDigits(a + b)
    ensures Value(a + b) == Value(a) * Pow10(|b|) + Value(b)
  {
    if |b| == 0 {
      assert a + b == a;
    } else {
      var b' := b[..|b| - 1];
      assert (a + b)[..|a + b| - 1] == a + b';
      assert (a + b)[|a + b| - 1] == b[|b| - 1];
      ValueAppend(a, b');
      assert Value(a + b) == 10 * Value(a + b') + DigitValue(b[|b| - 1]);
      assert Value(b) == 10 * Value(b') + DigitValue(b[|b| - 1]);
      ShiftDigit(Value(a), Pow10(|b'|), Value(b'), DigitValue(b[|b| - 1]));
    }
  }

  lemma ShiftDigit(v: int, m: int, w: int, d: int)
    ensures 10 * (v * m + w) + d == v * (10 * m) + (10 * w + d)
  {
  }

  /** Decimal representation without leading zeros, as Python's `str(int)`. */
  function Digits(k: nat): (s: string)
    ensures |s| > 0 && AllDigits(s) && Value(s) == k
  {
    if k < 10 then
      [DigitChar(k)]
    else
      var p := Digits(k / 10);
      assert (p + [DigitChar(k % 10)])[..|p|] == p;
      p + [DigitChar(k % 10)]
  }

  /** The digits of `k` zero-padded on the left to width `w`. */
  function Pad(k: nat, w: nat): (s: string)
    requires k < Pow10(w)
    ensures |s| == w && AllDigits(s) && Value(s) == k
  {
    if w == 0 then
      []
    else
      var p := Pad(k / 10, w - 1);
      assert (p + [DigitChar(k % 10)])[..|p|] == p;
      p + [DigitChar(k % 10)]
  }

  // ------------------------------------------------ removing and replacing

  /** `s.replace(c, "")` for a one-character `c`. */
  function Remove(s: string, c: char): (r: string)
    ensures c !in r
    ensures |r| <= |s|
  {
    if |s| == 0 then [] else (if s[0] == c then [] else [s[0]]) + Remove(s[1..], c)
  }

  /** `s.replace(c, d)` for one-character `c` and `d`. */
  function Replace(s: string, c: char, d: char): (r: string)
    ensures |r| == |s|
  {
    if |s| == 0 then [] else [if s[0] == c then d else s[0]] + Replace(s[1..], c, d)
  }

  /** Each character of the replacement is the original one, or `d` where
      the original was `c`. */
  lemma {:induction false} ReplaceAt(s: string, c: char, d: char)
    ensures forall i :: 0 <= i < |s| ==> Replace(s, c, d)[i] == (if s[i] == c then d else s[i])
  {
    if |s| > 0 {
      ReplaceAt(s[1..], c, d);
      assert forall i :: 0 < i < |s| ==> s[1..][i - 1] == s[i];
    }
  }

  lemma {:induction false} RemoveAppend(a: string, b: string, c: char)
    ensures Remove(a + b, c) == Remove(a, c) + Remove(b, c)
  {
    if |a| == 0 {
      assert a + b == b;
    } else {
      var head := if a[0] == c then [] else [a[0]];
      assert (a + b)[0] == a[0] && (a + b)[1..] == a[1..] + b;
      RemoveAppend(a[1..], b, c);
      assert head + (Remove(a[1..], c) + Remove(b, c)) == (head + Remove(a[1..], c)) + Remove(b, c);
    }
  }

  lemma {:induction false} RemoveAbsent(s: string, c: char)
    requires c !in s
    ensures Remove(s, c) == s
  {
    if |s| > 0 {
      assert s == [s[0]] + s[1..];
      RemoveAbsent(s[1..], c);
    }
  }

  lemma {:induction false} ReplaceAppend(a: string, b: string, c: char, d: char)
    ensures Replace(a + b, c, d) == Replace(a, c, d) + Replace(b, c, d)
  {
    if |a| == 0 {
      assert a + b == b;
    } else {
      assert (a + b)[1..] == a[1..] + b;
      ReplaceAppend(a[1..], b, c, d);
    }
  }

  lemma ReplaceAbsent(s: string, c: char, d: char)
    requires c !in s
    ensures Replace(s, c, d) == s
  {
    ReplaceAt(s, c, d);
  }

  // ------------------------------------------------------------ whitespace

  /** Python's `str.isspace` for one character. */
  predicate IsSpace(c: char) {
    var n := c as int;
    (9 <= n <= 13) || (28 <= n <= 32) || n == 0x85 || n == 0xA0 || n == 0x1680
    || (0x2000 <= n <= 0x200A) || n == 0x2028 || n == 0x2029 || n == 0x202F
    || n == 0x205F || n == 0x3000
  }

  function StripLeft(s: string): (r: string)
    ensures |r| <= |s|
    ensures |r| == 0 || !IsSpace(r[0])
    ensures r == s[|s| - |r|..]
  {
    if |s| > 0 && IsSpace(s[0]) then StripLeft(s[1..]) else s
  }

  function StripRight(s: string): (r: string)
    ensures |r| <= |s|
    ensures |r| == 0 || !IsSpace(r[|r| - 1])
    ensures r == s[..|r|]
  {
    if |s| > 0 && IsSpace(s[|s| - 1]) then StripRight(s[..|s| - 1]) else s
  }

  /** `s.strip()`: drop leading and trailing whitespace. */
  function Strip(s: string): (r: string)
    ensures |r| == 0 || (!IsSpace(r[0]) && !IsSpace(r[|r| - 1]))
  {
    StripRight(StripLeft(s))
  }

  lemma StripUnchanged(s: string)
    requires |s| > 0 && !IsSpace(s[0]) && !IsSpace(s[|s| - 1])
    ensures Strip(s) == s
  {
  }

  // ------------------------------------------------------------- splitting

  /** Splits `s` at the first `c`: the part before it, and the part after it
      if `c` occurs at all. */
  function SplitFirst(s: string, c: char): (r: (string, Option<string>))
    ensures c !in r.0
    ensures r.1.None? ==> r.0 == s
    ensures r.1.Some? ==> s == r.0 + [c] + r.1.value
  {
    if |s| == 0 then ([], None)
    else if s[0] == c then ([], Some(s[1..]))
    else
      var (a, b) := SplitFirst(s[1..], c);
      ([s[0]] + a, b)
  }

  lemma {:induction false} SplitFirstAt(a: string, c: char, b: string)
    requires c !in a
    ensures SplitFirst(a + [c] + b, c) == (a, Some(b))
  {
    if |a| > 0 {
      assert (a + [c] + b)[1..] == a[1..] + [c] + b;
      SplitFirstAt(a[1..], c, b);
      assert [a[0]] + a[1..] == a;
    }
  }

  /** `s.split(c)` for a one-character separator: never empty. */
  function SplitOn(s: string, c: char): (r: seq<string>)
    ensures |r| >= 1
    ensures forall i :: 0 <= i < |r| ==> c !in r[i]
    decreases |s|
  {
    match SplitFirst(s, c)
    case (a, None) => [a]
    case (a, Some(b)) => [a] + SplitOn(b, c)
  }

  /** Characters `str.splitlines` treats as line boundaries. */
  predicate IsLineBreak(c: char) {
    var n := c as int;
    (10 <= n <= 13) || (28 <= n <= 30) || n == 0x85 || n == 0x2028 || n == 0x2029
  }

  /** The first line of a non-empty `s` and what follows its terminator
      ("\r\n" counts as one terminator). */
  function TakeLine(s: string): (r: (string, string))
    requires |s| > 0
    ensures |r.1| < |s|
  {
    if IsLineBreak(s[0]) then
      if s[0] == '\r' && |s| > 1 && s[1] == '\n' then ([], s[2..]) else ([], s[1..])
    else if |s| == 1 then
      (s, [])
    else
      var (line, rest) := TakeLine(s[1..]);
      ([s[0]] + line, rest)
  }

  /** `s.splitlines()`: no line keeps its terminator, and a final terminator
      does not open an empty last line. */
  function SplitLines(s: string): (r: seq<string>)
    ensures |s| == 0 <==> |r| == 0
    decreases |s|
  {
    if |s| == 0 then [] else
      var (line, rest) := TakeLine(s);
      [line] + SplitLines(rest)
  }

  // ---------------------------------------------------------------- search

  predicate IsPrefix(p: string, s: string) {
    |p| <= |s| && s[..|p|] == p
  }

  /** Python's `needle in hay` on strings. */
  predicate Contains(hay: string, needle: string)
    decreases |hay|
  {
    IsPrefix(needle, hay) || (|hay| > 0 && Contains(hay[1..], needle))
  }

  /** `str.lower` on ASCII and Latin-1 capitals, plus the Turkish dotted
      capital I, which lowers to 'i' followed by a combining dot. */
  function LowerChar(c: char): string {
    var n := c as int;
    if 'A' <= c <= 'Z' || (0xC0 <= n <= 0xDE && n != 0xD7) then [(n + 32) as char]
    else if n == 0x11E || n == 0x15E then [(n + 1) as char]
    else if n == 0x130 then ['i', 0x307 as char]
    else [c]
  }

  function Lower(s: string): string {
    if |s| == 0 then [] else LowerChar(s[0]) + Lower(s[1..])
  }

  // ------------------------------------------------------- decimal numbers

  /** The value of the numeral `a.b`. */
  function Magnitude(a: string, b: string): real
    requires AllDigits(a) && AllDigits(b)
  {
    Value(a) as real + Value(b) as real / Pow10(|b|) as real
  }

  /** An unsigned positional numeral: digits with at most one '.', at least
      one digit in all ("1.", ".5" and "1.50" are accepted). */
  function ParseUnsigned(t: string): Option<real> {
    var (a, rest) := SplitFirst(t, '.');
    if rest.None? then
      if |a| > 0 && AllDigits(a) then Some(Value(a) as real) else None
    else
      var b := rest.value;
      if AllDigits(a) && AllDigits(b) && |a| + |b| > 0
      then Some(Magnitude(a, b))
      else None
  }

  /** An optionally signed run of digits, as after the `e` of an exponent. */
  function ParseExponent(t: string): Option<int> {
    if |t| > 0 && (t[0] == '-' || t[0] == '+') then
      var ds := t[1..];
      if |ds| > 0 && AllDigits(ds) then Some(if t[0] == '-' then -(Value(ds) as int) else Value(ds) as int) else None
    else if |t| > 0 && AllDigits(t) then Some(Value(t))
    else None
  }

  /** `10^e` for any integer `e`. */
  function Exp10(e: int): (r: real)
    ensures r > 0.0
  {
    if e >= 0 then Pow10(e) as real else 1.0 / Pow10(-e) as real
  }

  /** A positional numeral with an optional exponent (`2.5`, `4.2e-05`). */
  function ParseScientific(u: string): Option<real> {
    var (m, e) := SplitFirst(Replace(u, 'E', 'e'), 'e');
    match ParseUnsigned(m)
    case None => None
    case Some(v) =>
      if e.None? then Some(v)
      else match ParseExponent(e.value)
        case None => None
        case Some(x) => Some(v * Exp10(x))
  }

  /** A numeral with an optional leading sign; `None` when malformed. */
  function ParseSigned(t: string): Option<real> {
    if |t| > 0 && t[0] == '-' then
      match ParseScientific(t[1..])
      case Some(v) => Some(-v)
      case None => None
    else if |t| > 0 && t[0] == '+' then ParseScientific(t[1..])
    else ParseScientific(t)
  }

  /** `Decimal(s)` for a string `s`: surrounding whitespace is ignored, and
      `None` stands for `InvalidOperation`. */
  function ParseDecimal(s: string): Option<real> {
    ParseSigned(Strip(s))
  }

  lemma SplitFirstAbsent(s: string, c: char)
    requires c !in s
    ensures SplitFirst(s, c) == (s, None)
  {
    if |s| > 0 {
      SplitFirstAbsent(s[1..], c);
      assert [s[0]] + s[1..] == s;
    }
  }

  lemma ParseUnsignedRendered(whole: string, frac: string)
    requires |whole| > 0 && AllDigits(whole) && |frac| > 0 && AllDigits(frac)
    ensures ParseScientific(whole + "." + frac) == Some(Magnitude(whole, frac))
  {
    var u := whole + "." + frac;
    assert u == whole + ['.'] + frac;
    SplitFirstAt(whole, '.', frac);
    assert forall i :: 0 <= i < |u| ==> IsDigit(u[i]) || u[i] == '.';
    assert 'E' !in u && 'e' !in u;
    ReplaceAbsent(u, 'E', 'e');
    SplitFirstAbsent(u, 'e');
  }

  lemma ParseDecimalTrimmed(s: string)
    requires |s| > 0 && !IsSpace(s[0]) && !IsSpace(s[|s| - 1])
    ensures ParseDecimal(s) == ParseSigned(s)
  {
    StripUnchanged(s);
  }

  lemma ParseSignedDigitFirst(u: string)
    requires |u| > 0 && IsDigit(u[0])
    ensures ParseSigned(u) == ParseScientific(u)
  {
  }

  lemma ParseSignedMinus(u: string, v: real)
    requires ParseScientific(u) == Some(v)
    ensures ParseSigned("-" + u) == Some(-v)
  {
    assert ("-" + u)[1..] == u;
  }

  /** The numeral `whole.frac` denotes the value its digits spell. */
  lemma ParseRenderedPositive(whole: string, frac: string)
    requires |whole| > 0 && AllDigits(whole) && |frac| > 0 && AllDigits(frac)
    ensures ParseDecimal(whole + "." + frac) == Some(Magnitude(whole, frac))
  {
    var u := whole + "." + frac;
    ParseUnsignedRendered(whole, frac);
    assert IsDigit(u[0]) && IsDigit(u[|u| - 1]);
    ParseSignedDigitFirst(u);
    StripUnchanged(u);
  }

  /** A leading '-' negates the value of a numeral that starts and ends with
      a digit. */
  lemma ParseNegated(u: string, v: real)
    requires |u| > 0 && IsDigit(u[0]) && IsDigit(u[|u| - 1])
    requires ParseScientific(u) == Some(v)
    ensures ParseDecimal("-" + u) == Some(-v)
  {
    ParseSignedMinus(u, v);
    var s := "-" + u;
    assert s[0] == '-' && s[|s| - 1] == u[|u| - 1];
    ParseDecimalTrimmed(s);
  }


  /** A plain run of digits denotes the integer it spells. */
  lemma ParseWhole(u: string)
    requires |u| > 0 && AllDigits(u)
    ensures ParseDecimal(u) == Some(Value(u) as real)
  {
    assert 'E' !in u && 'e' !in u && '.' !in u;
    ReplaceAbsent(u, 'E', 'e');
    SplitFirstAbsent(u, 'e');
    SplitFirstAbsent(u, '.');
    assert IsDigit(u[0]) && IsDigit(u[|u| - 1]);
    ParseSignedDigitFirst(u);
    StripUnchanged(u);
  }

}
