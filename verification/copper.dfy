/** `providers/copper_stooq.py` and `providers/copper_kitco.py`: the copper
    future HG.F from Stooq's quote CSV, in US cents per pound. Both files
    define the same `_parse_last_close_usd_per_lb`; their `get_prices_try`
    only refuse, since the lira price needs the dollar rate the router
    supplies. The CSV body (or the failure to fetch it) is a parameter. */
module Copper {
  import opened Wrappers
  import opened Text
  import opened Errors
  import opened Assets

  const NAME: string := "copper_stooq"

  /** Grams in a pound. */
  const LB_TO_GRAM: real := 453.59237

  /** `_parse_last_close_usd_per_lb()`: the Close column (the seventh) of
      the first data row, turned from cents into dollars. */
  function ParseLastCloseUsdPerLb(body: Result<string, Error>): (r: Result<real, Error>)
    ensures body.Failure? ==> r == Failure(body.error)
    ensures body.Success? ==> r == CloseOf(SplitLines(Strip(body.value)))
  {
    var text :- body;
    CloseOf(SplitLines(Strip(text)))
  }

  /** The dollar close read from the lines of the stripped body. */
  function CloseOf(lines: seq<string>): (r: Result<real, Error>)
    ensures |lines| < 2 ==> r == Failure(CsvEmpty)
    ensures |lines| >= 2 && |SplitOn(lines[1], ',')| < 7 ==> r == Failure(CsvMalformed)
    ensures r.Success? ==> Closes(lines, r.value * 100.0)
    ensures forall cents :: Closes(lines, cents) ==> r == Success(cents / 100.0)
  {
    if |lines| < 2 then Failure(CsvEmpty) else CloseIn(SplitOn(lines[1], ','))
  }

  /** The dollar close read from the fields of the first data row. */
  function CloseIn(parts: seq<string>): (r: Result<real, Error>)
    ensures |parts| < 7 ==> r == Failure(CsvMalformed)
    ensures r.Success? ==> CloseField(parts, r.value * 100.0)
    ensures forall cents :: CloseField(parts, cents) ==> r == Success(cents / 100.0)
  {
    if |parts| < 7 then Failure(CsvMalformed)
    else match ParseDecimal(parts[6])
      case None =>
        NoField(parts);
        Failure(InvalidDecimal(parts[6]))
      case Some(cents) =>
        FieldOnly(parts, cents);
        Success(cents / 100.0)
  }

  /** A seventh field that does not read as a number reads as no amount. */
  lemma NoField(parts: seq<string>)
    requires |parts| >= 7 && ParseDecimal(parts[6]).None?
    ensures forall c :: !CloseField(parts, c)
  {
  }

  /** A seventh field that reads as `cents` reads as nothing else, and
      `cents` survives the division by 100 and the multiplication back. */
  lemma FieldOnly(parts: seq<string>, cents: real)
    requires CloseField(parts, cents)
    ensures forall c :: CloseField(parts, c) <==> c == cents
    ensures cents / 100.0 * 100.0 == cents
  {
  }

  /** The seventh field reads as `cents`. */
  predicate CloseField(parts: seq<string>, cents: real) {
    |parts| >= 7 && ParseDecimal(parts[6]) == Some(cents)
  }

  /** The second line has a seventh field that reads as `cents`. */
  predicate Closes(lines: seq<string>, cents: real) {
    |lines| >= 2 && CloseField(SplitOn(lines[1], ','), cents)
  }

  /** A body without a line break (a bare header, or nothing at all) is
      reported as empty. */
  lemma HeaderOnly(text: string)
    requires NoBreak(text)
    ensures ParseLastCloseUsdPerLb(Success(text)) == Failure(CsvEmpty)
  {
    StripKeeps(text);
    OneLine(Strip(text));
  }

  /** `splitlines` of a string without a line break has at most one line. */
  lemma {:induction false} OneLine(s: string)
    requires NoBreak(s)
    ensures |SplitLines(s)| <= 1
  {
    if |s| > 0 {
      NoBreakTake(s);
    }
  }

  /** Taking the first line of a string without a line break takes all of
      it. */
  lemma {:induction false} NoBreakTake(s: string)
    requires |s| > 0 && NoBreak(s)
    ensures TakeLine(s) == (s, [])
  {
    if |s| > 1 {
      assert forall i :: 0 <= i < |s[1..]| ==> s[1..][i] == s[i + 1];
      NoBreakTake(s[1..]);
      assert [s[0]] + s[1..] == s;
    }
  }

  /** A header line and a data row: the Close field of the row is read,
      whatever the header says. */
  lemma FirstRowClose(header: string, row: string, cents: real)
    requires |header| > 0 && !IsSpace(header[0]) && NoBreak(header)
    requires |row| > 0 && !IsSpace(row[|row| - 1]) && NoBreak(row)
    requires |SplitOn(row, ',')| >= 7 && ParseDecimal(SplitOn(row, ',')[6]) == Some(cents)
    ensures ParseLastCloseUsdPerLb(Success(header + "\n" + row)) == Success(cents / 100.0)
  {
    var text := header + "\n" + row;
    assert Strip(text) == text by {
      assert text[0] == header[0] && text[|text| - 1] == row[|row| - 1];
      StripUnchanged(text);
    }
    assert SplitLines(text) == [header, row] by {
      TwoLines(header, row);
    }
    assert Closes([header, row], cents);
  }

  predicate NoBreak(s: string) {
    forall i :: 0 <= i < |s| ==> !IsLineBreak(s[i])
  }

  /** `splitlines` of two lines joined by a newline gives them back. */
  lemma TwoLines(a: string, b: string)
    requires NoBreak(a) && |b| > 0 && NoBreak(b)
    ensures SplitLines(a + "\n" + b) == [a, b]
  {
    TakeLineAt(a, b);
    NoBreakTake(b);
    assert SplitLines(b) == [b] + SplitLines([]);
  }

  /** The first line ends at the first line break. */
  lemma {:induction false} TakeLineAt(a: string, rest: string)
    requires NoBreak(a)
    ensures TakeLine(a + "\n" + rest) == (a, rest)
  {
    var s := a + "\n" + rest;
    if |a| == 0 {
      assert s == "\n" + rest;
      assert s[1..] == rest;
    } else {
      assert s[1..] == a[1..] + "\n" + rest;
      TakeLineAt(a[1..], rest);
      assert [a[0]] + a[1..] == a;
    }
  }

  /** Stripping only removes characters. */
  lemma StripKeeps(s: string)
    ensures forall i :: 0 <= i < |Strip(s)| ==> Strip(s)[i] in s
  {
    StripLeftKeeps(s);
    StripRightKeeps(StripLeft(s));
  }

  lemma {:induction false} StripLeftKeeps(s: string)
    ensures forall i :: 0 <= i < |StripLeft(s)| ==> StripLeft(s)[i] in s
  {
    if |s| > 0 && IsSpace(s[0]) {
      StripLeftKeeps(s[1..]);
      forall i | 0 <= i < |StripLeft(s)| ensures StripLeft(s)[i] in s {
        assert StripLeft(s)[i] in s[1..];
      }
    }
  }

  lemma {:induction false} StripRightKeeps(s: string)
    ensures forall i :: 0 <= i < |StripRight(s)| ==> StripRight(s)[i] in s
  {
    if |s| > 0 && IsSpace(s[|s| - 1]) {
      StripRightKeeps(s[..|s| - 1]);
      forall i | 0 <= i < |StripRight(s)| ensures StripRight(s)[i] in s {
        assert StripRight(s)[i] in s[..|s| - 1];
      }
    }
  }

  /** Stooq's `get_prices_try` always refuses: copper is priced through the
      router. */
  function StooqGetPricesTry(want: set<AssetId>): (r: Result<map<AssetId, real>, Error>)
    ensures r == Failure(Provider(StooqViaRouterOnly))
  {
    Failure(Provider(StooqViaRouterOnly))
  }

  /** The copy in `copper_kitco.py` refuses too, saying why. */
  function KitcoGetPricesTry(want: set<AssetId>): (r: Result<map<AssetId, real>, Error>)
    ensures r.Failure? && r.error.Provider?
    ensures r.error.reason == KitcoOnlyXcu <==> XCU_G !in want
    ensures r.error.reason == KitcoNeedsUsdTry <==> XCU_G in want
  {
    if XCU_G !in want then Failure(Provider(KitcoOnlyXcu)) else Failure(Provider(KitcoNeedsUsdTry))
  }
}
