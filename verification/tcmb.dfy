/** `providers/fx_tcmb.py`: dollar and euro from the Turkish central bank's
    daily rate sheet, taking each currency's forex selling rate. The sheet
    is given already parsed, as the `Currency` elements of its root in
    document order; fetching it and parsing the XML are left to the caller,
    which folds their failures into a `Failure`. */
module Tcmb {
  import opened Wrappers
  import Text
  import opened Errors
  import opened Assets

  const NAME: string := "tcmb"
  const SOURCE: string := "TCMB FX"

  /** One `<Currency>` element: its `CurrencyCode` attribute and the text of
      its `<ForexSelling>` child (`None` when either is absent; an empty
      element has the text ""). */
  datatype Currency = Currency(code: Option<string>, forexSelling: Option<string>)

  /** `Decimal(fs) if fs else None`. */
  function Selling(fs: Option<string>): (r: Result<Option<real>, Error>)
    ensures fs.None? || fs == Some("") ==> r == Success(None)
    ensures fs.Some? && fs.value != "" ==>
      r == match Text.ParseDecimal(fs.value)
        case Some(v) => Success(Some(v))
        case None => Failure(InvalidDecimal(fs.value))
  {
    if fs.None? || fs.value == "" then Success(None)
    else match Text.ParseDecimal(fs.value)
      case Some(v) => Success(Some(v))
      case None => Failure(InvalidDecimal(fs.value))
  }

  /** `find(code)`: the selling rate of the first element with that code. */
  function Find(cs: seq<Currency>, code: string): (r: Result<Option<real>, Error>)
    ensures (forall i :: 0 <= i < |cs| ==> cs[i].code != Some(code)) ==> r == Success(None)
    ensures r.Failure? ==> exists i :: 0 <= i < |cs| && cs[i].code == Some(code) && r == Selling(cs[i].forexSelling)
  {
    if |cs| == 0 then Success(None)
    else if cs[0].code == Some(code) then Selling(cs[0].forexSelling)
    else
      var r := Find(cs[1..], code);
      assert r.Failure? ==> exists i :: 1 <= i < |cs| && cs[i].code == Some(code) && r == Selling(cs[i].forexSelling) by {
        if r.Failure? {
          var j :| 0 <= j < |cs[1..]| && cs[1..][j].code == Some(code) && r == Selling(cs[1..][j].forexSelling);
          assert cs[j + 1] == cs[1..][j];
        }
      }
      r
  }

  /** Only the first element with the code counts: a later one is never
      read, even when the first has no selling rate. */
  lemma {:induction false} FindFirst(cs: seq<Currency>, code: string, i: int)
    requires 0 <= i < |cs| && cs[i].code == Some(code)
    requires forall k :: 0 <= k < i ==> cs[k].code != Some(code)
    ensures Find(cs, code) == Selling(cs[i].forexSelling)
  {
    if i > 0 {
      var tail := cs[1..];
      forall k | 0 <= k < i - 1
        ensures tail[k].code != Some(code)
      {
        assert tail[k] == cs[k + 1];
      }
      FindFirst(tail, code, i - 1);
      assert tail[i - 1] == cs[i];
      assert cs[0].code != Some(code);
    }
  }

  /** The map holding the dollar at `usd` and the euro at `eur` where
      present. */
  function Pair(usd: Option<real>, eur: Option<real>): (m: map<AssetId, real>)
    ensures USDTRY in m <==> usd.Some?
    ensures EURTRY in m <==> eur.Some?
    ensures usd.Some? ==> m[USDTRY] == usd.value
    ensures eur.Some? ==> m[EURTRY] == eur.value
  {
    assert USDTRY != EURTRY by { assert USDTRY[0] != EURTRY[0]; }
    (if usd.Some? then map[USDTRY := usd.value] else map[])
      + (if eur.Some? then map[EURTRY := eur.value] else map[])
  }

  /** The body of the `try` block on the parsed sheet. */
  function FromSheet(want: set<AssetId>, cs: seq<Currency>): (r: Result<map<AssetId, real>, Error>)
    ensures r.Success? ==> r.value.Keys <= want * FX_IDS
    ensures r.Success? <==> (USDTRY in want ==> Find(cs, "USD").Success?) && (EURTRY in want ==> Find(cs, "EUR").Success?)
    ensures r.Success? ==>
      (USDTRY in r.value <==> USDTRY in want && Find(cs, "USD").value.Some?)
      && (EURTRY in r.value <==> EURTRY in want && Find(cs, "EUR").value.Some?)
    ensures r.Success? && USDTRY in r.value ==> r.value[USDTRY] == Find(cs, "USD").value.value
    ensures r.Success? && EURTRY in r.value ==> r.value[EURTRY] == Find(cs, "EUR").value.value
    ensures USDTRY in want && Find(cs, "USD").Failure? ==> r == Failure(Find(cs, "USD").error)
  {
    assert USDTRY in want ==> USDTRY in want * FX_IDS;
    assert EURTRY in want ==> EURTRY in want * FX_IDS;
    var usd :- if USDTRY in want then Find(cs, "USD") else Success(None);
    var eur :- if EURTRY in want then Find(cs, "EUR") else Success(None);
    Success(Pair(usd, eur))
  }

  /** `get_prices_try(assets)` on the outcome of fetching and parsing the
      sheet. */
  function GetPricesTry(want: set<AssetId>, sheet: Result<seq<Currency>, Error>): (r: Result<map<AssetId, real>, Error>)
    ensures want * FX_IDS == {} ==> r == Success(map[])
    ensures want * FX_IDS != {} && sheet.Failure? ==> r == Failure(Provider(Wrapped(SOURCE, sheet.error)))
    ensures want * FX_IDS != {} && sheet.Success? && FromSheet(want, sheet.value).Success? ==> r == FromSheet(want, sheet.value)
    ensures r.Success? ==> r.value.Keys <= want * FX_IDS
    ensures r.Failure? ==> r.error.Provider? && r.error.reason.Wrapped? && r.error.reason.source == SOURCE
  {
    assert USDTRY in want ==> USDTRY in want * FX_IDS;
    assert EURTRY in want ==> EURTRY in want * FX_IDS;
    if want * FX_IDS == {} then Success(map[])
    else
      Wrap(SOURCE, match sheet
        case Failure(e) => Failure(e)
        case Success(cs) => FromSheet(want, cs))
  }

  /** A sheet with a dollar element that has an empty selling rate before a
      complete one yields no dollar price, and no error. */
  lemma EmptyFirstHidesLater(s: string)
    ensures var cs := [Currency(Some("USD"), Some("")), Currency(Some("USD"), Some(s))];
      GetPricesTry({USDTRY}, Success(cs)) == Success(map[])
  {
    var cs := [Currency(Some("USD"), Some("")), Currency(Some("USD"), Some(s))];
    FindFirst(cs, "USD", 0);
  }
}
