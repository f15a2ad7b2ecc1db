/** `providers/fx_exchangerate_host.py`: dollar and euro from the
    exchangerate.host rates, which quote how much of each currency one lira
    buys. The HTTP response is a parameter. */
module ExchangerateHost {
  import opened Wrappers
  import opened Errors
  import opened Payload
  import opened Assets

  const NAME: string := "exchangerate_host"
  const SOURCE: string := "exchangerate.host FX"

  /** `Decimal("1") / Decimal(str(rates[sym]))`: lira per unit of `sym`. */
  function Inverse(rates: Json, sym: string): (r: Result<real, Error>)
    ensures r.Success? <==> (rates.Obj? && sym in rates.fields
      && DecimalOf(rates.fields[sym]).Success? && DecimalOf(rates.fields[sym]).value != 0.0)
    ensures r.Success? ==> Inverts(r.value, DecimalOf(rates.fields[sym]).value)
  {
    var x :- Index(rates, sym);
    var v :- DecimalOf(x);
    Reciprocal(v)
  }

  /** `if a in want and sym in rates: out[a] = ...`: the membership test
      runs only for a wanted pair. */
  function Quote(rates: Json, sym: string, wanted: bool): (r: Result<Option<real>, Error>)
    ensures !wanted ==> r == Success(None)
    ensures wanted && Has(rates, sym).Failure? ==> r == Failure(Has(rates, sym).error)
    ensures r.Success? && r.value.Some? <==> wanted && Has(rates, sym) == Success(true) && Inverse(rates, sym).Success?
    ensures r.Success? && r.value.Some? ==> r.value.value == Inverse(rates, sym).value
  {
    if !wanted then Success(None)
    else
      var present :- Has(rates, sym);
      if present then
        var v :- Inverse(rates, sym);
        Success(Some(v))
      else
        Success(None)
  }

  /** The map holding the dollar at `usd` and the euro at `eur` where
      present. */
  function Pair(usd: Option<real>, eur: Option<real>): (m: map<AssetId, real>)
    ensures USDTRY in m <==> usd.Some?
    ensures EURTRY in m <==> eur.Some?
    ensures m.Keys <= FX_IDS
    ensures usd.Some? ==> m[USDTRY] == usd.value
    ensures eur.Some? ==> m[EURTRY] == eur.value
  {
    assert USDTRY != EURTRY by { assert USDTRY[0] != EURTRY[0]; }
    (if usd.Some? then map[USDTRY := usd.value] else map[])
      + (if eur.Some? then map[EURTRY := eur.value] else map[])
  }

  /** The prices read from the `rates` object. */
  function FromRates(want: set<AssetId>, rates: Json): (r: Result<map<AssetId, real>, Error>)
    ensures r.Success? ==> r.value.Keys <= want * FX_IDS
    ensures r.Success? ==>
      (USDTRY in r.value <==> USDTRY in want && Has(rates, "USD") == Success(true))
      && (EURTRY in r.value <==> EURTRY in want && Has(rates, "EUR") == Success(true))
    ensures r.Success? && USDTRY in r.value ==> Inverse(rates, "USD").Success? && r.value[USDTRY] == Inverse(rates, "USD").value
    ensures r.Success? && EURTRY in r.value ==> Inverse(rates, "EUR").Success? && r.value[EURTRY] == Inverse(rates, "EUR").value
  {
    var usd :- Quote(rates, "USD", USDTRY in want);
    var eur :- Quote(rates, "EUR", EURTRY in want);
    var m := Pair(usd, eur);
    assert USDTRY in m ==> m[USDTRY] == Inverse(rates, "USD").value;
    assert EURTRY in m ==> m[EURTRY] == Inverse(rates, "EUR").value;
    Success(m)
  }

  /** `get_prices_try(assets)` with the outcome of the request (transport,
      status and JSON decoding folded into a `Failure`). */
  function GetPricesTry(want: set<AssetId>, response: Result<Json, Error>): (r: Result<map<AssetId, real>, Error>)
    ensures want * FX_IDS == {} ==> r == Success(map[])
    ensures r.Success? ==> r.value.Keys <= want * FX_IDS
    ensures r.Failure? ==> r.error.Provider? && r.error.reason.Wrapped? && r.error.reason.source == SOURCE
  {
    assert USDTRY in want ==> USDTRY in want * FX_IDS;
    assert EURTRY in want ==> EURTRY in want * FX_IDS;
    if USDTRY !in want && EURTRY !in want then
      Success(map[])
    else
      Wrap(SOURCE, match response
        case Failure(e) => Failure(e)
        case Success(j) =>
          var rates :- GetOr(j, "rates", Obj(map[]));
          FromRates(want, rates))
  }

  /** A pair that is not wanted never reads the rates, so rates of an
      unexpected shape fail only a request that needs them. */
  lemma UnwantedNotRead(rates: Json)
    requires !rates.Obj? && !rates.Arr? && !rates.Str?
    ensures FromRates({USDTRY}, rates) == Failure(Malformed)
    ensures Quote(rates, "EUR", false) == Success(None)
  {
  }

  /** Both pairs quoted: each price is the reciprocal of its quote. */
  lemma BothQuoted(rf: map<string, Json>, u: real, e: real)
    requires "USD" in rf && DecimalOf(rf["USD"]) == Success(u) && u != 0.0
    requires "EUR" in rf && DecimalOf(rf["EUR"]) == Success(e) && e != 0.0
    ensures var r := GetPricesTry(FX_IDS, Success(Obj(map["rates" := Obj(rf)])));
      r.Success? && r.value.Keys == FX_IDS && Inverts(r.value[USDTRY], u) && Inverts(r.value[EURTRY], e)
  {
    var rates := Obj(rf);
    assert Has(rates, "USD") == Success(true);
    assert Has(rates, "EUR") == Success(true);
    assert Inverse(rates, "USD").Success? && Inverse(rates, "EUR").Success?;
    assert USDTRY in FX_IDS && EURTRY in FX_IDS;
  }
}
