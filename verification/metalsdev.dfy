/** `providers/metals_metalsdev.py`: gold and silver from the Metals.dev
    rates, which quote how many troy ounces one lira buys. The environment
    variable holding the API key and the HTTP response are parameters. */
module MetalsDev {
  import opened Wrappers
  import Text
  import opened Errors
  import opened Payload
  import opened Assets

  const NAME: string := "metals_dev"
  const SOURCE: string := "Metals.dev"

  /** Grams in a troy ounce. */
  const OZ_TO_G: real := 31.1034768

  /** `Decimal("1") / Decimal(str(rates[sym])) / OZ_TO_G`: the lira price of
      a gram, from a quote in ounces per lira. */
  function Rate(rates: Json, sym: string): (r: Result<real, Error>)
    ensures r.Success? <==> (rates.Obj? && sym in rates.fields
      && DecimalOf(rates.fields[sym]).Success? && DecimalOf(rates.fields[sym]).value != 0.0)
    ensures r.Success? ==> PerGram(r.value, DecimalOf(rates.fields[sym]).value)
  {
    var x :- Index(rates, sym);
    var v :- DecimalOf(x);
    if v == 0.0 then Failure(DivisionByZero)
    else
      var g := 1.0 / v / OZ_TO_G;
      PerGramOf(v, g);
      Success(g)
  }

  /** `g` lira a gram is the price a quote of `v` ounces a lira gives. */
  predicate PerGram(g: real, v: real) {
    g * OZ_TO_G * v == 1.0
  }

  lemma PerGramOf(v: real, g: real)
    requires v != 0.0 && g == 1.0 / v / OZ_TO_G
    ensures PerGram(g, v)
  {
    assert g * OZ_TO_G == 1.0 / v;
  }

  /** `if sym in rates and a in want: out[a] = ...`: the membership test
      runs (and may fail) whether or not `a` is wanted. */
  function Quote(rates: Json, sym: string, wanted: bool): (r: Result<Option<real>, Error>)
    ensures Has(rates, sym).Failure? ==> r == Failure(Has(rates, sym).error)
    ensures r.Success? && r.value.Some? <==> wanted && Has(rates, sym) == Success(true) && Rate(rates, sym).Success?
    ensures r.Success? && r.value.Some? ==> r.value.value == Rate(rates, sym).value
    ensures !wanted && Has(rates, sym).Success? ==> r == Success(None)
  {
    var present :- Has(rates, sym);
    if present && wanted then
      var v :- Rate(rates, sym);
      Success(Some(v))
    else
      Success(None)
  }

  /** The prices read from the `rates` object. */
  function FromRates(want: set<AssetId>, rates: Json): (r: Result<map<AssetId, real>, Error>)
    ensures r.Success? ==> r.value.Keys <= want * METAL_IDS
    ensures r.Success? ==>
      (XAU_G in r.value <==> XAU_G in want && Has(rates, "XAU") == Success(true))
      && (XAG_G in r.value <==> XAG_G in want && Has(rates, "XAG") == Success(true))
    ensures r.Success? && XAU_G in r.value ==> Rate(rates, "XAU").Success? && r.value[XAU_G] == Rate(rates, "XAU").value
    ensures r.Success? && XAG_G in r.value ==> Rate(rates, "XAG").Success? && r.value[XAG_G] == Rate(rates, "XAG").value
  {
    var au :- Quote(rates, "XAU", XAU_G in want);
    var ag :- Quote(rates, "XAG", XAG_G in want);
    var m := Pair(au, ag);
    assert XAU_G in m ==> m[XAU_G] == Rate(rates, "XAU").value;
    assert XAG_G in m ==> m[XAG_G] == Rate(rates, "XAG").value;
    Success(m)
  }

  /** The map holding gold at `au` and silver at `ag` where present. */
  function Pair(au: Option<real>, ag: Option<real>): (m: map<AssetId, real>)
    ensures XAU_G in m <==> au.Some?
    ensures XAG_G in m <==> ag.Some?
    ensures m.Keys <= METAL_IDS
    ensures au.Some? ==> m[XAU_G] == au.value
    ensures ag.Some? ==> m[XAG_G] == ag.value
  {
    assert XAU_G != XAG_G by { assert XAU_G[2] != XAG_G[2]; }
    (if au.Some? then map[XAU_G := au.value] else map[])
      + (if ag.Some? then map[XAG_G := ag.value] else map[])
  }

  /** The body of the `try` block, on the decoded response `j`. */
  function FromPayload(want: set<AssetId>, j: Json): (r: Result<map<AssetId, real>, Error>)
    ensures !j.Obj? ==> r == Failure(Malformed)
    ensures j.Obj? ==> r == FromRates(want, if "rates" in j.fields then j.fields["rates"] else Obj(map[]))
  {
    var rates :- GetOr(j, "rates", Obj(map[]));
    FromRates(want, rates)
  }

  /** `get_prices_try(assets)` with the raw value of `METALS_DEV_API_KEY`
      and the outcome of the request (transport, status and JSON decoding
      folded into a `Failure`). */
  function GetPricesTry(apiKey: string, want: set<AssetId>, response: Result<Json, Error>): (r: Result<map<AssetId, real>, Error>)
    ensures Text.Strip(apiKey) == [] ==> r == Failure(Provider(ApiKeyMissing))
    ensures Text.Strip(apiKey) != [] && want * METAL_IDS == {} ==> r == Success(map[])
    ensures r.Success? ==> r.value.Keys <= want * METAL_IDS
    ensures Text.Strip(apiKey) != [] && r.Failure? ==> r.error.Provider? && r.error.reason.Wrapped? && r.error.reason.source == SOURCE
  {
    assert XAU_G in want ==> XAU_G in want * METAL_IDS;
    assert XAG_G in want ==> XAG_G in want * METAL_IDS;
    if Text.Strip(apiKey) == [] then
      Failure(Provider(ApiKeyMissing))
    else if XAU_G !in want && XAG_G !in want then
      Success(map[])
    else
      Wrap(SOURCE, match response
        case Failure(e) => Failure(e)
        case Success(j) => FromPayload(want, j))
  }

  /** A wanted metal whose symbol is among the rates is priced from its
      quote; one missing from the rates is left out rather than failing. */
  lemma GoldOnly(apiKey: string, want: set<AssetId>, rf: map<string, Json>, v: real)
    requires Text.Strip(apiKey) != [] && XAU_G in want
    requires "XAU" in rf && "XAG" !in rf
    requires DecimalOf(rf["XAU"]) == Success(v) && v != 0.0
    ensures var r := GetPricesTry(apiKey, want, Success(Obj(map["rates" := Obj(rf)])));
      r.Success? && r.value.Keys == {XAU_G} && PerGram(r.value[XAU_G], v)
  {
    var rates := Obj(rf);
    assert Has(rates, "XAU") == Success(true);
    assert Has(rates, "XAG") == Success(false);
    assert Rate(rates, "XAU").Success?;
    assert FromPayload(want, Obj(map["rates" := rates])) == FromRates(want, rates);
  }
}
