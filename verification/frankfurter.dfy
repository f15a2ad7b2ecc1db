/** `providers/fx_frankfurter.py`: dollar and euro from Frankfurter, one
    request per currency, each answering how many lira one unit buys. The
    responses are parameters; the retrying HTTP session is left to the
    caller. */
module Frankfurter {
  import opened Wrappers
  import opened Errors
  import opened Payload
  import opened Assets

  const NAME: string := "frankfurter"
  const SOURCE: string := "Frankfurter FX"

  /** `_fetch(frm, "TRY")` on the decoded response: `Decimal(str(j["rates"]["TRY"]))`. */
  function Fetch(response: Result<Json, Error>): (r: Result<real, Error>)
    ensures response.Failure? ==> r == Failure(response.error)
    ensures r.Success? <==> (response.Success? && response.value.Obj? && "rates" in response.value.fields
      && var rates := response.value.fields["rates"];
        rates.Obj? && "TRY" in rates.fields && DecimalOf(rates.fields["TRY"]).Success?)
    ensures r.Success? ==> r.value == DecimalOf(response.value.fields["rates"].fields["TRY"]).value
  {
    var j :- response;
    var rates :- Index(j, "rates");
    var x :- Index(rates, "TRY");
    DecimalOf(x)
  }

  /** The map holding the dollar at `usd` and the euro at `eur` where
      present. */
  function Pair(usd: Option<real>, eur: Option<real>): (m: map<AssetId, real>)
    ensures USDTRY in m <==> usd.Some?
    ensures EURTRY in m <==> eur.Some?
    ensures usd.Some? ==> m[USDTRY] == usd.value
    ensures eur.Some? ==> m[EURTRY] == eur.value
  {
    assert USDTRY != EURTRY by { assert USDTRY[0] != EURTRY[0]; }
    (if usd.Some? then map[USDTRY := usd.value] else map[])
      + (if eur.Some? then map[EURTRY := eur.value] else map[])
  }

  function Found(r: Result<real, Error>): Result<Option<real>, Error> {
    match r
    case Success(v) => Success(Some(v))
    case Failure(e) => Failure(e)
  }

  /** The outcome of `get_prices_try` given the outcome `u` of the dollar
      fetch and `e` of the euro fetch. A fetch is only made for a wanted
      pair; the first failure ends the call, and a call that wants neither
      pair fails too. */
  function Gather(want: set<AssetId>, u: Result<real, Error>, e: Result<real, Error>): (r: Result<map<AssetId, real>, Error>)
    ensures r.Success? <==> (want * FX_IDS != {}
      && (USDTRY in want ==> u.Success?) && (EURTRY in want ==> e.Success?))
    ensures r.Success? ==> r.value.Keys == want * FX_IDS
    ensures r.Success? && USDTRY in want ==> r.value[USDTRY] == u.value
    ensures r.Success? && EURTRY in want ==> r.value[EURTRY] == e.value
    ensures want * FX_IDS == {} ==> r == Failure(Provider(NoAssetsReturned))
    ensures USDTRY in want && u.Failure? ==> r == Failure(Provider(Wrapped(SOURCE, u.error)))
    ensures USDTRY !in want && EURTRY in want && e.Failure? ==> r == Failure(Provider(Wrapped(SOURCE, e.error)))
  {
    assert USDTRY in want ==> USDTRY in want * FX_IDS;
    assert EURTRY in want ==> EURTRY in want * FX_IDS;
    assert want * FX_IDS == {} <==> USDTRY !in want && EURTRY !in want;
    var usd :- Wrap(SOURCE, if USDTRY in want then Found(u) else Success(None));
    var eur :- Wrap(SOURCE, if EURTRY in want then Found(e) else Success(None));
    var out := Pair(usd, eur);
    if |out| == 0 then Failure(Provider(NoAssetsReturned)) else Success(out)
  }

  /** `get_prices_try(assets)`, given what the dollar and the euro requests
      return. */
  function GetPricesTry(want: set<AssetId>, usd: Result<Json, Error>, eur: Result<Json, Error>): (r: Result<map<AssetId, real>, Error>)
    ensures r.Success? ==> r.value.Keys == want * FX_IDS
    ensures r.Failure? ==> r.error.Provider?
  {
    Gather(want, Fetch(usd), Fetch(eur))
  }

  /** A pair that is not wanted is never requested: its response does not
      matter. */
  lemma UnwantedNotFetched(want: set<AssetId>, u: Result<real, Error>, u': Result<real, Error>, e: Result<real, Error>, e': Result<real, Error>)
    ensures USDTRY !in want ==> Gather(want, u, e) == Gather(want, u', e)
    ensures EURTRY !in want ==> Gather(want, u, e) == Gather(want, u, e')
  {
  }
}
