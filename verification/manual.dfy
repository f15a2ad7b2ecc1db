/** `providers/manual.py`: prices typed in by hand. */
module Manual {
  import opened Wrappers
  import opened Errors
  import opened Assets

  const NAME: string := "manual"

  /** `ManualProvider(manual_prices)`: the store is the given prices, or
      empty when none are given. */
  function NewStore(prices: Option<map<AssetId, real>>): (store: map<AssetId, real>)
    ensures prices.None? ==> store == map[]
    ensures prices.Some? ==> store == prices.value
  {
    if prices.Some? then prices.value else map[]
  }

  /** `get_prices_try(assets)`: the stored price of every requested asset
      that has one; failing when none has. */
  function GetPricesTry(store: map<AssetId, real>, want: set<AssetId>): (r: Result<map<AssetId, real>, Error>)
    ensures r.Success? <==> want * store.Keys != {}
    ensures r.Failure? ==> r.error == Provider(NoManualPrices)
    ensures r.Success? ==> r.value.Keys == want * store.Keys
    ensures r.Success? ==> forall a :: a in r.value ==> r.value[a] == store[a]
  {
    var out := map a | a in want && a in store :: store[a];
    assert out.Keys == want * store.Keys;
    if |out| == 0 then Failure(Provider(NoManualPrices)) else Success(out)
  }

  /** Asking again for what was returned returns the same prices. */
  lemma Idempotent(store: map<AssetId, real>, want: set<AssetId>)
    requires GetPricesTry(store, want).Success?
    ensures var out := GetPricesTry(store, want).value;
      GetPricesTry(store, out.Keys) == Success(out)
  {
    var out := GetPricesTry(store, want).value;
    assert out.Keys * store.Keys == out.Keys;
  }
}
