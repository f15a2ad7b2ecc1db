/** `providers/router.py`: one call that asks Frankfurter for the exchange
    rates, Kapalıçarşı for gold and silver and Stooq for copper, keeps
    whatever each class delivers, and converts copper from dollars a pound
    to lira a gram with the dollar rate just obtained. */
module Router {
  import opened Wrappers
  import opened Errors
  import opened Assets
  import opened Payload
  import Frankfurter
  import Kapalicarsi
  import Copper

  /** `{"mid": v, "bid": v, "ask": v}`. */
  datatype Quote = Quote(mid: real, bid: real, ask: real)

  /** What the copper conversion names as its source. */
  const COPPER_SOURCE: string := "stooq_hg.f"

  datatype Quotes = Quotes(quotes: map<AssetId, Quote>, sources: map<AssetId, string>)

  /** The quotes of a class whose call succeeded, each with its provider's
      name; nothing from a class whose call failed (`except Exception: pass`). */
  function Absorb(q: Quotes, prices: Result<map<AssetId, real>, Error>, name: string): (r: Quotes)
    ensures prices.Failure? ==> r == q
    ensures prices.Success? ==> r.quotes.Keys == q.quotes.Keys + prices.value.Keys
    ensures prices.Success? ==> r.sources.Keys == q.sources.Keys + prices.value.Keys
    ensures prices.Success? ==> forall a :: a in prices.value ==>
      r.quotes[a] == Quote(prices.value[a], prices.value[a], prices.value[a]) && r.sources[a] == name
    ensures prices.Success? ==> forall a :: a in q.quotes && a !in prices.value ==> r.quotes[a] == q.quotes[a]
    ensures prices.Success? ==> forall a :: a in q.sources && a !in prices.value ==> r.sources[a] == q.sources[a]
  {
    match prices
    case Failure(_) => q
    case Success(m) =>
      Quotes(q.quotes + map a | a in m :: Quote(m[a], m[a], m[a]),
             q.sources + map a | a in m :: name)
  }

  /** Lira a gram of copper from dollars a pound and lira a dollar. */
  function CopperPerGram(usdPerLb: real, usdtry: real): real {
    usdPerLb / Copper.LB_TO_GRAM * usdtry
  }

  /** Step 3: copper, when wanted, when a dollar quote is at hand and when
      the CSV reads; otherwise nothing changes. */
  function AddCopper(q: Quotes, want: set<AssetId>, usdPerLb: Result<real, Error>): (r: Quotes)
    ensures XCU_G in r.quotes <==> XCU_G in q.quotes || (XCU_G in want && USDTRY in q.quotes && usdPerLb.Success?)
    ensures r.quotes.Keys == q.quotes.Keys + (if XCU_G in want && USDTRY in q.quotes && usdPerLb.Success? then {XCU_G} else {})
    ensures r.sources.Keys == q.sources.Keys + (if XCU_G in want && USDTRY in q.quotes && usdPerLb.Success? then {XCU_G} else {})
    ensures XCU_G in want && USDTRY in q.quotes && usdPerLb.Success? ==>
      var v := CopperPerGram(usdPerLb.value, q.quotes[USDTRY].mid);
      r.quotes[XCU_G] == Quote(v, v, v) && r.sources[XCU_G] == COPPER_SOURCE
    ensures forall a :: a in q.quotes && a != XCU_G ==> a in r.quotes && r.quotes[a] == q.quotes[a]
    ensures forall a :: a in q.sources && a != XCU_G ==> a in r.sources && r.sources[a] == q.sources[a]
  {
    if XCU_G in want && USDTRY in q.quotes && usdPerLb.Success? then
      var v := CopperPerGram(usdPerLb.value, q.quotes[USDTRY].mid);
      Quotes(q.quotes[XCU_G := Quote(v, v, v)], q.sources[XCU_G := COPPER_SOURCE])
    else
      q
  }

  /** `get_all_quotes_try` given what each class of provider returned. */
  function Merge(want: set<AssetId>, fx: Result<map<AssetId, real>, Error>, metals: Result<map<AssetId, real>, Error>,
                 usdPerLb: Result<real, Error>): (r: Quotes)
  {
    AddCopper(Before(fx, metals), want, usdPerLb)
  }

  /** Every quote has a source and every source a quote, and each quote is
      one price for mid, bid and ask. */
  lemma MergeShape(want: set<AssetId>, fx: Result<map<AssetId, real>, Error>, metals: Result<map<AssetId, real>, Error>,
                   usdPerLb: Result<real, Error>)
    ensures var r := Merge(want, fx, metals, usdPerLb);
      r.quotes.Keys == r.sources.Keys
      && forall a :: a in r.quotes ==> r.quotes[a].mid == r.quotes[a].bid == r.quotes[a].ask
  {
    var q0 := Quotes(map[], map[]);
    AbsorbShaped(q0, fx, Frankfurter.NAME);
    AbsorbShaped(Absorb(q0, fx, Frankfurter.NAME), metals, Kapalicarsi.NAME);
    CopperShaped(Before(fx, metals), want, usdPerLb);
  }

  /** Every quote has a source and every source a quote, and each quote is
      one price. */
  predicate Shaped(q: Quotes) {
    q.quotes.Keys == q.sources.Keys
    && forall a :: a in q.quotes ==> q.quotes[a].mid == q.quotes[a].bid == q.quotes[a].ask
  }

  lemma AbsorbShaped(q: Quotes, prices: Result<map<AssetId, real>, Error>, name: string)
    requires Shaped(q)
    ensures Shaped(Absorb(q, prices, name))
  {
  }

  lemma CopperShaped(q: Quotes, want: set<AssetId>, usdPerLb: Result<real, Error>)
    requires Shaped(q)
    ensures Shaped(AddCopper(q, want, usdPerLb))
  {
  }

  /** `get_all_quotes_try(assets)` with the two Frankfurter responses, the
      Kapalıçarşı feed and the Stooq CSV body as parameters. `manual_prices`
      is accepted and ignored, as in the source. */
  function GetAllQuotesTry(want: set<AssetId>, usd: Result<Json, Error>, eur: Result<Json, Error>,
                           feed: Result<seq<Json>, Error>, csv: Result<string, Error>): (r: Quotes)
  {
    Merge(want,
      Frankfurter.GetPricesTry(want * FX_IDS, usd, eur),
      Kapalicarsi.GetPricesTry(want * METAL_IDS, feed),
      Copper.ParseLastCloseUsdPerLb(csv))
  }

  /** The asset classes are disjoint. */
  lemma ClassesDisjoint()
    ensures XCU_G !in FX_IDS && XCU_G !in METAL_IDS
    ensures FX_IDS * METAL_IDS == {}
  {
    assert XCU_G[1] != XAU_G[1] && XCU_G[1] != XAG_G[1];
    assert XCU_G[0] != USDTRY[0] && XCU_G[0] != EURTRY[0];
    assert USDTRY[0] != XAU_G[0] && USDTRY[0] != XAG_G[0];
    assert EURTRY[0] != XAU_G[0] && EURTRY[0] != XAG_G[0];
  }

  /** What the FX and metals providers promise about their keys. */
  predicate Confined(want: set<AssetId>, fx: Result<map<AssetId, real>, Error>, metals: Result<map<AssetId, real>, Error>) {
    (fx.Success? ==> fx.value.Keys <= want * FX_IDS)
    && (metals.Success? ==> metals.value.Keys <= want * METAL_IDS)
  }

  /** Only wanted assets are quoted; the exchange rates come from the FX
      provider, gold and silver from the metals provider, copper from the
      conversion, and copper appears exactly when it is wanted, the dollar
      was quoted and the CSV read. */
  lemma MergeProvenance(want: set<AssetId>, fx: Result<map<AssetId, real>, Error>, metals: Result<map<AssetId, real>, Error>,
                        usdPerLb: Result<real, Error>)
    requires Confined(want, fx, metals)
    ensures var r := Merge(want, fx, metals, usdPerLb);
      r.quotes.Keys <= want
      && (forall a :: a in r.sources && a in FX_IDS ==> r.sources[a] == Frankfurter.NAME)
      && (forall a :: a in r.sources && a in METAL_IDS ==> r.sources[a] == Kapalicarsi.NAME)
      && (XCU_G in r.sources ==> r.sources[XCU_G] == COPPER_SOURCE)
      && (XCU_G in r.quotes <==> XCU_G in want && USDTRY in r.quotes && usdPerLb.Success?)
  {
    ClassesDisjoint();
    Absorbed(want, fx, metals);
  }

  /** The quotes before the copper step. */
  function Before(fx: Result<map<AssetId, real>, Error>, metals: Result<map<AssetId, real>, Error>): Quotes {
    Absorb(Absorb(Quotes(map[], map[]), fx, Frankfurter.NAME), metals, Kapalicarsi.NAME)
  }

  lemma Absorbed(want: set<AssetId>, fx: Result<map<AssetId, real>, Error>, metals: Result<map<AssetId, real>, Error>)
    requires Confined(want, fx, metals)
    ensures var q := Before(fx, metals);
      q.quotes.Keys == q.sources.Keys && q.quotes.Keys <= want * (FX_IDS + METAL_IDS)
      && (forall a :: a in q.sources && a in FX_IDS ==> q.sources[a] == Frankfurter.NAME)
      && (forall a :: a in q.sources && a in METAL_IDS ==> q.sources[a] == Kapalicarsi.NAME)
  {
    ClassesDisjoint();
  }

  /** The copper quote is the dollar price of a pound, turned into a gram
      and then into lira with the dollar quote, which must have been
      wanted. */
  lemma MergeCopper(want: set<AssetId>, fx: Result<map<AssetId, real>, Error>, metals: Result<map<AssetId, real>, Error>,
                    usdPerLb: Result<real, Error>)
    requires Confined(want, fx, metals)
    ensures var r := Merge(want, fx, metals, usdPerLb);
      XCU_G in r.quotes ==> (USDTRY in want && USDTRY in r.quotes && usdPerLb.Success?
        && Converted(r.quotes[XCU_G].mid, usdPerLb.value, r.quotes[USDTRY].mid))
  {
    Absorbed(want, fx, metals);
    ClassesDisjoint();
    CopperStep(Before(fx, metals), want, usdPerLb);
  }

  lemma CopperStep(q: Quotes, want: set<AssetId>, usdPerLb: Result<real, Error>)
    requires q.quotes.Keys <= want * (FX_IDS + METAL_IDS)
    requires XCU_G !in FX_IDS && XCU_G !in METAL_IDS
    ensures var r := AddCopper(q, want, usdPerLb);
      XCU_G in r.quotes ==> (USDTRY in want && USDTRY in r.quotes && usdPerLb.Success?
        && Converted(r.quotes[XCU_G].mid, usdPerLb.value, r.quotes[USDTRY].mid))
  {
    var r := AddCopper(q, want, usdPerLb);
    if XCU_G in r.quotes {
      assert XCU_G !in q.quotes;
      assert USDTRY != XCU_G by { assert USDTRY[0] != XCU_G[0]; }
      PerGramScaled(usdPerLb.value, q.quotes[USDTRY].mid);
    }
  }

  /** `mid` lira a gram is what `usdPerLb` dollars a pound make at
      `usdtry` lira a dollar. */
  predicate Converted(mid: real, usdPerLb: real, usdtry: real) {
    mid * Copper.LB_TO_GRAM == usdPerLb * usdtry
  }

  lemma PerGramScaled(u: real, t: real)
    ensures Converted(CopperPerGram(u, t), u, t)
  {
  }

  /** `r` and `r'` quote `a` alike, from the same source. */
  predicate SameAt(r: Quotes, r': Quotes, a: AssetId) {
    (a in r.quotes <==> a in r'.quotes) && (a in r.quotes ==> r.quotes[a] == r'.quotes[a])
    && (a in r.sources <==> a in r'.sources) && (a in r.sources ==> r.sources[a] == r'.sources[a])
  }

  /** The exchange rates do not depend on what the metals provider did. */
  lemma MergeFxIndependent(want: set<AssetId>, fx: Result<map<AssetId, real>, Error>,
                           metals: Result<map<AssetId, real>, Error>, metals': Result<map<AssetId, real>, Error>,
                           usdPerLb: Result<real, Error>)
    requires Confined(want, fx, metals) && Confined(want, fx, metals')
    ensures forall a :: a in FX_IDS ==> SameAt(Merge(want, fx, metals, usdPerLb), Merge(want, fx, metals', usdPerLb), a)
  {
    forall a | a in FX_IDS
      ensures SameAt(Merge(want, fx, metals, usdPerLb), Merge(want, fx, metals', usdPerLb), a)
    {
      OwnClassDecides(want, fx, metals, fx, metals', usdPerLb, a);
    }
  }

  /** Gold and silver do not depend on what the FX provider did. */
  lemma MergeMetalsIndependent(want: set<AssetId>, fx: Result<map<AssetId, real>, Error>, fx': Result<map<AssetId, real>, Error>,
                               metals: Result<map<AssetId, real>, Error>, usdPerLb: Result<real, Error>)
    requires Confined(want, fx, metals) && Confined(want, fx', metals)
    ensures forall a :: a in METAL_IDS ==> SameAt(Merge(want, fx, metals, usdPerLb), Merge(want, fx', metals, usdPerLb), a)
  {
    forall a | a in METAL_IDS
      ensures SameAt(Merge(want, fx, metals, usdPerLb), Merge(want, fx', metals, usdPerLb), a)
    {
      ClassesDisjoint();
      OwnClassDecides(want, fx, metals, fx', metals, usdPerLb, a);
    }
  }

  /** Two merges whose calls for `a`'s class returned the same quote `a`
      alike. */
  lemma OwnClassDecides(want: set<AssetId>, fx: Result<map<AssetId, real>, Error>, metals: Result<map<AssetId, real>, Error>,
                        fx': Result<map<AssetId, real>, Error>, metals': Result<map<AssetId, real>, Error>,
                        usdPerLb: Result<real, Error>, a: AssetId)
    requires Confined(want, fx, metals) && Confined(want, fx', metals') && a in FX_IDS + METAL_IDS
    requires if a in FX_IDS then fx == fx' else metals == metals'
    ensures SameAt(Merge(want, fx, metals, usdPerLb), Merge(want, fx', metals', usdPerLb), a)
  {
    MergeAt(want, fx, metals, usdPerLb, a);
    MergeAt(want, fx', metals', usdPerLb, a);
  }

  /** An exchange rate or a metal is quoted exactly when its own class's
      call succeeded with a price for it, at that price and under that
      provider's name. */
  lemma MergeAt(want: set<AssetId>, fx: Result<map<AssetId, real>, Error>, metals: Result<map<AssetId, real>, Error>,
                usdPerLb: Result<real, Error>, a: AssetId)
    requires Confined(want, fx, metals) && a in FX_IDS + METAL_IDS
    ensures var r := Merge(want, fx, metals, usdPerLb);
      var own := if a in FX_IDS then fx else metals;
      (a in r.quotes <==> own.Success? && a in own.value)
      && (a in r.sources <==> a in r.quotes)
      && (a in r.quotes ==>
            r.quotes[a] == Quote(own.value[a], own.value[a], own.value[a])
            && r.sources[a] == (if a in FX_IDS then Frankfurter.NAME else Kapalicarsi.NAME))
  {
    ClassesDisjoint();
    var q1 := Absorb(Quotes(map[], map[]), fx, Frankfurter.NAME);
    var q2 := Absorb(q1, metals, Kapalicarsi.NAME);
    assert a != XCU_G;
  }

  /** `get_all_quotes_try` meets the merge's expectations: Frankfurter only
      returns wanted rates and Kapalıçarşı only wanted metals. */
  lemma ProvidersConfined(want: set<AssetId>, usd: Result<Json, Error>, eur: Result<Json, Error>, feed: Result<seq<Json>, Error>)
    ensures Confined(want, Frankfurter.GetPricesTry(want * FX_IDS, usd, eur), Kapalicarsi.GetPricesTry(want * METAL_IDS, feed))
  {
  }

  /** The merge's guarantees hold for `get_all_quotes_try` itself. */
  lemma QuotesProvenance(want: set<AssetId>, usd: Result<Json, Error>, eur: Result<Json, Error>,
                         feed: Result<seq<Json>, Error>, csv: Result<string, Error>)
    ensures var r := GetAllQuotesTry(want, usd, eur, feed, csv);
      r.quotes.Keys <= want && r.quotes.Keys == r.sources.Keys
      && (forall a :: a in r.sources && a in FX_IDS ==> r.sources[a] == Frankfurter.NAME)
      && (forall a :: a in r.sources && a in METAL_IDS ==> r.sources[a] == Kapalicarsi.NAME)
      && (XCU_G in r.quotes <==> XCU_G in want && USDTRY in r.quotes && Copper.ParseLastCloseUsdPerLb(csv).Success?)
  {
    var fx := Frankfurter.GetPricesTry(want * FX_IDS, usd, eur);
    var met := Kapalicarsi.GetPricesTry(want * METAL_IDS, feed);
    var c := Copper.ParseLastCloseUsdPerLb(csv);
    ProvidersConfined(want, usd, eur, feed);
    MergeProvenance(want, fx, met, c);
    MergeShape(want, fx, met, c);
  }
}
