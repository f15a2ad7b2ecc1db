# Portfolio tracker core in Dafny

This project models the pure core of a Turkish-lira portfolio tracker for
gold, silver, copper, dollars and euros. The core has four parts:

- **Inventory fold.** The transaction log is replayed into a weighted-average-cost
  inventory: quantity, average cost and realised profit per asset. A sale of
  more than is held stops the replay.
- **Valuation.** The inventory is priced into the P&L table and into the totals
  of `valuation_from_prices`. The pre-save check is built on the same fold: a
  new transaction is accepted only when the log plus that transaction still
  replays.
- **Quote providers.** Each price source has rules for:
  - which ids it answers;
  - unit and currency conversion (reciprocal rates, troy ounce to gram, cents a pound to dollars a pound);
  - bid/ask/last selection;
  - number clean-up;
  - first-match lookup;
  - CSV field extraction;
  - which failures it raises.
  Payloads (decoded JSON, XML records, CSV text) are inputs, and every
  exception is a `Result` failure.
- **Router merge.** FX and metals results are merged, every failure is absorbed,
  and copper is derived from the dollar rate.
- **Number helpers.** `D`, `q2`/`q4` (round half up) and `fmt`, which renders
  Turkish style ("1.234,56"). There is a round trip between `fmt` and the
  providers' `_to_dec`.

Python `Decimal` values are exact `real`s, and a quantised value is described
by its integer count of hundredths or ten-thousandths. The asset ids are
strings, as in the program.

Modules, one per file: `Wrappers`, `Text` (digit strings, `str.strip`,
`splitlines`, `Decimal(text)`), `Errors`, `Assets`, `Payload` (JSON values and
Python truthiness), `Decimals`, `Format`, `Kapalicarsi`, `RoundTrip`,
`MetalsDev`, `ExchangerateHost`, `Tcmb`, `Frankfurter`, `Copper`, `Manual`,
`Router`, `Inventory`, `InventoryLaws`, `Valuation`, `SaveCheck`, and `Runs`
(a left fold that stops at the first failure, which the replay instantiates).

## Model

| member | source | states |
|---|---|---|
| Assets.AssetLabel | app.py:24-35 | a declared id shows its table name, which differs from the id; any other string shows itself |
| Assets.AssetsTable | app.py:24-31 | the five declared ids are distinct, are exactly the keys of the metadata table, and have pairwise distinct labels |
| Decimals.D | utils/decimal.py:8-13 | `None` reads as 0, a `Decimal` is returned unchanged, anything else is parsed from its text (failing as `InvalidOperation`) |
| Decimals.RoundHalfUp | utils/decimal.py:15-19 | the rounded integer is within one half of the input, and a tie moves away from zero |
| Decimals.Quantize | utils/decimal.py:15-19 | the result is a whole number of `10^-places` units and lies within half a unit of the input |
| Decimals.QuantizeNearest | utils/decimal.py:15-19 | no multiple of `10^-places` is closer to the input than the quantised value |
| Decimals.QuantizeTieAwayFromZero | utils/decimal.py:16 | on an exact tie the quantised value is farther from zero than the input (ROUND_HALF_UP) |
| Decimals.Q2 | utils/decimal.py:15-16 | `q2(x)` is within 0.005 of `x` |
| Decimals.Q4 | utils/decimal.py:18-19 | `q4(x)` is within 0.00005 of `x` |
| Decimals.Q2Idempotent | utils/decimal.py:15-16 | `q2(q2(x)) == q2(x)` |
| Decimals.Q4Idempotent | utils/decimal.py:18-19 | `q4(q4(x)) == q4(x)` |
| Format.Places | app.py:311 | `d == 2` quantises to two places and every other `d` to four |
| Format.Group | app.py:317 | the thousands grouping holds only digits and '.', begins and ends with a digit, spells `k` once the dots are removed, and has a dot exactly when `k >= 1000` |
| Format.Split | app.py:312-316 | the whole and fraction parts recombine to the magnitude of the unit count, and the fraction is below `10^places` |
| Format.FmtAsWritten | app.py:308-318 | `None` renders as the dash; otherwise the text starts with '-' exactly when the quantised value is at most -1 (the code as written) |
| Format.Fmt | app.py:308-318 | `None` renders as the dash; otherwise the text starts with '-' exactly when the quantised value is negative |
| RoundTrip.FmtRoundTrip | app.py:308-318 | reading `fmt(v, d)` back with `_to_dec` gives exactly `q2(v)` (for `d == 2`) or `q4(v)` |
| RoundTrip.FmtAsWrittenRoundTrip | app.py:308-318 | as written, reading the text back gives the quantised value, except that a value strictly between -1 and 0 comes back positive |
| RoundTrip.FmtAsWrittenDropsSign | app.py:317 | `q2(-0.5) == -0.5`, yet `fmt(-0.5)` as written reads back as `0.5` |
| RoundTrip.ReadBack | providers/metals_kapalicarsi_apiluna.py:16-22 | `_to_dec` of a sign, grouped whole part, ',' and fraction digits is the signed number they spell |
| Payload.Get | providers/metals_kapalicarsi_apiluna.py:25-27 | `it.get(k)` is `None` exactly when the key is missing or holds null, and otherwise the value stored |
| Payload.Or | providers/metals_kapalicarsi_apiluna.py:25-27 | an `a or b or c` chain yields one of its operands; it is truthy exactly when some operand is, and with none truthy it is the last operand |
| Payload.OrFirstTruthy | providers/metals_kapalicarsi_apiluna.py:25-27 | the chain yields the first truthy operand |
| Payload.OrIsNone | providers/metals_kapalicarsi_apiluna.py:29-32 | the chain is `None` exactly when no operand is truthy and the last one is `None` |
| Kapalicarsi.NormalizeSeparators | providers/metals_kapalicarsi_apiluna.py:18-21 | with both ',' and '.' present, every '.' is dropped and ',' becomes '.'; with only ',', each ',' becomes '.' in place; without ',' the text is unchanged |
| Kapalicarsi.ToDecText | providers/metals_kapalicarsi_apiluna.py:16-22 | `_to_dec` succeeds exactly when the stripped, separator-fixed text parses as a decimal, and then yields that value |
| Kapalicarsi.ToDec | providers/metals_kapalicarsi_apiluna.py:16-17 | `_to_dec` reads a string as itself and a number through its `str()` text |
| Kapalicarsi.Sides | providers/metals_kapalicarsi_apiluna.py:29-41 | `KeyError("no price fields")` exactly when bid, ask and last are all missing; only last gives bid = ask = last; a missing bid copies the ask and a missing ask copies the bid |
| Kapalicarsi.ReadBidAsk | providers/metals_kapalicarsi_apiluna.py:24-41 | the alias lookups of an item feed the bid/ask choice, failing exactly when all three `or` chains are `None`: a falsy value such as `0` counts as missing, and an unreadable one fails as `InvalidDecimal` |
| Kapalicarsi.LastIgnoredWhenQuoted | providers/metals_kapalicarsi_apiluna.py:36-41 | whenever a bid or an ask is present, the last price does not change the outcome |
| Kapalicarsi.FetchItems | providers/metals_kapalicarsi_apiluna.py:48-52 | every item comes from a list-valued entry of the response object |
| Kapalicarsi.FetchItemsAppend | providers/metals_kapalicarsi_apiluna.py:48-52 | flattening the entries of two parts of the object concatenates their items, in order |
| Kapalicarsi.FetchItemsLength | providers/metals_kapalicarsi_apiluna.py:48-52 | the items are all the elements of all list-valued entries: their count is the total length of those lists |
| Kapalicarsi.Find | providers/metals_kapalicarsi_apiluna.py:54-59 | a found item is an item of the list whose lower-cased name contains a keyword; a non-object item raises |
| Kapalicarsi.FindFirst | providers/metals_kapalicarsi_apiluna.py:54-59 | the first matching item is returned when every earlier item is an object that does not match |
| Kapalicarsi.FindReturnsFirst | providers/metals_kapalicarsi_apiluna.py:54-59 | whatever `_find` returns is a match with no match before it |
| Kapalicarsi.FindNone | providers/metals_kapalicarsi_apiluna.py:54-59 | `_find` returns `None` exactly when every item is an object and none matches |
| Kapalicarsi.FindFails | providers/metals_kapalicarsi_apiluna.py:54-59 | `_find` raises exactly when a non-object item comes before any match |
| Kapalicarsi.Lookup | providers/metals_kapalicarsi_apiluna.py:66-71 | a found item is priced at the midpoint of its bid and ask; nothing found adds nothing |
| Kapalicarsi.Collect | providers/metals_kapalicarsi_apiluna.py:73-80 | a result holds only requested metals and is never empty; no requested metal raises "nothing matched"; a failed gold lookup propagates |
| Kapalicarsi.CollectCharacterized | providers/metals_kapalicarsi_apiluna.py:73-80 | the call succeeds exactly when no requested lookup fails and at least one finds an item, and the result holds exactly the found metals |
| Kapalicarsi.GetPricesTry | providers/metals_kapalicarsi_apiluna.py:61-80 | a fetch failure passes through; a result is non-empty and holds only requested metals; a request with no metal always fails |
| MetalsDev.Rate | providers/metals_metalsdev.py:25-32 | a rate converts when the symbol is present, reads as a decimal and is non-zero, and then is the lira price of one gram (the reciprocal rate over 31.1034768) |
| MetalsDev.Quote | providers/metals_metalsdev.py:27-32 | a metal is priced only when it is wanted and its symbol is among the rates |
| MetalsDev.FromRates | providers/metals_metalsdev.py:24-33 | the output keys are wanted metals, each priced from its own symbol's rate |
| MetalsDev.GetPricesTry | providers/metals_metalsdev.py:11-35 | a blank key is refused before anything else; with a key, a request with no metal gives an empty map; any other failure is one wrapped `ProviderError` |
| MetalsDev.GoldOnly | providers/metals_metalsdev.py:27-33 | with gold wanted and only its rate present, the result is gold alone at the converted rate |
| ExchangerateHost.Inverse | providers/fx_exchangerate_host.py:24-26 | the lira price is the reciprocal of the quoted rate, failing on a zero or unreadable rate |
| ExchangerateHost.FromRates | providers/fx_exchangerate_host.py:21-27 | the output keys are wanted pairs, each the reciprocal of its own currency's rate; a missing rate is omitted |
| ExchangerateHost.GetPricesTry | providers/fx_exchangerate_host.py:12-29 | a request with no pair gives an empty map; the keys are wanted pairs; any failure is one wrapped `ProviderError` |
| ExchangerateHost.UnwantedNotRead | providers/fx_exchangerate_host.py:23-26 | a pair that is not wanted never reads the rates |
| ExchangerateHost.BothQuoted | providers/fx_exchangerate_host.py:23-27 | with both rates present, both pairs are returned at their reciprocals |
| Tcmb.Selling | providers/fx_tcmb.py:24-25 | an empty or missing selling rate gives `None`, and any other text is parsed |
| Tcmb.Find | providers/fx_tcmb.py:21-26 | a code with no element gives `None`, and a failure comes from an element with that code |
| Tcmb.FindFirst | providers/fx_tcmb.py:21-26 | the first element with the code decides, whatever later elements hold |
| Tcmb.EmptyFirstHidesLater | providers/fx_tcmb.py:24-25 | an empty selling rate on the first dollar element hides a later one |
| Tcmb.FromSheet | providers/fx_tcmb.py:27-34 | succeeds exactly when every wanted lookup succeeds; a wanted pair is present when its lookup finds a value, at that value |
| Tcmb.GetPricesTry | providers/fx_tcmb.py:13-36 | a request with no pair gives an empty map; a fetch failure and a parse failure are wrapped as one `ProviderError`; keys are wanted pairs |
| Frankfurter.Fetch | providers/fx_frankfurter.py:16-21 | `_fetch` succeeds exactly when the response holds a readable `rates["TRY"]`, and yields it |
| Frankfurter.Gather | providers/fx_frankfurter.py:23-37 | all or nothing: success exactly when some pair is wanted and every wanted fetch succeeds, with exactly the wanted pairs; the first failing fetch is wrapped; nothing wanted is "no assets returned" |
| Frankfurter.GetPricesTry | providers/fx_frankfurter.py:23-37 | a result holds exactly the wanted pairs, and every failure is a `ProviderError` |
| Frankfurter.UnwantedNotFetched | providers/fx_frankfurter.py:28-31 | the response for a pair that is not wanted does not matter |
| Copper.CloseOf | providers/copper_stooq.py:26-37 | fewer than two lines is "csv empty"; fewer than seven fields on the second line is "malformed"; otherwise the seventh field in cents is divided by 100 |
| Copper.CloseIn | providers/copper_stooq.py:30-37 | a row with fewer than seven fields is "malformed"; otherwise the close is read exactly when the seventh field parses, as that many cents over 100 |
| Copper.ParseLastCloseUsdPerLb | providers/copper_stooq.py:21-37 | a transport failure passes through, and the body is stripped and split into lines before the close is read |
| Copper.HeaderOnly | providers/copper_stooq.py:26-28 | a body without a line break is "csv empty" |
| Copper.FirstRowClose | providers/copper_stooq.py:26-37 | a header and a data row give the row's Close field over 100 |
| Copper.StooqGetPricesTry | providers/copper_stooq.py:39-41 | always raises: copper is priced only through the router |
| Copper.KitcoGetPricesTry | providers/copper_kitco.py:41-46 | always raises, with the "only supports XCU_G" reason exactly when copper is not requested |
| Manual.NewStore | providers/manual.py:8-9 | no prices gives an empty store |
| Manual.GetPricesTry | providers/manual.py:11-15 | the stored prices of the requested ids, unchanged; fails exactly when none of them is stored |
| Manual.Idempotent | providers/manual.py:11-15 | asking again for what was returned returns the same prices |
| Router.Absorb | providers/router.py:33-48 | a failed class leaves quotes and sources unchanged; a successful one adds its prices as quotes with `mid = bid = ask` and its provider name as source |
| Router.AddCopper | providers/router.py:50-65 | copper is added exactly when it is wanted, a dollar quote is present and the close was read, at the close over 453.59237 times the dollar mid, with source "stooq_hg.f"; nothing else changes |
| Router.MergeShape | providers/router.py:27-67 | quotes and sources have the same keys, and every quote has mid, bid and ask equal |
| Router.MergeProvenance | providers/router.py:33-63 | only wanted ids are quoted; dollar and euro come from "frankfurter", gold and silver from "kapalicarsi_apiluna", copper from "stooq_hg.f" |
| Router.MergeCopper | providers/router.py:51-63 | copper is quoted exactly when wanted with a dollar quote and a readable close, at the converted price |
| Router.MergeFxIndependent | providers/router.py:33-48 | the exchange-rate quotes do not depend on what the metals source returned |
| Router.MergeMetalsIndependent | providers/router.py:33-48 | the gold and silver quotes do not depend on what the exchange-rate source returned |
| Router.MergeAt | providers/router.py:33-48 | an exchange rate or a metal is quoted exactly when its own class's call returned a price for it, at that price and under that provider's name |
| Router.PerGramScaled | providers/router.py:58-60 | the copper mid times 453.59237 is the dollar price of a pound times the dollar rate |
| Router.ProvidersConfined | providers/router.py:34-43 | the FX source is asked only for wanted pairs and the metals source only for wanted metals, and each returns only those |
| Router.QuotesProvenance | providers/router.py:27-67 | the merge's shape and provenance hold for `get_all_quotes_try` over the real sources |
| Inventory.Number | utils/decimal.py:8-13 | `D` of a field succeeds exactly when the text parses, and otherwise raises with that text |
| Inventory.Buy | utils/pnl.py:28-33 | a purchase adds its quantity and keeps realised profit; when the position ends long, the average cost times the quantity grows by `q·price + fee`; otherwise the average is unchanged |
| Inventory.Sell | utils/pnl.py:37-42 | a sale out of stock realises `q·price − fee − q·avg`, lowers the quantity by `q` without going negative, and resets the average exactly when the position empties |
| Inventory.Step | utils/pnl.py:28-42 | one transaction fails exactly when it sells more than is held |
| Inventory.Put | utils/pnl.py:44 | storing a holding changes only that asset; a new asset joins the end of the order and an existing one keeps its place; the order stays duplicate-free and lists exactly the held assets |
| Inventory.Decode | utils/pnl.py:22-24 | a row reads exactly when its three fields read; the first unreadable field (quantity, price, fee) is the error |
| Inventory.Move | utils/pnl.py:26-44 | a decoded row fails exactly when it sells more than its asset's quantity, with that quantity and the amount asked |
| Inventory.Apply | app.py:124-149 | one row of the loop succeeds exactly when it reads and either buys or sells no more than is held |
| Inventory.Replay | utils/pnl.py:16-45 | a replayed book lists each held asset exactly once, and lists nothing else |
| Inventory.FirstSeen | utils/pnl.py:44 | the assets the log names, each once; an asset is listed exactly when some row names it |
| InventoryLaws.ReplayOrder | utils/pnl.py:18-44 | a replayed book lists its assets in the order of their first row, the order in which `state[asset] = row` inserts keys |
| InventoryLaws.ReplaySnoc | utils/pnl.py:19-45 | appending a row applies it to the book so far, and a failure so far stays |
| InventoryLaws.FailureSticky | utils/pnl.py:35-36 | after a failure, later rows change nothing |
| InventoryLaws.PrefixSucceeds | utils/pnl.py:19-45 | if the whole log replays, so does every prefix |
| InventoryLaws.FirstFailureDecides | utils/pnl.py:35-36 | the first row that fails decides the replay's error |
| InventoryLaws.FailureHasRow | utils/pnl.py:35-36 | every failed replay has a row at which it first stops |
| InventoryLaws.OversellExactly | app.py:140-141 | the replay raises an oversell of `asked` against `have` for an asset exactly when some prefix replays, the next row reads as a sale of `asked` of it, and `have` is held |
| InventoryLaws.ReplayIsFold | utils/pnl.py:19-45 | a successful replay read every row, and equals the fold over the decoded rows |
| InventoryLaws.MoveChanges | utils/pnl.py:28-43 | a row moves only its own asset's quantity, by plus or minus its quantity |
| InventoryLaws.QtyIsNet | utils/pnl.py:28-43 | the final quantity of an asset is its bought quantity less its sold quantity |
| InventoryLaws.NeverShort | utils/pnl.py:28-43 | with no negative purchase, no quantity is ever negative |
| InventoryLaws.BasisStep | utils/pnl.py:28-43 | one step keeps realised profit equal to net cash flow plus the position's cost basis |
| InventoryLaws.RealizedIsCashPlusBasis | utils/pnl.py:28-43 | with positive purchases, realised profit is the net cash received plus the cost basis still held |
| InventoryLaws.BoughtOnlyAverage | utils/pnl.py:28-33 | after purchases only, the quantity is the total bought, the average cost times the quantity is the total paid including fees, and nothing is realised |
| InventoryLaws.EmptiedThenBought | utils/pnl.py:32-42 | after a sale empties a position, the next purchase's average is `(q·p + fee)/q` |
| InventoryLaws.ReplayBalances | utils/pnl.py:16-45 | realised profit is net cash plus cost basis, for the replay itself |
| InventoryLaws.OnlyBuyIsBuy | utils/pnl.py:28-34 | replacing every side other than "BUY" by "SELL" changes nothing |
| InventoryLaws.MissingFeeIsZero | utils/pnl.py:24 | a missing fee acts exactly as a fee of "0" |
| InventoryLaws.ReadWholeRow | tests/test_inventory.py:6 | a row spelled as whole numbers decodes to those numbers |
| InventoryLaws.BuyTenHeld | tests/test_inventory.py:5-9 | buying 10 at 2000 without fee holds 10 at an average of 2000 |
| InventoryLaws.StockBlocksSell | tests/test_inventory.py:11-16 | buying 10 and then selling 11 of the same asset raises the oversell of 11 against 10 |
| InventoryLaws.StockTestLog | tests/test_inventory.py:6-11 | the test's two rows are such a purchase and such a sale |
| Valuation.Lookup | app.py:154 | `price_map.get(asset)` is present exactly for priced assets |
| Valuation.PercentOf | app.py:158 | `unreal / cost * 100` is the percentage `unreal` is of `cost` |
| Valuation.HeldRow | app.py:151-170 | a held asset's row values it at its price or 0, its unrealised profit is value less cost, and the percentage exists exactly when the cost is positive |
| Valuation.ZeroRow | app.py:172-185 | an untraded declared asset's row is all zeros with the map's price |
| Valuation.AddMissingIsUntraded | app.py:172-185 | the missing-assets loop appends exactly the declared ids no row names yet |
| Valuation.UntradedRows | app.py:172-185 | the appended rows are zero rows of declared, unheld ids; each such id appears once |
| Valuation.TableShape | app.py:151-185 | the table is the held rows in order followed by the untraded declared assets; every declared id appears; every asset appears exactly once |
| Valuation.UnrealizedIsValueLessCost | utils/pnl.py:54-68 | the unrealised total is the value total less the cost of the inventory |
| Valuation.LinesCover | utils/pnl.py:53-65 | the breakdown has a line for exactly the listed assets, each its own |
| Valuation.ValuationFromPrices | utils/pnl.py:47-70 | the breakdown covers exactly the inventory's assets, each at a mid defaulting to 0; the totals are the sums of the per-asset values |
| Valuation.ListedHoldings | utils/pnl.py:53 | the breakdown's assets are exactly the inventory's keys |
| Valuation.TableMatchesTotals | app.py:151-185 | the column sums of the P&L table equal the totals `valuation_from_prices` computes from the same prices |
| SaveCheck.UnitPrice | app.py:475-482 | an auto price is the map's price and must be positive ("no price"); a manual price is parsed and must be positive |
| SaveCheck.Check | app.py:467-493 | a row is saved exactly when quantity and fee read, the quantity is positive, the fee is not negative, the price is positive, and the log plus the row replays; each refusal names the first failed check |
| SaveCheck.StockRefusesOnlyOversell | app.py:484-491 | on a replayable log, a row that passes the input checks is refused exactly when it sells more than is held, with that oversell |
| SaveCheck.BuyIsSaved | app.py:484-491 | a valid purchase on a replayable log is always saved |
| SaveCheck.BrokenLogRefusesAll | app.py:484-491 | a log that no longer replays refuses every row with its own error |
| SaveCheck.SavedKeepsOthers | app.py:484-493 | a saved row keeps the log replayable and changes no other asset's holding |

## Left out

- HTTP requests, JSON/XML decoding, timeouts and retry sessions are out of
  scope. Each provider takes the decoded payload, or the failure of obtaining
  it, as an input.
- The XML sheet is a sequence of (`CurrencyCode`, `ForexSelling`) pairs.
- The Streamlit UI is out of scope: charts, tabs, cards, settings,
  `warmup_prices_if_missing`, and the DB writes (`insert_tx`).
  - The save check returns the row it would insert.
  - The DataFrame of the P&L table is a sequence of rows.
- `service/run_service.py`, `db/*`, `utils/http.py`, `utils/logging.py`,
  `utils/backup.py` and `utils/time.py` are out of scope. They hold
  scheduling, storage, I/O and clock code.
- The router's primary→fallback chain and its manual prices are not modelled:
  - the constructor ignores its source names;
  - `manual_prices` is never read.
- Decimal's 28-digit working precision is not modelled: values are exact
  reals. Division rounding and the `float(...)` conversions for charts are
  therefore not covered.
- Decimal NaN and infinity are not modelled, and neither is the exponent
  spelling that `str(Decimal)` can produce. Texts are parsed as plain and
  scientific decimal numbers.
- Valuation.ValuationFromPrices: the breakdown holds the numbers, not their
  `str()` renderings.
- Inventory.Decode: the fee column of a pandas frame cannot hold `None`. A
  missing fee is the `PyNone` input, which reads as 0, as the `r.get("fee",
  "0")` default of `utils/pnl.py` does.
- InventoryLaws.StockBlocksSell: this lemma is stated for every row spelled
  "10"/"2000"/"0" and "11"/"2100"/"0" of one asset, not only the test's
  literal rows. StockTestLog shows the test's rows are such rows.
- SaveCheck.Check: the candidate is stored with `Decimal` values, assuming
  `D(str(x)) == x`. Inputs that `str()` would render in a form `D` reads
  differently are not modelled.
- Payload.PyStr / Kapalicarsi.Find: `str()` of a list or a dict is rendered
  as "[]" or "{}", not as Python's repr of the contents. A name that is a list
  or a dict therefore never matches a keyword, where `_find` would match
  `str(['gram altin'])`.
- Decimals.D: digit-group underscores ("1_000") and non-ASCII Unicode digits,
  which `Decimal()` accepts, are refused as unreadable text.
- Payload.Truthy: a number is falsy exactly when it reads as 0. Other
  spellings of falsy Python values are not modelled.

## Findings

| source | as written | input that shows it | evidently intended | confidence | as-written member | corrected member |
|---|---|---|---|---|---|---|
| app.py:317 | `int(left)` turns the integer part "-0" into 0, so a negative value above -1 loses its sign | `fmt(Decimal("-0.5"))` gives "0,50", which `_to_dec` reads as 0.5 | "-0,50", which reads back as -0.5 = `q2(-0.5)` | not executed | Format.FmtAsWritten, RoundTrip.FmtAsWrittenDropsSign | Format.Fmt, RoundTrip.FmtRoundTrip |
