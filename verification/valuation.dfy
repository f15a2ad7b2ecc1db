/** Valuing the inventory at current prices: the rows of the P&L table
    `compute_inventory_and_pnl` (`app.py`) builds, and the totals
    `valuation_from_prices` (`utils/pnl.py`) adds up. */
module Valuation {
  import opened Wrappers
  import opened Assets
  import opened Inventory

  /** `price_map.get(a)`. */
  function Lookup(prices: map<AssetId, real>, a: AssetId): (r: Option<real>)
    ensures r.Some? <==> a in prices
    ensures r.Some? ==> r.value == prices[a]
  {
    if a in prices then Some(prices[a]) else None
  }

  /** `mid_prices.get(asset, Decimal("0"))`. */
  function Mid(prices: map<AssetId, real>, a: AssetId): real {
    Lookup(prices, a).GetOr(0.0)
  }

  /** What is held, at its average cost and at a price. */
  function CostOf(h: Holding): real {
    h.qty * h.avg
  }

  function Worth(h: Holding, price: real): real {
    h.qty * price
  }

  // ------------------------------------------------------------ the P&L table

  /** One row of the table. A missing price leaves `lastPrice` empty, and a
      position without positive cost has no percentage. */
  datatype PnlRow = PnlRow(
    asset: AssetId, qty: real, avg: real, lastPrice: Option<real>,
    value: real, unrealized: real, unrealizedPct: Option<real>, realized: real)

  /** The unrealised result as a percentage of what was paid. */
  predicate IsPercentOf(pct: real, part: real, whole: real) {
    pct * whole == part * 100.0
  }

  lemma PercentOf(part: real, whole: real)
    requires whole > 0.0
    ensures IsPercentOf(part / whole * 100.0, part, whole)
  {
  }

  /** The row of an asset with a holding: worth nothing without a price,
      unrealised is worth less cost, and the percentage only exists when
      the cost is positive. */
  function HeldRow(a: AssetId, h: Holding, cur: Option<real>): (r: PnlRow)
    ensures r.asset == a && r.qty == h.qty && r.avg == h.avg && r.lastPrice == cur && r.realized == h.realized
    ensures r.value == if cur.Some? then Worth(h, cur.value) else 0.0
    ensures r.unrealized == r.value - CostOf(h)
    ensures r.unrealizedPct.Some? <==> CostOf(h) > 0.0
    ensures r.unrealizedPct.Some? ==> IsPercentOf(r.unrealizedPct.value, r.unrealized, CostOf(h))
  {
    var value := if cur.Some? then Worth(h, cur.value) else 0.0;
    var cost := CostOf(h);
    var unreal := value - cost;
    var pct := if cost > 0.0 then PercentOf(unreal, cost); Some(unreal / cost * 100.0) else None;
    PnlRow(a, h.qty, h.avg, cur, value, unreal, pct, h.realized)
  }

  /** The row of a declared asset never traded: all zero, with whatever
      price is known. */
  function ZeroRow(a: AssetId, cur: Option<real>): (r: PnlRow)
    ensures r.asset == a && r.lastPrice == cur && r.unrealizedPct.None?
    ensures r.qty == 0.0 && r.avg == 0.0 && r.value == 0.0 && r.unrealized == 0.0 && r.realized == 0.0
  {
    PnlRow(a, 0.0, 0.0, cur, 0.0, 0.0, None, 0.0)
  }

  function AssetsOf(rows: seq<PnlRow>): (r: seq<AssetId>)
    ensures |r| == |rows|
    ensures forall i :: 0 <= i < |rows| ==> r[i] == rows[i].asset
  {
    seq(|rows|, i requires 0 <= i < |rows| => rows[i].asset)
  }

  /** The rows of the traded assets, in the order they were first traded. */
  function HeldRows(order: seq<AssetId>, b: Book, prices: map<AssetId, real>): (r: seq<PnlRow>)
    ensures |r| == |order|
    ensures forall i :: 0 <= i < |order| ==> r[i] == HeldRow(order[i], HoldingOf(b, order[i]), Lookup(prices, order[i]))
    decreases |order|
  {
    if |order| == 0 then []
    else
      var a := order[|order| - 1];
      HeldRows(order[..|order| - 1], b, prices) + [HeldRow(a, HoldingOf(b, a), Lookup(prices, a))]
  }

  /** The loop over `ASSETS_META`: a zero row for each declared asset no
      row names yet. */
  function AddMissing(rows: seq<PnlRow>, ids: seq<AssetId>, prices: map<AssetId, real>): seq<PnlRow>
    decreases |ids|
  {
    if |ids| == 0 then rows
    else
      var a := ids[0];
      var rows' := if a in AssetsOf(rows) then rows else rows + [ZeroRow(a, Lookup(prices, a))];
      AddMissing(rows', ids[1..], prices)
  }

  /** The table: held rows, then the declared assets that were never
      traded. */
  function Table(b: Book, prices: map<AssetId, real>): seq<PnlRow> {
    AddMissing(HeldRows(b.order, b, prices), ASSETS, prices)
  }

  /** The zero rows, described as a filter: one per listed id that `held`
      does not name, in list order. */
  function Untraded(ids: seq<AssetId>, held: seq<AssetId>, prices: map<AssetId, real>): (r: seq<PnlRow>)
    decreases |ids|
  {
    if |ids| == 0 then []
    else (if ids[0] in held then [] else [ZeroRow(ids[0], Lookup(prices, ids[0]))]) + Untraded(ids[1..], held, prices)
  }

  predicate Distinct<T(==)>(xs: seq<T>) {
    forall i, j :: 0 <= i < j < |xs| ==> xs[i] != xs[j]
  }

  lemma UntradedIgnores(ids: seq<AssetId>, held: seq<AssetId>, a: AssetId, prices: map<AssetId, real>)
    requires a !in ids
    ensures Untraded(ids, held + [a], prices) == Untraded(ids, held, prices)
    decreases |ids|
  {
    if |ids| > 0 {
      UntradedIgnores(ids[1..], held, a, prices);
    }
  }

  /** The loop appends exactly the filtered zero rows when the declared ids
      are distinct. */
  lemma {:induction false} AddMissingIsUntraded(rows: seq<PnlRow>, ids: seq<AssetId>, prices: map<AssetId, real>)
    requires Distinct(ids)
    ensures AddMissing(rows, ids, prices) == rows + Untraded(ids, AssetsOf(rows), prices)
    decreases |ids|
  {
    if |ids| > 0 {
      var a := ids[0];
      assert Distinct(ids[1..]) by {
        forall i, j | 0 <= i < j < |ids[1..]| ensures ids[1..][i] != ids[1..][j] {
          assert ids[1..][i] == ids[i + 1] && ids[1..][j] == ids[j + 1];
        }
      }
      if a in AssetsOf(rows) {
        AddMissingIsUntraded(rows, ids[1..], prices);
      } else {
        var z := ZeroRow(a, Lookup(prices, a));
        AddMissingIsUntraded(rows + [z], ids[1..], prices);
        assert AssetsOf(rows + [z]) == AssetsOf(rows) + [a];
        assert a !in ids[1..] by {
          forall k | 0 <= k < |ids[1..]| ensures ids[1..][k] != a {
            assert ids[1..][k] == ids[k + 1];
          }
        }
        UntradedIgnores(ids[1..], AssetsOf(rows), a, prices);
      }
    }
  }

  /** What the zero rows are: each one a listed id that `held` does not
      name, and each such id once. */
  lemma UntradedRows(ids: seq<AssetId>, held: seq<AssetId>, prices: map<AssetId, real>)
    ensures forall r :: r in Untraded(ids, held, prices) ==>
      r.asset in ids && r.asset !in held && r == ZeroRow(r.asset, Lookup(prices, r.asset))
    ensures forall a :: a in ids && a !in held ==> a in AssetsOf(Untraded(ids, held, prices))
    ensures Distinct(ids) ==> Distinct(AssetsOf(Untraded(ids, held, prices)))
  {
    UntradedOnly(ids, held, prices);
    UntradedCovers(ids, held, prices);
    if Distinct(ids) {
      UntradedOnce(ids, held, prices);
    }
  }

  /** The filter splits into the first id's row, if any, and the rest. */
  lemma UntradedSplit(ids: seq<AssetId>, held: seq<AssetId>, prices: map<AssetId, real>)
    requires |ids| > 0
    ensures Untraded(ids, held, prices) == UntradedHead(ids, held, prices) + Untraded(ids[1..], held, prices)
    ensures AssetsOf(Untraded(ids, held, prices)) == AssetsOf(UntradedHead(ids, held, prices)) + AssetsOf(Untraded(ids[1..], held, prices))
  {
    AssetsAppend(UntradedHead(ids, held, prices), Untraded(ids[1..], held, prices));
  }

  function UntradedHead(ids: seq<AssetId>, held: seq<AssetId>, prices: map<AssetId, real>): seq<PnlRow>
    requires |ids| > 0
  {
    if ids[0] in held then [] else [ZeroRow(ids[0], Lookup(prices, ids[0]))]
  }

  lemma {:induction false} UntradedOnly(ids: seq<AssetId>, held: seq<AssetId>, prices: map<AssetId, real>)
    ensures forall r :: r in Untraded(ids, held, prices) ==>
      r.asset in ids && r.asset !in held && r == ZeroRow(r.asset, Lookup(prices, r.asset))
    decreases |ids|
  {
    if |ids| > 0 {
      UntradedOnly(ids[1..], held, prices);
      UntradedSplit(ids, held, prices);
    }
  }

  lemma {:induction false} UntradedCovers(ids: seq<AssetId>, held: seq<AssetId>, prices: map<AssetId, real>)
    ensures forall a :: a in ids && a !in held ==> a in AssetsOf(Untraded(ids, held, prices))
    decreases |ids|
  {
    if |ids| > 0 {
      UntradedCovers(ids[1..], held, prices);
      UntradedSplit(ids, held, prices);
      forall a | a in ids && a !in held ensures a in AssetsOf(Untraded(ids, held, prices)) {
        if a != ids[0] {
          var k :| 0 <= k < |ids| && ids[k] == a;
          assert ids[1..][k - 1] == a;
        }
      }
    }
  }

  lemma {:induction false} UntradedOnce(ids: seq<AssetId>, held: seq<AssetId>, prices: map<AssetId, real>)
    requires Distinct(ids)
    ensures Distinct(AssetsOf(Untraded(ids, held, prices)))
    decreases |ids|
  {
    if |ids| > 0 {
      assert Distinct(ids[1..]) by {
        forall i, j | 0 <= i < j < |ids[1..]| ensures ids[1..][i] != ids[1..][j] {
          assert ids[1..][i] == ids[i + 1] && ids[1..][j] == ids[j + 1];
        }
      }
      UntradedOnce(ids[1..], held, prices);
      UntradedOnly(ids[1..], held, prices);
      UntradedSplit(ids, held, prices);
      var head := UntradedHead(ids, held, prices);
      var tail := Untraded(ids[1..], held, prices);
      assert ids[0] !in ids[1..] by {
        forall k | 0 <= k < |ids[1..]| ensures ids[1..][k] != ids[0] {
          assert ids[1..][k] == ids[k + 1];
        }
      }
      forall y | y in AssetsOf(tail) ensures y !in AssetsOf(head) {
        var k :| 0 <= k < |tail| && AssetsOf(tail)[k] == y;
        assert tail[k] in tail;
      }
      DistinctAppend(AssetsOf(head), AssetsOf(tail));
    }
  }

  lemma HeldAssets(order: seq<AssetId>, b: Book, prices: map<AssetId, real>)
    ensures AssetsOf(HeldRows(order, b, prices)) == order
  {
  }

  lemma AssetsAppend(xs: seq<PnlRow>, ys: seq<PnlRow>)
    ensures AssetsOf(xs + ys) == AssetsOf(xs) + AssetsOf(ys)
  {
  }

  lemma ZeroAssets(ids: seq<AssetId>, held: seq<AssetId>, prices: map<AssetId, real>)
    ensures forall a :: a in AssetsOf(Untraded(ids, held, prices)) ==> a in ids && a !in held
  {
    var zero := Untraded(ids, held, prices);
    UntradedRows(ids, held, prices);
    forall a | a in AssetsOf(zero) ensures a in ids && a !in held {
      var k :| 0 <= k < |zero| && AssetsOf(zero)[k] == a;
      assert zero[k] in zero;
    }
  }

  lemma DistinctAppend<T>(xs: seq<T>, ys: seq<T>)
    requires Distinct(xs) && Distinct(ys)
    requires forall y :: y in ys ==> y !in xs
    ensures Distinct(xs + ys)
  {
    forall i, j | 0 <= i < j < |xs + ys| ensures (xs + ys)[i] != (xs + ys)[j] {
      if i < |xs| && j >= |xs| {
        assert (xs + ys)[j] == ys[j - |xs|];
        assert ys[j - |xs|] in ys;
      }
    }
  }

  /** The table lists the traded assets in the order they were first
      traded, then every declared asset not traded, so each declared asset
      appears, and no asset appears twice. */
  lemma TableShape(b: Book, prices: map<AssetId, real>)
    requires WellFormed(b)
    ensures Table(b, prices) == HeldRows(b.order, b, prices) + Untraded(ASSETS, b.order, prices)
    ensures forall a :: a in ASSETS ==> a in AssetsOf(Table(b, prices))
    ensures forall a :: a in AssetsOf(Table(b, prices)) ==> a in b.order || a in ASSETS
    ensures Distinct(AssetsOf(Table(b, prices)))
  {
    AssetsTable();
    assert Distinct(ASSETS);
    var held := HeldRows(b.order, b, prices);
    var zero := Untraded(ASSETS, b.order, prices);
    HeldAssets(b.order, b, prices);
    AddMissingIsUntraded(held, ASSETS, prices);
    UntradedRows(ASSETS, b.order, prices);
    ZeroAssets(ASSETS, b.order, prices);
    AssetsAppend(held, zero);
    DistinctAppend(b.order, AssetsOf(zero));
  }

  // ------------------------------------------------------------ totals

  /** Portfolio value, unrealised and realised result. */
  datatype Totals = Totals(value: real, unrealized: real, realized: real)

  const NONE: Totals := Totals(0.0, 0.0, 0.0)

  function Plus(x: Totals, y: Totals): Totals {
    Totals(x.value + y.value, x.unrealized + y.unrealized, x.realized + y.realized)
  }

  /** The column sums of table rows. */
  function SumRows(rows: seq<PnlRow>): Totals
    decreases |rows|
  {
    if |rows| == 0 then NONE
    else Plus(SumRows(rows[..|rows| - 1]), RowTotals(rows[|rows| - 1]))
  }

  /** The three summed columns of one table row. */
  function RowTotals(r: PnlRow): Totals {
    Totals(r.value, r.unrealized, r.realized)
  }

  /** The three summed columns of one breakdown line. */
  function Carried(l: Line): Totals {
    Totals(l.value, l.unrealized, l.realized)
  }

  /** What one asset adds to the totals at a mid price defaulting to 0. */
  function Contribution(inv: Book, mids: map<AssetId, real>, a: AssetId): Totals {
    Carried(LineOf(inv, mids, a))
  }

  /** `Contribution`, as a function of the asset. */
  function Contributions(inv: Book, mids: map<AssetId, real>): AssetId -> Totals {
    a => Contribution(inv, mids, a)
  }

  /** The sum of `f` over the first `n` listed assets. */
  function SumBy(n: nat, order: seq<AssetId>, f: AssetId -> Totals): Totals
    requires n <= |order|
  {
    if n == 0 then NONE
    else Plus(SumBy(n - 1, order, f), f(order[n - 1]))
  }

  /** The totals over the first `n` listed assets, as a plain sum. */
  function Summed(n: nat, order: seq<AssetId>, inv: Book, mids: map<AssetId, real>): Totals
    requires n <= |order|
  {
    SumBy(n, order, Contributions(inv, mids))
  }

  /** The sum of `c` over the first `n` listed assets. */
  function SumOf(n: nat, order: seq<AssetId>, c: AssetId -> real): real
    requires n <= |order|
  {
    if n == 0 then 0.0
    else SumOf(n - 1, order, c) + c(order[n - 1])
  }

  /** The cost of each asset's holding, as a function of the asset. */
  function Costs(inv: Book): AssetId -> real {
    a => CostOf(HoldingOf(inv, a))
  }

  /** The cost of what is held, summed over the first `n` listed assets. */
  function SumCost(n: nat, order: seq<AssetId>, inv: Book): real
    requires n <= |order|
  {
    SumOf(n, order, Costs(inv))
  }

  /** The unrealised total is the portfolio value less what it cost. */
  lemma UnrealizedIsValueLessCost(n: nat, order: seq<AssetId>, inv: Book, mids: map<AssetId, real>)
    requires n <= |order|
    ensures Summed(n, order, inv, mids).unrealized == Summed(n, order, inv, mids).value - SumCost(n, order, inv)
  {
    var f := Contributions(inv, mids);
    var c := Costs(inv);
    UnrealizedLessBy(n, order, f, c);
  }

  /** Per-asset totals whose unrealised part is value less `c` sum to a
      total whose unrealised part is value less the sum of `c`. */
  lemma {:induction false} UnrealizedLessBy(n: nat, order: seq<AssetId>, f: AssetId -> Totals, c: AssetId -> real)
    requires n <= |order|
    requires forall a :: f(a).unrealized == f(a).value - c(a)
    ensures SumBy(n, order, f).unrealized == SumBy(n, order, f).value - SumOf(n, order, c)
  {
    if n > 0 {
      UnrealizedLessBy(n - 1, order, f, c);
    }
  }

  /** One entry of `breakdown`: the numbers its strings render. */
  datatype Line = Line(qty: real, avg: real, mid: real, value: real, unrealized: real, realized: real)

  /** The line the loop writes for a holding at a mid price: worth
      quantity times mid, and unrealised worth less cost. */
  function Priced(h: Holding, mid: real): Line {
    var value := Worth(h, mid);
    Line(h.qty, h.avg, mid, value, value - CostOf(h), h.realized)
  }

  /** The line of asset `a`: its holding priced at
      `mid_prices.get(a, Decimal("0"))`. */
  function LineOf(inv: Book, mids: map<AssetId, real>, a: AssetId): Line {
    Priced(HoldingOf(inv, a), Mid(mids, a))
  }

  /** The map from each of the first `n` listed assets to its `g`. */
  function LinesBy(n: nat, order: seq<AssetId>, g: AssetId -> Line): map<AssetId, Line>
    requires n <= |order|
  {
    if n == 0 then map[]
    else LinesBy(n - 1, order, g)[order[n - 1] := g(order[n - 1])]
  }

  /** The breakdown over the first `n` listed assets. */
  function Lines(n: nat, order: seq<AssetId>, inv: Book, mids: map<AssetId, real>): map<AssetId, Line>
    requires n <= |order|
  {
    LinesBy(n, order, a => LineOf(inv, mids, a))
  }

  /** The breakdown has an entry for exactly the listed assets, each that
      asset's line. */
  lemma LinesCover(n: nat, order: seq<AssetId>, inv: Book, mids: map<AssetId, real>)
    requires n <= |order|
    ensures forall a :: a in Lines(n, order, inv, mids) <==> a in order[..n]
    ensures forall a :: a in Lines(n, order, inv, mids) ==> Lines(n, order, inv, mids)[a] == LineOf(inv, mids, a)
  {
    LinesByCover(n, order, a => LineOf(inv, mids, a));
  }

  /** The map over the first `n` assets has exactly those keys, each at
      its `g`. */
  lemma {:induction false} LinesByCover(n: nat, order: seq<AssetId>, g: AssetId -> Line)
    requires n <= |order|
    ensures forall a :: a in LinesBy(n, order, g) <==> a in order[..n]
    ensures forall a :: a in LinesBy(n, order, g) ==> LinesBy(n, order, g)[a] == g(a)
  {
    if n > 0 {
      LinesByCover(n - 1, order, g);
      assert order[..n] == order[..n - 1] + [order[n - 1]];
    }
  }

  /** `valuation_from_prices`: a line per held asset, and the three totals
      accumulated over the inventory in its order. */
  method ValuationFromPrices(inv: Book, mids: map<AssetId, real>)
    returns (breakdown: map<AssetId, Line>, totalValue: real, unrealized: real, realized: real)
    ensures forall a :: a in breakdown <==> a in inv.order
    ensures forall a :: a in breakdown ==> breakdown[a] == LineOf(inv, mids, a)
    ensures Totals(totalValue, unrealized, realized) == Summed(|inv.order|, inv.order, inv, mids)
  {
    breakdown := map[];
    var sums := NONE;
    var i := 0;
    while i < |inv.order|
      invariant 0 <= i <= |inv.order|
      invariant breakdown == Lines(i, inv.order, inv, mids)
      invariant sums == Summed(i, inv.order, inv, mids)
    {
      var asset := inv.order[i];
      var line := LineOf(inv, mids, asset);
      Advance(i, inv, mids, line);
      breakdown := breakdown[asset := line];
      sums := Plus(sums, Carried(line));
      i := i + 1;
    }
    totalValue, unrealized, realized := sums.value, sums.unrealized, sums.realized;
    LinesCover(i, inv.order, inv, mids);
    assert inv.order[..i] == inv.order;
  }

  /** One pass of the loop: the line it writes for the `i`-th asset
      extends the breakdown and the totals over the assets before it. */
  lemma Advance(i: nat, inv: Book, mids: map<AssetId, real>, line: Line)
    requires i < |inv.order| && line == LineOf(inv, mids, inv.order[i])
    ensures Lines(i + 1, inv.order, inv, mids) == Lines(i, inv.order, inv, mids)[inv.order[i] := line]
    ensures Summed(i + 1, inv.order, inv, mids) == Plus(Summed(i, inv.order, inv, mids), Carried(line))
  {
    LinesStep(i, inv.order, inv, mids, line);
    SummedStep(i, inv.order, inv, mids, line);
  }

  /** One more listed asset adds its line to the breakdown. */
  lemma LinesStep(i: nat, order: seq<AssetId>, inv: Book, mids: map<AssetId, real>, l: Line)
    requires i < |order| && l == LineOf(inv, mids, order[i])
    ensures Lines(i + 1, order, inv, mids) == Lines(i, order, inv, mids)[order[i] := l]
  {
  }

  /** One more listed asset adds its line's columns to the totals. */
  lemma SummedStep(i: nat, order: seq<AssetId>, inv: Book, mids: map<AssetId, real>, l: Line)
    requires i < |order| && l == LineOf(inv, mids, order[i])
    ensures Summed(i + 1, order, inv, mids) == Plus(Summed(i, order, inv, mids), Carried(l))
  {
  }

  /** A well-formed book lists exactly its holdings. */
  lemma ListedHoldings(inv: Book)
    requires WellFormed(inv)
    ensures (set a | a in inv.order) == inv.state.Keys
  {
  }

  // ------------------------------------------------------------ agreement

  lemma {:induction false} SumRowsAppend(xs: seq<PnlRow>, ys: seq<PnlRow>)
    ensures SumRows(xs + ys) == Plus(SumRows(xs), SumRows(ys))
    decreases |ys|
  {
    if |ys| == 0 {
      assert xs + ys == xs;
    } else {
      var init := ys[..|ys| - 1];
      SumRowsAppend(xs, init);
      assert (xs + ys)[..|xs + ys| - 1] == xs + init;
    }
  }

  lemma {:induction false} ZeroRowsAddNothing(rows: seq<PnlRow>)
    requires forall i :: 0 <= i < |rows| ==> rows[i].value == 0.0 && rows[i].unrealized == 0.0 && rows[i].realized == 0.0
    ensures SumRows(rows) == NONE
    decreases |rows|
  {
    if |rows| > 0 {
      ZeroRowsAddNothing(rows[..|rows| - 1]);
    }
  }

  /** A held row adds what the asset contributes to the totals: an
      unpriced asset is worth nothing either way. */
  lemma HeldRowContributes(inv: Book, prices: map<AssetId, real>, a: AssetId)
    ensures RowTotals(HeldRow(a, HoldingOf(inv, a), Lookup(prices, a))) == Contribution(inv, prices, a)
  {
    var h := HoldingOf(inv, a);
    if a !in prices {
      WorthAtZero(h);
    }
  }

  lemma WorthAtZero(h: Holding)
    ensures Worth(h, 0.0) == 0.0
  {
  }

  /** The sums over the first `k` assets only read those assets. */
  lemma {:induction false} SumByPrefix(k: nat, m: nat, order: seq<AssetId>, f: AssetId -> Totals)
    requires k <= m <= |order|
    ensures SumBy(k, order[..m], f) == SumBy(k, order, f)
  {
    if k > 0 {
      SumByPrefix(k - 1, m, order, f);
    }
  }

  /** Rows whose columns are, one by one, `f` of the listed assets add up
      to the sum of `f`. */
  lemma {:induction false} SumRowsBy(rows: seq<PnlRow>, order: seq<AssetId>, f: AssetId -> Totals)
    requires |rows| == |order|
    requires forall i :: 0 <= i < |rows| ==> RowTotals(rows[i]) == f(order[i])
    ensures SumRows(rows) == SumBy(|order|, order, f)
    decreases |rows|
  {
    if |rows| > 0 {
      var n := |rows| - 1;
      forall i | 0 <= i < n
        ensures RowTotals(rows[..n][i]) == f(order[..n][i])
      {
        assert rows[..n][i] == rows[i] && order[..n][i] == order[i];
      }
      SumRowsBy(rows[..n], order[..n], f);
      SumByPrefix(n, n, order, f);
    }
  }

  lemma HeldRowsSum(order: seq<AssetId>, inv: Book, prices: map<AssetId, real>)
    ensures SumRows(HeldRows(order, inv, prices)) == Summed(|order|, order, inv, prices)
  {
    var rows := HeldRows(order, inv, prices);
    var f := Contributions(inv, prices);
    forall i | 0 <= i < |rows|
      ensures RowTotals(rows[i]) == f(order[i])
    {
      HeldRowContributes(inv, prices, order[i]);
    }
    SumRowsBy(rows, order, f);
  }

  /** The P&L table and `valuation_from_prices` agree: the table's value,
      unrealised and realised columns add up to the three totals, given
      the same prices. */
  lemma TableMatchesTotals(b: Book, prices: map<AssetId, real>)
    requires WellFormed(b)
    ensures SumRows(Table(b, prices)) == Summed(|b.order|, b.order, b, prices)
  {
    TableShape(b, prices);
    var zero := Untraded(ASSETS, b.order, prices);
    UntradedRows(ASSETS, b.order, prices);
    forall i | 0 <= i < |zero| ensures zero[i].value == 0.0 && zero[i].unrealized == 0.0 && zero[i].realized == 0.0 {
      assert zero[i] in zero;
    }
    ZeroRowsAddNothing(zero);
    HeldRowsSum(b.order, b, prices);
    SumRowsAppend(HeldRows(b.order, b, prices), zero);
  }
}
