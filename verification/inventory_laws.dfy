/** Properties of the replay in `Inventory`: where it stops, what each
    holding adds up to, and which rows it treats alike. */
module InventoryLaws {
  import opened Wrappers
  import Text
  import Decimals
  import opened Assets
  import opened Inventory
  import Runs

  // ------------------------------------------------------------ stopping

  /** Replaying one more row applies it to the book so far. */
  lemma ReplaySnoc(txs: seq<Tx>, tx: Tx)
    ensures Replay(txs + [tx]) ==
      (if Replay(txs).Success? then Apply(Replay(txs).value, tx) else Replay(txs))
  {
    assert (txs + [tx])[..|txs|] == txs;
  }

  /** A row after the point where the replay stopped is not read. */
  lemma ReplayKeepsFailure(txs: seq<Tx>, tx: Tx)
    requires Replay(txs).Failure?
    ensures Replay(txs + [tx]) == Replay(txs)
  {
    ReplaySnoc(txs, tx);
  }

  /** Once the replay has stopped, further rows change nothing. */
  lemma {:induction false} FailureSticky(txs: seq<Tx>, more: seq<Tx>)
    requires Replay(txs).Failure?
    ensures Replay(txs + more) == Replay(txs)
    decreases |more|
  {
    if |more| == 0 {
      AppendEmpty(txs, more);
    } else {
      var init := more[..|more| - 1];
      var last := more[|more| - 1];
      FailureSticky(txs, init);
      ReplayKeepsFailure(txs + init, last);
      AppendLast(txs, more);
    }
  }

  lemma AppendEmpty<T>(xs: seq<T>, more: seq<T>)
    requires |more| == 0
    ensures xs + more == xs
  {
  }

  lemma AppendLast<T>(xs: seq<T>, more: seq<T>)
    requires |more| > 0
    ensures xs + more == (xs + more[..|more| - 1]) + [more[|more| - 1]]
  {
  }

  /** A successful replay succeeds on every prefix. */
  lemma PrefixSucceeds(txs: seq<Tx>, i: nat)
    requires Replay(txs).Success? && i <= |txs|
    ensures Replay(txs[..i]).Success?
  {
    if Replay(txs[..i]).Failure? {
      FailureSticky(txs[..i], txs[i..]);
      TakeDrop(txs, i);
    }
  }

  /** The row at which the replay stops, given the book before it. */
  predicate StopsAt(txs: seq<Tx>, i: int, e: InvError) {
    0 <= i < |txs| && Replay(txs[..i]).Success?
    && Apply(Replay(txs[..i]).value, txs[i]) == Failure(e)
  }

  /** A row that fails on the book before it is where the whole replay
      stops. */
  lemma FirstFailureDecides(txs: seq<Tx>, i: int, e: InvError)
    requires StopsAt(txs, i, e)
    ensures Replay(txs) == Failure(e)
  {
    TakeNext(txs, i);
    ReplaySnoc(txs[..i], txs[i]);
    FailureSticky(txs[..i + 1], txs[i + 1..]);
    TakeDrop(txs, i + 1);
  }

  lemma TakeNext<T>(xs: seq<T>, i: int)
    requires 0 <= i < |xs|
    ensures xs[..i + 1] == xs[..i] + [xs[i]]
  {
  }

  lemma TakeDrop<T>(xs: seq<T>, k: int)
    requires 0 <= k <= |xs|
    ensures xs[..k] + xs[k..] == xs
  {
  }

  /** A failed replay has a row at which it stopped. */
  lemma FailureHasRow(txs: seq<Tx>)
    requires Replay(txs).Failure?
    ensures exists i :: StopsAt(txs, i, Replay(txs).error)
  {
    ReplayIsRun(txs);
    var i := Runs.StoppingRow(Apply, EMPTY_BOOK, txs);
    ReplayIsRun(txs[..i]);
    assert StopsAt(txs, i, Replay(txs).error);
  }

  /** The replay is the stopping fold of `Apply` from the empty book. */
  lemma {:induction false} ReplayIsRun(txs: seq<Tx>)
    ensures Replay(txs) == Runs.Run(Apply, EMPTY_BOOK, txs)
    decreases |txs|
  {
    if |txs| > 0 {
      ReplayIsRun(txs[..|txs| - 1]);
      ReplayLast(txs);
      Runs.RunLast(Apply, EMPTY_BOOK, txs);
    }
  }

  /** A non-empty log applies its last row to the book of the others, or
      keeps their failure. */
  lemma ReplayLast(txs: seq<Tx>)
    requires |txs| > 0
    ensures Replay(txs) == if Replay(txs[..|txs| - 1]).Success?
      then Apply(Replay(txs[..|txs| - 1]).value, txs[|txs| - 1])
      else Failure(Replay(txs[..|txs| - 1]).error)
  {
  }

  /** A successful replay lists its assets in the order of their first
      row, as the dict's insertion order does. */
  lemma {:induction false} ReplayOrder(txs: seq<Tx>)
    requires Replay(txs).Success?
    ensures Replay(txs).value.order == FirstSeen(txs)
    decreases |txs|
  {
    if |txs| > 0 {
      var init := txs[..|txs| - 1];
      ReplayLast(txs);
      ReplayOrder(init);
      OrderStep(Replay(init).value, txs[|txs| - 1]);
    }
  }

  /** One applied row appends its asset to the order when the asset is
      new, and otherwise leaves the order alone. */
  lemma OrderStep(b: Book, tx: Tx)
    requires WellFormed(b) && Apply(b, tx).Success?
    ensures Apply(b, tx).value.order == if tx.asset in b.order then b.order else b.order + [tx.asset]
  {
  }

  /** The replay reports an oversell of `a` exactly when some row, read in
      full, sells more of `a` than the book before it holds. */
  lemma OversellExactly(txs: seq<Tx>, a: AssetId, have: real, asked: real)
    ensures Replay(txs) == Failure(Oversold(a, have, asked)) <==>
      exists i :: Oversells(txs, i, a, have, asked)
  {
    var e := Oversold(a, have, asked);
    if Replay(txs) == Failure(e) {
      FailureHasRow(txs);
      var i :| StopsAt(txs, i, e);
      StopsByOversell(txs, i, a, have, asked);
    }
    if exists i :: Oversells(txs, i, a, have, asked) {
      var i :| Oversells(txs, i, a, have, asked);
      StopsByOversell(txs, i, a, have, asked);
      FirstFailureDecides(txs, i, e);
    }
  }

  /** Row `i`, read in full, sells `asked` of `a` while the book before it
      holds only `have`. */
  predicate Oversells(txs: seq<Tx>, i: int, a: AssetId, have: real, asked: real) {
    0 <= i < |txs| && Replay(txs[..i]).Success? && Decoded(txs[i])
    && txs[i].asset == a && !IsBuy(txs[i].side)
    && have == HoldingOf(Replay(txs[..i]).value, a).qty
    && asked == Qty(txs[i]) && asked > have
  }

  /** The replay stops at a row with an oversell exactly when that row
      oversells. */
  lemma StopsByOversell(txs: seq<Tx>, i: int, a: AssetId, have: real, asked: real)
    ensures StopsAt(txs, i, Oversold(a, have, asked)) <==> Oversells(txs, i, a, have, asked)
  {
  }

  // ------------------------------------------------------------ decoded rows

  /** A row's numbers as the replay reads them (zero where unreadable). */
  function Read(tx: Tx): Row {
    Row(tx.asset, IsBuy(tx.side), Qty(tx), Price(tx), Fee(tx))
  }

  function Rows(txs: seq<Tx>): (rows: seq<Row>)
    ensures |rows| == |txs|
    ensures forall i :: 0 <= i < |txs| ==> rows[i] == Read(txs[i])
  {
    seq(|txs|, i requires 0 <= i < |txs| => Read(txs[i]))
  }

  /** The same loop over rows whose numbers are already read. */
  function Fold(rows: seq<Row>): (r: Result<Book, InvError>)
    decreases |rows|
  {
    if |rows| == 0 then Success(EMPTY_BOOK)
    else
      var b :- Fold(rows[..|rows| - 1]);
      Move(b, rows[|rows| - 1])
  }

  /** A replay that succeeds read every row, and did what the loop over the
      read rows does. */
  lemma {:induction false} ReplayIsFold(txs: seq<Tx>)
    requires Replay(txs).Success?
    ensures forall i :: 0 <= i < |txs| ==> Decoded(txs[i])
    ensures Fold(Rows(txs)) == Replay(txs)
    decreases |txs|
  {
    if |txs| > 0 {
      var n := |txs| - 1;
      var init := txs[..n];
      ReplayIsFold(init);
      assert Rows(txs)[..n] == Rows(init);
      assert Decoded(txs[n]);
      assert Decode(txs[n]).value == Rows(txs)[n];
      AllSnoc(txs, init, Decoded);
    }
  }

  /** A property of every element of the front, and of the last one, holds
      of every element. */
  lemma AllSnoc<T>(xs: seq<T>, init: seq<T>, p: T -> bool)
    requires |xs| > 0 && init == xs[..|xs| - 1] && p(xs[|xs| - 1])
    requires forall i :: 0 <= i < |init| ==> p(init[i])
    ensures forall i :: 0 <= i < |xs| ==> p(xs[i])
  {
    forall i | 0 <= i < |init| ensures p(xs[i]) {
      assert init[i] == xs[i];
    }
  }

  // ------------------------------------------------------------ quantities

  /** The signed quantity of a row: bought adds, anything else removes. */
  function Signed(row: Row): real {
    if row.buy then row.qty else -row.qty
  }

  /** The net quantity of `a` over the rows, as a plain sum. */
  function NetQty(rows: seq<Row>, a: AssetId): real
    decreases |rows|
  {
    if |rows| == 0 then 0.0
    else
      var last := rows[|rows| - 1];
      NetQty(rows[..|rows| - 1], a) + (if last.asset == a then Signed(last) else 0.0)
  }

  /** A successful move changes only its row's asset. */
  lemma MoveChanges(b: Book, row: Row, a: AssetId)
    requires Move(b, row).Success?
    ensures var h := HoldingOf(b, a);
      var h' := HoldingOf(Move(b, row).value, a);
      if a == row.asset then Step(h, row.buy, row.qty, row.unitPrice, row.fee) == Some(h') else h' == h
  {
  }

  /** After a successful loop each holding's quantity is the net of its
      rows. */
  lemma {:induction false} QtyIsNet(rows: seq<Row>, a: AssetId)
    requires Fold(rows).Success?
    ensures HoldingOf(Fold(rows).value, a).qty == NetQty(rows, a)
    decreases |rows|
  {
    if |rows| > 0 {
      var init := rows[..|rows| - 1];
      QtyIsNet(init, a);
      MoveChanges(Fold(init).value, rows[|rows| - 1], a);
    }
  }

  /** Every purchase is of a non-negative quantity. */
  predicate BuysNonNegative(rows: seq<Row>) {
    forall i :: 0 <= i < |rows| && rows[i].buy ==> rows[i].qty >= 0.0
  }

  /** Every purchase is of a positive quantity. */
  predicate BuysPositive(rows: seq<Row>) {
    forall i :: 0 <= i < |rows| && rows[i].buy ==> rows[i].qty > 0.0
  }

  /** The stock check keeps every holding non-negative, as long as nothing
      is bought in negative amounts. */
  lemma {:induction false} NeverShort(rows: seq<Row>, a: AssetId)
    requires Fold(rows).Success? && BuysNonNegative(rows)
    ensures HoldingOf(Fold(rows).value, a).qty >= 0.0
    decreases |rows|
  {
    if |rows| > 0 {
      var init := rows[..|rows| - 1];
      assert BuysNonNegative(init) by {
        forall i | 0 <= i < |init| && init[i].buy ensures init[i].qty >= 0.0 {
          assert init[i] == rows[i];
        }
      }
      NeverShort(init, a);
      MoveChanges(Fold(init).value, rows[|rows| - 1], a);
    }
  }

  // ------------------------------------------------------------ cost basis

  /** The cash a row moves for its asset: a purchase pays quantity times
      price plus fee, a sale receives quantity times price less fee. */
  function Flow(row: Row): real {
    if row.buy then -(row.qty * row.unitPrice + row.fee)
    else row.qty * row.unitPrice - row.fee
  }

  /** The net cash of `a` over the rows. */
  function Cash(rows: seq<Row>, a: AssetId): real
    decreases |rows|
  {
    if |rows| == 0 then 0.0
    else
      var last := rows[|rows| - 1];
      Cash(rows[..|rows| - 1], a) + (if last.asset == a then Flow(last) else 0.0)
  }

  /** What is still held, valued at its average cost. */
  function Basis(h: Holding): real {
    h.qty * h.avg
  }

  /** One step keeps "realised = cash + quantity times average cost". */
  lemma BasisStep(h: Holding, row: Row, c: real, h': Holding)
    requires h.qty >= 0.0 && h.realized == c + Basis(h)
    requires row.buy ==> row.qty > 0.0
    requires Step(h, row.buy, row.qty, row.unitPrice, row.fee) == Some(h')
    ensures h'.qty >= 0.0
    ensures h'.realized == c + Flow(row) + Basis(h')
  {
    if !row.buy {
      if h'.qty != 0.0 {
        assert h'.qty * h'.avg == h.qty * h.avg - row.qty * h.avg;
      }
    }
  }

  /** The average-cost books balance: what has been realised for an asset
      equals the net cash it moved plus the cost of what is still held, as
      long as every purchase is of a positive quantity. */
  lemma {:induction false} RealizedIsCashPlusBasis(rows: seq<Row>, a: AssetId)
    requires Fold(rows).Success? && BuysPositive(rows)
    ensures var h := HoldingOf(Fold(rows).value, a);
      h.qty >= 0.0 && h.realized == Cash(rows, a) + Basis(h)
    decreases |rows|
  {
    if |rows| > 0 {
      var init := rows[..|rows| - 1];
      var last := rows[|rows| - 1];
      assert BuysPositive(init) by {
        forall i | 0 <= i < |init| && init[i].buy ensures init[i].qty > 0.0 {
          assert init[i] == rows[i];
        }
      }
      RealizedIsCashPlusBasis(init, a);
      var b := Fold(init).value;
      MoveChanges(b, last, a);
      if last.asset == a {
        BasisStep(HoldingOf(b, a), last, Cash(init, a), HoldingOf(Fold(rows).value, a));
      }
    }
  }

  /** The quantity and total cost bought of `a`. */
  function Bought(rows: seq<Row>, a: AssetId): real
    decreases |rows|
  {
    if |rows| == 0 then 0.0
    else
      var last := rows[|rows| - 1];
      Bought(rows[..|rows| - 1], a) + (if last.asset == a && last.buy then last.qty else 0.0)
  }

  function Cost(rows: seq<Row>, a: AssetId): real
    decreases |rows|
  {
    if |rows| == 0 then 0.0
    else
      var last := rows[|rows| - 1];
      Cost(rows[..|rows| - 1], a) + (if last.asset == a && last.buy then Paid(last) else 0.0)
  }

  /** What a purchase row pays: quantity times unit price, plus the fee. */
  function Paid(row: Row): real {
    row.qty * row.unitPrice + row.fee
  }

  /** Every row of `a` is a purchase of a positive quantity. */
  predicate OnlyBought(rows: seq<Row>, a: AssetId) {
    forall i :: 0 <= i < |rows| && rows[i].asset == a ==> rows[i].buy && rows[i].qty > 0.0
  }

  lemma BuyStep(h: Holding, q: real, p: real, f: real, bought: real, cost: real)
    requires h.qty == bought >= 0.0 && Basis(h) == cost && h.realized == 0.0 && q > 0.0
    ensures var h' := Buy(h, q, p, f);
      h'.qty == bought + q && Basis(h') == cost + (q * p + f) && h'.realized == 0.0
  {
  }

  /** An asset that has only been bought holds everything bought, at an
      average cost that spreads the total paid (fees included) over it, and
      has realised nothing. */
  lemma {:induction false} BoughtOnlyAverage(rows: seq<Row>, a: AssetId)
    requires Fold(rows).Success? && OnlyBought(rows, a)
    ensures var h := HoldingOf(Fold(rows).value, a);
      h.qty == Bought(rows, a) && Basis(h) == Cost(rows, a) && h.realized == 0.0
    ensures Bought(rows, a) >= 0.0
    decreases |rows|
  {
    if |rows| > 0 {
      var init := rows[..|rows| - 1];
      var last := rows[|rows| - 1];
      OnlyBoughtInit(rows, a);
      FoldLast(rows);
      BoughtOnlyAverage(init, a);
      BoughtMove(Fold(init).value, last, a, Bought(init, a), Cost(init, a));
      BoughtLast(rows, a);
    }
  }

  lemma OnlyBoughtInit(rows: seq<Row>, a: AssetId)
    requires |rows| > 0 && OnlyBought(rows, a)
    ensures OnlyBought(rows[..|rows| - 1], a)
    ensures rows[|rows| - 1].asset == a ==> rows[|rows| - 1].buy && rows[|rows| - 1].qty > 0.0
  {
    var init := rows[..|rows| - 1];
    forall i | 0 <= i < |init| && init[i].asset == a ensures init[i].buy && init[i].qty > 0.0 {
      assert init[i] == rows[i];
    }
  }

  /** A successful fold moved its last row on the book of the others. */
  lemma FoldLast(rows: seq<Row>)
    requires |rows| > 0 && Fold(rows).Success?
    ensures Fold(rows[..|rows| - 1]).Success?
    ensures Move(Fold(rows[..|rows| - 1]).value, rows[|rows| - 1]) == Fold(rows)
  {
  }

  /** Bought quantity and cost grow by the last row when it buys `a`. */
  lemma BoughtLast(rows: seq<Row>, a: AssetId)
    requires |rows| > 0
    ensures var last := rows[|rows| - 1];
      var mine := last.asset == a && last.buy;
      Bought(rows, a) == Bought(rows[..|rows| - 1], a) + (if mine then last.qty else 0.0)
      && Cost(rows, a) == Cost(rows[..|rows| - 1], a) + (if mine then Paid(last) else 0.0)
  {
  }

  /** The bought-only balance across one move: a purchase of `a` adds its
      quantity and what it paid, any other row leaves `a` alone. */
  lemma BoughtMove(b: Book, row: Row, a: AssetId, bought: real, cost: real)
    requires Move(b, row).Success?
    requires var h := HoldingOf(b, a);
      h.qty == bought >= 0.0 && Basis(h) == cost && h.realized == 0.0
    requires row.asset == a ==> row.buy && row.qty > 0.0
    ensures var h' := HoldingOf(Move(b, row).value, a);
      var mine := row.asset == a && row.buy;
      h'.qty == bought + (if mine then row.qty else 0.0)
      && Basis(h') == cost + (if mine then Paid(row) else 0.0)
      && h'.realized == 0.0
      && bought + (if mine then row.qty else 0.0) >= 0.0
  {
    MoveChanges(b, row, a);
    if row.asset == a {
      BuyStep(HoldingOf(b, a), row.qty, row.unitPrice, row.fee, bought, cost);
    }
  }

  /** Selling everything clears the average cost, so the next purchase is
      priced on its own: its total cost over its quantity. */
  lemma EmptiedThenBought(h: Holding, p0: real, f0: real, q: real, p: real, f: real)
    requires q > 0.0
    ensures var e := Sell(h, h.qty, p0, f0);
      e.qty == 0.0 && e.avg == 0.0 && Buy(e, q, p, f).avg == (q * p + f) / q
  {
    var e := Sell(h, h.qty, p0, f0);
    var n := Buy(e, q, p, f);
    assert n.avg * q == q * p + f;
  }

  /** The balance stated on the replay of the log itself. */
  lemma ReplayBalances(txs: seq<Tx>, a: AssetId)
    requires Replay(txs).Success? && BuysPositive(Rows(txs))
    ensures var h := HoldingOf(Replay(txs).value, a);
      h.qty == NetQty(Rows(txs), a) && h.qty >= 0.0
      && h.realized == Cash(Rows(txs), a) + Basis(h)
  {
    ReplayIsFold(txs);
    QtyIsNet(Rows(txs), a);
    RealizedIsCashPlusBasis(Rows(txs), a);
  }

  // ------------------------------------------------------------ sides and fees

  /** The side a row has once anything but "BUY" is read as a sale. */
  function AsSell(tx: Tx): Tx {
    if IsBuy(tx.side) then tx else tx.(side := "SELL")
  }

  function AllAsSell(txs: seq<Tx>): (r: seq<Tx>)
    ensures |r| == |txs|
    ensures forall i :: 0 <= i < |txs| ==> r[i] == AsSell(txs[i])
  {
    seq(|txs|, i requires 0 <= i < |txs| => AsSell(txs[i]))
  }

  /** Any side other than "BUY" ("SELL", "sell", "") sells. */
  lemma {:induction false} OnlyBuyIsBuy(txs: seq<Tx>)
    ensures Replay(AllAsSell(txs)) == Replay(txs)
    decreases |txs|
  {
    if |txs| > 0 {
      var n := |txs| - 1;
      OnlyBuyIsBuy(txs[..n]);
      assert AllAsSell(txs)[..n] == AllAsSell(txs[..n]);
      assert Decode(AsSell(txs[n])) == Decode(txs[n]);
    }
  }

  /** A missing fee costs nothing, like a fee of "0" (the default
      `utils/pnl.py` reads when the key is absent) or of `Decimal(0)`. */
  lemma MissingFeeIsZero(b: Book, tx: Tx)
    ensures Apply(b, tx.(fee := Decimals.PyNone)) == Apply(b, tx.(fee := Decimals.Other("0")))
    ensures Apply(b, tx.(fee := Decimals.PyNone)) == Apply(b, tx.(fee := Decimals.Dec(0.0)))
  {
    LiteralValues();
    WholeNumber("0", 0);
  }

  // ------------------------------------------------------------ the stock check

  const BUY_TEN: Tx := Tx(XAU_G, "BUY", Decimals.Other("10"), Decimals.Other("2000"), Decimals.Other("0"))
  const SELL_ELEVEN: Tx := Tx(XAU_G, "SELL", Decimals.Other("11"), Decimals.Other("2100"), Decimals.Other("0"))

  /** A plain run of digits is read as the integer it spells. */
  lemma WholeNumber(s: string, v: nat)
    requires |s| > 0 && Text.AllDigits(s) && Text.Value(s) == v
    ensures Decimals.D(Decimals.Other(s)) == Some(v as real)
  {
    Text.ParseWhole(s);
  }

  lemma LiteralValues()
    ensures Text.Value("0") == 0 && Text.Value("10") == 10 && Text.Value("11") == 11
    ensures Text.Value("2000") == 2000 && Text.Value("2100") == 2100
  {
    assert "10"[..1] == "1" && "11"[..1] == "1" && "1"[..0] == "" && "0"[..0] == "";
    assert "2000"[..3] == "200" && "200"[..2] == "20" && "20"[..1] == "2" && "2"[..0] == "";
    assert "2100"[..3] == "210" && "210"[..2] == "21" && "21"[..1] == "2";
  }

  /** A row whose three numbers are plain runs of digits. */
  predicate Spelled(x: Decimals.Input, v: nat) {
    x.Other? && |x.text| > 0 && Text.AllDigits(x.text) && Text.Value(x.text) == v
  }

  lemma ReadWholeRow(tx: Tx, q: nat, p: nat, f: nat)
    requires Spelled(tx.qty, q) && Spelled(tx.unitPrice, p) && Spelled(tx.fee, f)
    ensures Decode(tx) == Success(Row(tx.asset, IsBuy(tx.side), q as real, p as real, f as real))
  {
    WholeNumber(tx.qty.text, q);
    WholeNumber(tx.unitPrice.text, p);
    WholeNumber(tx.fee.text, f);
  }

  /** A purchase of ten at 2000 without fee, and a sale of eleven of the
      same asset at 2100 without fee, all written as digits. */
  predicate BuysTen(buy: Tx) {
    IsBuy(buy.side) && Spelled(buy.qty, 10) && Spelled(buy.unitPrice, 2000) && Spelled(buy.fee, 0)
  }

  predicate SellsEleven(buy: Tx, sell: Tx) {
    sell.asset == buy.asset && !IsBuy(sell.side)
    && Spelled(sell.qty, 11) && Spelled(sell.unitPrice, 2100) && Spelled(sell.fee, 0)
  }

  /** Ten bought at 2000 are held at that cost, with nothing realised. */
  lemma BuyTenHeld(buy: Tx)
    requires BuysTen(buy)
    ensures Replay([buy]) == Success(Put(EMPTY_BOOK, buy.asset, Holding(10.0, 2000.0, 0.0)))
    ensures Replay([buy]).value.order == [buy.asset]
  {
    ReadWholeRow(buy, 10, 2000, 0);
    FirstBuy();
  }

  lemma FirstBuy()
    ensures Buy(FLAT, 10.0, 2000.0, 0.0) == Holding(10.0, 2000.0, 0.0)
  {
  }

  /** Selling eleven after that is refused, naming ten available and
      eleven asked. */
  lemma StockBlocksSell(buy: Tx, sell: Tx)
    requires BuysTen(buy) && SellsEleven(buy, sell)
    ensures Replay([buy, sell]) == Failure(Oversold(buy.asset, 10.0, 11.0))
  {
    BuyTenHeld(buy);
    var b := Replay([buy]).value;
    assert HoldingOf(b, sell.asset).qty == 10.0;
    SellElevenRefused(b, sell);
    ReplayPair(buy, sell);
  }

  /** A two-row log applies its second row to the book of the first. */
  lemma ReplayPair(x: Tx, y: Tx)
    requires Replay([x]).Success?
    ensures Replay([x, y]) == Apply(Replay([x]).value, y)
  {
    ReplaySnoc([x], y);
    assert [x] + [y] == [x, y];
  }

  lemma SellElevenRefused(b: Book, sell: Tx)
    requires HoldingOf(b, sell.asset).qty == 10.0 && !IsBuy(sell.side)
    requires Spelled(sell.qty, 11) && Spelled(sell.unitPrice, 2100) && Spelled(sell.fee, 0)
    ensures Apply(b, sell) == Failure(Oversold(sell.asset, 10.0, 11.0))
  {
    ReadWholeRow(sell, 11, 2100, 0);
  }

  /** The log of the repository's stock-check test meets the conditions. */
  lemma StockTestLog()
    ensures BuysTen(BUY_TEN) && SellsEleven(BUY_TEN, SELL_ELEVEN)
  {
    LiteralValues();
  }
}
