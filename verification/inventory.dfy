/** The weighted-average-cost fold shared by `compute_inventory_and_pnl`
    (`app.py`) and `compute_inventory_wavg` (`utils/pnl.py`): transactions
    are replayed in order into a per-asset holding of quantity, average
    cost and realised profit, and the replay stops at the first sale of
    more than is held. */
module Inventory {
  import opened Wrappers
  import Decimals
  import opened Assets

  /** A row of the transaction log. The numeric fields are whatever the
      log holds, read with `D`; a missing fee is `PyNone`. */
  datatype Tx = Tx(asset: AssetId, side: string, qty: Decimals.Input, unitPrice: Decimals.Input, fee: Decimals.Input)

  /** `{"qty", "avg", "realized"}` of one asset (`InventoryRow` in
      `utils/pnl.py`). */
  datatype Holding = Holding(qty: real, avg: real, realized: real)

  /** The state of an asset with no transactions yet. */
  const FLAT: Holding := Holding(0.0, 0.0, 0.0)

  /** Why a replay stops: `D` could not read a field (`InvalidOperation`),
      or a sale asked for more than was held (`ValueError`). */
  datatype InvError =
    | BadNumber(text: string)
    | Oversold(asset: AssetId, available: real, requested: real)

  /** The `state` dict: its keys in insertion order, and the holdings. */
  datatype Book = Book(order: seq<AssetId>, state: map<AssetId, Holding>)

  const EMPTY_BOOK: Book := Book([], map[])

  /** Only the exact side "BUY" buys; every other side sells. */
  predicate IsBuy(side: string) {
    side == "BUY"
  }

  /** `D(x)`, raising on text that is not a number. */
  function Number(x: Decimals.Input): (r: Result<real, InvError>)
    ensures r.Success? <==> Decimals.D(x).Some?
    ensures r.Success? ==> r.value == Decimals.D(x).value
    ensures r.Failure? ==> x.Other? && r.error == BadNumber(x.text)
  {
    match Decimals.D(x)
    case Some(v) => Success(v)
    case None => Failure(BadNumber(if x.Other? then x.text else ""))
  }

  /** A purchase of `q` at `p` with fee `f`: the cost of the position grows
      by what was paid, unless the position does not end up long. */
  function Buy(h: Holding, q: real, p: real, f: real): (r: Holding)
    ensures r.qty == h.qty + q && r.realized == h.realized
    ensures r.qty > 0.0 ==> r.avg * r.qty == h.avg * h.qty + q * p + f
    ensures r.qty <= 0.0 ==> r.avg == h.avg
  {
    var n := h.qty + q;
    if n > 0.0 then Holding(n, (h.avg * h.qty + q * p + f) / n, h.realized)
    else Holding(n, h.avg, h.realized)
  }

  /** A sale of `q` at `p` with fee `f` out of at least `q` held: the net
      proceeds less the average cost of what was sold is realised; an
      emptied position forgets its average cost. */
  function Sell(h: Holding, q: real, p: real, f: real): (r: Holding)
    requires q <= h.qty
    ensures r.qty == h.qty - q && r.qty >= 0.0
    ensures r.realized - h.realized == (q * p - f) - q * h.avg
    ensures r.qty == 0.0 ==> r.avg == 0.0
    ensures r.qty != 0.0 ==> r.avg == h.avg
  {
    var n := h.qty - q;
    Holding(n, if n == 0.0 then 0.0 else h.avg, h.realized + ((q * p - f) - q * h.avg))
  }

  /** One transaction on one holding; `None` for an oversell. */
  function Step(h: Holding, buy: bool, q: real, p: real, f: real): (r: Option<Holding>)
    ensures r.None? <==> !buy && q > h.qty
    ensures buy ==> r == Some(Buy(h, q, p, f))
    ensures !buy && q <= h.qty ==> r == Some(Sell(h, q, p, f))
  {
    if buy then Some(Buy(h, q, p, f))
    else if q > h.qty then None
    else Some(Sell(h, q, p, f))
  }

  /** `state.get(asset, <flat>)`. */
  function HoldingOf(b: Book, a: AssetId): Holding {
    if a in b.state then b.state[a] else FLAT
  }

  /** The order lists each key of the state exactly once. */
  predicate WellFormed(b: Book) {
    (forall i, j :: 0 <= i < j < |b.order| ==> b.order[i] != b.order[j])
    && (forall a :: a in b.state ==> a in b.order)
    && (forall i :: 0 <= i < |b.order| ==> b.order[i] in b.state)
  }

  /** `state[asset] = h`: a new key goes to the end of the order, an
      existing one keeps its place. */
  function Put(b: Book, a: AssetId, h: Holding): (r: Book)
    ensures HoldingOf(r, a) == h
    ensures forall x :: x != a ==> HoldingOf(r, x) == HoldingOf(b, x)
    ensures r.order == if a in b.state then b.order else b.order + [a]
    ensures WellFormed(b) ==> WellFormed(r)
  {
    if a in b.state then Book(b.order, b.state[a := h])
    else Book(b.order + [a], b.state[a := h])
  }

  /** A row with its numbers read: whether it buys, and quantity, unit
      price and fee. */
  datatype Row = Row(asset: AssetId, buy: bool, qty: real, unitPrice: real, fee: real)

  /** All three numeric fields of a row read as numbers. */
  predicate Decoded(tx: Tx) {
    Decimals.D(tx.qty).Some? && Decimals.D(tx.unitPrice).Some? && Decimals.D(tx.fee).Some?
  }

  function Qty(tx: Tx): real {
    Decimals.D(tx.qty).GetOr(0.0)
  }

  function Price(tx: Tx): real {
    Decimals.D(tx.unitPrice).GetOr(0.0)
  }

  function Fee(tx: Tx): real {
    Decimals.D(tx.fee).GetOr(0.0)
  }

  /** Reading quantity, unit price and fee, in that order; the first field
      that is not a number stops the replay. */
  function Decode(tx: Tx): (r: Result<Row, InvError>)
    ensures r.Success? <==> Decoded(tx)
    ensures r.Success? ==> r.value == Row(tx.asset, IsBuy(tx.side), Qty(tx), Price(tx), Fee(tx))
    ensures r.Failure? ==> r.error == BadNumber(
      if Decimals.D(tx.qty).None? then tx.qty.text
      else if Decimals.D(tx.unitPrice).None? then tx.unitPrice.text
      else tx.fee.text)
  {
    var q :- Number(tx.qty);
    var p :- Number(tx.unitPrice);
    var f :- Number(tx.fee);
    Success(Row(tx.asset, IsBuy(tx.side), q, p, f))
  }

  /** The buy or sell of one decoded row on the book. */
  function Move(b: Book, row: Row): (r: Result<Book, InvError>)
    ensures r.Success? <==> row.buy || row.qty <= HoldingOf(b, row.asset).qty
    ensures r.Success? ==> r.value == Put(b, row.asset, Step(HoldingOf(b, row.asset), row.buy, row.qty, row.unitPrice, row.fee).value)
    ensures r.Failure? ==> r.error == Oversold(row.asset, HoldingOf(b, row.asset).qty, row.qty)
  {
    var h := HoldingOf(b, row.asset);
    match Step(h, row.buy, row.qty, row.unitPrice, row.fee)
    case None => Failure(Oversold(row.asset, h.qty, row.qty))
    case Some(h') => Success(Put(b, row.asset, h'))
  }

  /** The body of the replay loop for one row. */
  function Apply(b: Book, tx: Tx): (r: Result<Book, InvError>)
    ensures r.Success? <==> Decoded(tx) && (IsBuy(tx.side) || Qty(tx) <= HoldingOf(b, tx.asset).qty)
    ensures Decoded(tx) ==> r == Move(b, Decode(tx).value)
    ensures !Decoded(tx) ==> r == Failure(Decode(tx).error)
  {
    var row :- Decode(tx);
    Move(b, row)
  }

  /** The loop `for r in transactions`: the book after every row, or the
      first failure. */
  function Replay(txs: seq<Tx>): (r: Result<Book, InvError>)
    ensures r.Success? ==> WellFormed(r.value)
    decreases |txs|
  {
    if |txs| == 0 then Success(EMPTY_BOOK)
    else
      var b :- Replay(txs[..|txs| - 1]);
      Apply(b, txs[|txs| - 1])
  }

  /** The assets a log names, each once, in the order of their first row:
      the order in which the loop's `state[asset] = row` inserts keys. */
  function FirstSeen(txs: seq<Tx>): (r: seq<AssetId>)
    ensures forall x :: x in r <==> exists i :: 0 <= i < |txs| && txs[i].asset == x
    ensures forall i, j :: 0 <= i < j < |r| ==> r[i] != r[j]
    decreases |txs|
  {
    if |txs| == 0 then []
    else
      var seen := FirstSeen(txs[..|txs| - 1]);
      var a := txs[|txs| - 1].asset;
      assert forall i :: 0 <= i < |txs| - 1 ==> txs[..|txs| - 1][i] == txs[i];
      if a in seen then seen else seen + [a]
  }
}
