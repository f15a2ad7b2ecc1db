/** The "save transaction" button of `app.py`: the form's quantity, fee and
    price are read and checked, and the new row is accepted only when the
    transaction log with that row appended still replays without an
    oversell. */
module SaveCheck {
  import opened Wrappers
  import Decimals
  import opened Assets
  import opened Inventory
  import InventoryLaws

  /** What the form holds when the button is pressed: the chosen asset and
      side, the quantity and fee texts, the auto-price toggle and the
      manual unit price text. */
  datatype Form = Form(asset: AssetId, side: string, qty: string, fee: string, auto: bool, manualPrice: string)

  /** Why a save is refused; each is shown as "Kayıt hatası". */
  datatype Refusal =
    | Unreadable(text: string)      // `D` raised `InvalidOperation`
    | QtyOrFee                      // quantity not positive, or fee negative
    | NoPrice                       // auto price, but no positive price for the asset
    | PriceNotPositive              // manual price not positive
    | Stock(why: InvError)          // the simulated replay raised

  /** `D` of a form text. */
  function Read(text: string): Option<real> {
    Decimals.D(Decimals.Other(text))
  }

  /** `price_map.get(asset)` when the toggle is on, `D(unit_price_manual)`
      otherwise, with the positivity check of each branch. */
  function UnitPrice(f: Form, prices: map<AssetId, real>): (r: Result<real, Refusal>)
    ensures r.Success? ==> r.value > 0.0
    ensures f.auto ==> (r.Success? <==> f.asset in prices && prices[f.asset] > 0.0)
    ensures f.auto && r.Success? ==> r.value == prices[f.asset]
    ensures f.auto && r.Failure? ==> r.error == NoPrice
    ensures !f.auto ==> (r.Success? <==> Read(f.manualPrice).Some? && Read(f.manualPrice).value > 0.0)
    ensures !f.auto && r.Success? ==> r.value == Read(f.manualPrice).value
    ensures !f.auto && r.Failure? ==>
      r.error == (if Read(f.manualPrice).None? then Unreadable(f.manualPrice) else PriceNotPositive)
  {
    if f.auto then
      if f.asset !in prices || prices[f.asset] <= 0.0 then Failure(NoPrice)
      else Success(prices[f.asset])
    else
      match Read(f.manualPrice)
      case None => Failure(Unreadable(f.manualPrice))
      case Some(p) => if p <= 0.0 then Failure(PriceNotPositive) else Success(p)
  }

  /** The row the form would add, its numbers already `Decimal`s. */
  function Candidate(f: Form, q: real, p: real, fee: real): Tx {
    Tx(f.asset, f.side, Decimals.Dec(q), Decimals.Dec(p), Decimals.Dec(fee))
  }

  /** The quantity and fee texts read, the quantity positive and the fee
      not negative. */
  predicate Sized(f: Form) {
    Read(f.qty).Some? && Read(f.fee).Some? && Read(f.qty).value > 0.0 && Read(f.fee).value >= 0.0
  }

  /** The checks in the order `app.py` makes them; the accepted row is what
      `insert_tx` stores. */
  function Check(log: seq<Tx>, prices: map<AssetId, real>, f: Form): (r: Result<Tx, Refusal>)
    ensures r.Success? <==>
      (Sized(f) && UnitPrice(f, prices).Success?
       && Replay(log + [Candidate(f, Read(f.qty).value, UnitPrice(f, prices).value, Read(f.fee).value)]).Success?)
    ensures r.Success? ==> r.value == Candidate(f, Read(f.qty).value, UnitPrice(f, prices).value, Read(f.fee).value)
    ensures Read(f.qty).None? ==> r == Failure(Unreadable(f.qty))
    ensures Read(f.qty).Some? && Read(f.fee).None? ==> r == Failure(Unreadable(f.fee))
    ensures Read(f.qty).Some? && Read(f.fee).Some? && !Sized(f) ==> r == Failure(QtyOrFee)
    ensures Sized(f) && UnitPrice(f, prices).Failure? ==> r == Failure(UnitPrice(f, prices).error)
  {
    match Read(f.qty)
    case None => Failure(Unreadable(f.qty))
    case Some(q) =>
      match Read(f.fee)
      case None => Failure(Unreadable(f.fee))
      case Some(fee) =>
        if q <= 0.0 || fee < 0.0 then Failure(QtyOrFee)
        else
          match UnitPrice(f, prices)
          case Failure(e) => Failure(e)
          case Success(p) =>
            var tx := Candidate(f, q, p, fee);
            match Replay(log + [tx])
            case Failure(e) => Failure(Stock(e))
            case Success(_) => Success(tx)
  }

  /** A candidate row always decodes to the numbers it was built from. */
  lemma CandidateDecodes(f: Form, q: real, p: real, fee: real)
    ensures Decoded(Candidate(f, q, p, fee))
    ensures Decode(Candidate(f, q, p, fee)) == Success(Row(f.asset, IsBuy(f.side), q, p, fee))
  {
  }

  /** The stock check only looks at the book the log already builds: with a
      replayable log, the row is refused for stock exactly when it sells
      more than is held. */
  lemma StockRefusesOnlyOversell(log: seq<Tx>, prices: map<AssetId, real>, f: Form)
    requires Replay(log).Success?
    requires Sized(f) && UnitPrice(f, prices).Success?
    ensures Check(log, prices, f).Success?
      <==> IsBuy(f.side) || Read(f.qty).value <= HoldingOf(Replay(log).value, f.asset).qty
    ensures Check(log, prices, f).Failure? ==>
      Check(log, prices, f).error == Stock(Oversold(f.asset, HoldingOf(Replay(log).value, f.asset).qty, Read(f.qty).value))
  {
    var q, p, fee := Read(f.qty).value, UnitPrice(f, prices).value, Read(f.fee).value;
    var tx := Candidate(f, q, p, fee);
    var b := Replay(log).value;
    CheckIsReplay(log, prices, f);
    InventoryLaws.ReplaySnoc(log, tx);
    CandidateDecodes(f, q, p, fee);
    assert Replay(log + [tx]) == Move(b, Row(f.asset, IsBuy(f.side), q, p, fee));
  }

  /** With the form read and priced, the check is the replay of the log
      with the candidate row appended. */
  lemma CheckIsReplay(log: seq<Tx>, prices: map<AssetId, real>, f: Form)
    requires Sized(f) && UnitPrice(f, prices).Success?
    ensures var tx := Candidate(f, Read(f.qty).value, UnitPrice(f, prices).value, Read(f.fee).value);
      Check(log, prices, f) == if Replay(log + [tx]).Success? then Success(tx) else Failure(Stock(Replay(log + [tx]).error))
  {
  }

  /** A well-formed purchase on a replayable log is always saved. */
  lemma BuyIsSaved(log: seq<Tx>, prices: map<AssetId, real>, f: Form)
    requires Replay(log).Success?
    requires Sized(f) && UnitPrice(f, prices).Success? && IsBuy(f.side)
    ensures Check(log, prices, f).Success?
  {
    StockRefusesOnlyOversell(log, prices, f);
  }

  /** A log that no longer replays refuses every row that passes the input
      checks, with the log's own error. */
  lemma BrokenLogRefusesAll(log: seq<Tx>, prices: map<AssetId, real>, f: Form)
    requires Replay(log).Failure?
    requires Sized(f) && UnitPrice(f, prices).Success?
    ensures Check(log, prices, f) == Failure(Stock(Replay(log).error))
  {
    var tx := Candidate(f, Read(f.qty).value, UnitPrice(f, prices).value, Read(f.fee).value);
    InventoryLaws.ReplayKeepsFailure(log, tx);
  }

  /** A saved row keeps the log replayable, and the saved row is the only
      change: every other asset's holding is what it was. */
  lemma SavedKeepsOthers(log: seq<Tx>, prices: map<AssetId, real>, f: Form, a: AssetId)
    requires Check(log, prices, f).Success?
    requires a != f.asset
    ensures Replay(log).Success?
    ensures Replay(log + [Check(log, prices, f).value]).Success?
    ensures HoldingOf(Replay(log + [Check(log, prices, f).value]).value, a) == HoldingOf(Replay(log).value, a)
  {
    var tx := Check(log, prices, f).value;
    InventoryLaws.ReplaySnoc(log, tx);
    CandidateDecodes(f, Read(f.qty).value, UnitPrice(f, prices).value, Read(f.fee).value);
  }
}
