/** The trade_results table: one record per BUY lot or per SELL order. */
module TradeRecords {
  import opened Common

  datatype Side = Buy | Sell

  datatype Status = PendingConfirm | Confirmed | ConfirmFailed

  /** The columns that are written once. `context` stands for the ones that are only ever copied
      (name, strategy, AI advice, entry indicators, market). Instants are whole seconds. */
  datatype Origin = Origin(orderId: Option<string>, symbol: string, side: Side, context: string, createdAt: int)

  /** The columns that describe the exit. */
  datatype Exit = Exit(price: real, pnl: real, returnPct: real, isWin: bool, holdDays: int, reason: string,
                       at: Option<int>)

  const NO_EXIT := Exit(0.0, 0.0, 0.0, false, 0, "", None)

  /** The value of one record. */
  datatype Trade = Trade(
    origin: Origin,
    status: Status,
    quantity: int,
    entryPrice: real,
    entryAt: Option<int>,
    exit: Exit)
  {
    predicate Open() { exit.at.None? }
  }

  const SECONDS_PER_DAY := 86400

  /** The record object that a session hands out and the code updates in place. */
  class TradeResult {
    const origin: Origin
    var status: Status
    var quantity: int
    var entryPrice: real
    var entryAt: Option<int>
    var exit: Exit

    function Snapshot(): Trade
      reads this
    {
      Trade(origin, status, quantity, entryPrice, entryAt, exit)
    }

    constructor (t: Trade)
      ensures Snapshot() == t
    {
      origin, status, quantity := t.origin, t.status, t.quantity;
      entryPrice, entryAt, exit := t.entryPrice, t.entryAt, t.exit;
    }
  }

  /** The record objects currently hold exactly these values. */
  ghost predicate Shows(records: seq<TradeResult>, values: seq<Trade>)
    reads records
  {
    && |records| == |values|
    && forall i :: 0 <= i < |records| ==> records[i].Snapshot() == values[i]
  }

  lemma ShowsAppend(r: seq<TradeResult>, v: seq<Trade>, r': seq<TradeResult>, v': seq<Trade>)
    requires Shows(r, v) && Shows(r', v')
    ensures Shows(r + r', v + v')
  {
  }
}
