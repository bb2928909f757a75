/** The transactions on the trade_results table, as functions on its rows. A row is named by its
    position: rows are never deleted. */
module TradeLedger {
  import opened Common
  import opened TradeRecords
  import opened SellFill

  // ----- Queries

  predicate HasOrderId(rows: seq<Trade>, orderId: string) {
    exists i :: 0 <= i < |rows| && rows[i].origin.orderId == Some(orderId)
  }

  predicate OpenBuy(t: Trade, symbol: string) {
    t.origin.symbol == symbol && t.origin.side == Buy && t.Open() && t.status == Confirmed
  }

  /** Order of two rows by entry time; a missing time sorts first. */
  predicate NotAfter(a: Trade, b: Trade) {
    a.entryAt.None? || (b.entryAt.Some? && a.entryAt.value <= b.entryAt.value)
  }

  predicate InRange(ids: seq<nat>, n: nat) { forall k :: 0 <= k < |ids| ==> ids[k] < n }

  /** The ids whose row does (or does not) sort after `t`. */
  function Keep(ids: seq<nat>, rows: seq<Trade>, t: Trade, after: bool): (r: seq<nat>)
    requires InRange(ids, |rows|)
    ensures forall n :: InRange(ids, n) ==> InRange(r, n)
  {
    if ids == [] then []
    else
      assert forall n :: InRange(ids, n) ==> InRange(ids[1..], n);
      (if NotAfter(rows[ids[0]], t) == !after then [ids[0]] else []) + Keep(ids[1..], rows, t, after)
  }

  /** The open BUY lots of a symbol among the first `n` rows, by entry time, ties in row order. */
  function OpenIds(rows: seq<Trade>, n: nat, symbol: string): (ids: seq<nat>)
    requires n <= |rows|
    ensures InRange(ids, n)
  {
    if n == 0 then []
    else
      var ids := OpenIds(rows, n - 1, symbol);
      if OpenBuy(rows[n - 1], symbol) then
        Keep(ids, rows, rows[n - 1], false) + [n - 1] + Keep(ids, rows, rows[n - 1], true)
      else ids
  }

  function At(rows: seq<Trade>, ids: seq<nat>): (lots: seq<Trade>)
    requires InRange(ids, |rows|)
    ensures |lots| == |ids| && forall k :: 0 <= k < |ids| ==> lots[k] == rows[ids[k]]
  {
    seq(|ids|, k requires 0 <= k < |ids| => rows[ids[k]])
  }

  function OpenLots(rows: seq<Trade>, symbol: string): seq<Trade> {
    At(rows, OpenIds(rows, |rows|, symbol))
  }

  // ----- Transactions

  /** The unique index on order_id: an insert that breaks it fails and rolls its transaction back. */
  function Insert(rows: seq<Trade>, t: Trade): seq<Trade> {
    if t.origin.orderId.Some? && HasOrderId(rows, t.origin.orderId.value) then rows else rows + [t]
  }

  function Write(rows: seq<Trade>, ids: seq<nat>, lots: seq<Trade>): (r: seq<Trade>)
    requires |ids| == |lots| && InRange(ids, |rows|)
    ensures |r| == |rows|
    decreases |ids|
  {
    if ids == [] then rows else Write(rows[ids[0] := lots[0]], ids[1..], lots[1..])
  }

  /** A sell fill against the open lots of its symbol. */
  function SellInto(rows: seq<Trade>, sale: Sale, qty: int): seq<Trade> {
    var ids := OpenIds(rows, |rows|, sale.symbol);
    var o := Fill(At(rows, ids), Max(qty, 0), sale);
    Write(rows, ids, o.lots) + o.clones
  }

  /** A confirmed order: what it is, how much was filled, and at what price. */
  datatype Execution = Execution(side: Side, symbol: string, qty: int, price: real, reason: string, context: string,
                                 now: int)

  function ReasonOr(reason: string): string { if reason != "" then reason else "SIGNAL" }

  function CreatePending(rows: seq<Trade>, orderId: string, x: Execution): seq<Trade> {
    if orderId != "" && HasOrderId(rows, orderId) then rows
    else Insert(rows, PendingRow(orderId, x))
  }

  function PendingRow(orderId: string, x: Execution): Trade {
    var origin := Origin(Some(orderId), x.symbol, x.side, x.context, x.now);
    if x.side == Buy then Trade(origin, PendingConfirm, x.qty, x.price, Some(x.now), NO_EXIT)
    else Trade(origin, PendingConfirm, x.qty, 0.0, None, NO_EXIT.(price := x.price, at := Some(x.now)))
  }

  function Record(rows: seq<Trade>, orderId: string, x: Execution): seq<Trade> {
    var origin := Origin(Some(orderId), x.symbol, x.side, x.context, x.now);
    if orderId != "" && HasOrderId(rows, orderId) then rows
    else if x.side == Buy then Insert(rows, Trade(origin, Confirmed, x.qty, x.price, Some(x.now), NO_EXIT))
    else if OpenIds(rows, |rows|, x.symbol) == [] then
      Insert(rows, Trade(origin, Confirmed, x.qty, 0.0, Some(x.now),
                         NO_EXIT.(price := x.price, reason := ReasonOr(x.reason), at := Some(x.now))))
    else SellInto(rows, Sale(x.symbol, x.price, x.reason, x.now), x.qty)
  }

  function ConfirmedRow(t: Trade, x: Execution): Trade {
    if x.side == Buy then
      t.(status := Confirmed, quantity := x.qty, entryPrice := x.price,
         entryAt := if t.entryAt.Some? then t.entryAt else Some(x.now))
    else
      t.(status := Confirmed, quantity := x.qty,
         exit := t.exit.(price := x.price, at := Some(x.now), reason := ReasonOr(x.reason)))
  }

  function Confirm(rows: seq<Trade>, id: nat, x: Execution): seq<Trade> {
    if id >= |rows| then Record(rows, "", x)
    else
      var rows1 := rows[id := ConfirmedRow(rows[id], x)];
      if x.side == Buy then rows1
      else
        var sale := Sale(x.symbol, x.price, x.reason, x.now);
        var report := Summary(Fill(OpenLots(rows1, x.symbol), Max(x.qty, 0), sale), x.qty);
        var rows2 := SellInto(rows1, sale, x.qty);
        rows2[id := rows2[id].(quantity := if report.applied != 0 then report.applied else x.qty)]
  }

  function MarkFailed(rows: seq<Trade>, id: nat): seq<Trade> {
    if id < |rows| && rows[id].status == PendingConfirm then rows[id := rows[id].(status := ConfirmFailed)]
    else rows
  }
}
