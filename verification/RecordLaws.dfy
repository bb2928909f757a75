/** What the records of orders contain, column by column: created, confirmed, recorded, failed. */
module RecordLaws {
  import opened Common
  import opened TradeRecords
  import opened SellFill
  import opened SellFillLaws
  import opened TradeLedger
  import opened LedgerLaws

  // ----- Rows that no query for open lots finds

  /** A row at the end that is no confirmed BUY, or has an exit, changes no query. */
  lemma {:induction false} NewRowUnseen(rows: seq<Trade>, t: Trade, symbol: string)
    requires t.origin.side == Sell || t.status != Confirmed || t.exit.at.Some?
    ensures OpenLots(rows + [t], symbol) == OpenLots(rows, symbol)
  {
    var longer := rows + [t];
    QueriedAlike(rows, longer, |rows|, symbol);
    assert OpenIds(longer, |longer|, symbol) == OpenIds(longer, |rows|, symbol);
  }

  // ----- Create

  /** A pending record: a BUY has an entry and no exit, a SELL an exit and no entry. */
  predicate ShowsPending(t: Trade, orderId: string, x: Execution) {
    && t.origin == Origin(Some(orderId), x.symbol, x.side, x.context, x.now)
    && t.status == PendingConfirm && t.quantity == x.qty
    && (x.side == Buy ==>
          t.entryPrice == x.price && t.entryAt == Some(x.now) && t.exit.at == None && t.exit.price == 0.0)
    && (x.side == Sell ==>
          t.entryPrice == 0.0 && t.entryAt == None && t.exit.at == Some(x.now) && t.exit.price == x.price)
    && t.exit.pnl == 0.0 && t.exit.returnPct == 0.0 && !t.exit.isWin && t.exit.holdDays == 0 && t.exit.reason == ""
  }

  predicate Known(rows: seq<Trade>, orderId: string) {
    exists i :: 0 <= i < |rows| && rows[i].origin.orderId == Some(orderId)
  }

  /** With an order id, the unique index never rejects an insert: the code has looked first. */
  lemma {:induction false} CreateStores(rows: seq<Trade>, orderId: string, x: Execution)
    requires orderId != ""
    ensures var rows' := CreatePending(rows, orderId, x);
            if Known(rows, orderId) then rows' == rows
            else |rows'| == |rows| + 1 && rows <= rows' && ShowsPending(rows'[|rows|], orderId, x)
  {
  }

  /** An order that is not filled yet opens and closes no lot. */
  lemma {:induction false} CreateClosesNothing(rows: seq<Trade>, orderId: string, x: Execution, symbol: string)
    ensures OpenLots(CreatePending(rows, orderId, x), symbol) == OpenLots(rows, symbol)
  {
    NewRowUnseen(rows, PendingRow(orderId, x), symbol);
  }

  // ----- Create, then confirm

  /** A new BUY order, once confirmed, is an open lot of its symbol with the filled quantity and price,
      entered when it was created; the other rows stay as they are. */
  lemma {:induction false} CreatedBuyOpens(rows: seq<Trade>, orderId: string, x: Execution, fill: Execution)
    requires orderId != "" && !Known(rows, orderId)
    requires x.side == fill.side == Buy && x.symbol == fill.symbol
    ensures var after := Confirm(CreatePending(rows, orderId, x), |rows|, fill);
            && |after| == |rows| + 1 && rows <= after
            && |rows| in OpenIds(after, |after|, x.symbol)
            && after[|rows|].quantity == fill.qty && after[|rows|].entryPrice == fill.price
            && after[|rows|].entryAt == Some(x.now) && after[|rows|].origin.orderId == Some(orderId)
  {
    CreateStores(rows, orderId, x);
    var created := CreatePending(rows, orderId, x);
    var after := Confirm(created, |rows|, fill);
    assert forall i :: 0 <= i < |rows| ==> after[i] == created[i] == rows[i];
    OpenIdsMembers(after, |after|, x.symbol);
  }

  /** What the row of a confirmed SELL shows. */
  predicate ShowsSold(t: Trade, x: Execution, applied: int) {
    && t.origin.side == Sell && t.status == Confirmed
    && t.quantity == (if applied != 0 then applied else x.qty)
    && t.exit.price == x.price && t.exit.at == Some(x.now)
    && t.exit.reason == if x.reason == "" then "SIGNAL" else x.reason
  }

  /** A new SELL order, once confirmed, closes what the matching of its fill closes of the lots that were
      open before; its own row is never one of them. */
  lemma {:induction false} CreatedSellCloses(rows: seq<Trade>, orderId: string, x: Execution, fill: Execution)
    requires orderId != "" && !Known(rows, orderId)
    requires x.side == fill.side == Sell && x.symbol == fill.symbol
    ensures var after := Confirm(CreatePending(rows, orderId, x), |rows|, fill);
            var sale := Sale(fill.symbol, fill.price, fill.reason, fill.now);
            && |after| > |rows|
            && SoldBut(rows + [after[|rows|]], after, |rows|, Max(fill.qty, 0), sale)
            && ShowsSold(after[|rows|], fill, Min(Max(fill.qty, 0), TotalSellable(OpenLots(rows, x.symbol))))
  {
    CreateStores(rows, orderId, x);
    var created := CreatePending(rows, orderId, x);
    CreateClosesNothing(rows, orderId, x, x.symbol);
    ConfirmedSaleRows(created, |rows|, fill);
    var after := Confirm(created, |rows|, fill);
    SoldButRow(created, rows + [after[|rows|]], after, |rows|, Max(fill.qty, 0),
               Sale(fill.symbol, fill.price, fill.reason, fill.now));
  }

  // ----- A sale on the whole table

  /** `after` is `rows` with `qty` shares sold from the open lots of the symbol, first in, first out:
      every lot by its share, one record split off at most, no other row changed. Row `skip` is left out. */
  ghost predicate SoldBut(rows: seq<Trade>, after: seq<Trade>, skip: int, qty: int, sale: Sale) {
    var ids := OpenIds(rows, |rows|, sale.symbol);
    var lots := At(rows, ids);
    && |rows| <= |after| <= |rows| + 1
    && (forall k :: 0 <= k < |ids| && ids[k] != skip ==> AfterShare(lots[k], after[ids[k]], Share(lots, qty, k), sale))
    && (forall i: nat :: i < |rows| && i != skip && i !in ids ==> after[i] == rows[i])
    && (|after| == |rows| ==> NoSplit(lots, qty))
    && (|after| > |rows| ==> SplitsSomewhere(lots, qty, sale, after[|rows|]))
  }

  lemma {:induction false} SaleRows(rows: seq<Trade>, sale: Sale, qty: int)
    ensures SoldBut(rows, SellInto(rows, sale, qty), -1, Max(qty, 0), sale)
  {
    var ids := OpenIds(rows, |rows|, sale.symbol);
    var lots := At(rows, ids);
    SellIntoRows(rows, sale, qty);
    OneSplit(lots, Max(qty, 0), sale);
    forall k | 0 <= k < |ids|
      ensures AfterShare(lots[k], SellInto(rows, sale, qty)[ids[k]], Share(lots, Max(qty, 0), k), sale)
    {
      ClosedForm(lots, Max(qty, 0), sale, k);
    }
  }

  /** The row that is left out may be any SELL row. */
  lemma {:induction false} SoldButRow(rows: seq<Trade>, rows': seq<Trade>, after: seq<Trade>, id: nat, qty: int,
                                      sale: Sale)
    requires id < |rows| && rows[id].origin.side == Sell && SoldBut(rows, after, id, qty, sale)
    requires |rows'| == |rows| && rows'[id].origin.side == Sell && rows'[id].entryAt == rows[id].entryAt
    requires forall i :: 0 <= i < |rows| && i != id ==> rows'[i] == rows[i]
    ensures SoldBut(rows', after, id, qty, sale)
  {
    QueriedAlike(rows, rows', |rows|, sale.symbol);
    OpenIdsMembers(rows, |rows|, sale.symbol);
    var ids := OpenIds(rows, |rows|, sale.symbol);
    forall k | 0 <= k < |ids| ensures rows'[ids[k]] == rows[ids[k]] { assert ids[k] in ids; }
    assert At(rows', ids) == At(rows, ids);
  }

  // ----- Confirm

  /** Confirming a SELL row: the lots by their shares, and the row itself. */
  lemma {:induction false} ConfirmedSaleRows(rows: seq<Trade>, id: nat, x: Execution)
    requires id < |rows| && rows[id].origin.side == Sell && x.side == Sell
    ensures var after := Confirm(rows, id, x);
            && SoldBut(rows, after, id, Max(x.qty, 0), Sale(x.symbol, x.price, x.reason, x.now))
            && id < |after| && after[id].origin == rows[id].origin && after[id].entryAt == rows[id].entryAt
            && ShowsSold(after[id], x, Min(Max(x.qty, 0), TotalSellable(OpenLots(rows, x.symbol))))
  {
    var sale := Sale(x.symbol, x.price, x.reason, x.now);
    var rows1 := rows[id := ConfirmedRow(rows[id], x)];
    SaleRows(rows1, sale, x.qty);
    SellIntoRows(rows1, sale, x.qty);
    OpenIdsMembers(rows1, |rows1|, sale.symbol);
    SellRowUnseen(rows, id, ConfirmedRow(rows[id], x), x.symbol);
    AppliedQuantity(OpenLots(rows, x.symbol), x.qty, sale);
    var after := Confirm(rows, id, x);
    SoldButSkip(rows1, SellInto(rows1, sale, x.qty), after, id, Max(x.qty, 0), sale);
    SoldButRow(rows1, rows, after, id, Max(x.qty, 0), sale);
  }

  lemma {:induction false} SoldButSkip(rows: seq<Trade>, sold: seq<Trade>, after: seq<Trade>, id: nat, qty: int,
                                       sale: Sale)
    requires id < |rows| && SoldBut(rows, sold, -1, qty, sale) && |after| == |sold|
    requires forall i :: 0 <= i < |sold| && i != id ==> after[i] == sold[i]
    ensures SoldBut(rows, after, id, qty, sale)
  {
  }

  // ----- Record

  /** A fill recorded without a pending row: a BUY is an open lot at once. */
  lemma {:induction false} RecordedBuy(rows: seq<Trade>, orderId: string, x: Execution)
    requires x.side == Buy && !Known(rows, orderId)
    ensures var after := Record(rows, orderId, x);
            && |after| == |rows| + 1 && rows <= after
            && |rows| in OpenIds(after, |after|, x.symbol)
            && after[|rows|].origin == Origin(Some(orderId), x.symbol, Buy, x.context, x.now)
            && after[|rows|].quantity == x.qty && after[|rows|].entryPrice == x.price
            && after[|rows|].entryAt == Some(x.now)
  {
    var after := Record(rows, orderId, x);
    OpenIdsMembers(after, |after|, x.symbol);
  }

  /** A SELL sells from the open lots; without any, a closed row of its own keeps the fill. */
  lemma {:induction false} RecordedSell(rows: seq<Trade>, orderId: string, x: Execution)
    requires x.side == Sell && !Known(rows, orderId)
    ensures var after := Record(rows, orderId, x);
            if OpenLots(rows, x.symbol) != [] then
              SoldBut(rows, after, -1, Max(x.qty, 0), Sale(x.symbol, x.price, x.reason, x.now))
            else
              && |after| == |rows| + 1 && rows <= after
              && after[|rows|].origin == Origin(Some(orderId), x.symbol, Sell, x.context, x.now)
              && after[|rows|].quantity == x.qty && after[|rows|].entryPrice == 0.0
              && after[|rows|].entryAt == Some(x.now) && ShowsSold(after[|rows|], x, x.qty)
  {
    SaleRows(rows, Sale(x.symbol, x.price, x.reason, x.now), x.qty);
  }

  /** A known order id is not recorded again. */
  lemma {:induction false} RecordedOnce(rows: seq<Trade>, orderId: string, x: Execution)
    requires orderId != "" && Known(rows, orderId)
    ensures Record(rows, orderId, x) == rows
  {
  }

  // ----- Fail

  /** Exactly a row that is still pending becomes CONFIRM_FAILED, and nothing else of it changes. */
  lemma {:induction false} FailedOnly(rows: seq<Trade>, id: nat)
    ensures var after := MarkFailed(rows, id);
            && |after| == |rows|
            && forall i :: 0 <= i < |rows| ==>
                 if i == id && rows[i].status == PendingConfirm then after[i] == rows[i].(status := ConfirmFailed)
                 else after[i] == rows[i]
  {
  }
}
