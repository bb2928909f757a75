/** What becomes of one pending record in a recovery, written out case by case. */
module RecoveryRules {
  import opened Common
  import opened Symbols
  import opened TradeRecords
  import opened SellFill
  import opened SellFillLaws
  import opened TradeLedger
  import opened LedgerLaws
  import opened RecordLaws
  import opened Reconciliation
  import opened Recovery

  /** `order` is what the broker says of the order `orderId`: the last entry with that id. */
  ghost predicate LastOrder(orders: seq<BrokerOrder>, orderId: string, order: BrokerOrder) {
    exists i :: 0 <= i < |orders| && orders[i] == order && order.orderId == orderId
                && forall j :: i < j < |orders| ==> orders[j].orderId != orderId
  }

  ghost predicate NoOrder(orders: seq<BrokerOrder>, orderId: string) {
    forall i :: 0 <= i < |orders| ==> orders[i].orderId != orderId
  }

  predicate HoldingOf(h: Holding, symbol: string) { h.quantity > 0 && Normalize(h.symbol) == symbol }

  /** `h` is the holding of the share: the last one with a positive quantity. */
  ghost predicate LastHolding(holdings: seq<Holding>, symbol: string, h: Holding) {
    exists i :: 0 <= i < |holdings| && holdings[i] == h && HoldingOf(h, symbol)
                && forall j :: i < j < |holdings| ==> !HoldingOf(holdings[j], symbol)
  }

  ghost predicate NoHolding(holdings: seq<Holding>, symbol: string) {
    forall i :: 0 <= i < |holdings| ==> !HoldingOf(holdings[i], symbol)
  }

  lemma {:induction false} OrderLookup(orders: seq<BrokerOrder>, s: string)
    requires s != ""
    ensures NoOrder(orders, s) <==> s !in BrokerById(orders)
    ensures forall order :: LastOrder(orders, s, order) ==> s in BrokerById(orders) && BrokerById(orders)[s] == order
  {
    if orders == [] {
    } else {
      var n := |orders| - 1;
      OrderLookup(orders[..n], s);
      if orders[n].orderId == s {
        forall order | LastOrder(orders, s, order) ensures order == orders[n] {
        }
      } else {
        forall order | LastOrder(orders, s, order) ensures LastOrder(orders[..n], s, order) {
          var i :| 0 <= i < |orders| && orders[i] == order && order.orderId == s
                   && forall j :: i < j < |orders| ==> orders[j].orderId != s;
          assert orders[..n][i] == order;
        }
        assert NoOrder(orders, s) <==> NoOrder(orders[..n], s);
      }
    }
  }

  lemma {:induction false} HoldingLookup(holdings: seq<Holding>, s: string)
    ensures NoHolding(holdings, s) <==> s !in HoldingBySymbol(holdings)
    ensures forall h :: LastHolding(holdings, s, h)
              ==> s in HoldingBySymbol(holdings) && HoldingBySymbol(holdings)[s] == h
  {
    if holdings == [] {
    } else {
      var n := |holdings| - 1;
      HoldingLookup(holdings[..n], s);
      forall h | LastHolding(holdings, s, h)
        ensures if HoldingOf(holdings[n], s) then h == holdings[n] else LastHolding(holdings[..n], s, h)
      {
        LastOrEarlier(holdings, s, h);
      }
      assert NoHolding(holdings, s) <==> NoHolding(holdings[..n], s) && !HoldingOf(holdings[n], s);
    }
  }

  lemma {:induction false} LastOrEarlier(holdings: seq<Holding>, s: string, h: Holding)
    requires holdings != [] && LastHolding(holdings, s, h)
    ensures var n := |holdings| - 1;
            if HoldingOf(holdings[n], s) then h == holdings[n] else LastHolding(holdings[..n], s, h)
  {
    var n := |holdings| - 1;
    var i :| 0 <= i < |holdings| && holdings[i] == h && HoldingOf(h, s)
             && forall j :: i < j < |holdings| ==> !HoldingOf(holdings[j], s);
    assert i < n ==> holdings[..n][i] == h;
  }

  /** Only row `id` changed, and it is now `t`. */
  predicate NowIs(rows: seq<Trade>, after: seq<Trade>, id: nat, t: Trade) {
    && |after| == |rows| && id < |rows| && after[id] == t
    && forall i :: 0 <= i < |rows| && i != id ==> after[i] == rows[i]
  }

  /** The order is among the broker's orders: a positive fill confirms the record with the filled quantity,
      and with the order's price if there is one; without a fill it fails, or waits with KIWOOM. */
  lemma {:induction false} FoundOutcome(rows: seq<Trade>, id: nat, a: Answers, orderId: string, order: BrokerOrder)
    requires id < |rows| && rows[id].origin.orderId == Some(orderId) && orderId != ""
    requires LastOrder(a.orders, orderId, order)
    ensures var t, after := rows[id], RecoverRow(rows, id, a);
            if order.filledQty > 0 then
              NowIs(rows, after, id, t.(status := Confirmed, quantity := order.filledQty,
                entryPrice := if order.price > 0.0 && t.origin.side == Buy then order.price else t.entryPrice,
                exit := t.exit.(price :=
                  if order.price > 0.0 && t.origin.side == Sell then order.price else t.exit.price)))
            else if a.kiwoom then after == rows
            else NowIs(rows, after, id, t.(status := ConfirmFailed))
  {
    OrderLookup(a.orders, orderId);
  }

  /** A BUY without a trace: confirmed with the smaller of holding and order, and with the average price if
      it has none; without a holding it fails, or waits with KIWOOM. */
  lemma {:induction false} UntracedBuyOutcome(rows: seq<Trade>, id: nat, a: Answers, orderId: string,
                                              h: Option<Holding>)
    requires id < |rows| && rows[id].origin.orderId == Some(orderId) && orderId != "" && rows[id].origin.side == Buy
    requires NoOrder(a.orders, orderId)
    requires var symbol := Normalize(rows[id].origin.symbol);
             if h == None then NoHolding(a.holdings, symbol) else LastHolding(a.holdings, symbol, h.value)
    ensures var t, after := rows[id], RecoverRow(rows, id, a);
            if h.Some? && t.quantity >= 0 then
              NowIs(rows, after, id, t.(status := Confirmed,
                quantity := if 0 < t.quantity < h.value.quantity then t.quantity else h.value.quantity,
                entryPrice := if t.entryPrice <= 0.0 && h.value.avgPrice > 0.0 then h.value.avgPrice else t.entryPrice))
            else if a.kiwoom then after == rows
            else NowIs(rows, after, id, t.(status := ConfirmFailed))
  {
    OrderLookup(a.orders, orderId);
    HoldingLookup(a.holdings, Normalize(rows[id].origin.symbol));
  }

  /** `sold` shares were sold from the open lots at the exit price of SELL row `id`, which shows that. */
  ghost predicate SettledFromHolding(rows: seq<Trade>, after: seq<Trade>, id: nat, sold: int, now: int)
    requires id < |rows|
  {
    var t := rows[id];
    var sale := Sale(Normalize(t.origin.symbol), t.exit.price, if t.exit.reason == "" then "SIGNAL" else t.exit.reason,
                     if t.exit.at.Some? then t.exit.at.value else now);
    && SoldBut(rows, after, id, sold, sale)
    && id < |after|
    && after[id] == t.(status := Confirmed, quantity := sold,
                       exit := t.exit.(at := Some(sale.at), reason := sale.reason))
  }

  /** A SELL without a trace: with KIWOOM, and less held than is open, the difference is sold from the open
      lots at the record's exit price, unless that is more than was ordered; in all other cases it fails. */
  lemma {:induction false} UntracedSellOutcome(rows: seq<Trade>, id: nat, a: Answers, orderId: string, held: int)
    requires id < |rows| && rows[id].origin.orderId == Some(orderId) && orderId != "" && rows[id].origin.side == Sell
    requires NoOrder(a.orders, orderId)
    requires var symbol := Normalize(rows[id].origin.symbol);
             if held == 0 then NoHolding(a.holdings, symbol)
             else exists h :: LastHolding(a.holdings, symbol, h) && h.quantity == held
    ensures var t, after, symbol := rows[id], RecoverRow(rows, id, a), Normalize(rows[id].origin.symbol);
            var open := OpenQuantity(OpenLots(rows, symbol));
            if a.kiwoom && open > 0 && held < open then
              if t.quantity > 0 && open - held > t.quantity then after == rows
              else SettledFromHolding(rows, after, id, open - held, a.now)
            else NowIs(rows, after, id, t.(status := ConfirmFailed))
  {
    UntracedSellVerdict(rows, id, a, orderId, held);
    match Judge(rows, rows[id], a) {
      case SoldDown(_) => SoldDownRows(rows, id, a);
      case _ => NotSold(rows, id, a);
    }
  }

  lemma {:induction false} NotSold(rows: seq<Trade>, id: nat, a: Answers)
    requires id < |rows|
    ensures Judge(rows, rows[id], a) == Wait ==> RecoverRow(rows, id, a) == rows
    ensures Judge(rows, rows[id], a) == Fail ==>
              NowIs(rows, RecoverRow(rows, id, a), id, rows[id].(status := ConfirmFailed))
  {
  }

  lemma {:induction false} UntracedSellVerdict(rows: seq<Trade>, id: nat, a: Answers, orderId: string, held: int)
    requires id < |rows| && rows[id].origin.orderId == Some(orderId) && orderId != "" && rows[id].origin.side == Sell
    requires NoOrder(a.orders, orderId)
    requires var symbol := Normalize(rows[id].origin.symbol);
             if held == 0 then NoHolding(a.holdings, symbol)
             else exists h :: LastHolding(a.holdings, symbol, h) && h.quantity == held
    ensures var open := OpenQuantity(OpenLots(rows, Normalize(rows[id].origin.symbol)));
            held >= 0 && Judge(rows, rows[id], a) == JudgeSell(open, rows[id].quantity, held, a.kiwoom)
  {
    var symbol := Normalize(rows[id].origin.symbol);
    OrderLookup(a.orders, orderId);
    HoldingLookup(a.holdings, symbol);
    assert HeldOf(a, symbol) == held;
  }

  /** A SELL settled from the holding: the lots by their shares, and its own row. */
  lemma {:induction false} SoldDownRows(rows: seq<Trade>, id: nat, a: Answers)
    requires id < |rows| && rows[id].origin.side == Sell && Judge(rows, rows[id], a).SoldDown?
    requires Judge(rows, rows[id], a).qty > 0
    ensures SettledFromHolding(rows, RecoverRow(rows, id, a), id, Judge(rows, rows[id], a).qty, a.now)
  {
    var t := rows[id];
    var v, sale := Judge(rows, t, a), SaleBehind(t, a.now);
    var rows1 := rows[id := Settled(t, v, a.now)];
    var after := SellInto(rows1, sale, v.qty);
    SaleRows(rows1, sale, v.qty);
    SellIntoRows(rows1, sale, v.qty);
    OpenIdsMembers(rows1, |rows1|, sale.symbol);
    SoldButSkip(rows1, after, after, id, v.qty, sale);
    SoldButRow(rows1, rows, after, id, v.qty, sale);
  }

  /** The recovery goes through the pending rows by creation time, ties by row. */
  lemma {:induction false} PendingInOrder(rows: seq<Trade>, n: nat, k: nat, l: nat)
    requires n <= |rows| && k < l < |PendingIds(rows, n)|
    ensures var ids := PendingIds(rows, n);
            var a, b := rows[ids[k]].origin.createdAt, rows[ids[l]].origin.createdAt;
            a < b || (a == b && ids[k] < ids[l])
  {
    PendingSorted(rows, n);
  }

  predicate QueueOrder(ids: seq<nat>, rows: seq<Trade>)
    requires InRange(ids, |rows|)
  {
    forall k, l :: 0 <= k < l < |ids| ==>
      rows[ids[k]].origin.createdAt < rows[ids[l]].origin.createdAt
      || (rows[ids[k]].origin.createdAt == rows[ids[l]].origin.createdAt && ids[k] < ids[l])
  }

  lemma {:induction false} QueueKeepsOrder(id: nat, ids: seq<nat>, rows: seq<Trade>)
    requires id < |rows| && InRange(ids, |rows|) && QueueOrder(ids, rows) && forall k :: 0 <= k < |ids| ==> ids[k] < id
    ensures QueueOrder(Queue(id, ids, rows), rows)
  {
    if ids == [] || rows[ids[0]].origin.createdAt > rows[id].origin.createdAt {
    } else {
      var rest := Queue(id, ids[1..], rows);
      QueueKeepsOrder(id, ids[1..], rows);
      QueueMembers(id, ids[1..], rows);
      forall l | 0 <= l < |rest|
        ensures rows[ids[0]].origin.createdAt < rows[rest[l]].origin.createdAt
                || (rows[ids[0]].origin.createdAt == rows[rest[l]].origin.createdAt && ids[0] < rest[l])
      {
        assert rest[l] in rest;
        if rest[l] != id {
          var m :| 0 <= m < |ids[1..]| && ids[1..][m] == rest[l];
          assert ids[m + 1] == rest[l];
        }
      }
    }
  }

  lemma {:induction false} PendingSorted(rows: seq<Trade>, n: nat)
    requires n <= |rows|
    ensures QueueOrder(PendingIds(rows, n), rows)
  {
    if n == 0 {
    } else {
      PendingSorted(rows, n - 1);
      PendingIdsMembers(rows, n - 1);
      var ids := PendingIds(rows, n - 1);
      forall k | 0 <= k < |ids| ensures ids[k] < n - 1 { assert ids[k] in ids; }
      if rows[n - 1].status == PendingConfirm { QueueKeepsOrder(n - 1, ids, rows); }
    }
  }
}
