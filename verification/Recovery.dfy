/** Settling what is still pending after the close: pending records against the broker's pending orders
    and holdings. */
module Recovery {
  import opened Common
  import opened Symbols
  import opened TradeRecords
  import opened SellFill
  import opened SellFillLaws
  import opened TradeLedger
  import opened LedgerLaws
  import opened Reconciliation

  datatype Holding = Holding(symbol: string, quantity: int, avgPrice: real)

  /** What the broker answers, and the time. */
  datatype Answers = Answers(kiwoom: bool, orders: seq<BrokerOrder>, holdings: seq<Holding>, now: int)

  /** The holdings by normalized symbol; empty ones do not count, a later one replaces an earlier. */
  function HoldingBySymbol(holdings: seq<Holding>): (m: map<string, Holding>)
    ensures forall s :: s in m ==> m[s].quantity > 0
  {
    if holdings == [] then map[]
    else
      var m := HoldingBySymbol(holdings[..|holdings| - 1]);
      var h := holdings[|holdings| - 1];
      if h.quantity > 0 then m[Normalize(h.symbol) := h] else m
  }

  function HeldOf(a: Answers, symbol: string): (quantity: int)
    ensures quantity >= 0
  {
    var held := HoldingBySymbol(a.holdings);
    if symbol in held then held[symbol].quantity else 0
  }

  // ----- One record

  datatype Verdict =
    | Wait
    | Fail
    | Found(qty: int, price: real)
    | SoldDown(qty: int)
    | Held(qty: int, avgPrice: real)

  /** Under which key the record looks up its order. */
  function OrderKey(t: Trade): string { if t.origin.orderId.Some? then t.origin.orderId.value else "None" }

  function JudgeFound(order: BrokerOrder, kiwoom: bool): Verdict {
    if order.filledQty > 0 then Found(order.filledQty, order.price) else if kiwoom then Wait else Fail
  }

  function JudgeSell(open: int, requested: int, held: int, kiwoom: bool): Verdict {
    if kiwoom && open > 0 && 0 <= held < open then
      if requested > 0 && open - held > requested then Wait else SoldDown(open - held)
    else Fail
  }

  function JudgeBuy(requested: int, holding: Option<Holding>, kiwoom: bool): Verdict {
    var otherwise := if kiwoom then Wait else Fail;
    if holding == None then otherwise
    else
      var qty := Min(holding.value.quantity, if requested != 0 then requested else holding.value.quantity);
      if qty > 0 then Held(qty, holding.value.avgPrice) else otherwise
  }

  /** With `open` shares in the open lots of the record's symbol. */
  function JudgeAt(open: int, t: Trade, a: Answers): Verdict {
    var orders, symbol, held := BrokerById(a.orders), Normalize(t.origin.symbol), HoldingBySymbol(a.holdings);
    if OrderKey(t) in orders then JudgeFound(orders[OrderKey(t)], a.kiwoom)
    else if t.origin.side == Sell then JudgeSell(open, t.quantity, HeldOf(a, symbol), a.kiwoom)
    else JudgeBuy(t.quantity, if symbol in held then Some(held[symbol]) else None, a.kiwoom)
  }

  /** The open quantity of a share. */
  function OpenIn(rows: seq<Trade>, symbol: string): int { OpenQuantity(OpenLots(rows, symbol)) }

  function Judge(rows: seq<Trade>, t: Trade, a: Answers): Verdict {
    JudgeAt(OpenIn(rows, Normalize(t.origin.symbol)), t, a)
  }

  /** The row after the verdict. */
  function Settled(t: Trade, v: Verdict, now: int): Trade {
    match v
    case Wait => t
    case Fail => t.(status := ConfirmFailed)
    case Found(qty, price) =>
      var t1 := t.(status := Confirmed, quantity := qty);
      if price <= 0.0 then t1
      else if t.origin.side == Buy then t1.(entryPrice := price)
      else t1.(exit := t1.exit.(price := price))
    case SoldDown(qty) =>
      t.(status := Confirmed, quantity := qty,
         exit := t.exit.(at := Some(if t.exit.at.Some? then t.exit.at.value else now),
                         reason := ReasonOr(t.exit.reason)))
    case Held(qty, avgPrice) =>
      t.(status := Confirmed, quantity := qty,
         entryPrice := if t.entryPrice <= 0.0 && avgPrice > 0.0 then avgPrice else t.entryPrice)
  }

  /** The sale that is matched with the open lots. */
  function SaleBehind(t: Trade, now: int): Sale {
    Sale(Normalize(t.origin.symbol), t.exit.price, ReasonOr(t.exit.reason),
         if t.exit.at.Some? then t.exit.at.value else now)
  }

  function RecoverRow(rows: seq<Trade>, id: nat, a: Answers): seq<Trade> {
    if id >= |rows| then rows
    else
      var t := rows[id];
      var v := Judge(rows, t, a);
      var rows1 := rows[id := Settled(t, v, a.now)];
      if v.SoldDown? then SellInto(rows1, SaleBehind(t, a.now), v.qty) else rows1
  }

  // ----- All pending records

  /** Row `id` among ids that are sorted by creation time, after its equals. */
  function Queue(id: nat, ids: seq<nat>, rows: seq<Trade>): (r: seq<nat>)
    requires InRange(ids, |rows|) && id < |rows|
    ensures InRange(r, |rows|)
  {
    if ids == [] || rows[ids[0]].origin.createdAt > rows[id].origin.createdAt then [id] + ids
    else
      assert InRange(ids[1..], |rows|);
      [ids[0]] + Queue(id, ids[1..], rows)
  }

  /** The pending ones among the first `n` rows, by creation time. */
  function PendingIds(rows: seq<Trade>, n: nat): (ids: seq<nat>)
    requires n <= |rows|
    ensures InRange(ids, |rows|)
  {
    if n == 0 then []
    else
      var ids := PendingIds(rows, n - 1);
      if rows[n - 1].status == PendingConfirm then Queue(n - 1, ids, rows) else ids
  }

  lemma {:induction false} QueueMembers(id: nat, ids: seq<nat>, rows: seq<Trade>)
    requires InRange(ids, |rows|) && id < |rows|
    ensures forall i: nat :: i in Queue(id, ids, rows) <==> i == id || i in ids
  {
    if ids == [] {
    } else {
      QueueMembers(id, ids[1..], rows);
      assert forall i: nat :: i in ids <==> i == ids[0] || i in ids[1..];
    }
  }

  lemma {:induction false} QueueDistinct(id: nat, ids: seq<nat>, rows: seq<Trade>)
    requires InRange(ids, |rows|) && id < |rows| && Distinct(ids) && id !in ids
    ensures Distinct(Queue(id, ids, rows))
  {
    if ids == [] {
    } else {
      var rest := Queue(id, ids[1..], rows);
      QueueDistinct(id, ids[1..], rows);
      QueueMembers(id, ids[1..], rows);
      forall k | 0 <= k < |rest| ensures rest[k] != ids[0] { assert rest[k] in rest; }
    }
  }

  /** The query finds exactly the pending rows, each once. */
  lemma {:induction false} PendingIdsMembers(rows: seq<Trade>, n: nat)
    requires n <= |rows|
    ensures Distinct(PendingIds(rows, n))
    ensures forall i: nat :: i in PendingIds(rows, n) <==> i < n && rows[i].status == PendingConfirm
  {
    if n == 0 {
    } else {
      PendingIdsMembers(rows, n - 1);
      if rows[n - 1].status == PendingConfirm {
        QueueMembers(n - 1, PendingIds(rows, n - 1), rows);
        QueueDistinct(n - 1, PendingIds(rows, n - 1), rows);
      }
    }
  }

  function RecoverAll(rows: seq<Trade>, ids: seq<nat>, a: Answers): seq<Trade>
    decreases |ids|
  {
    if ids == [] then rows else RecoverAll(RecoverRow(rows, ids[0], a), ids[1..], a)
  }

  datatype Tally = Tally(recovered: nat, failed: nat, waiting: nat)

  function Count(tally: Tally, v: Verdict): Tally {
    match v
    case Wait => tally.(waiting := tally.waiting + 1)
    case Fail => tally.(failed := tally.failed + 1)
    case _ => tally.(recovered := tally.recovered + 1)
  }

  /** The three counters after the given rows, on top of `tally`. */
  function TallyOf(rows: seq<Trade>, ids: seq<nat>, a: Answers, tally: Tally): Tally
    requires InRange(ids, |rows|)
    decreases |ids|
  {
    if ids == [] then tally
    else
      RowKeeps(rows, ids[0], a);
      TallyOf(RecoverRow(rows, ids[0], a), ids[1..], a, Count(tally, Judge(rows, rows[ids[0]], a)))
  }

  // ----- What a recovery keeps

  /** Rows other than `id` keep origin, status and entry; added rows are closed and without order id. */
  lemma RowKeeps(rows: seq<Trade>, id: nat, a: Answers)
    ensures var rows' := RecoverRow(rows, id, a);
            && |rows| <= |rows'|
            && (forall i: nat :: i < |rows|
                  ==> rows'[i].origin == rows[i].origin && rows'[i].entryAt == rows[i].entryAt)
            && (forall i: nat :: i < |rows| && i != id ==> SameLot(rows[i], rows'[i]))
            && (forall i :: |rows| <= i < |rows'| ==> !rows'[i].Open() && rows'[i].origin.orderId == None)
  {
    if id < |rows| {
      var t := rows[id];
      var v := Judge(rows, t, a);
      if v.SoldDown? { SellIntoRows(rows[id := Settled(t, v, a.now)], SaleBehind(t, a.now), v.qty); }
    }
  }

  function StatusAfter(s: Status, v: Verdict): Status {
    if v == Wait then s else if v == Fail then ConfirmFailed else Confirmed
  }

  /** The row itself ends with the status of the verdict. */
  lemma RowStatus(rows: seq<Trade>, id: nat, a: Answers)
    requires id < |rows|
    ensures |rows| <= |RecoverRow(rows, id, a)|
    ensures RecoverRow(rows, id, a)[id].status == StatusAfter(rows[id].status, Judge(rows, rows[id], a))
  {
    var t := rows[id];
    var v := Judge(rows, t, a);
    if v.SoldDown? { SellIntoRows(rows[id := Settled(t, v, a.now)], SaleBehind(t, a.now), v.qty); }
  }

  /** Rows that are not named keep their status. */
  lemma {:induction false} OthersKeepStatus(rows: seq<Trade>, ids: seq<nat>, a: Answers, i: nat)
    requires i < |rows| && i !in ids
    ensures i < |RecoverAll(rows, ids, a)| && RecoverAll(rows, ids, a)[i].status == rows[i].status
    decreases |ids|
  {
    if ids == [] {
    } else {
      RowKeeps(rows, ids[0], a);
      OthersKeepStatus(RecoverRow(rows, ids[0], a), ids[1..], a, i);
    }
  }

  // ----- The counters

  function WithStatus(rows: seq<Trade>, ids: seq<nat>, s: Status): nat
    requires InRange(ids, |rows|)
  {
    if ids == [] then 0 else (if rows[ids[0]].status == s then 1 else 0) + WithStatus(rows, ids[1..], s)
  }

  /** The counters tell how many of the pending rows ended CONFIRMED, CONFIRM_FAILED, and still pending. */
  lemma {:induction false} TallyIsStatus(rows: seq<Trade>, ids: seq<nat>, a: Answers, tally: Tally)
    requires InRange(ids, |rows|) && Distinct(ids)
    requires forall k :: 0 <= k < |ids| ==> rows[ids[k]].status == PendingConfirm
    ensures var after, t := RecoverAll(rows, ids, a), TallyOf(rows, ids, a, tally);
            && InRange(ids, |after|)
            && t.recovered == tally.recovered + WithStatus(after, ids, Confirmed)
            && t.failed == tally.failed + WithStatus(after, ids, ConfirmFailed)
            && t.waiting == tally.waiting + WithStatus(after, ids, PendingConfirm)
    decreases |ids|
  {
    if ids == [] {
    } else {
      var next := RecoverRow(rows, ids[0], a);
      RowKeeps(rows, ids[0], a);
      RowStatus(rows, ids[0], a);
      TallyIsStatus(next, ids[1..], a, Count(tally, Judge(rows, rows[ids[0]], a)));
      OthersKeepStatus(next, ids[1..], a, ids[0]);
    }
  }

  // ----- Holdings and open lots

  lemma {:induction false} OpenOfStillOpen(lots: seq<Trade>)
    ensures OpenQuantity(StillOpen(lots)) == OpenQuantity(lots)
  {
    if lots == [] {
    } else {
      OpenOfStillOpen(lots[1..]);
      var rest := StillOpen(lots[1..]);
      assert ([lots[0]] + rest)[1..] == rest;
      assert [] + rest == rest;
    }
  }

  lemma {:induction false} OpenWithinSellable(lots: seq<Trade>)
    ensures OpenQuantity(lots) <= TotalSellable(lots)
  {
    if lots == [] {
    } else {
      OpenWithinSellable(lots[1..]);
    }
  }

  /** A sale of no more than the open quantity is taken from it. */
  lemma SaleTakesFromOpen(rows: seq<Trade>, sale: Sale, qty: int)
    requires 0 <= qty <= OpenIn(rows, sale.symbol)
    ensures OpenIn(SellInto(rows, sale, qty), sale.symbol)
              == OpenIn(rows, sale.symbol) - qty
  {
    var lots := OpenLots(rows, sale.symbol);
    RereadAfterSale(rows, sale, qty);
    QueriedLotsOpen(rows, sale.symbol);
    OpenWithinSellable(lots);
    Unfilled(lots, qty, sale);
    Conservation(lots, qty, sale);
    OpenOfStillOpen(Fill(lots, qty, sale).lots);
  }

  /** A SELL without a trace at the broker is settled from the holding: afterwards the open quantity
      of its symbol is what is held, and the row shows the difference. */
  lemma RecoveredSale(rows: seq<Trade>, id: nat, a: Answers)
    requires id < |rows| && rows[id].origin.side == Sell && Judge(rows, rows[id], a).SoldDown?
    ensures var symbol, after := Normalize(rows[id].origin.symbol), RecoverRow(rows, id, a);
            && OpenIn(after, symbol) == HeldOf(a, symbol)
            && id < |after| && after[id].status == Confirmed
            && after[id].quantity == OpenIn(rows, symbol) - HeldOf(a, symbol) > 0
  {
    var t, v := rows[id], Judge(rows, rows[id], a);
    var rows1, sale := rows[id := Settled(t, v, a.now)], SaleBehind(t, a.now);
    SellRowUnseen(rows, id, Settled(t, v, a.now), sale.symbol);
    SaleTakesFromOpen(rows1, sale, v.qty);
    SellIntoRows(rows1, sale, v.qty);
    OpenIdsMembers(rows1, |rows1|, sale.symbol);
  }

  /** So a second pending SELL of the share fails right after, although both may have been filled. */
  lemma SecondSaleFails(rows: seq<Trade>, id: nat, a: Answers, t: Trade)
    requires id < |rows| && rows[id].origin.side == Sell && Judge(rows, rows[id], a).SoldDown?
    requires t.origin.side == Sell && Normalize(t.origin.symbol) == Normalize(rows[id].origin.symbol)
    requires OrderKey(t) !in BrokerById(a.orders)
    ensures Judge(RecoverRow(rows, id, a), t, a) == Fail
  {
    RecoveredSale(rows, id, a);
  }

  /** A SELL found among the broker's orders is confirmed, but closes no lot. */
  lemma FoundSaleClosesNothing(rows: seq<Trade>, id: nat, a: Answers, symbol: string)
    requires id < |rows| && rows[id].origin.side == Sell && Judge(rows, rows[id], a).Found?
    ensures RecoverRow(rows, id, a)[id].status == Confirmed
    ensures OpenLots(RecoverRow(rows, id, a), symbol) == OpenLots(rows, symbol)
  {
    SellRowUnseen(rows, id, Settled(rows[id], Judge(rows, rows[id], a), a.now), symbol);
  }

  // ----- The open quantity, row by row

  function OpenSum(rows: seq<Trade>, n: nat, symbol: string): int
    requires n <= |rows|
  {
    if n == 0 then 0
    else OpenSum(rows, n - 1, symbol) + if OpenBuy(rows[n - 1], symbol) then rows[n - 1].quantity else 0
  }

  lemma {:induction false} OpenOfBoth(a: seq<Trade>, b: seq<Trade>)
    ensures OpenQuantity(a + b) == OpenQuantity(a) + OpenQuantity(b)
  {
    if a == [] {
      assert a + b == b;
    } else {
      assert (a + b)[1..] == a[1..] + b;
      OpenOfBoth(a[1..], b);
    }
  }

  lemma {:induction false} KeptInTwo(ids: seq<nat>, rows: seq<Trade>, t: Trade)
    requires InRange(ids, |rows|)
    ensures OpenQuantity(At(rows, Keep(ids, rows, t, false))) + OpenQuantity(At(rows, Keep(ids, rows, t, true)))
              == OpenQuantity(At(rows, ids))
  {
    if ids == [] {
    } else {
      KeptInTwo(ids[1..], rows, t);
      assert At(rows, ids) == [rows[ids[0]]] + At(rows, ids[1..]);
      OpenOfBoth([rows[ids[0]]], At(rows, ids[1..]));
      KeptHead(ids, rows, t, false);
      KeptHead(ids, rows, t, true);
    }
  }

  lemma KeptHead(ids: seq<nat>, rows: seq<Trade>, t: Trade, after: bool)
    requires InRange(ids, |rows|) && ids != []
    ensures OpenQuantity(At(rows, Keep(ids, rows, t, after)))
              == (if NotAfter(rows[ids[0]], t) == !after then OpenQuantity([rows[ids[0]]]) else 0)
                 + OpenQuantity(At(rows, Keep(ids[1..], rows, t, after)))
  {
    var rest := Keep(ids[1..], rows, t, after);
    if NotAfter(rows[ids[0]], t) == !after {
      assert At(rows, [ids[0]] + rest) == [rows[ids[0]]] + At(rows, rest);
      OpenOfBoth([rows[ids[0]]], At(rows, rest));
    } else {
      assert [] + rest == rest;
    }
  }

  /** The order in which the query lists the lots does not matter for their total. */
  lemma {:induction false} OpenIsSum(rows: seq<Trade>, n: nat, symbol: string)
    requires n <= |rows|
    ensures OpenQuantity(At(rows, OpenIds(rows, n, symbol))) == OpenSum(rows, n, symbol)
  {
    if n == 0 {
    } else {
      var ids, t := OpenIds(rows, n - 1, symbol), rows[n - 1];
      OpenIsSum(rows, n - 1, symbol);
      if OpenBuy(t, symbol) {
        var before, after := Keep(ids, rows, t, false), Keep(ids, rows, t, true);
        KeptInTwo(ids, rows, t);
        assert At(rows, before + [n - 1] + after) == At(rows, before) + [t] + At(rows, after);
        OpenOfBoth(At(rows, before) + [t], At(rows, after));
        OpenOfBoth(At(rows, before), [t]);
      }
    }
  }

  lemma {:induction false} SumUpdate(rows: seq<Trade>, id: nat, t: Trade, n: nat, symbol: string)
    requires id < |rows| && n <= |rows|
    ensures OpenSum(rows[id := t], n, symbol)
              == OpenSum(rows, n, symbol)
                 + (if id < n then (if OpenBuy(t, symbol) then t.quantity else 0)
                                   - (if OpenBuy(rows[id], symbol) then rows[id].quantity else 0) else 0)
  {
    if n == 0 {
    } else {
      SumUpdate(rows, id, t, n - 1, symbol);
    }
  }

  /** What settling a BUY adds to the open quantity of its share: lots are queried by the normalized
      symbol, so nothing if it is stored otherwise. */
  function Added(t: Trade, v: Verdict): int {
    if t.origin.side == Buy && t.Open() && Normalize(t.origin.symbol) == t.origin.symbol && (v.Found? || v.Held?)
    then v.qty else 0
  }

  /** The open quantity of a share after one more record was settled. */
  function OpenNext(open: int, t: Trade, a: Answers, symbol: string): int {
    if Normalize(t.origin.symbol) != symbol then open
    else
      var v := JudgeAt(open, t, a);
      if v.SoldDown? then HeldOf(a, symbol) else open + Added(t, v)
  }

  lemma OpenAfterUpdate(rows: seq<Trade>, id: nat, a: Answers, symbol: string)
    requires id < |rows| && rows[id].status == PendingConfirm && !Judge(rows, rows[id], a).SoldDown?
    requires Normalize(symbol) == symbol
    ensures OpenIn(RecoverRow(rows, id, a), symbol) == OpenNext(OpenIn(rows, symbol), rows[id], a, symbol)
  {
    var t := Settled(rows[id], Judge(rows, rows[id], a), a.now);
    OpenIsSum(rows, |rows|, symbol);
    OpenIsSum(rows[id := t], |rows|, symbol);
    SumUpdate(rows, id, t, |rows|, symbol);
  }

  lemma OpenAfterSale(rows: seq<Trade>, id: nat, a: Answers, symbol: string)
    requires id < |rows| && Judge(rows, rows[id], a).SoldDown?
    ensures OpenIn(RecoverRow(rows, id, a), symbol) == OpenNext(OpenIn(rows, symbol), rows[id], a, symbol)
  {
    var t, v := rows[id], Judge(rows, rows[id], a);
    if Normalize(t.origin.symbol) == symbol {
      RecoveredSale(rows, id, a);
    } else {
      SellRowUnseen(rows, id, Settled(t, v, a.now), symbol);
      OtherSymbolsUntouched(rows[id := Settled(t, v, a.now)], SaleBehind(t, a.now), v.qty, symbol);
    }
  }

  lemma OpenAfterOne(rows: seq<Trade>, id: nat, a: Answers, symbol: string)
    requires id < |rows| && rows[id].status == PendingConfirm && Normalize(symbol) == symbol
    ensures OpenIn(RecoverRow(rows, id, a), symbol) == OpenNext(OpenIn(rows, symbol), rows[id], a, symbol)
  {
    if Judge(rows, rows[id], a).SoldDown? {
      OpenAfterSale(rows, id, a, symbol);
    } else {
      OpenAfterUpdate(rows, id, a, symbol);
    }
  }

  /** After a pending record is settled the open quantity of its share is what is held exactly when it
      was a SELL settled from the holding, or the quantity open before, plus what a BUY adds, is. */
  lemma MeetsHoldingIff(rows: seq<Trade>, id: nat, a: Answers)
    requires id < |rows| && rows[id].status == PendingConfirm
    ensures var t, v, share := rows[id], Judge(rows, rows[id], a), Normalize(rows[id].origin.symbol);
            && (v.Held? ==> 0 < v.qty <= HeldOf(a, share))
            && (OpenIn(RecoverRow(rows, id, a), share) == HeldOf(a, share)
                <==> v.SoldDown? || OpenIn(rows, share) + Added(t, v) == HeldOf(a, share))
  {
    NormalizeTwice(rows[id].origin.symbol);
    OpenAfterOne(rows, id, a, Normalize(rows[id].origin.symbol));
  }

  // ----- A whole recovery

  /** How the open quantity of a share has come about: whether some SELL was settled from the holding,
      and what BUYs have added since. */
  datatype Progress = Progress(settled: bool, added: int)

  function OpenOf(p: Progress, before: int, held: int): int { (if p.settled then held else before) + p.added }

  function Advance(p: Progress, before: int, t: Trade, a: Answers, symbol: string): Progress {
    if Normalize(t.origin.symbol) != symbol then p
    else
      var v := JudgeAt(OpenOf(p, before, HeldOf(a, symbol)), t, a);
      if v.SoldDown? then Progress(true, 0) else p.(added := p.added + Added(t, v))
  }

  /** Over the pending records of all shares, from `before` open shares of this one. */
  function ProgressOf(p: Progress, before: int, pending: seq<Trade>, a: Answers, symbol: string): Progress
    decreases |pending|
  {
    if pending == [] then p else ProgressOf(Advance(p, before, pending[0], a, symbol), before, pending[1..], a, symbol)
  }

  lemma {:induction false} NeverSubtracted(p: Progress, before: int, pending: seq<Trade>, a: Answers, symbol: string)
    requires p.added >= 0
    ensures ProgressOf(p, before, pending, a, symbol).added >= 0
    decreases |pending|
  {
    if pending == [] {
    } else {
      NeverSubtracted(Advance(p, before, pending[0], a, symbol), before, pending[1..], a, symbol);
    }
  }

  /** Settling one record leaves the other pending ones as they are. */
  lemma OthersUnchanged(rows: seq<Trade>, id: nat, a: Answers, i: nat)
    requires i < |rows| && i != id && rows[i].status == PendingConfirm
    ensures i < |RecoverRow(rows, id, a)| && RecoverRow(rows, id, a)[i] == rows[i]
  {
    if id < |rows| {
      var t := rows[id];
      var v := Judge(rows, t, a);
      if v.SoldDown? {
        var rows1 := rows[id := Settled(t, v, a.now)];
        SellIntoRows(rows1, SaleBehind(t, a.now), v.qty);
        OpenIdsMembers(rows1, |rows1|, SaleBehind(t, a.now).symbol);
      }
    }
  }

  lemma {:induction false} OpenAfterAll(rows: seq<Trade>, ids: seq<nat>, a: Answers, symbol: string,
                                        p: Progress, before: int)
    requires InRange(ids, |rows|) && Distinct(ids) && Normalize(symbol) == symbol
    requires forall k :: 0 <= k < |ids| ==> rows[ids[k]].status == PendingConfirm
    requires OpenIn(rows, symbol) == OpenOf(p, before, HeldOf(a, symbol))
    ensures OpenIn(RecoverAll(rows, ids, a), symbol)
         == OpenOf(ProgressOf(p, before, At(rows, ids), a, symbol), before, HeldOf(a, symbol))
    decreases |ids|
  {
    if ids == [] {
    } else {
      var next := RecoverRow(rows, ids[0], a);
      RowKeeps(rows, ids[0], a);
      OpenAfterOne(rows, ids[0], a, symbol);
      forall k | 0 < k < |ids| ensures next[ids[k]] == rows[ids[k]] { OthersUnchanged(rows, ids[0], a, ids[k]); }
      assert At(next, ids[1..]) == At(rows, ids)[1..];
      OpenAfterAll(next, ids[1..], a, symbol, Advance(p, before, rows[ids[0]], a, symbol), before);
    }
  }

  /** After a whole recovery the open quantity of a share is what is held, if and only if some SELL was
      settled from the holding and no BUY has added to it since, or none was and the quantity open
      before plus all that BUYs added is what is held. */
  lemma WholeRecoveryIff(rows: seq<Trade>, a: Answers, symbol: string)
    requires Normalize(symbol) == symbol
    ensures var ids, before, held := PendingIds(rows, |rows|), OpenIn(rows, symbol), HeldOf(a, symbol);
            var p := ProgressOf(Progress(false, 0), before, At(rows, ids), a, symbol);
            && p.added >= 0
            && (OpenIn(RecoverAll(rows, ids, a), symbol) == held
                <==> if p.settled then p.added == 0 else before + p.added == held)
  {
    var ids := PendingIds(rows, |rows|);
    PendingIdsMembers(rows, |rows|);
    forall k | 0 <= k < |ids| ensures rows[ids[k]].status == PendingConfirm { assert ids[k] in ids; }
    OpenAfterAll(rows, ids, a, symbol, Progress(false, 0), OpenIn(rows, symbol));
    NeverSubtracted(Progress(false, 0), OpenIn(rows, symbol), At(rows, ids), a, symbol);
  }

  // ----- Without a broker that keeps orders open

  /** With no answer at all and a broker other than KIWOOM, every named row fails. */
  lemma {:induction false} NoAnswerFails(rows: seq<Trade>, ids: seq<nat>, now: int, i: nat)
    requires i < |rows|
    ensures var after := RecoverAll(rows, ids, Answers(false, [], [], now));
            |after| == |rows| && after[i] == if i in ids then rows[i].(status := ConfirmFailed) else rows[i]
    decreases |ids|
  {
    if ids == [] {
    } else {
      NoAnswerFails(RecoverRow(rows, ids[0], Answers(false, [], [], now)), ids[1..], now, i);
    }
  }
}
