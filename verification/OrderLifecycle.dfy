/** Every run of the transactions on the trade_results table, in any interleaving. */
module OrderLifecycle {
  import opened Common
  import opened TradeRecords
  import opened SellFill
  import opened SellFillLaws
  import opened TradeLedger
  import opened LedgerLaws
  import opened Reconciliation
  import opened Recovery

  /** What a job has decided to write, or which rows it has read, before it gets to write. */
  datatype Plan = Finished | ToFail(failing: set<nat>) | ToSettle(pending: seq<nat>)

  /** The table, and the jobs that have read it. */
  datatype Desk = Desk(rows: seq<Trade>, plans: seq<Plan>)

  /** One atomic step. The first four run in one `session.begin()` block each. The manual cleanup and
      the recovery read first and write later, after the other tasks had their turn. */
  datatype Op =
    | CreateOp(orderId: string, x: Execution)
    | ConfirmOp(id: nat, x: Execution)
    | FailOp(id: nat)
    | RecordOp(orderId: string, x: Execution)
    | CleanupRead(orders: seq<BrokerOrder>, dryRun: bool, now: int, staleAfter: int)
    | RecoveryRead
    | Commit(k: nat, a: Answers)

  /** The rows that the cleanup decides to fail: it looks at their status only here. */
  ghost function CleanupPlan(rows: seq<Trade>, orders: seq<BrokerOrder>, dryRun: bool, now: int,
                             staleAfter: int): set<nat> {
    set i: nat | i < |rows| && !dryRun && Flips(i, rows, PendingIds(rows, |rows|), orders, now, staleAfter)
  }

  function Failed(rows: seq<Trade>, failing: set<nat>): seq<Trade> {
    seq(|rows|, i requires 0 <= i < |rows| => if i in failing then rows[i].(status := ConfirmFailed) else rows[i])
  }

  function Written(rows: seq<Trade>, plan: Plan, a: Answers): seq<Trade> {
    match plan
    case Finished => rows
    case ToFail(failing) => Failed(rows, failing)
    case ToSettle(pending) => RecoverAll(rows, pending, a)
  }

  ghost function Step(d: Desk, op: Op): Desk {
    match op
    case CreateOp(orderId, x) => d.(rows := CreatePending(d.rows, orderId, x))
    case ConfirmOp(id, x) => d.(rows := Confirm(d.rows, id, x))
    case FailOp(id) => d.(rows := MarkFailed(d.rows, id))
    case RecordOp(orderId, x) => d.(rows := Record(d.rows, orderId, x))
    case CleanupRead(orders, dryRun, now, staleAfter) =>
      d.(plans := d.plans + [ToFail(CleanupPlan(d.rows, orders, dryRun, now, staleAfter))])
    case RecoveryRead => d.(plans := d.plans + [ToSettle(PendingIds(d.rows, |d.rows|))])
    case Commit(k, a) =>
      if k < |d.plans| then Desk(Written(d.rows, d.plans[k], a), d.plans[k := Finished]) else d
  }

  ghost function Run(d: Desk, ops: seq<Op>): Desk
    decreases |ops|
  {
    if ops == [] then d else Run(Step(d, ops[0]), ops[1..])
  }

  // ----- What every step keeps

  /** A status never goes back to PENDING_CONFIRM, and what is still pending is as it was. */
  predicate Moves(t: Trade, t': Trade) {
    t'.origin == t.origin && (t'.status == PendingConfirm ==> t' == t)
  }

  predicate Keeps(rows: seq<Trade>, rows': seq<Trade>) {
    |rows| <= |rows'| && forall i :: 0 <= i < |rows| ==> Moves(rows[i], rows'[i])
  }

  lemma KeepsOn(rows: seq<Trade>, next: seq<Trade>, last: seq<Trade>)
    requires Keeps(rows, next) && Keeps(next, last)
    ensures Keeps(rows, last)
  {
    forall i | 0 <= i < |rows| ensures Moves(rows[i], last[i]) {
      assert Moves(rows[i], next[i]) && Moves(next[i], last[i]);
    }
  }

  /** The added rows bring no order id that is already in the table. */
  predicate AddsFreshIds(rows: seq<Trade>, rows': seq<Trade>) {
    && |rows| <= |rows'|
    && forall i, j :: 0 <= i < j < |rows'| && |rows| <= j && rows'[j].origin.orderId.Some?
                  ==> rows'[i].origin.orderId != rows'[j].origin.orderId
  }

  lemma KeepsUnique(rows: seq<Trade>, rows': seq<Trade>)
    requires UniqueOrderIds(rows) && Keeps(rows, rows') && AddsFreshIds(rows, rows')
    ensures UniqueOrderIds(rows')
  {
    forall i, j | 0 <= i < j < |rows'| && rows'[i].origin.orderId.Some?
      ensures rows'[i].origin.orderId != rows'[j].origin.orderId
    {
      if j < |rows| {
        assert Moves(rows[i], rows'[i]) && Moves(rows[j], rows'[j]);
      }
    }
  }

  lemma SaleStep(rows: seq<Trade>, sale: Sale, qty: int)
    ensures Keeps(rows, SellInto(rows, sale, qty)) && AddsFreshIds(rows, SellInto(rows, sale, qty))
  {
    var rows', ids := SellInto(rows, sale, qty), OpenIds(rows, |rows|, sale.symbol);
    SellIntoRows(rows, sale, qty);
    OpenIdsMembers(rows, |rows|, sale.symbol);
    forall i: nat | i < |rows| ensures Moves(rows[i], rows'[i]) {
      assert SameLot(rows[i], rows'[i]);
    }
  }

  lemma InsertStep(rows: seq<Trade>, t: Trade)
    ensures Keeps(rows, Insert(rows, t)) && AddsFreshIds(rows, Insert(rows, t))
  {
  }

  lemma RecordStep(rows: seq<Trade>, orderId: string, x: Execution)
    ensures Keeps(rows, Record(rows, orderId, x)) && AddsFreshIds(rows, Record(rows, orderId, x))
  {
    if x.side == Sell {
      SaleStep(rows, SaleOf(x), x.qty);
    }
  }

  /** Overwriting a row that is not left pending, and then selling. */
  lemma SettleStep(rows: seq<Trade>, id: nat, t: Trade, sale: Sale, qty: int)
    requires id < |rows| && Moves(rows[id], t)
    ensures var rows' := SellInto(rows[id := t], sale, qty); Keeps(rows, rows') && AddsFreshIds(rows, rows')
  {
    SaleStep(rows[id := t], sale, qty);
    KeepsOn(rows, rows[id := t], SellInto(rows[id := t], sale, qty));
  }

  lemma ConfirmStep(rows: seq<Trade>, id: nat, x: Execution)
    ensures Keeps(rows, Confirm(rows, id, x)) && AddsFreshIds(rows, Confirm(rows, id, x))
  {
    if id >= |rows| {
      RecordStep(rows, "", x);
    } else if x.side == Sell {
      var rows1 := rows[id := ConfirmedRow(rows[id], x)];
      var rows2, rows3 := SellInto(rows1, SaleOf(x), x.qty), Confirm(rows, id, x);
      SettleStep(rows, id, ConfirmedRow(rows[id], x), SaleOf(x), x.qty);
      SellIntoRows(rows1, SaleOf(x), x.qty);
      assert rows2[id].status == Confirmed;
      assert forall i :: 0 <= i < |rows2| ==> rows3[i].origin == rows2[i].origin && (i != id ==> rows3[i] == rows2[i]);
    }
  }

  lemma RecoverStep(rows: seq<Trade>, id: nat, a: Answers)
    ensures Keeps(rows, RecoverRow(rows, id, a)) && AddsFreshIds(rows, RecoverRow(rows, id, a))
  {
    if id < |rows| {
      var t := rows[id];
      var v := Judge(rows, t, a);
      if v.SoldDown? { SettleStep(rows, id, Settled(t, v, a.now), SaleBehind(t, a.now), v.qty); }
    }
  }

  lemma {:induction false} RecoverSteps(rows: seq<Trade>, ids: seq<nat>, a: Answers)
    requires UniqueOrderIds(rows)
    ensures Keeps(rows, RecoverAll(rows, ids, a)) && UniqueOrderIds(RecoverAll(rows, ids, a))
    decreases |ids|
  {
    if ids == [] {
    } else {
      var next := RecoverRow(rows, ids[0], a);
      RecoverStep(rows, ids[0], a);
      KeepsUnique(rows, next);
      RecoverSteps(next, ids[1..], a);
      KeepsOn(rows, next, RecoverAll(rows, ids, a));
    }
  }

  lemma StepKeeps(d: Desk, op: Op)
    requires UniqueOrderIds(d.rows)
    ensures Keeps(d.rows, Step(d, op).rows) && UniqueOrderIds(Step(d, op).rows)
  {
    match op {
      case CreateOp(orderId, x) => InsertStep(d.rows, PendingRow(orderId, x));
      case ConfirmOp(id, x) => ConfirmStep(d.rows, id, x);
      case RecordOp(orderId, x) => RecordStep(d.rows, orderId, x);
      case Commit(k, a) =>
        if k < |d.plans| && d.plans[k].ToSettle? {
          RecoverSteps(d.rows, d.plans[k].pending, a);
          return;
        }
      case _ =>
    }
    KeepsUnique(d.rows, Step(d, op).rows);
  }

  /** Over every run: no status returns to PENDING_CONFIRM, what was written once stays, a row that is
      still pending has not changed at all, and all order ids stay distinct. */
  lemma {:induction false} LifecycleSafe(d: Desk, ops: seq<Op>)
    requires UniqueOrderIds(d.rows)
    ensures Keeps(d.rows, Run(d, ops).rows) && UniqueOrderIds(Run(d, ops).rows)
    decreases |ops|
  {
    if ops == [] {
    } else {
      var next := Step(d, ops[0]);
      StepKeeps(d, ops[0]);
      LifecycleSafe(next, ops[1..]);
      KeepsOn(d.rows, next.rows, Run(d, ops).rows);
    }
  }

  // ----- When CONFIRMED is never left

  predicate Names(plan: Plan, i: nat) {
    match plan
    case Finished => false
    case ToFail(failing) => i in failing
    case ToSettle(pending) => i in pending
  }

  /** Some job has read the row and has still to write. */
  ghost predicate Planned(d: Desk, i: nat) { exists k :: 0 <= k < |d.plans| && Names(d.plans[k], i) }

  /** The status of a row after a step that does not go through a plan that names it. */
  lemma StatusKept(d: Desk, op: Op, i: nat)
    requires i < |d.rows|
    requires op.Commit? && op.k < |d.plans| ==> !Names(d.plans[op.k], i)
    ensures var rows, rows' := d.rows, Step(d, op).rows;
            && i < |rows'|
            && (rows'[i].status == rows[i].status
                || (op.ConfirmOp? && op.id == i && rows'[i].status == Confirmed)
                || (op.FailOp? && op.id == i && rows[i].status == PendingConfirm))
  {
    match op {
      case ConfirmOp(id, x) =>
        if id < |d.rows| {
          SellIntoRows(d.rows[id := ConfirmedRow(d.rows[id], x)], SaleOf(x), x.qty);
        } else {
          SellIntoRows(d.rows, SaleOf(x), x.qty);
        }
      case RecordOp(orderId, x) => SellIntoRows(d.rows, SaleOf(x), x.qty);
      case Commit(k, a) =>
        if k < |d.plans| && d.plans[k].ToSettle? { OthersKeepStatus(d.rows, d.plans[k].pending, a, i); }
      case _ =>
    }
  }

  /** A plan is made for pending rows only. */
  lemma PlannedBefore(d: Desk, op: Op, i: nat)
    requires Planned(Step(d, op), i)
    ensures Planned(d, i) || (i < |d.rows| && d.rows[i].status == PendingConfirm && Step(d, op).rows == d.rows)
  {
    var d' := Step(d, op);
    var k :| 0 <= k < |d'.plans| && Names(d'.plans[k], i);
    PendingIdsMembers(d.rows, |d.rows|);
    if k < |d.plans| {
      assert Names(d.plans[k], i);
    }
  }

  lemma {:induction false} StaysConfirmed(d: Desk, i: nat, ops: seq<Op>)
    requires i < |d.rows| && d.rows[i].status == Confirmed && !Planned(d, i)
    ensures i < |Run(d, ops).rows| && Run(d, ops).rows[i].status == Confirmed
    decreases |ops|
  {
    if ops == [] {
    } else {
      StatusKept(d, ops[0], i);
      if Planned(Step(d, ops[0]), i) { PlannedBefore(d, ops[0], i); }
      StaysConfirmed(Step(d, ops[0]), i, ops[1..]);
    }
  }

  ghost predicate ConfirmedAfter(d: Desk, i: nat, ops: seq<Op>) {
    var rows := Run(d, ops).rows; i < |rows| && rows[i].status == Confirmed
  }

  /** A record stays CONFIRMED whatever happens exactly when it is CONFIRMED and no job that has still
      to write has read it. */
  lemma StaysConfirmedIff(d: Desk, i: nat)
    requires i < |d.rows|
    ensures (forall ops :: ConfirmedAfter(d, i, ops)) <==> d.rows[i].status == Confirmed && !Planned(d, i)
  {
    if d.rows[i].status == Confirmed && !Planned(d, i) {
      forall ops ensures ConfirmedAfter(d, i, ops) { StaysConfirmed(d, i, ops); }
    } else if Planned(d, i) {
      var k :| 0 <= k < |d.plans| && Names(d.plans[k], i);
      WrittenOver(d, i, k);
    } else {
      assert Run(d, []) == d;
      assert !ConfirmedAfter(d, i, []);
    }
  }

  /** Without any answer of the broker, a plan fails every row that it names. */
  lemma WrittenFails(rows: seq<Trade>, plan: Plan, i: nat)
    requires i < |rows| && Names(plan, i)
    ensures var rows' := Written(rows, plan, Answers(false, [], [], 0));
            i < |rows'| && rows'[i].status == ConfirmFailed
  {
    if plan.ToSettle? { NoAnswerFails(rows, plan.pending, 0, i); }
  }

  lemma WrittenOver(d: Desk, i: nat, k: nat)
    requires i < |d.rows| && k < |d.plans| && Names(d.plans[k], i)
    ensures !ConfirmedAfter(d, i, [Commit(k, Answers(false, [], [], 0))])
  {
    OneStep(d, Commit(k, Answers(false, [], [], 0)));
    WrittenFails(d.rows, d.plans[k], i);
  }

  lemma OneStep(d: Desk, op: Op)
    ensures Run(d, [op]) == Step(d, op)
  {
  }

  /** The failing runs: a BUY is confirmed between the cleanup's read and its commit; afterwards it is
      CONFIRM_FAILED and no open lot, although the shares were bought. */
  lemma ConfirmedBuyLost(d: Desk, id: nat, x: Execution, orders: seq<BrokerOrder>, now: int, staleAfter: int,
                         a: Answers)
    requires id < |d.rows| && id in CleanupPlan(d.rows, orders, false, now, staleAfter) && x.side == Buy
    ensures var d1 := Step(Step(d, CleanupRead(orders, false, now, staleAfter)), ConfirmOp(id, x));
            var d2 := Step(d1, Commit(|d.plans|, a));
            && d1.rows[id].status == Confirmed && d2.rows[id].status == ConfirmFailed
            && forall symbol :: id !in OpenIds(d2.rows, |d2.rows|, symbol)
  {
    var d1 := Step(Step(d, CleanupRead(orders, false, now, staleAfter)), ConfirmOp(id, x));
    var d2 := Step(d1, Commit(|d.plans|, a));
    forall symbol ensures id !in OpenIds(d2.rows, |d2.rows|, symbol) { OpenIdsMembers(d2.rows, |d2.rows|, symbol); }
  }

  // ----- Runs in which nobody confirms a row that a job has read

  /** No job has still to write a CONFIRMED row. */
  ghost predicate Calm(d: Desk) {
    forall i: nat :: Planned(d, i) ==> i < |d.rows| && d.rows[i].status != Confirmed
  }

  /** The step confirms no row that an unfinished job has read. */
  ghost predicate Cautious(d: Desk, op: Op) {
    && (op.ConfirmOp? ==> !Planned(d, op.id))
    && (op.Commit? && op.k < |d.plans| ==>
          forall j, i: nat :: 0 <= j < |d.plans| && j != op.k && Names(d.plans[op.k], i) ==> !Names(d.plans[j], i))
  }

  ghost predicate CautiousRun(d: Desk, ops: seq<Op>)
    decreases |ops|
  {
    ops == [] || (Cautious(d, ops[0]) && CautiousRun(Step(d, ops[0]), ops[1..]))
  }

  lemma CalmStays(d: Desk, op: Op)
    requires Calm(d) && Cautious(d, op)
    ensures Calm(Step(d, op))
  {
    var d' := Step(d, op);
    forall i: nat | Planned(d', i) ensures i < |d'.rows| && d'.rows[i].status != Confirmed {
      PlannedBefore(d, op, i);
      assert i < |d.rows|;
      if op.Commit? && op.k < |d.plans| {
        var j :| 0 <= j < |d'.plans| && Names(d'.plans[j], i);
        assert j != op.k && Names(d.plans[j], i);
      }
      StatusKept(d, op, i);
    }
  }

  /** Then CONFIRMED is never left, in any run. */
  lemma {:induction false} CautiousSafe(d: Desk, ops: seq<Op>, i: nat)
    requires Calm(d) && CautiousRun(d, ops) && i < |d.rows| && d.rows[i].status == Confirmed
    ensures ConfirmedAfter(d, i, ops) && Calm(Run(d, ops))
    decreases |ops|
  {
    if ops == [] {
    } else {
      assert !Planned(d, i);
      StatusKept(d, ops[0], i);
      CalmStays(d, ops[0]);
      CautiousSafe(Step(d, ops[0]), ops[1..], i);
    }
  }

  /** A job that writes right after it has read writes what it computes on the table as it is. */
  lemma CleanupAtOnce(d: Desk, orders: seq<BrokerOrder>, dryRun: bool, now: int, staleAfter: int, a: Answers)
    ensures var read := Step(d, CleanupRead(orders, dryRun, now, staleAfter));
            Step(read, Commit(|d.plans|, a)).rows
              == Cleaned(d.rows, PendingIds(d.rows, |d.rows|), orders, dryRun, now, staleAfter)
  {
    var failing := CleanupPlan(d.rows, orders, dryRun, now, staleAfter);
    LastWritten(d, ToFail(failing), a);
    FailedIsCleaned(d.rows, orders, dryRun, now, staleAfter);
  }

  lemma FailedIsCleaned(rows: seq<Trade>, orders: seq<BrokerOrder>, dryRun: bool, now: int, staleAfter: int)
    ensures Failed(rows, CleanupPlan(rows, orders, dryRun, now, staleAfter))
         == Cleaned(rows, PendingIds(rows, |rows|), orders, dryRun, now, staleAfter)
  {
  }

  lemma RecoveryAtOnce(d: Desk, a: Answers)
    ensures Step(Step(d, RecoveryRead), Commit(|d.plans|, a)).rows
         == RecoverAll(d.rows, PendingIds(d.rows, |d.rows|), a)
  {
    LastWritten(d, ToSettle(PendingIds(d.rows, |d.rows|)), a);
  }

  lemma LastWritten(d: Desk, plan: Plan, a: Answers)
    ensures Step(d.(plans := d.plans + [plan]), Commit(|d.plans|, a)).rows == Written(d.rows, plan, a)
  {
  }

  /** A record leaves CONFIRM_FAILED only when a fill is confirmed on that very record, or when a
      recovery writes it that read it while it was pending. */
  lemma OnlyConfirmRevives(d: Desk, op: Op, i: nat)
    requires i < |d.rows| && d.rows[i].status == ConfirmFailed
    requires i < |Step(d, op).rows| && Step(d, op).rows[i].status != ConfirmFailed
    ensures (op.ConfirmOp? && op.id == i)
         || (op.Commit? && op.k < |d.plans| && d.plans[op.k].ToSettle? && i in d.plans[op.k].pending)
  {
    if !(op.Commit? && op.k < |d.plans| && Names(d.plans[op.k], i)) { StatusKept(d, op, i); }
  }

  // ----- Order ids

  /** A BUY whose pending record is missing is stored with the empty order id, and the unique index
      takes that id only once: the fill is kept exactly when no row holds it yet. */
  lemma FallbackBuyKeptIff(rows: seq<Trade>, id: nat, x: Execution)
    requires id >= |rows| && x.side == Buy
    ensures |Confirm(rows, id, x)| == |rows| + 1 <==> !HasOrderId(rows, "")
    ensures HasOrderId(rows, "") ==> Confirm(rows, id, x) == rows
  {
  }

  /** So in a run with two such fills, the second is lost, whatever happens in between. */
  lemma SecondFallbackBuyLost(d: Desk, id1: nat, x1: Execution, ops: seq<Op>, id2: nat, x2: Execution)
    requires UniqueOrderIds(d.rows) && id1 >= |d.rows| && x1.side == Buy && x2.side == Buy
    ensures var mid := Run(Step(d, ConfirmOp(id1, x1)), ops).rows;
            id2 >= |mid| ==> Confirm(mid, id2, x2) == mid
  {
    var first := Step(d, ConfirmOp(id1, x1));
    ConfirmStep(d.rows, id1, x1);
    KeepsUnique(d.rows, first.rows);
    assert HasOrderId(first.rows, "") by {
      if !HasOrderId(d.rows, "") {
        assert first.rows[|d.rows|].origin.orderId == Some("");
      }
    }
    LifecycleSafe(first, ops);
    var i :| 0 <= i < |first.rows| && first.rows[i].origin.orderId == Some("");
    assert Moves(first.rows[i], Run(first, ops).rows[i]);
  }

  // ----- Position

  lemma SaleOpKeepsBought(rows: seq<Trade>, id: nat, x: Execution, symbol: string)
    requires x.side == Sell && (id < |rows| ==> rows[id].origin.side == Sell)
    ensures Bought(Confirm(rows, id, x), symbol) == Bought(rows, symbol)
  {
    var sale := Sale(x.symbol, x.price, x.reason, x.now);
    if id >= |rows| {
      SaleKeepsBought(rows, sale, x.qty, symbol);
    } else {
      var rows1 := rows[id := ConfirmedRow(rows[id], x)];
      var rows2 := SellInto(rows1, sale, x.qty);
      BoughtUpdate(rows, id, ConfirmedRow(rows[id], x), symbol);
      SaleKeepsBought(rows1, sale, x.qty, symbol);
      SellIntoRows(rows1, sale, x.qty);
      BoughtUpdate(rows2, id, Confirm(rows, id, x)[id], symbol);
    }
  }

  /** Confirming a SELL order leaves open what the matching of its fill leaves of the lots that were
      open before, and its row shows the quantity that found a lot - or the fill, if none did. */
  lemma ConfirmedSale(rows: seq<Trade>, id: nat, x: Execution)
    requires id < |rows| && rows[id].origin.side == Sell && x.side == Sell
    ensures var lots, after := OpenLots(rows, x.symbol), Confirm(rows, id, x);
            var applied := Min(Max(x.qty, 0), TotalSellable(lots));
            && OpenLots(after, x.symbol) == StillOpen(Fill(lots, Max(x.qty, 0), SaleOf(x)).lots)
            && id < |after| && after[id].status == Confirmed
            && after[id].quantity == if applied != 0 then applied else x.qty
  {
    var sale := SaleOf(x);
    var rows1 := rows[id := ConfirmedRow(rows[id], x)];
    var rows2 := SellInto(rows1, sale, x.qty);
    SellRowUnseen(rows, id, ConfirmedRow(rows[id], x), x.symbol);
    RereadAfterSale(rows1, sale, x.qty);
    SellIntoRows(rows1, sale, x.qty);
    SellRowUnseen(rows2, id, Confirm(rows, id, x)[id], x.symbol);
    AppliedQuantity(OpenLots(rows, x.symbol), x.qty, sale);
  }

  function SaleOf(x: Execution): Sale { Sale(x.symbol, x.price, x.reason, x.now) }

  /** Confirming a BUY order makes its row an open lot of its symbol with the filled quantity and
      price, unless the row has an exit, and touches no other row. */
  lemma ConfirmedBuy(rows: seq<Trade>, id: nat, x: Execution)
    requires id < |rows| && rows[id].origin.side == Buy && x.side == Buy && rows[id].origin.symbol == x.symbol
    ensures var after := Confirm(rows, id, x);
            && (id in OpenIds(after, |after|, x.symbol) <==> rows[id].Open())
            && after[id] == rows[id].(status := Confirmed, quantity := x.qty, entryPrice := x.price,
                                      entryAt := if rows[id].entryAt.Some? then rows[id].entryAt else Some(x.now))
            && |after| == |rows| && forall i :: 0 <= i < |rows| && i != id ==> after[i] == rows[i]
  {
    var after := Confirm(rows, id, x);
    OpenIdsMembers(after, |after|, x.symbol);
  }
}
