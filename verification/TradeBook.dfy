/** The code that runs the transactions: record objects, looked up and updated in place. */
module TradeBook {
  import opened Common
  import opened TradeRecords
  import opened SellFill
  import opened TradeLedger
  import opened LedgerLaws
  import opened Reconciliation
  import opened Recovery

  class TradeBook {
    var rows: seq<TradeResult>
    ghost var table: seq<Trade>

    ghost predicate Valid()
      reads this, rows
    {
      Distinct(rows) && Shows(rows, table)
    }

    constructor ()
      ensures Valid() && table == [] && rows == []
    {
      rows, table := [], [];
    }

    // ----- Queries

    /** What the unique index on order_id looks up. */
    method IndexHolds(orderId: string) returns (found: bool)
      requires Valid()
      ensures found == HasOrderId(table, orderId)
    {
      found := false;
      for i := 0 to |rows|
        invariant !found && forall j :: 0 <= j < i ==> table[j].origin.orderId != Some(orderId)
      {
        assert rows[i].Snapshot() == table[i];
        if rows[i].origin.orderId == Some(orderId) {
          return true;
        }
      }
    }

    /** The code's own duplicate check: it does not look for the empty id. */
    method GetByOrderId(orderId: string) returns (found: bool)
      requires Valid()
      ensures found == (orderId != "" && HasOrderId(table, orderId))
    {
      found := false;
      if orderId != "" {
        found := IndexHolds(orderId);
      }
    }

    method ReadAll() returns (values: seq<Trade>)
      requires Valid()
      ensures values == table
    {
      values := [];
      for i := 0 to |rows|
        invariant values == table[..i]
      {
        assert rows[i].Snapshot() == table[i];
        values := values + [rows[i].Snapshot()];
      }
    }

    method GetAllOpenBuys(symbol: string) returns (ghost ids: seq<nat>, openBuys: seq<TradeResult>)
      requires Valid()
      ensures ids == OpenIds(table, |table|, symbol) && |openBuys| == |ids| && Distinct(openBuys)
      ensures forall k :: 0 <= k < |ids| ==> openBuys[k] == rows[ids[k]]
      ensures Shows(openBuys, At(table, ids))
    {
      var values := ReadAll();
      var found := OpenIds(values, |values|, symbol);
      var all := rows;
      openBuys := seq(|found|, k requires 0 <= k < |found| && found[k] < |all| => all[found[k]]);
      ids := found;
      OpenIdsMembers(table, |table|, symbol);
    }

    // ----- Transactions

    method Add(t: Trade)
      requires Valid()
      modifies this
      ensures Valid() && table == old(table) + [t]
      ensures |rows| == |old(rows)| + 1 && old(rows) <= rows && fresh(rows[|old(rows)|])
    {
      var record := new TradeResult(t);
      rows, table := rows + [record], table + [t];
    }

    /** Adds a record, unless the unique index on order_id refuses it. */
    method InsertRecord(t: Trade)
      requires Valid()
      modifies this
      ensures Valid() && table == Insert(old(table), t)
    {
      var taken := false;
      if t.origin.orderId.Some? {
        taken := IndexHolds(t.origin.orderId.value);
      }
      if !taken {
        Add(t);
      }
    }

    method CreatePendingRecord(orderId: string, x: Execution)
      requires Valid()
      modifies this
      ensures Valid() && table == CreatePending(old(table), orderId, x)
    {
      var existing := GetByOrderId(orderId);
      if !existing {
        InsertRecord(PendingRow(orderId, x));
      }
    }

    method MarkPendingFailed(id: nat)
      requires Valid()
      modifies this, rows
      ensures Valid() && rows == old(rows) && table == MarkFailed(old(table), id)
    {
      if id < |rows| {
        assert rows[id].Snapshot() == table[id];
        if rows[id].status == PendingConfirm {
          rows[id].status := ConfirmFailed;
          table := table[id := table[id].(status := ConfirmFailed)];
        }
      }
    }

    /** Matches the sale with the open lots of its symbol; also tells what `Summary` says. */
    method Sell(sale: Sale, qty: int) returns (report: Report, ghost ids: seq<nat>)
      requires Valid()
      modifies this, rows
      ensures Valid() && table == SellInto(old(table), sale, qty)
      ensures |old(rows)| <= |rows|
      ensures forall i :: 0 <= i < |rows| ==> if i < |old(rows)| then rows[i] == old(rows)[i] else fresh(rows[i])
      ensures report == Summary(Fill(OpenLots(old(table), sale.symbol), Max(qty, 0), sale), qty)
    {
      var openBuys, added;
      ids, openBuys := GetAllOpenBuys(sale.symbol);
      OpenIdsMembers(table, |table|, sale.symbol);
      ghost var o := Fill(At(table, ids), Max(qty, 0), sale);
      added, report := ApplySellFillToOpenBuys(openBuys, At(table, ids), sale, qty);
      ghost var written := Write(table, ids, o.lots);
      assert Shows(rows, written) by { WrittenBack(rows, table, ids, openBuys, o.lots); }
      ShowsAppend(rows, written, added, o.clones);
      rows, table := rows + added, written + o.clones;
    }

    method RecordTradeResult(orderId: string, x: Execution)
      requires Valid()
      modifies this, rows
      ensures Valid() && table == Record(old(table), orderId, x)
    {
      var existing := GetByOrderId(orderId);
      if existing {
        return;
      }
      var origin := Origin(Some(orderId), x.symbol, x.side, x.context, x.now);
      if x.side == Buy {
        InsertRecord(Trade(origin, Confirmed, x.qty, x.price, Some(x.now), NO_EXIT));
      } else {
        ghost var ids;
        var openBuys;
        ids, openBuys := GetAllOpenBuys(x.symbol);
        if openBuys == [] {
          InsertRecord(Trade(origin, Confirmed, x.qty, 0.0, Some(x.now),
                             NO_EXIT.(price := x.price, reason := ReasonOr(x.reason), at := Some(x.now))));
        } else {
          var report;
          report, ids := Sell(Sale(x.symbol, x.price, x.reason, x.now), x.qty);
        }
      }
    }

    /** Overwrites one row. */
    method Overwrite(id: nat, ghost t: Trade, status: Status, quantity: int, entryPrice: real, entryAt: Option<int>,
                     exit: Exit)
      requires Valid() && id < |rows| && t == Trade(table[id].origin, status, quantity, entryPrice, entryAt, exit)
      modifies this, rows[id]
      ensures Valid() && rows == old(rows) && table == old(table)[id := t]
    {
      assert rows[id].Snapshot() == table[id];
      rows[id].status, rows[id].quantity, rows[id].entryPrice := status, quantity, entryPrice;
      rows[id].entryAt, rows[id].exit := entryAt, exit;
      table := table[id := t];
    }

    method ConfirmPendingRecord(id: nat, x: Execution)
      requires Valid()
      modifies this, rows
      ensures Valid() && table == Confirm(old(table), id, x)
    {
      if id >= |rows| {
        RecordTradeResult("", x);
        return;
      }
      var tr := rows[id];
      assert tr.Snapshot() == table[id];
      if x.side == Buy {
        var entryAt := if tr.entryAt.Some? then tr.entryAt else Some(x.now);
        Overwrite(id, ConfirmedRow(table[id], x), Confirmed, x.qty, x.price, entryAt, tr.exit);
      } else {
        var exit := tr.exit.(price := x.price, at := Some(x.now), reason := ReasonOr(x.reason));
        Overwrite(id, ConfirmedRow(table[id], x), Confirmed, x.qty, tr.entryPrice, tr.entryAt, exit);
        ghost var ids;
        var report;
        report, ids := Sell(Sale(x.symbol, x.price, x.reason, x.now), x.qty);
        var applied := if report.applied != 0 then report.applied else x.qty;
        assert rows[id].Snapshot() == table[id];
        Overwrite(id, table[id].(quantity := applied), rows[id].status, applied, rows[id].entryPrice, rows[id].entryAt,
                  rows[id].exit);
      }
    }

    /** One pending record against the broker's answers. */
    method RecoverRecord(id: nat, a: Answers) returns (verdict: Verdict)
      requires Valid() && id < |table|
      modifies this, rows
      ensures Valid() && table == RecoverRow(old(table), id, a) && verdict == Judge(old(table), old(table)[id], a)
      ensures |old(rows)| <= |rows|
      ensures forall i :: 0 <= i < |rows| ==> if i < |old(rows)| then rows[i] == old(rows)[i] else fresh(rows[i])
    {
      var values := ReadAll();
      verdict := Judge(values, values[id], a);
      if verdict == Wait {
        assert table[id := table[id]] == table;
        return;
      }
      var t := Settled(values[id], verdict, a.now);
      Overwrite(id, t, t.status, t.quantity, t.entryPrice, t.entryAt, t.exit);
      if verdict.SoldDown? {
        ghost var ids;
        var report;
        report, ids := Sell(SaleBehind(values[id], a.now), verdict.qty);
      }
    }

    /** The recovery after the close, over everything that is pending. */
    method RecoverPending(a: Answers) returns (tally: Tally)
      requires Valid()
      modifies this, rows
      ensures Valid() && table == RecoverAll(old(table), PendingIds(old(table), |old(table)|), a)
      ensures tally == TallyOf(old(table), PendingIds(old(table), |old(table)|), a, Tally(0, 0, 0))
    {
      var values := ReadAll();
      var ids := PendingIds(values, |values|);
      tally := Tally(0, 0, 0);
      for k := 0 to |ids|
        invariant Valid() && InRange(ids[k..], |table|)
        invariant |old(rows)| <= |rows|
        invariant forall i :: 0 <= i < |rows| ==> if i < |old(rows)| then rows[i] == old(rows)[i] else fresh(rows[i])
        invariant RecoverAll(table, ids[k..], a) == RecoverAll(values, ids, a)
        invariant TallyOf(table, ids[k..], a, tally) == TallyOf(values, ids, a, Tally(0, 0, 0))
      {
        RecoverNext(table, ids, k, a, tally);
        var verdict := RecoverRecord(ids[k], a);
        tally := Count(tally, verdict);
      }
    }

    /** The loop of the cleanup: fails the pending BUY records among the stale ones, and lists what
        was eligible and what was passed over. */
    method FailStale(ids: seq<nat>, stale: seq<nat>, dryRun: bool)
      returns (updated: nat, candidates: seq<nat>, skipped: seq<Skip>, ghost flipped: set<nat>)
      requires Valid() && InRange(ids, |table|)
      modifies this, rows
      ensures Valid() && rows == old(rows) && Flipped(table, old(table), flipped) && updated == |flipped|
      ensures forall i: nat :: i in flipped <==> i in ids && i < |old(table)| && ToFlip(old(table), i, stale, dryRun)
      ensures candidates == Candidates(ids, old(table), stale)
      ensures skipped == SkippedOf(ids, old(table), stale, dryRun)
    {
      ghost var values := table;
      updated, candidates, skipped, flipped := 0, [], [], {};
      for k := 0 to |ids|
        invariant Valid() && rows == old(rows) && updated == |flipped|
        invariant Processed(ids[..k], values, table, flipped, candidates, skipped, stale, dryRun)
      {
        ghost var now := table;
        var done, candidate, skip := FailIfStale(ids[k], stale, dryRun);
        ProcessedNext(ids, k, values, now, flipped, candidates, skipped, stale, dryRun, done, candidate, skip);
        if done {
          updated, flipped := updated + 1, flipped + {ids[k]};
        }
        candidates := candidates + if candidate then [ids[k]] else [];
        skipped := skipped + if skip.Some? then [skip.value] else [];
      }
      assert ids[..|ids|] == ids;
    }

    method FailIfStale(id: nat, stale: seq<nat>, dryRun: bool) returns (done: bool, candidate: bool, skip: Option<Skip>)
      requires Valid() && id < |table|
      modifies this, rows
      ensures Valid() && rows == old(rows) && done == ToFlip(old(table), id, stale, dryRun)
      ensures table == if done then old(table)[id := old(table)[id].(status := ConfirmFailed)] else old(table)
      ensures candidate == (id in stale && old(table)[id].origin.side == Buy)
      ensures skip == SkipOf(id, old(table)[id], stale, dryRun, old(table)[id].status != PendingConfirm)
    {
      done, candidate, skip := false, false, None;
      assert rows[id].Snapshot() == table[id];
      if id !in stale { return; }
      if rows[id].origin.side != Buy {
        skip := Some(Skip(id, NotABuy));
        return;
      }
      candidate := true;
      if dryRun { return; }
      if rows[id].status != PendingConfirm {
        skip := Some(Skip(id, StatusChanged));
        return;
      }
      done := true;
      MarkPendingFailed(id);
    }

    /** The manual cleanup over the given records; `updated` counts the flipped rows. */
    method Cleanup(ids: seq<nat>, orders: seq<BrokerOrder>, dryRun: bool, now: int, staleAfter: int)
      returns (updated: nat, candidates: seq<nat>, skipped: seq<Skip>, report: Findings, ghost flipped: set<nat>)
      requires Valid() && InRange(ids, |table|)
      modifies this, rows
      ensures Valid() && rows == old(rows) && table == Cleaned(old(table), ids, orders, dryRun, now, staleAfter)
      ensures updated == |flipped|
      ensures forall i: nat :: i in flipped <==>
                i < |old(table)| && !dryRun && Flips(i, old(table), ids, orders, now, staleAfter)
      ensures forall i: nat :: i in report.dbOnlyStale <==>
                i < |old(table)|
                && DbOnlyStale(i, old(table), RecordById(old(table), ids), BrokerById(orders).Keys, now, staleAfter)
      ensures candidates == Candidates(ids, old(table), report.dbOnlyStale)
      ensures skipped == SkippedOf(ids, old(table), report.dbOnlyStale, dryRun)
    {
      var values := ReadAll();
      report := BuildReport(orders, values, ids, now, staleAfter);
      updated, candidates, skipped, flipped := FailStale(ids, report.dbOnlyStale, dryRun);
    }
  }

  /** One more record of the recovery. */
  lemma RecoverNext(rows: seq<Trade>, ids: seq<nat>, k: nat, a: Answers, tally: Tally)
    requires k < |ids| && InRange(ids[k..], |rows|)
    ensures ids[k] < |rows|
    ensures var next := RecoverRow(rows, ids[k], a);
            && InRange(ids[k + 1..], |next|)
            && RecoverAll(rows, ids[k..], a) == RecoverAll(next, ids[k + 1..], a)
            && TallyOf(rows, ids[k..], a, tally)
                 == TallyOf(next, ids[k + 1..], a, Count(tally, Judge(rows, rows[ids[k]], a)))
  {
    assert ids[k..][0] == ids[k] && ids[k..][1..] == ids[k + 1..];
    RowKeeps(rows, ids[k], a);
  }

  // ----- What the cleanup reports

  datatype Why = NotABuy | StatusChanged

  datatype Skip = Skip(id: nat, why: Why)

  /** The stale BUY records, in the given order. */
  function Candidates(ids: seq<nat>, rows: seq<Trade>, stale: seq<nat>): seq<nat>
    requires InRange(ids, |rows|)
  {
    if ids == [] then []
    else
      var n := |ids| - 1;
      var rest := Candidates(ids[..n], rows, stale);
      if ids[n] in stale && rows[ids[n]].origin.side == Buy then rest + [ids[n]] else rest
  }

  function SkipOf(id: nat, t: Trade, stale: seq<nat>, dryRun: bool, changed: bool): Option<Skip> {
    if id !in stale then None
    else if t.origin.side != Buy then Some(Skip(id, NotABuy))
    else if !dryRun && changed then Some(Skip(id, StatusChanged))
    else None
  }

  /** The stale records passed over: a record given twice has changed its status the second time. */
  function SkippedOf(ids: seq<nat>, rows: seq<Trade>, stale: seq<nat>, dryRun: bool): seq<Skip>
    requires InRange(ids, |rows|)
  {
    if ids == [] then []
    else
      var n := |ids| - 1;
      var rest := SkippedOf(ids[..n], rows, stale, dryRun);
      var changed := rows[ids[n]].status != PendingConfirm || ids[n] in ids[..n];
      var skip := SkipOf(ids[n], rows[ids[n]], stale, dryRun, changed);
      if skip.Some? then rest + [skip.value] else rest
  }

  /** A stale BUY record that is still pending, unless nothing is to be written. */
  predicate ToFlip(values: seq<Trade>, id: nat, stale: seq<nat>, dryRun: bool)
    requires id < |values|
  {
    id in stale && values[id].origin.side == Buy && !dryRun && values[id].status == PendingConfirm
  }

  /** The cleanup has gone through `ids`. */
  ghost predicate Processed(ids: seq<nat>, values: seq<Trade>, table: seq<Trade>, flipped: set<nat>,
                            candidates: seq<nat>, skipped: seq<Skip>, stale: seq<nat>, dryRun: bool)
    requires InRange(ids, |values|)
  {
    && Flipped(table, values, flipped)
    && (forall i: nat :: i in flipped <==> i in ids && i < |values| && ToFlip(values, i, stale, dryRun))
    && candidates == Candidates(ids, values, stale)
    && skipped == SkippedOf(ids, values, stale, dryRun)
  }

  lemma ProcessedNext(ids: seq<nat>, k: nat, values: seq<Trade>, now: seq<Trade>, flipped: set<nat>,
                      candidates: seq<nat>, skipped: seq<Skip>, stale: seq<nat>, dryRun: bool,
                      done: bool, candidate: bool, skip: Option<Skip>)
    requires k < |ids| && InRange(ids, |values|)
    requires Processed(ids[..k], values, now, flipped, candidates, skipped, stale, dryRun)
    requires done == ToFlip(now, ids[k], stale, dryRun)
    requires candidate == (ids[k] in stale && now[ids[k]].origin.side == Buy)
    requires skip == SkipOf(ids[k], now[ids[k]], stale, dryRun, now[ids[k]].status != PendingConfirm)
    ensures done ==> ids[k] !in flipped
    ensures Processed(ids[..k + 1], values, if done then now[ids[k] := now[ids[k]].(status := ConfirmFailed)] else now,
                      if done then flipped + {ids[k]} else flipped,
                      candidates + (if candidate then [ids[k]] else []),
                      skipped + (if skip.Some? then [skip.value] else []), stale, dryRun)
  {
    assert ids[..k + 1] == ids[..k] + [ids[k]] && ids[..k + 1][..k] == ids[..k];
    assert ids[k] in flipped ==> now[ids[k]].status == ConfirmFailed;
  }

  /** `table` is `values` with the given rows turned into CONFIRM_FAILED. */
  ghost predicate Flipped(table: seq<Trade>, values: seq<Trade>, flipped: set<nat>) {
    && |table| == |values|
    && forall i :: 0 <= i < |table|
         ==> table[i] == if i in flipped then values[i].(status := ConfirmFailed) else values[i]
  }

  /** Updating the queried records updates exactly their rows. */
  lemma WrittenBack(rows: seq<TradeResult>, table: seq<Trade>, ids: seq<nat>, openBuys: seq<TradeResult>,
                    lots: seq<Trade>)
    requires |rows| == |table| && InRange(ids, |rows|) && |ids| == |openBuys| == |lots| && Distinct(ids)
    requires forall k :: 0 <= k < |ids| ==> openBuys[k] == rows[ids[k]]
    requires Shows(openBuys, lots)
    requires forall i: nat :: i < |rows| && i !in ids ==> rows[i].Snapshot() == table[i]
    ensures Shows(rows, Write(table, ids, lots))
  {
    forall i: nat | i < |rows| ensures rows[i].Snapshot() == Write(table, ids, lots)[i] {
      if i in ids {
        var k :| 0 <= k < |ids| && ids[k] == i;
        WriteAt(table, ids, lots, k);
        assert openBuys[k].Snapshot() == lots[k];
      } else {
        WriteElsewhere(table, ids, lots, i);
      }
    }
  }
}
