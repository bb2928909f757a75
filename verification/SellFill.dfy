/** First-in-first-out matching of a sell fill against the open BUY lots. */
module SellFill {
  import opened Common
  import opened TradeRecords

  /** The sell: what it is matched with and what it writes on every lot it closes. */
  datatype Sale = Sale(symbol: string, price: real, reason: string, at: int)

  datatype Report = Report(
    applied: int,
    closedLots: nat,
    remainingOpen: int,
    totalPnl: real,
    totalReturnPct: real,
    partialExit: bool)

  // ----- Effect on one lot

  function Pnl(entry: real, qty: int, price: real): real { (price - entry) * qty as real }

  /** The percentage before it is rounded to two decimals. */
  function ReturnPct(entry: real, price: real): real {
    if entry > 0.0 then (price - entry) / entry * 100.0 else 0.0
  }

  function HoldDays(entryAt: Option<int>, at: int): int {
    if entryAt.Some? then (at - entryAt.value) / SECONDS_PER_DAY else 0
  }

  function ExitOf(entry: real, entryAt: Option<int>, qty: int, sale: Sale): Exit {
    var pnl := Pnl(entry, qty, sale.price);
    Exit(sale.price, pnl, ReturnPct(entry, sale.price), pnl > 0.0, HoldDays(entryAt, sale.at),
         if sale.reason != "" then sale.reason else "SIGNAL", Some(sale.at))
  }

  /** The new record for the closed part of a split lot, before its exit is written. */
  function SplitOff(lot: Trade, qty: int, sale: Sale): Trade {
    var symbol := if lot.origin.symbol != "" then lot.origin.symbol else sale.symbol;
    Trade(Origin(None, symbol, Buy, lot.origin.context, sale.at), lot.status, qty, lot.entryPrice, lot.entryAt, NO_EXIT)
  }

  // ----- The matching, as a function

  /** `lots` are the given lots afterwards, `clones` the records split off from them. */
  datatype Outcome = Outcome(
    lots: seq<Trade>,
    clones: seq<Trade>,
    unfilled: int,
    closedLots: nat,
    pnl: real,
    returnPct: real,
    partialExit: bool)

  /** The lot at the head of the matching: skipped, closed, or split in two. */
  function Turn(lot: Trade, remaining: int, sale: Sale): Outcome {
    if lot.quantity <= 0 then Outcome([lot], [], remaining, 0, 0.0, 0.0, false)
    else
      var closeQty := Min(lot.quantity, remaining);
      var split := closeQty < lot.quantity;
      var exit := ExitOf(lot.entryPrice, lot.entryAt, closeQty, sale);
      Outcome([if split then lot.(quantity := lot.quantity - closeQty) else lot.(exit := exit)],
              if split then [SplitOff(lot, closeQty, sale).(exit := exit)] else [],
              remaining - closeQty, 1, exit.pnl, exit.returnPct, split)
  }

  /** Two consecutive stretches of one matching, put together. */
  function Then(done: Outcome, rest: Outcome): Outcome {
    Outcome(done.lots + rest.lots, done.clones + rest.clones, rest.unfilled, done.closedLots + rest.closedLots,
            done.pnl + rest.pnl, done.returnPct + rest.returnPct, done.partialExit || rest.partialExit)
  }

  function Fill(lots: seq<Trade>, qty: int, sale: Sale): (o: Outcome)
    ensures |o.lots| == |lots|
  {
    if lots == [] || qty <= 0 then Outcome(lots, [], qty, 0, 0.0, 0.0, false)
    else
      var turn := Turn(lots[0], qty, sale);
      Then(turn, Fill(lots[1..], turn.unfilled, sale))
  }

  /** Total quantity of the records that are still open. */
  function OpenQuantity(lots: seq<Trade>): int {
    if lots == [] then 0
    else (if lots[0].Open() then lots[0].quantity else 0) + OpenQuantity(lots[1..])
  }

  function Summary(o: Outcome, filledQty: int): Report {
    Report(Max(filledQty, 0) - Max(o.unfilled, 0), o.closedLots, OpenQuantity(o.lots), o.pnl, o.returnPct,
           o.partialExit)
  }

  // ----- The matching, as the loop over record objects

  /** After the first `i` lots the matching has reached `done`. */
  ghost predicate Reached(lots: seq<Trade>, qty: int, sale: Sale, i: nat, done: Outcome)
    requires i <= |lots|
  {
    && |done.lots| == i
    && Fill(lots, qty, sale) == Then(done, Fill(lots[i..], done.unfilled, sale))
  }

  lemma ReachedStart(lots: seq<Trade>, qty: int, sale: Sale)
    ensures Reached(lots, qty, sale, 0, Outcome([], [], qty, 0, 0.0, 0.0, false))
  {
    var o := Fill(lots, qty, sale);
    assert lots[0..] == lots && [] + o.lots == o.lots && [] + o.clones == o.clones;
  }

  lemma ReachedTurn(lots: seq<Trade>, qty: int, sale: Sale, i: nat, done: Outcome)
    requires i < |lots| && Reached(lots, qty, sale, i, done) && done.unfilled > 0
    ensures Reached(lots, qty, sale, i + 1, Then(done, Turn(lots[i], done.unfilled, sale)))
  {
    assert lots[i..][1..] == lots[i + 1..];
    var turn := Turn(lots[i], done.unfilled, sale);
    var rest := Fill(lots[i + 1..], turn.unfilled, sale);
    assert done.lots + (turn.lots + rest.lots) == (done.lots + turn.lots) + rest.lots;
    assert done.clones + (turn.clones + rest.clones) == (done.clones + turn.clones) + rest.clones;
  }

  lemma ReachedEnd(lots: seq<Trade>, filledQty: int, sale: Sale, i: nat, done: Outcome)
    requires i <= |lots| && Reached(lots, Max(filledQty, 0), sale, i, done) && (i == |lots| || done.unfilled <= 0)
    ensures var o := Fill(lots, Max(filledQty, 0), sale);
            && o.lots == done.lots + lots[i..]
            && o.clones == done.clones
            && Summary(o, filledQty) == Report(Max(filledQty, 0) - Max(done.unfilled, 0), done.closedLots,
                                               OpenQuantity(done.lots + lots[i..]), done.pnl, done.returnPct,
                                               done.partialExit)
  {
    assert done.clones + [] == done.clones;
  }

  lemma NextDone(done: seq<Trade>, lots: seq<Trade>, lot: Trade)
    requires |done| < |lots|
    ensures (done + lots[|done|..])[|done| := lot] == (done + [lot]) + lots[|done| + 1..]
  {
  }

  /** One turn of the loop: a lot without quantity is passed over. */
  method CloseLot(openBuys: seq<TradeResult>, ghost lots: seq<Trade>, ghost qty: int, sale: Sale, i: nat,
                  ghost done: Outcome, remaining: int)
    returns (added: seq<TradeResult>, closeQty: int, closedLots: nat, pnl: real, pct: real, ghost next: Outcome)
    requires i < |openBuys| == |lots| && Distinct(openBuys) && remaining > 0
    requires Reached(lots, qty, sale, i, done) && done.unfilled == remaining && Shows(openBuys, done.lots + lots[i..])
    modifies openBuys[i]
    ensures fresh(added) && |added| <= 1 && closeQty <= remaining
    ensures Reached(lots, qty, sale, i + 1, next) && Shows(openBuys, next.lots + lots[i + 1..])
    ensures done.clones <= next.clones && Shows(added, next.clones[|done.clones|..])
    ensures next.unfilled == remaining - closeQty && next.closedLots == done.closedLots + closedLots
    ensures next.pnl == done.pnl + pnl && next.returnPct == done.returnPct + pct
    ensures next.partialExit == (done.partialExit || added != [])
  {
    added, closeQty, closedLots, pnl, pct := [], 0, 0, 0.0, 0.0;
    var openBuy := openBuys[i];
    ghost var turn := Turn(lots[i], remaining, sale);
    ReachedTurn(lots, qty, sale, i, done);
    NextDone(done.lots, lots, turn.lots[0]);
    next := Then(done, turn);
    assert openBuy.Snapshot() == (done.lots + lots[i..])[i] == lots[i];
    if openBuy.quantity > 0 {
      closeQty, closedLots := Min(openBuy.quantity, remaining), 1;
      var target := openBuy;
      if closeQty < openBuy.quantity {
        target := new TradeResult(SplitOff(openBuy.Snapshot(), closeQty, sale));
        added := [target];
        openBuy.quantity := openBuy.quantity - closeQty;
      }
      target.exit := ExitOf(openBuy.entryPrice, openBuy.entryAt, closeQty, sale);
      pnl, pct := target.exit.pnl, target.exit.returnPct;
    }
    assert Shows(openBuys, (done.lots + lots[i..])[i := turn.lots[0]]);
    assert next.clones[|done.clones|..] == turn.clones;
  }

  lemma AddSplit(added: seq<TradeResult>, clones: seq<Trade>, split: seq<TradeResult>, clones': seq<Trade>)
    requires Shows(added, clones) && Distinct(added)
    requires |split| <= 1 && forall record :: record in split ==> record !in added
    requires clones <= clones' && Shows(split, clones'[|clones|..])
    ensures Shows(added + split, clones') && Distinct(added + split)
  {
    ShowsAppend(added, clones, split, clones'[|clones|..]);
    assert clones + clones'[|clones|..] == clones';
    forall i, j | 0 <= i < j < |added + split| ensures (added + split)[i] != (added + split)[j] {
      assert j >= |added| ==> split[j - |added|] in split;
    }
  }

  /** The loop over the lots. */
  method MatchLots(openBuys: seq<TradeResult>, ghost lots: seq<Trade>, sale: Sale, qty: int)
    returns (added: seq<TradeResult>, remaining: int, closedLots: nat, totalPnl: real, totalReturnPct: real,
             partialExit: bool, ghost i: nat, ghost done: Outcome)
    requires Distinct(openBuys) && Shows(openBuys, lots) && qty >= 0
    modifies openBuys
    ensures fresh(added) && Distinct(added)
    ensures i <= |lots| && Reached(lots, qty, sale, i, done) && (i == |lots| || remaining <= 0)
    ensures Shows(openBuys, done.lots + lots[i..]) && Shows(added, done.clones)
    ensures done.unfilled == remaining && done.closedLots == closedLots && done.partialExit == partialExit
    ensures done.pnl == totalPnl && done.returnPct == totalReturnPct
  {
    remaining, closedLots, totalPnl, totalReturnPct, partialExit := qty, 0, 0.0, 0.0, false;
    done := Outcome([], [], qty, 0, 0.0, 0.0, false);
    ReachedStart(lots, qty, sale);
    added, i := [], 0;
    for k := 0 to |openBuys|
      invariant i == k && remaining >= 0
      invariant fresh(added) && Distinct(added)
      invariant Reached(lots, qty, sale, i, done)
      invariant Shows(openBuys, done.lots + lots[i..]) && Shows(added, done.clones)
      invariant done.unfilled == remaining && done.closedLots == closedLots && done.partialExit == partialExit
      invariant done.pnl == totalPnl && done.returnPct == totalReturnPct
    {
      if remaining <= 0 {
        break;
      }
      ghost var clones := done.clones;
      var split, closeQty, closed, pnl, pct;
      split, closeQty, closed, pnl, pct, done := CloseLot(openBuys, lots, qty, sale, k, done, remaining);
      AddSplit(added, clones, split, done.clones);
      added, i := added + split, i + 1;
      partialExit := partialExit || split != [];
      totalPnl, totalReturnPct := totalPnl + pnl, totalReturnPct + pct;
      closedLots, remaining := closedLots + closed, remaining - closeQty;
    }
  }

  /** Updates the lots in place, in the given order; `added` are the records added to the session. */
  method ApplySellFillToOpenBuys(openBuys: seq<TradeResult>, ghost lots: seq<Trade>, sale: Sale, filledQty: int)
    returns (added: seq<TradeResult>, report: Report)
    requires Distinct(openBuys) && Shows(openBuys, lots)
    modifies openBuys
    ensures fresh(added) && Distinct(added)
    ensures var o := Fill(lots, Max(filledQty, 0), sale);
            Shows(openBuys, o.lots) && Shows(added, o.clones) && report == Summary(o, filledQty)
  {
    var remaining, closedLots, totalPnl, totalReturnPct, partialExit;
    ghost var i, done;
    added, remaining, closedLots, totalPnl, totalReturnPct, partialExit, i, done :=
      MatchLots(openBuys, lots, sale, Max(filledQty, 0));
    ReachedEnd(lots, filledQty, sale, i, done);
    var remainingOpen := SumOpen(openBuys, done.lots + lots[i..]);
    report := Report(Max(filledQty, 0) - Max(remaining, 0), closedLots, remainingOpen, totalPnl, totalReturnPct,
                     partialExit);
  }

  method SumOpen(records: seq<TradeResult>, ghost values: seq<Trade>) returns (total: int)
    requires Shows(records, values)
    ensures total == OpenQuantity(values)
  {
    total := 0;
    for i := 0 to |records|
      invariant OpenQuantity(values) == total + OpenQuantity(values[i..])
    {
      assert values[i..][1..] == values[i + 1..];
      assert records[i].Snapshot() == values[i];
      if records[i].exit.at.None? {
        total := total + records[i].quantity;
      }
    }
  }
}
