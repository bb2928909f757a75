/** What the first-in-first-out matching does to the lots, and what it keeps. */
module SellFillLaws {
  import opened Common
  import opened TradeRecords
  import opened SellFill

  // ----- Closed form

  function Sellable(lot: Trade): int { Max(lot.quantity, 0) }

  function TotalSellable(lots: seq<Trade>): int {
    if lots == [] then 0 else Sellable(lots[0]) + TotalSellable(lots[1..])
  }

  /** The share of lot `i`: what is left of the fill after the lots before it, at most the lot. */
  function Share(lots: seq<Trade>, qty: int, i: nat): int
    requires i < |lots|
  {
    Max(0, Min(qty - TotalSellable(lots[..i]), Sellable(lots[i])))
  }

  /** What an exit shows of `c` shares that were bought at `entry` and sold. */
  predicate ShowsExit(exit: Exit, entry: real, entryAt: Option<int>, c: int, sale: Sale) {
    && exit.price == sale.price && exit.at == Some(sale.at)
    && exit.pnl == (sale.price - entry) * c as real
    && (exit.isWin <==> sale.price > entry)
    && (entry > 0.0 ==> exit.returnPct * entry == (sale.price - entry) * 100.0)
    && (entry <= 0.0 ==> exit.returnPct == 0.0)
    && (entryAt.Some? ==> exit.holdDays * 86400 <= sale.at - entryAt.value < (exit.holdDays + 1) * 86400)
    && (entryAt.None? ==> exit.holdDays == 0)
    && exit.reason == if sale.reason == "" then "SIGNAL" else sale.reason
  }

  /** A lot before and after `c` of its shares were sold: untouched, smaller, or closed. */
  predicate AfterShare(lot: Trade, after: Trade, c: int, sale: Sale) {
    if c == 0 then after == lot
    else if c < lot.quantity then after == lot.(quantity := lot.quantity - c)
    else
      && after == lot.(exit := after.exit)
      && c == lot.quantity && ShowsExit(after.exit, lot.entryPrice, lot.entryAt, c, sale)
  }

  /** The record split off a lot for `c` of its shares: the lot without an order id, sold. */
  predicate RecordsShare(clone: Trade, lot: Trade, c: int, sale: Sale) {
    && clone.origin.orderId == None && clone.origin.side == Buy && clone.origin.context == lot.origin.context
    && clone.origin.symbol == (if lot.origin.symbol == "" then sale.symbol else lot.origin.symbol)
    && clone.origin.createdAt == sale.at
    && clone.status == lot.status && clone.quantity == c
    && clone.entryPrice == lot.entryPrice && clone.entryAt == lot.entryAt
    && ShowsExit(clone.exit, lot.entryPrice, lot.entryAt, c, sale)
  }

  lemma {:induction false} ExitShown(entry: real, entryAt: Option<int>, c: int, sale: Sale)
    requires c > 0
    ensures ShowsExit(ExitOf(entry, entryAt, c, sale), entry, entryAt, c, sale)
  {
    var gain := sale.price - entry;
    if gain > 0.0 { ProductPositive(gain, c as real); } else { ProductNonNegative(-gain, c as real); }
    if entry > 0.0 { assert gain / entry * entry == gain; }
  }

  lemma TotalSellableNonNegative(lots: seq<Trade>)
    ensures TotalSellable(lots) >= 0
  {
  }

  /** The share of a later lot, seen from the rest of the matching. */
  lemma ShareOfTail(lots: seq<Trade>, qty: int, i: nat, sale: Sale)
    requires 0 < i < |lots| && qty > 0
    ensures Share(lots[1..], Turn(lots[0], qty, sale).unfilled, i - 1) == Share(lots, qty, i)
  {
    assert lots[..i][0] == lots[0] && lots[..i][1..] == lots[1..][..i - 1];
    TotalSellableNonNegative(lots[1..][..i - 1]);
  }

  lemma {:induction false} ClosedForm(lots: seq<Trade>, qty: int, sale: Sale, i: nat)
    requires i < |lots|
    ensures AfterShare(lots[i], Fill(lots, qty, sale).lots[i], Share(lots, qty, i), sale)
  {
    if qty <= 0 {
      TotalSellableNonNegative(lots[..i]);
    } else if i > 0 {
      ShareOfTail(lots, qty, i, sale);
      ClosedForm(lots[1..], Turn(lots[0], qty, sale).unfilled, sale, i - 1);
    } else if lots[0].quantity > 0 {
      ExitShown(lots[0].entryPrice, lots[0].entryAt, Min(lots[0].quantity, qty), sale);
    }
  }

  /** Lot `i` is only partly sold, `clone` records the part, and no later lot is touched. */
  ghost predicate SplitsAt(lots: seq<Trade>, qty: int, i: nat, sale: Sale, clone: Trade)
    requires i < |lots|
  {
    var c := Share(lots, qty, i);
    && 0 < c < lots[i].quantity
    && RecordsShare(clone, lots[i], c, sale)
    && forall j :: i < j < |lots| ==> Share(lots, qty, j) == 0
  }

  ghost predicate SplitsSomewhere(lots: seq<Trade>, qty: int, sale: Sale, clone: Trade) {
    exists i :: 0 <= i < |lots| && SplitsAt(lots, qty, i, sale, clone)
  }

  /** Every lot is sold whole or not at all. */
  predicate NoSplit(lots: seq<Trade>, qty: int) {
    forall i :: 0 <= i < |lots| ==> Share(lots, qty, i) in {0, Sellable(lots[i])}
  }

  /** At most one lot is split, it is the last one touched, and the clone records its share. */
  lemma {:induction false} OneSplit(lots: seq<Trade>, qty: int, sale: Sale)
    ensures var o := Fill(lots, qty, sale);
            && |o.clones| <= 1
            && o.partialExit == (|o.clones| == 1)
            && (o.clones == [] ==> NoSplit(lots, qty))
            && (o.clones != [] ==> o.unfilled == 0 && SplitsSomewhere(lots, qty, sale, o.clones[0]))
  {
    if qty <= 0 {
      forall i | 0 <= i < |lots| ensures Share(lots, qty, i) == 0 { TotalSellableNonNegative(lots[..i]); }
    } else if lots != [] {
      var turn := Turn(lots[0], qty, sale);
      var rest := Fill(lots[1..], turn.unfilled, sale);
      OneSplit(lots[1..], turn.unfilled, sale);
      if turn.clones != [] {
        assert rest.clones == [];
        SplitOfHead(lots, qty, sale);
        assert SplitsSomewhere(lots, qty, sale, turn.clones[0]);
      } else {
        assert turn.clones + rest.clones == rest.clones;
        SplitOfTail(lots, qty, sale);
      }
    }
  }

  lemma SplitOfHead(lots: seq<Trade>, qty: int, sale: Sale)
    requires lots != [] && qty > 0 && Turn(lots[0], qty, sale).clones != []
    ensures SplitsAt(lots, qty, 0, sale, Turn(lots[0], qty, sale).clones[0])
  {
    ExitShown(lots[0].entryPrice, lots[0].entryAt, Min(lots[0].quantity, qty), sale);
    forall j | 0 < j < |lots| ensures Share(lots, qty, j) == 0 {
      ShareOfTail(lots, qty, j, sale);
      TotalSellableNonNegative(lots[1..][..j - 1]);
    }
  }

  lemma SplitOfTail(lots: seq<Trade>, qty: int, sale: Sale)
    requires lots != [] && qty > 0 && Turn(lots[0], qty, sale).clones == []
    ensures NoSplit(lots[1..], Turn(lots[0], qty, sale).unfilled) ==> NoSplit(lots, qty)
    ensures forall clone :: SplitsSomewhere(lots[1..], Turn(lots[0], qty, sale).unfilled, sale, clone)
                        ==> SplitsSomewhere(lots, qty, sale, clone)
  {
    var left := Turn(lots[0], qty, sale).unfilled;
    forall i | 0 < i < |lots| ensures Share(lots, qty, i) == Share(lots[1..], left, i - 1) {
      ShareOfTail(lots, qty, i, sale);
    }
    forall clone | SplitsSomewhere(lots[1..], left, sale, clone) ensures SplitsSomewhere(lots, qty, sale, clone) {
      var j :| 0 <= j < |lots[1..]| && SplitsAt(lots[1..], left, j, sale, clone);
      forall i | j + 1 < i < |lots| ensures Share(lots, qty, i) == 0 {
        assert Share(lots[1..], left, i - 1) == 0;
      }
      assert SplitsAt(lots, qty, j + 1, sale, clone);
    }
  }

  // ----- Totals

  lemma {:induction false} AppliedQuantity(lots: seq<Trade>, qty: int, sale: Sale)
    ensures var report := Summary(Fill(lots, Max(qty, 0), sale), qty);
            report.applied == Min(Max(qty, 0), TotalSellable(lots))
  {
    Unfilled(lots, Max(qty, 0), sale);
  }

  lemma {:induction false} Unfilled(lots: seq<Trade>, qty: int, sale: Sale)
    requires qty >= 0
    ensures Fill(lots, qty, sale).unfilled == qty - Min(qty, TotalSellable(lots))
  {
    TotalSellableNonNegative(lots);
    if lots == [] || qty <= 0 {
    } else {
      TotalSellableNonNegative(lots[1..]);
      Unfilled(lots[1..], Turn(lots[0], qty, sale).unfilled, sale);
    }
  }

  /** Sum over the first `n` lots of the profit on their shares. */
  function PnlOfShares(lots: seq<Trade>, qty: int, price: real, n: nat): real
    requires n <= |lots|
  {
    if n == 0 then 0.0
    else PnlOfShares(lots, qty, price, n - 1) + (price - lots[n - 1].entryPrice) * Share(lots, qty, n - 1) as real
  }

  /** The same sum, lot by lot as the matching adds it up. */
  function PnlSum(lots: seq<Trade>, qty: int, price: real, n: nat): real
    requires n <= |lots|
  {
    if n == 0 then 0.0
    else PnlSum(lots, qty, price, n - 1) + Pnl(lots[n - 1].entryPrice, Share(lots, qty, n - 1), price)
  }

  lemma {:induction false} SameSum(lots: seq<Trade>, qty: int, price: real, n: nat)
    requires n <= |lots|
    ensures PnlSum(lots, qty, price, n) == PnlOfShares(lots, qty, price, n)
  {
    if n == 0 {
    } else {
      SameSum(lots, qty, price, n - 1);
    }
  }

  lemma {:induction false} PnlOfTail(lots: seq<Trade>, qty: int, sale: Sale, n: nat)
    requires 0 < n <= |lots| && qty > 0
    ensures PnlSum(lots, qty, sale.price, n)
         == Pnl(lots[0].entryPrice, Share(lots, qty, 0), sale.price)
          + PnlSum(lots[1..], Turn(lots[0], qty, sale).unfilled, sale.price, n - 1)
  {
    if n > 1 {
      PnlOfTail(lots, qty, sale, n - 1);
      ShareOfTail(lots, qty, n - 1, sale);
    }
  }

  lemma {:induction false} NoSharesNoPnl(lots: seq<Trade>, qty: int, price: real, n: nat)
    requires qty <= 0 && n <= |lots|
    ensures PnlSum(lots, qty, price, n) == 0.0
  {
    if n == 0 {
    } else {
      NoSharesNoPnl(lots, qty, price, n - 1);
      TotalSellableNonNegative(lots[..n - 1]);
    }
  }

  lemma {:induction false} FillSums(lots: seq<Trade>, qty: int, sale: Sale)
    ensures Fill(lots, qty, sale).pnl == PnlSum(lots, qty, sale.price, |lots|)
  {
    if qty <= 0 {
      NoSharesNoPnl(lots, qty, sale.price, |lots|);
    } else if lots != [] {
      PnlOfTail(lots, qty, sale, |lots|);
      FillSums(lots[1..], Turn(lots[0], qty, sale).unfilled, sale);
    }
  }

  /** The total profit is the sum over all lots of price minus entry, times the share. */
  lemma {:induction false} TotalPnl(lots: seq<Trade>, qty: int, sale: Sale)
    ensures Fill(lots, qty, sale).pnl == PnlOfShares(lots, qty, sale.price, |lots|)
  {
    FillSums(lots, qty, sale);
    SameSum(lots, qty, sale.price, |lots|);
  }

  /** Sum over the first `n` lots of the return, in percent, on every lot that was touched. */
  function ReturnOfShares(lots: seq<Trade>, qty: int, price: real, n: nat): real
    requires n <= |lots|
  {
    if n == 0 then 0.0
    else
      var entry := lots[n - 1].entryPrice;
      ReturnOfShares(lots, qty, price, n - 1)
      + if Share(lots, qty, n - 1) > 0 && entry > 0.0 then (price - entry) / entry * 100.0 else 0.0
  }

  /** How many of the first `n` lots were touched. */
  function Touched(lots: seq<Trade>, qty: int, n: nat): nat
    requires n <= |lots|
  {
    if n == 0 then 0 else Touched(lots, qty, n - 1) + if Share(lots, qty, n - 1) > 0 then 1 else 0
  }

  lemma {:induction false} TotalsOfTail(lots: seq<Trade>, qty: int, sale: Sale, n: nat)
    requires 0 < n <= |lots| && qty > 0
    ensures var left, entry := Turn(lots[0], qty, sale).unfilled, lots[0].entryPrice;
            var first := Share(lots, qty, 0) > 0;
            && ReturnOfShares(lots, qty, sale.price, n)
                 == (if first && entry > 0.0 then (sale.price - entry) / entry * 100.0 else 0.0)
                    + ReturnOfShares(lots[1..], left, sale.price, n - 1)
            && Touched(lots, qty, n) == (if first then 1 else 0) + Touched(lots[1..], left, n - 1)
  {
    if n > 1 {
      TotalsOfTail(lots, qty, sale, n - 1);
      ShareOfTail(lots, qty, n - 1, sale);
    }
  }

  lemma {:induction false} NoSharesNoTotals(lots: seq<Trade>, qty: int, price: real, n: nat)
    requires qty <= 0 && n <= |lots|
    ensures ReturnOfShares(lots, qty, price, n) == 0.0 && Touched(lots, qty, n) == 0
  {
    if n == 0 {
    } else {
      NoSharesNoTotals(lots, qty, price, n - 1);
      TotalSellableNonNegative(lots[..n - 1]);
    }
  }

  /** The total return is the sum over the touched lots, and these are counted. */
  lemma {:induction false} TotalReturn(lots: seq<Trade>, qty: int, sale: Sale)
    ensures Fill(lots, qty, sale).returnPct == ReturnOfShares(lots, qty, sale.price, |lots|)
    ensures Fill(lots, qty, sale).closedLots == Touched(lots, qty, |lots|)
  {
    if qty <= 0 {
      NoSharesNoTotals(lots, qty, sale.price, |lots|);
    } else if lots != [] {
      TotalsOfTail(lots, qty, sale, |lots|);
      TotalReturn(lots[1..], Turn(lots[0], qty, sale).unfilled, sale);
    }
  }

  // ----- Conservation

  predicate AllOpen(lots: seq<Trade>) { forall i :: 0 <= i < |lots| ==> lots[i].Open() }

  /** Total quantity of the records that have an exit. */
  function ClosedQuantity(lots: seq<Trade>): int {
    if lots == [] then 0
    else (if lots[0].Open() then 0 else lots[0].quantity) + ClosedQuantity(lots[1..])
  }

  /** What leaves the open lots is what the closed records hold, and it is the applied quantity. */
  lemma {:induction false} Conservation(lots: seq<Trade>, qty: int, sale: Sale)
    requires AllOpen(lots) && qty >= 0
    ensures var o := Fill(lots, qty, sale);
            && ClosedQuantity(o.lots) + ClosedQuantity(o.clones) == qty - o.unfilled
            && OpenQuantity(o.lots) == OpenQuantity(lots) - (qty - o.unfilled)
            && OpenQuantity(o.clones) == 0
  {
    if lots == [] || qty == 0 {
      AllOpenClosesNothing(lots);
    } else {
      var turn := Turn(lots[0], qty, sale);
      var rest := Fill(lots[1..], turn.unfilled, sale);
      Conservation(lots[1..], turn.unfilled, sale);
      assert (turn.lots + rest.lots)[1..] == rest.lots;
      if turn.clones == [] {
        assert turn.clones + rest.clones == rest.clones;
      } else {
        assert (turn.clones + rest.clones)[1..] == rest.clones;
      }
    }
  }

  lemma AllOpenClosesNothing(lots: seq<Trade>)
    requires AllOpen(lots)
    ensures ClosedQuantity(lots) == 0
  {
  }

  /** Everything that is reported of a fill against open lots. */
  lemma {:induction false} ReportTells(lots: seq<Trade>, qty: int, sale: Sale)
    requires AllOpen(lots)
    ensures var filled := Max(qty, 0);
            var report := Summary(Fill(lots, filled, sale), qty);
            && report.applied == Min(filled, TotalSellable(lots))
            && report.remainingOpen == OpenQuantity(lots) - report.applied
            && report.totalPnl == PnlOfShares(lots, filled, sale.price, |lots|)
            && report.totalReturnPct == ReturnOfShares(lots, filled, sale.price, |lots|)
            && report.closedLots == Touched(lots, filled, |lots|)
            && (report.partialExit <==> exists i :: 0 <= i < |lots| && 0 < Share(lots, filled, i) < lots[i].quantity)
  {
    var filled := Max(qty, 0);
    AppliedQuantity(lots, qty, sale);
    Unfilled(lots, filled, sale);
    TotalSellableNonNegative(lots);
    Conservation(lots, filled, sale);
    TotalPnl(lots, filled, sale);
    TotalReturn(lots, filled, sale);
    OneSplit(lots, filled, sale);
  }

  // ----- Composition

  /** The lots that the next query finds: those still without an exit, in the same order. */
  function StillOpen(lots: seq<Trade>): seq<Trade> {
    if lots == [] then []
    else (if lots[0].Open() then [lots[0]] else []) + StillOpen(lots[1..])
  }

  lemma StillOpenOfOpen(lots: seq<Trade>)
    requires AllOpen(lots)
    ensures StillOpen(lots) == lots
  {
  }

  lemma StillOpenCons(lot: Trade, lots: seq<Trade>)
    ensures StillOpen([lot] + lots) == (if lot.Open() then [lot] else []) + StillOpen(lots)
  {
    assert ([lot] + lots)[1..] == lots;
  }

  /** The open lots after a fill, and the profit it makes: what later fills can see of it. */
  function OpenAfter(lots: seq<Trade>, qty: int): seq<Trade> {
    if lots == [] || qty <= 0 then lots
    else if lots[0].quantity <= 0 then [lots[0]] + OpenAfter(lots[1..], qty)
    else if lots[0].quantity <= qty then OpenAfter(lots[1..], qty - lots[0].quantity)
    else [lots[0].(quantity := lots[0].quantity - qty)] + lots[1..]
  }

  function Gain(lots: seq<Trade>, qty: int, price: real): real {
    if lots == [] || qty <= 0 then 0.0
    else if lots[0].quantity <= 0 then Gain(lots[1..], qty, price)
    else if lots[0].quantity <= qty then
      Pnl(lots[0].entryPrice, lots[0].quantity, price) + Gain(lots[1..], qty - lots[0].quantity, price)
    else Pnl(lots[0].entryPrice, qty, price)
  }

  /** What one turn leaves open of its lot. */
  function LotAfter(lot: Trade, qty: int): seq<Trade> {
    if lot.quantity <= 0 then [lot] else if lot.quantity <= qty then [] else [lot.(quantity := lot.quantity - qty)]
  }

  lemma TurnLeavesOpen(lot: Trade, qty: int, sale: Sale)
    requires lot.Open() && qty > 0
    ensures var turn := Turn(lot, qty, sale);
            && (if turn.lots[0].Open() then [turn.lots[0]] else []) == LotAfter(lot, qty)
            && turn.unfilled == if lot.quantity <= 0 then qty else Max(qty - lot.quantity, 0)
  {
  }

  lemma OpenAfterTurn(lots: seq<Trade>, qty: int)
    requires lots != [] && qty > 0
    ensures OpenAfter(lots, qty)
         == LotAfter(lots[0], qty)
            + OpenAfter(lots[1..], if lots[0].quantity <= 0 then qty else Max(qty - lots[0].quantity, 0))
  {
  }

  lemma {:induction false} FillLeavesOpen(lots: seq<Trade>, qty: int, sale: Sale)
    requires AllOpen(lots)
    ensures StillOpen(Fill(lots, qty, sale).lots) == OpenAfter(lots, qty)
  {
    if lots == [] || qty <= 0 {
      StillOpenOfOpen(lots);
    } else {
      var turn := Turn(lots[0], qty, sale);
      TurnLeavesOpen(lots[0], qty, sale);
      OpenAfterTurn(lots, qty);
      FillLeavesOpen(lots[1..], turn.unfilled, sale);
      StillOpenCons(turn.lots[0], Fill(lots[1..], turn.unfilled, sale).lots);
    }
  }

  lemma {:induction false} FillGains(lots: seq<Trade>, qty: int, sale: Sale)
    ensures Fill(lots, qty, sale).pnl == Gain(lots, qty, sale.price)
  {
    if lots == [] || qty <= 0 {
    } else {
      FillGains(lots[1..], Turn(lots[0], qty, sale).unfilled, sale);
    }
  }

  lemma {:induction false} OpenAfterComposes(lots: seq<Trade>, q1: int, q2: int)
    requires AllOpen(lots) && q1 >= 0 && q2 >= 0
    ensures OpenAfter(OpenAfter(lots, q1), q2) == OpenAfter(lots, q1 + q2)
    ensures AllOpen(OpenAfter(lots, q1))
    ensures TotalSellable(OpenAfter(lots, q1)) == TotalSellable(lots) - Min(q1, TotalSellable(lots))
  {
    TotalSellableNonNegative(lots);
    if lots == [] || q1 == 0 {
    } else {
      TotalSellableNonNegative(lots[1..]);
      OpenAfterComposes(lots[1..], if lots[0].quantity <= 0 then q1 else Max(q1 - lots[0].quantity, 0), q2);
    }
  }

  lemma PnlSplits(entry: real, c1: int, c2: int, price: real)
    ensures Pnl(entry, c1 + c2, price) == Pnl(entry, c1, price) + Pnl(entry, c2, price)
  {
  }

  lemma {:induction false} GainComposes(lots: seq<Trade>, q1: int, q2: int, price: real)
    requires q1 >= 0 && q2 >= 0
    ensures Gain(lots, q1, price) + Gain(OpenAfter(lots, q1), q2, price) == Gain(lots, q1 + q2, price)
  {
    if lots == [] || q1 == 0 {
    } else {
      var lot := lots[0];
      if lot.quantity <= 0 {
        GainComposes(lots[1..], q1, q2, price);
      } else if lot.quantity <= q1 {
        GainComposes(lots[1..], q1 - lot.quantity, q2, price);
      } else {
        PnlSplits(lot.entryPrice, q1, Min(lot.quantity - q1, q2), price);
      }
    }
  }

  /** `o` is what later fills can see of a fill of `qty`. */
  predicate Seen(o: Outcome, lots: seq<Trade>, qty: int, price: real) {
    && StillOpen(o.lots) == OpenAfter(lots, qty)
    && qty - o.unfilled == Min(qty, TotalSellable(lots))
    && o.pnl == Gain(lots, qty, price)
  }

  lemma FillIsSeen(lots: seq<Trade>, qty: int, sale: Sale)
    requires AllOpen(lots) && qty >= 0
    ensures Seen(Fill(lots, qty, sale), lots, qty, sale.price)
  {
    FillLeavesOpen(lots, qty, sale);
    FillGains(lots, qty, sale);
    Unfilled(lots, qty, sale);
  }

  ghost predicate AddUp(o1: Outcome, o2: Outcome, o: Outcome, q1: int, q2: int) {
    && StillOpen(o2.lots) == StillOpen(o.lots)
    && (q1 - o1.unfilled) + (q2 - o2.unfilled) == (q1 + q2) - o.unfilled
    && o1.pnl + o2.pnl == o.pnl
  }

  lemma SeenAddUp(lots: seq<Trade>, q1: int, q2: int, price: real, o1: Outcome, o2: Outcome, o: Outcome)
    requires AllOpen(lots) && q1 >= 0 && q2 >= 0
    requires Seen(o1, lots, q1, price) && Seen(o2, OpenAfter(lots, q1), q2, price) && Seen(o, lots, q1 + q2, price)
    ensures AddUp(o1, o2, o, q1, q2)
  {
    OpenAfterComposes(lots, q1, q2);
    GainComposes(lots, q1, q2, price);
    TotalSellableNonNegative(lots);
  }

  /** Two fills at one price, with the open lots read again in between, leave the same open lots,
      sell the same quantity and make the same profit as one fill of the sum. */
  lemma FillsCompose(lots: seq<Trade>, q1: int, q2: int, s1: Sale, s2: Sale, s: Sale)
    requires AllOpen(lots) && q1 >= 0 && q2 >= 0 && s1.price == s2.price == s.price
    ensures var o1 := Fill(lots, q1, s1);
            var o2 := Fill(StillOpen(o1.lots), q2, s2);
            var o := Fill(lots, q1 + q2, s);
            AddUp(o1, o2, o, q1, q2)
  {
    var o1 := Fill(lots, q1, s1);
    assert Seen(o1, lots, q1, s.price) by { FillIsSeen(lots, q1, s1); }
    var open := OpenAfter(lots, q1);
    assert AllOpen(open) by { OpenAfterComposes(lots, q1, q2); }
    SecondFillAddsUp(lots, q1, q2, s2, s, o1);
  }

  lemma SecondFillAddsUp(lots: seq<Trade>, q1: int, q2: int, s2: Sale, s: Sale, o1: Outcome)
    requires AllOpen(lots) && q1 >= 0 && q2 >= 0 && s2.price == s.price
    requires Seen(o1, lots, q1, s.price) && AllOpen(OpenAfter(lots, q1))
    ensures AddUp(o1, Fill(StillOpen(o1.lots), q2, s2), Fill(lots, q1 + q2, s), q1, q2)
  {
    var o2, o := Fill(OpenAfter(lots, q1), q2, s2), Fill(lots, q1 + q2, s);
    assert Seen(o2, OpenAfter(lots, q1), q2, s.price) by { FillIsSeen(OpenAfter(lots, q1), q2, s2); }
    assert Seen(o, lots, q1 + q2, s.price) by { FillIsSeen(lots, q1 + q2, s); }
    SeenAddUp(lots, q1, q2, s.price, o1, o2, o);
  }
}
