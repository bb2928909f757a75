/** Every trade of a backtest, explained by the bars: where it was entered, and that it left at the
    first bar that gave a reason to. */
module BacktestTrades {
  import opened Common
  import opened Backtest
  import opened BacktestLaws

  /** Why and at what price a position is closed, slippage not yet taken off. */
  datatype Exit = Exit(reason: string, price: real)

  /** What bar `k` makes of a position bought at `entry` on bar `e`. */
  function ExitAt(cfg: Config, strategy: Strategy, bars: seq<Bar>, entry: real, e: nat, k: nat): Option<Exit>
    requires e < k < |bars|
  {
    var stop, take := entry * (1.0 + cfg.stopLossPct / 100.0), entry * (1.0 + cfg.takeProfitPct / 100.0);
    if bars[k].low <= stop then Some(Exit("STOP_LOSS", stop))
    else if bars[k].high >= take then Some(Exit("TAKE_PROFIT", take))
    else if k - e >= cfg.maxHoldDays then Some(Exit("MAX_HOLD_DAYS", bars[k].close))
    else if strategy(bars[..k + 1]) == SellSignal then Some(Exit("SIGNAL", bars[k].close))
    else None
  }

  /** Bought on bar `e`, and no bar before `n` gave a reason to sell. */
  predicate HeldSince(cfg: Config, strategy: Strategy, bars: seq<Bar>, e: nat, n: nat)
    requires n <= |bars|
  {
    && LOOKBACK <= e < n
    && strategy(bars[..e + 1]) == BuySignal
    && forall k :: e < k < n ==> ExitAt(cfg, strategy, bars, BuyPrice(cfg, bars[e].close), e, k) == None
  }

  /** A position opened on bar `e`, as it looks before bar `n`. */
  predicate OpenedOn(cfg: Config, symbol: string, bars: seq<Bar>, p: Position, e: nat, n: nat)
    requires e < n <= |bars|
  {
    p.quantity > 0
      && p == Opened(cfg, symbol, bars[e].date, BuyPrice(cfg, bars[e].close), p.quantity).(holdDays := n - e)
  }

  /** What a trade records of a position opened on bar `e` that left on bar `x`. */
  predicate Records(cfg: Config, symbol: string, bars: seq<Bar>, t: Trade, e: nat, x: nat, exit: Exit)
    requires e < x <= |bars|
  {
    var entry := BuyPrice(cfg, bars[e].close);
    && t.symbol == symbol && t.entryDate == bars[e].date && t.entryPrice == entry && t.quantity > 0
    && t.exitPrice == SellPrice(cfg, exit.price) && t.reason == exit.reason && t.holdDays == x - e
    && t.pnl == Net(cfg, exit.price, t.quantity) - Cost(entry, t.quantity)
    && t.returnPct == ReturnPct(entry, t.exitPrice)
  }

  /** The trade left on the first bar that gave a reason, for that reason. */
  predicate LeftOn(cfg: Config, strategy: Strategy, symbol: string, bars: seq<Bar>, t: Trade, e: nat, x: nat) {
    && e < x < |bars|
    && HeldSince(cfg, strategy, bars, e, x)
    && var exit := ExitAt(cfg, strategy, bars, BuyPrice(cfg, bars[e].close), e, x);
       exit.Some? && t.exitDate == bars[x].date && Records(cfg, symbol, bars, t, e, x, exit.value)
  }

  ghost predicate Explained(cfg: Config, strategy: Strategy, symbol: string, bars: seq<Bar>, t: Trade) {
    exists e: nat, x: nat :: LeftOn(cfg, strategy, symbol, bars, t, e, x)
  }

  ghost predicate HoldsFrom(cfg: Config, strategy: Strategy, symbol: string, bars: seq<Bar>, p: Position, n: nat)
    requires n <= |bars|
  {
    exists e: nat :: e < n && HeldSince(cfg, strategy, bars, e, n) && OpenedOn(cfg, symbol, bars, p, e, n)
  }

  /** Between two bars: every trade is explained, and so is the position that is held. */
  ghost predicate AllExplained(cfg: Config, strategy: Strategy, symbol: string, bars: seq<Bar>, a: Account, n: nat)
    requires n <= |bars|
  {
    && |a.positions| <= 1
    && (a.positions != [] ==> HoldsFrom(cfg, strategy, symbol, bars, a.positions[0], n))
    && forall t :: t in a.trades ==> Explained(cfg, strategy, symbol, bars, t)
  }

  /** Closing the held position on bar `n` for the reason that the bar gives. */
  lemma ClosedExplained(cfg: Config, strategy: Strategy, symbol: string, bars: seq<Bar>, a: Account, n: nat, e: nat,
                        exit: Exit)
    requires n < |bars| && AllExplained(cfg, strategy, symbol, bars, a, n) && a.positions != []
    requires e < n && HeldSince(cfg, strategy, bars, e, n) && OpenedOn(cfg, symbol, bars, a.positions[0], e, n)
    requires ExitAt(cfg, strategy, bars, BuyPrice(cfg, bars[e].close), e, n) == Some(exit)
    ensures var r := Close(cfg, a, a.positions[0], bars[n].date, exit.price, exit.reason);
            r.positions == [] && forall t :: t in r.trades ==> Explained(cfg, strategy, symbol, bars, t)
  {
    var r := Close(cfg, a, a.positions[0], bars[n].date, exit.price, exit.reason);
    var t := r.trades[|a.trades|];
    assert LeftOn(cfg, strategy, symbol, bars, t, e, n);
    assert r.trades == a.trades + [t];
  }

  /** The exits and the order of bar `n`, before the position ages. */
  lemma BarExplained(cfg: Config, strategy: Strategy, symbol: string, bars: seq<Bar>, a: Account, n: nat)
    requires LOOKBACK <= n < |bars| && AllExplained(cfg, strategy, symbol, bars, a, n)
    ensures AllExplained(cfg, strategy, symbol, bars, OnBar(cfg, a, symbol, strategy(bars[..n + 1]), bars[n]), n + 1)
  {
    var bar, signal := bars[n], strategy(bars[..n + 1]);
    CheckSingle(cfg, a, bar);
    var checked := CheckEach(cfg, a, a.positions, bar);
    if a.positions == [] {
      EntryExplained(cfg, strategy, symbol, bars, checked, n);
    } else {
      var e: nat :| e < n && HeldSince(cfg, strategy, bars, e, n) && OpenedOn(cfg, symbol, bars, a.positions[0], e, n);
      var exit := ExitAt(cfg, strategy, bars, BuyPrice(cfg, bars[e].close), e, n);
      if exit.Some? { ClosedExplained(cfg, strategy, symbol, bars, a, n, e, exit.value); }
      if exit.Some? && exit.value.reason != "SIGNAL" {
        EntryExplained(cfg, strategy, symbol, bars, checked, n);
      } else {
        StaysExplained(cfg, strategy, symbol, bars, a, n, e);
      }
    }
  }

  /** With nothing held: the signal of bar `n` may open a position, explained by that bar. */
  lemma EntryExplained(cfg: Config, strategy: Strategy, symbol: string, bars: seq<Bar>, a: Account, n: nat)
    requires LOOKBACK <= n < |bars| && a.positions == []
    requires forall t :: t in a.trades ==> Explained(cfg, strategy, symbol, bars, t)
    ensures var traded := OnSignal(cfg, a, symbol, strategy(bars[..n + 1]), bars[n]);
            AllExplained(cfg, strategy, symbol, bars, EndOfBar(traded, bars[n]), n + 1)
  {
    var traded := OnSignal(cfg, a, symbol, strategy(bars[..n + 1]), bars[n]);
    var r := EndOfBar(traded, bars[n]);
    if traded.positions != [] {
      assert HeldSince(cfg, strategy, bars, n, n + 1);
      assert OpenedOn(cfg, symbol, bars, r.positions[0], n, n + 1);
    }
  }

  /** With a position that the bar itself does not close: only a sell signal does. */
  lemma StaysExplained(cfg: Config, strategy: Strategy, symbol: string, bars: seq<Bar>, a: Account, n: nat, e: nat)
    requires LOOKBACK <= n < |bars| && AllExplained(cfg, strategy, symbol, bars, a, n) && a.positions != []
    requires e < n && HeldSince(cfg, strategy, bars, e, n) && OpenedOn(cfg, symbol, bars, a.positions[0], e, n)
    requires var exit := ExitAt(cfg, strategy, bars, BuyPrice(cfg, bars[e].close), e, n);
             exit.None? || exit.value.reason == "SIGNAL"
    ensures var traded := OnSignal(cfg, a, symbol, strategy(bars[..n + 1]), bars[n]);
            AllExplained(cfg, strategy, symbol, bars, EndOfBar(traded, bars[n]), n + 1)
  {
    var exit := ExitAt(cfg, strategy, bars, BuyPrice(cfg, bars[e].close), e, n);
    var traded := OnSignal(cfg, a, symbol, strategy(bars[..n + 1]), bars[n]);
    assert FirstOf(a.positions, symbol) == Some(a.positions[0]);
    if exit.Some? {
      ClosedExplained(cfg, strategy, symbol, bars, a, n, e, exit.value);
    } else {
      assert traded == a;
      assert HeldSince(cfg, strategy, bars, e, n + 1);
      assert OpenedOn(cfg, symbol, bars, EndOfBar(traded, bars[n]).positions[0], e, n + 1);
    }
  }

  lemma {:induction false} RunExplained(cfg: Config, strategy: Strategy, symbol: string, bars: seq<Bar>, n: nat)
    requires LOOKBACK <= n <= |bars|
    ensures AllExplained(cfg, strategy, symbol, bars, RunTo(cfg, strategy, symbol, bars, n), n)
  {
    if n == LOOKBACK {
    } else {
      RunExplained(cfg, strategy, symbol, bars, n - 1);
      BarExplained(cfg, strategy, symbol, bars, RunTo(cfg, strategy, symbol, bars, n - 1), n - 1);
      assert bars[..n - 1 + 1] == bars[..n];
    }
  }

  /** Still held after the last bar, and closed at its close. */
  predicate HeldToTheEnd(cfg: Config, strategy: Strategy, symbol: string, bars: seq<Bar>, t: Trade, e: nat) {
    && e < |bars|
    && HeldSince(cfg, strategy, bars, e, |bars|)
    && t.exitDate == bars[|bars| - 1].date
    && Records(cfg, symbol, bars, t, e, |bars|, Exit("END_OF_DATA", bars[|bars| - 1].close))
  }

  /** Every trade of a run was entered on a buy signal at the close with slippage, and left on the
      first later bar whose low, high, age or signal gave a reason, with the price, age and profit that
      go with it; the last one may have been held to the end instead. */
  lemma TradesExplained(cfg: Config, strategy: Strategy, symbol: string, bars: seq<Bar>, i: nat)
    requires LOOKBACK <= |bars| && i < |RunAll(cfg, strategy, symbol, bars).trades|
    ensures var r := RunAll(cfg, strategy, symbol, bars);
            || Explained(cfg, strategy, symbol, bars, r.trades[i])
            || (i == |r.trades| - 1 && exists e: nat :: HeldToTheEnd(cfg, strategy, symbol, bars, r.trades[i], e))
  {
    var n := |bars|;
    RunExplained(cfg, strategy, symbol, bars, n);
    var a := RunTo(cfg, strategy, symbol, bars, n);
    FinishSingle(cfg, a, bars[n - 1]);
    if i < |a.trades| {
      FinishKeepsRecord(cfg, a, a.positions, bars[n - 1].date, bars[n - 1].close);
      assert RunAll(cfg, strategy, symbol, bars).trades[i] == a.trades[i];
    } else {
      var e: nat :| e < n && HeldSince(cfg, strategy, bars, e, n) && OpenedOn(cfg, symbol, bars, a.positions[0], e, n);
      assert HeldToTheEnd(cfg, strategy, symbol, bars, RunAll(cfg, strategy, symbol, bars).trades[i], e);
    }
  }
}
