/** What every backtest keeps, over all bar series and strategies. */
module BacktestLaws {
  import opened Common
  import opened Backtest

  // ----- No look-ahead

  /** Later steps see more bars, but the account at `n` only depends on the bars before `n`. */
  lemma {:induction false} FoldPrefix(step: Stepper, a: Account, bars: seq<Bar>, m: nat, n: nat)
    requires LOOKBACK <= n <= m <= |bars|
    ensures Fold(step, a, bars[..m], n) == Fold(step, a, bars, n)
  {
    if n == LOOKBACK {
    } else {
      FoldPrefix(step, a, bars, m, n - 1);
      assert bars[..m][..n] == bars[..n];
    }
  }

  /** One more equity point, trades only appended. */
  predicate Extends(a: Account, b: Account) {
    a.trades <= b.trades && |b.curve| == |a.curve| + 1 && a.curve <= b.curve
  }

  lemma {:induction false} FoldExtends(step: Stepper, a: Account, bars: seq<Bar>, m: nat, n: nat)
    requires LOOKBACK <= m <= n <= |bars|
    requires forall b, seen :: seen != [] ==> Extends(b, step(b, seen))
    ensures var am, an := Fold(step, a, bars, m), Fold(step, a, bars, n);
            am.trades <= an.trades && am.curve <= an.curve && |an.curve| == |am.curve| + (n - m)
    decreases n
  {
    if n == m {
    } else {
      FoldExtends(step, a, bars, m, n - 1);
      assert Extends(Fold(step, a, bars, n - 1), step(Fold(step, a, bars, n - 1), bars[..n]));
    }
  }

  lemma {:induction false} CheckKeepsRecord(cfg: Config, a: Account, todo: seq<Position>, bar: Bar)
    ensures var r := CheckEach(cfg, a, todo, bar); r.curve == a.curve && a.trades <= r.trades
    decreases |todo|
  {
    if todo == [] {
    } else {
      CheckKeepsRecord(cfg, CheckOne(cfg, a, todo[0], bar), todo[1..], bar);
    }
  }

  lemma {:induction false} FinishKeepsRecord(cfg: Config, a: Account, todo: seq<Position>, date: string, price: real)
    ensures var r := CloseAll(cfg, a, todo, date, price); r.curve == a.curve && a.trades <= r.trades
    decreases |todo|
  {
    if todo == [] {
    } else {
      FinishKeepsRecord(cfg, Close(cfg, a, todo[0], date, price, "END_OF_DATA"), todo[1..], date, price);
    }
  }

  lemma BarExtends(cfg: Config, a: Account, symbol: string, signal: Signal, bar: Bar)
    ensures Extends(a, OnBar(cfg, a, symbol, signal, bar))
  {
    CheckKeepsRecord(cfg, a, a.positions, bar);
  }

  /** The result on the first `n` bars is the beginning of the result on all of them: the equity
      curve exactly, the trades up to the ones that only the end of the data forces. */
  lemma NoLookAhead(cfg: Config, strategy: Strategy, symbol: string, bars: seq<Bar>, n: nat)
    requires LOOKBACK <= n <= |bars|
    ensures var part, full := RunAll(cfg, strategy, symbol, bars[..n]), RunAll(cfg, strategy, symbol, bars);
            var atEnd := RunTo(cfg, strategy, symbol, bars[..n], n);
            && |part.curve| == n - LOOKBACK + 1 && part.curve <= full.curve
            && atEnd.trades <= full.trades && atEnd.trades <= part.trades
  {
    var step := BarStep(cfg, strategy, symbol);
    forall b, seen | seen != [] ensures Extends(b, step(b, seen)) {
      BarExtends(cfg, b, symbol, strategy(seen), seen[|seen| - 1]);
    }
    FoldPrefix(step, Start(cfg), bars, n, n);
    FoldExtends(step, Start(cfg), bars, n, |bars|);
    FoldExtends(step, Start(cfg), bars, LOOKBACK, n);
    var part, full := RunTo(cfg, strategy, symbol, bars[..n], n), RunTo(cfg, strategy, symbol, bars, |bars|);
    FinishKeepsRecord(cfg, part, part.positions, bars[n - 1].date, bars[n - 1].close);
    FinishKeepsRecord(cfg, full, full.positions, bars[|bars| - 1].date, bars[|bars| - 1].close);
  }

  /** One more bar of a run. */
  lemma NextBar(cfg: Config, strategy: Strategy, symbol: string, bars: seq<Bar>, i: nat)
    requires LOOKBACK <= i < |bars|
    ensures RunTo(cfg, strategy, symbol, bars, i + 1)
         == OnBar(cfg, RunTo(cfg, strategy, symbol, bars, i), symbol, strategy(bars[..i + 1]), bars[i])
  {
    assert Fold(BarStep(cfg, strategy, symbol), Start(cfg), bars, i + 1)
        == BarStep(cfg, strategy, symbol)(RunTo(cfg, strategy, symbol, bars, i), bars[..i + 1]);
  }

  // ----- Invariants of a run

  /** What holds at the start and is kept by every bar holds all along. */
  lemma {:induction false} FoldKeeps(inv: Account -> bool, step: Stepper, a: Account, bars: seq<Bar>, n: nat)
    requires LOOKBACK <= n <= |bars| && inv(a)
    requires forall b, k :: LOOKBACK < k <= n && inv(b) ==> inv(step(b, bars[..k]))
    ensures inv(Fold(step, a, bars, n))
  {
    if n == LOOKBACK {
    } else {
      FoldKeeps(inv, step, a, bars, n - 1);
      assert inv(step(Fold(step, a, bars, n - 1), bars[..n]));
    }
  }

  // ----- Holdings: at most one position, held no longer than allowed

  function HoldLimit(cfg: Config): int { Max(1, cfg.maxHoldDays) }

  /** Between two bars. */
  predicate Sound(cfg: Config, symbol: string, a: Account) {
    && |a.positions| <= 1
    && (forall i :: 0 <= i < |a.positions| ==> SoundPosition(cfg, symbol, a.positions[i]))
    && (forall i :: 0 <= i < |a.trades| ==> a.trades[i].holdDays <= HoldLimit(cfg))
  }

  predicate SoundPosition(cfg: Config, symbol: string, p: Position) {
    p.symbol == symbol && p.entryPrice > 0.0 && p.quantity > 0 && 1 <= p.holdDays <= HoldLimit(cfg)
  }

  /** The exits of a bar, with the one position that there can be. */
  lemma CheckSingle(cfg: Config, a: Account, bar: Bar)
    requires |a.positions| <= 1
    ensures CheckEach(cfg, a, a.positions, bar)
           == if a.positions == [] then a else CheckOne(cfg, a, a.positions[0], bar)
  {
    if a.positions != [] {
      assert a.positions[1..] == [];
    }
  }

  lemma BarSound(cfg: Config, symbol: string, a: Account, signal: Signal, bar: Bar)
    requires Sound(cfg, symbol, a) && BuyPrice(cfg, bar.close) > 0.0
    ensures Sound(cfg, symbol, OnBar(cfg, a, symbol, signal, bar))
  {
    CheckSingle(cfg, a, bar);
    var checked := CheckEach(cfg, a, a.positions, bar);
    assert checked.positions == [] || (checked == a && a.positions[0].holdDays < cfg.maxHoldDays);
    var traded := OnSignal(cfg, checked, symbol, signal, bar);
    assert |traded.positions| <= 1;
    assert traded.positions != []
        ==> traded.positions[0].holdDays == 0 || traded.positions[0].holdDays < cfg.maxHoldDays;
  }

  /** Over every run there is at most one position, and nothing is held beyond the limit. */
  lemma RunSound(cfg: Config, strategy: Strategy, symbol: string, bars: seq<Bar>, n: nat)
    requires LOOKBACK <= n <= |bars| && Usable(cfg, bars)
    ensures Sound(cfg, symbol, RunTo(cfg, strategy, symbol, bars, n))
  {
    var step := BarStep(cfg, strategy, symbol);
    forall b, k | LOOKBACK < k <= n && Sound(cfg, symbol, b) ensures Sound(cfg, symbol, step(b, bars[..k])) {
      BarSound(cfg, symbol, b, strategy(bars[..k]), bars[k - 1]);
    }
    FoldKeeps(b => Sound(cfg, symbol, b), step, Start(cfg), bars, n);
  }

  /** At the end no position is left, and the limit holds for the forced exits too. */
  lemma FinishSound(cfg: Config, strategy: Strategy, symbol: string, bars: seq<Bar>)
    requires LOOKBACK <= |bars| && Usable(cfg, bars)
    ensures var r := RunAll(cfg, strategy, symbol, bars); r.positions == [] && Sound(cfg, symbol, r)
  {
    RunSound(cfg, strategy, symbol, bars, |bars|);
    FinishSingle(cfg, RunTo(cfg, strategy, symbol, bars, |bars|), bars[|bars| - 1]);
  }

  lemma FinishSingle(cfg: Config, a: Account, last: Bar)
    requires |a.positions| <= 1
    ensures Finish(cfg, a, last)
           == if a.positions == [] then a else Close(cfg, a, a.positions[0], last.date, last.close, "END_OF_DATA")
    ensures Finish(cfg, a, last).positions == []
  {
    if a.positions != [] {
      var next := Close(cfg, a, a.positions[0], last.date, last.close, "END_OF_DATA");
      assert a.positions[1..] == [];
      assert CloseAll(cfg, next, [], last.date, last.close) == next;
    }
  }

  // ----- Accounting

  /** What the open positions cost, commission not counted. */
  function Invested(ps: seq<Position>): real {
    if ps == [] then 0.0 else Cost(ps[0].entryPrice, ps[0].quantity) + Invested(ps[1..])
  }

  function RealizedPnl(trades: seq<Trade>): real {
    if trades == [] then 0.0 else RealizedPnl(trades[..|trades| - 1]) + trades[|trades| - 1].pnl
  }

  /** The commissions paid on entry, for every position that was ever opened. */
  function OpenFees(cfg: Config, ps: seq<Position>): real {
    if ps == [] then 0.0 else Fee(cfg, Cost(ps[0].entryPrice, ps[0].quantity)) + OpenFees(cfg, ps[1..])
  }

  function ClosedFees(cfg: Config, trades: seq<Trade>): real {
    if trades == [] then 0.0
    else
      var t := trades[|trades| - 1];
      ClosedFees(cfg, trades[..|trades| - 1]) + Fee(cfg, Cost(t.entryPrice, t.quantity))
  }

  /** Entry commissions reach the cash but not the profit of the trade. */
  predicate Balanced(cfg: Config, a: Account) {
    a.cash + Invested(a.positions)
      == cfg.initialCapital + RealizedPnl(a.trades) - (OpenFees(cfg, a.positions) + ClosedFees(cfg, a.trades))
  }

  lemma {:induction false} RemoveInvested(cfg: Config, ps: seq<Position>, p: Position)
    requires p in ps
    ensures Invested(RemoveFirst(ps, p)) == Invested(ps) - Cost(p.entryPrice, p.quantity)
    ensures OpenFees(cfg, RemoveFirst(ps, p)) == OpenFees(cfg, ps) - Fee(cfg, Cost(p.entryPrice, p.quantity))
  {
    if ps[0] != p {
      RemoveInvested(cfg, ps[1..], p);
      assert ([ps[0]] + RemoveFirst(ps[1..], p))[1..] == RemoveFirst(ps[1..], p);
    }
  }

  lemma {:induction false} AppendInvested(cfg: Config, ps: seq<Position>, p: Position)
    ensures Invested(ps + [p]) == Invested(ps) + Cost(p.entryPrice, p.quantity)
    ensures OpenFees(cfg, ps + [p]) == OpenFees(cfg, ps) + Fee(cfg, Cost(p.entryPrice, p.quantity))
  {
    if ps == [] {
      assert [p][1..] == [] && ps + [p] == [p];
    } else {
      assert (ps + [p])[1..] == ps[1..] + [p];
      AppendInvested(cfg, ps[1..], p);
    }
  }

  lemma CloseBalanced(cfg: Config, a: Account, p: Position, date: string, price: real, reason: string)
    requires Balanced(cfg, a) && p in a.positions
    ensures Balanced(cfg, Close(cfg, a, p, date, price, reason))
  {
    RemoveInvested(cfg, a.positions, p);
    var r := Close(cfg, a, p, date, price, reason);
    assert r.trades[..|r.trades| - 1] == a.trades;
  }

  lemma BuyBalanced(cfg: Config, a: Account, symbol: string, date: string, price: real)
    requires Balanced(cfg, a)
    ensures Balanced(cfg, Buy(cfg, a, symbol, date, price))
  {
    var actual := BuyPrice(cfg, price);
    var qty := BuyQuantity(cfg, a.cash, actual);
    AppendInvested(cfg, a.positions, Opened(cfg, symbol, date, actual, qty));
  }

  lemma {:induction false} AgedInvested(cfg: Config, ps: seq<Position>)
    ensures Invested(Aged(ps)) == Invested(ps) && OpenFees(cfg, Aged(ps)) == OpenFees(cfg, ps)
  {
    if ps == [] {
    } else {
      AgedInvested(cfg, ps[1..]);
      assert Aged(ps)[1..] == Aged(ps[1..]);
    }
  }

  lemma BarBalanced(cfg: Config, symbol: string, a: Account, signal: Signal, bar: Bar)
    requires Balanced(cfg, a) && |a.positions| <= 1
    ensures Balanced(cfg, OnBar(cfg, a, symbol, signal, bar))
  {
    CheckSingle(cfg, a, bar);
    var checked := CheckEach(cfg, a, a.positions, bar);
    assert Balanced(cfg, checked) by { CheckBalanced(cfg, a, bar); }
    var traded := OnSignal(cfg, checked, symbol, signal, bar);
    assert Balanced(cfg, traded) by { SignalBalanced(cfg, checked, symbol, signal, bar); }
    AgedInvested(cfg, traded.positions);
  }

  lemma CheckBalanced(cfg: Config, a: Account, bar: Bar)
    requires Balanced(cfg, a) && |a.positions| <= 1
    ensures Balanced(cfg, CheckEach(cfg, a, a.positions, bar))
  {
    CheckSingle(cfg, a, bar);
    if a.positions != [] {
      var p := a.positions[0];
      CloseBalanced(cfg, a, p, bar.date, p.stopLoss, "STOP_LOSS");
      CloseBalanced(cfg, a, p, bar.date, p.takeProfit, "TAKE_PROFIT");
      CloseBalanced(cfg, a, p, bar.date, bar.close, "MAX_HOLD_DAYS");
    }
  }

  lemma SignalBalanced(cfg: Config, a: Account, symbol: string, signal: Signal, bar: Bar)
    requires Balanced(cfg, a)
    ensures Balanced(cfg, OnSignal(cfg, a, symbol, signal, bar))
  {
    var held := FirstOf(a.positions, symbol);
    BuyBalanced(cfg, a, symbol, bar.date, bar.close);
    if held.Some? {
      CloseBalanced(cfg, a, held.value, bar.date, bar.close, "SIGNAL");
    }
  }

  /** After every bar: cash plus cost of what is open equals the initial capital plus the realized
      profit minus the commissions paid on entry. */
  lemma RunBalanced(cfg: Config, strategy: Strategy, symbol: string, bars: seq<Bar>, n: nat)
    requires LOOKBACK <= n <= |bars| && Usable(cfg, bars)
    ensures Balanced(cfg, RunTo(cfg, strategy, symbol, bars, n))
  {
    var step := BarStep(cfg, strategy, symbol);
    var inv := (b: Account) => Sound(cfg, symbol, b) && Balanced(cfg, b);
    forall b, k | LOOKBACK < k <= n && inv(b) ensures inv(step(b, bars[..k])) {
      BarSound(cfg, symbol, b, strategy(bars[..k]), bars[k - 1]);
      BarBalanced(cfg, symbol, b, strategy(bars[..k]), bars[k - 1]);
    }
    FoldKeeps(inv, step, Start(cfg), bars, n);
  }

  /** At the end all of it is cash. */
  lemma FinalCash(cfg: Config, strategy: Strategy, symbol: string, bars: seq<Bar>)
    requires LOOKBACK <= |bars| && Usable(cfg, bars)
    ensures var r := RunAll(cfg, strategy, symbol, bars);
            r.cash == cfg.initialCapital + RealizedPnl(r.trades) - ClosedFees(cfg, r.trades)
  {
    RunSound(cfg, strategy, symbol, bars, |bars|);
    RunBalanced(cfg, strategy, symbol, bars, |bars|);
    var a, last := RunTo(cfg, strategy, symbol, bars, |bars|), bars[|bars| - 1];
    FinishSingle(cfg, a, last);
    if a.positions != [] {
      CloseBalanced(cfg, a, a.positions[0], last.date, last.close, "END_OF_DATA");
    }
  }

  // ----- The last equity point

  /** What selling `qty` at `price` loses to slippage, and to commission. */
  function ExitSlippage(cfg: Config, price: real, qty: int): real {
    Cost(price, qty) - Cost(SellPrice(cfg, price), qty)
  }

  function ExitFee(cfg: Config, price: real, qty: int): real { Fee(cfg, Cost(SellPrice(cfg, price), qty)) }

  /** The last equity point values what is held at the close: the forced exits then lose exactly
      their slippage and their commission. Without one, it is the final cash. */
  lemma LastEquityPoint(cfg: Config, strategy: Strategy, symbol: string, bars: seq<Bar>)
    requires LOOKBACK <= |bars| && Usable(cfg, bars)
    ensures var a, r := RunTo(cfg, strategy, symbol, bars, |bars|), RunAll(cfg, strategy, symbol, bars);
            var price := bars[|bars| - 1].close;
            && |r.curve| > 0
            && (a.positions == [] ==> r.trades == a.trades && r.curve[|r.curve| - 1] == r.cash)
            && (a.positions != [] ==>
                  && |r.trades| == |a.trades| + 1
                  && r.trades[|a.trades|].reason == "END_OF_DATA"
                  && r.trades[|a.trades|].quantity == a.positions[0].quantity
                  && r.curve[|r.curve| - 1] - r.cash
                       == ExitSlippage(cfg, price, a.positions[0].quantity)
                          + ExitFee(cfg, price, a.positions[0].quantity))
  {
    RunSound(cfg, strategy, symbol, bars, |bars|);
    var a, last := RunTo(cfg, strategy, symbol, bars, |bars|), bars[|bars| - 1];
    FinishSingle(cfg, a, last);
    EquityPoint(cfg, strategy, symbol, bars, |bars|);
    FinishKeepsRecord(cfg, a, a.positions, last.date, last.close);
    if a.positions != [] {
      assert a.positions[1..] == [];
    }
  }

  /** The newest equity point values the account at the newest close. */
  lemma EquityPoint(cfg: Config, strategy: Strategy, symbol: string, bars: seq<Bar>, n: nat)
    requires LOOKBACK <= n <= |bars|
    ensures var a := RunTo(cfg, strategy, symbol, bars, n);
            && |a.curve| > 0
            && a.curve[|a.curve| - 1]
                 == if n == LOOKBACK then a.cash else a.cash + StockValue(a.positions, bars[n - 1].close)
  {
    if n == LOOKBACK {
    } else {
      var step := BarStep(cfg, strategy, symbol);
      var b := Fold(step, Start(cfg), bars, n - 1);
      assert step(b, bars[..n]) == OnBar(cfg, b, symbol, strategy(bars[..n]), bars[n - 1]);
      var traded := OnSignal(cfg, CheckEach(cfg, b, b.positions, bars[n - 1]), symbol, strategy(bars[..n]),
                             bars[n - 1]);
      AgedValue(traded.positions, bars[n - 1].close);
    }
  }

  lemma {:induction false} AgedValue(ps: seq<Position>, price: real)
    ensures StockValue(Aged(ps), price) == StockValue(ps, price)
  {
    if ps == [] {
    } else {
      AgedValue(ps[1..], price);
      assert Aged(ps)[1..] == Aged(ps[1..]);
    }
  }
}
