/** One bar of a backtest, written out: the exit, the order, the equity point, the age of what is held;
    and that every run goes by these rules, so that no signal is missed. */
module BacktestRules {
  import opened Common
  import opened Backtest
  import opened BacktestLaws
  import opened BacktestCash
  import opened BacktestTrades

  // ----- The rules

  /** A price raised, or cut, by a percentage. */
  function Raised(price: real, pct: real): real { price * (1.0 + pct / 100.0) }

  function Cut(price: real, pct: real): real { price * (1.0 - pct / 100.0) }

  /** Price times quantity. */
  function Worth(price: real, q: int): real { price * q as real }

  /** The commission, in percent of an amount. */
  function FeeOn(cfg: Config, amount: real): real { amount * (cfg.commissionRate / 100.0) }

  /** The account with the position sold at `price` less slippage and commission, and its trade. */
  predicate SoldOff(cfg: Config, a: Account, b: Account, p: Position, date: string, price: real, reason: string) {
    var exit := Cut(price, cfg.slippageRate);
    var revenue := Worth(exit, p.quantity);
    var net := revenue - FeeOn(cfg, revenue);
    && b.cash == a.cash + net && b.positions == [] && b.curve == a.curve
    && |b.trades| == |a.trades| + 1 && a.trades <= b.trades
    && var t := b.trades[|a.trades|];
       && t.symbol == p.symbol && t.entryDate == p.entryDate && t.entryPrice == p.entryPrice
       && t.exitDate == date && t.exitPrice == exit && t.quantity == p.quantity && t.reason == reason
       && t.holdDays == p.holdDays && t.pnl == net - Worth(p.entryPrice, p.quantity)
       && (p.entryPrice > 0.0 ==> t.returnPct == (exit - p.entryPrice) / p.entryPrice * 100.0)
  }

  /** Why a bar closes the position before the strategy is asked, and at what price. */
  function Leaves(cfg: Config, p: Position, bar: Bar): Option<Exit> {
    if bar.low <= p.stopLoss then Some(Exit("STOP_LOSS", p.stopLoss))
    else if bar.high >= p.takeProfit then Some(Exit("TAKE_PROFIT", p.takeProfit))
    else if p.holdDays >= cfg.maxHoldDays then Some(Exit("MAX_HOLD_DAYS", bar.close))
    else None
  }

  /** The exits of a bar, with at most one position. */
  predicate ExitRule(cfg: Config, bar: Bar, a: Account, b: Account) {
    if a.positions == [] || Leaves(cfg, a.positions[0], bar) == None then b == a
    else
      var exit := Leaves(cfg, a.positions[0], bar).value;
      SoldOff(cfg, a, b, a.positions[0], bar.date, exit.price, exit.reason)
  }

  /** `amount` pays for `q` shares, and not for one more. */
  predicate PaysFor(amount: real, price: real, q: int) { Worth(price, q) <= amount < Worth(price, q) + price }

  /** What an order may use: the configured share of the cash, and at most nine tenths of it. */
  function MayUse(cfg: Config, cash: real): real {
    var share := cash * (cfg.maxPositionPct / 100.0);
    if share <= cash * 0.9 then share else cash * 0.9
  }

  /** An order of `q` shares: the full one, that the budget pays for, if it fits the cash with its
      commission; otherwise what the cash pays for after the commission of the full one. */
  predicate OrderOf(cfg: Config, cash: real, price: real, full: int, q: int) {
    var cost := Worth(price, full);
    && full >= 1 && PaysFor(MayUse(cfg, cash), price, full) && q >= 1
    && if cost + FeeOn(cfg, cost) <= cash then q == full else PaysFor(cash - FeeOn(cfg, cost), price, q)
  }

  predicate Bought(cfg: Config, symbol: string, date: string, price: real, a: Account, b: Account, q: int) {
    && b.cash == a.cash - (Worth(price, q) + FeeOn(cfg, Worth(price, q)))
    && b.trades == a.trades && b.curve == a.curve
    && b.positions
         == [Position(symbol, date, price, q, 0, Raised(price, cfg.stopLossPct), Raised(price, cfg.takeProfitPct))]
  }

  /** The order that the signal asks for: a BUY if nothing is held and the cash pays for a share, a SELL
      of what is held. */
  ghost predicate OrderRule(cfg: Config, symbol: string, signal: Signal, bar: Bar, a: Account, b: Account) {
    var price := Raised(bar.close, cfg.slippageRate);
    && (signal == BuySignal && a.positions == [] ==>
          && (forall full, q :: OrderOf(cfg, a.cash, price, full, q) ==> Bought(cfg, symbol, bar.date, price, a, b, q))
          && ((forall full, q :: !OrderOf(cfg, a.cash, price, full, q)) ==> b == a))
    && (signal == SellSignal && a.positions != [] ==> SoldOff(cfg, a, b, a.positions[0], bar.date, bar.close, "SIGNAL"))
    && (!(signal == BuySignal && a.positions == []) && !(signal == SellSignal && a.positions != []) ==> b == a)
  }

  /** The equity point at the close, and one more day for what is held. */
  predicate CloseRule(bar: Bar, a: Account, b: Account) {
    && b.cash == a.cash && b.trades == a.trades
    && b.curve == a.curve + [a.cash + if a.positions == [] then 0.0 else a.positions[0].quantity as real * bar.close]
    && b.positions == if a.positions == [] then [] else [a.positions[0].(holdDays := a.positions[0].holdDays + 1)]
  }

  ghost predicate BarRule(cfg: Config, symbol: string, signal: Signal, bar: Bar, a: Account, b: Account) {
    exists left, traded :: ExitRule(cfg, bar, a, left) && OrderRule(cfg, symbol, signal, bar, left, traded)
                           && CloseRule(bar, traded, b)
  }

  // ----- The steps of the account obey them

  lemma {:induction false} CloseObeys(cfg: Config, a: Account, p: Position, date: string, price: real, reason: string)
    requires a.positions == [p]
    ensures SoldOff(cfg, a, Close(cfg, a, p, date, price, reason), p, date, price, reason)
  {
    SamePrices(cfg, price);
    SameWorth(SellPrice(cfg, price), p.quantity);
    SameWorth(p.entryPrice, p.quantity);
    SameFee(cfg, Worth(SellPrice(cfg, price), p.quantity));
  }

  lemma {:induction false} ExitObeys(cfg: Config, a: Account, bar: Bar)
    requires |a.positions| <= 1
    ensures ExitRule(cfg, bar, a, CheckEach(cfg, a, a.positions, bar))
  {
    CheckSingle(cfg, a, bar);
    if a.positions != [] {
      var p := a.positions[0];
      assert a.positions == [p];
      if Leaves(cfg, p, bar).Some? {
        CloseObeys(cfg, a, p, bar.date, Leaves(cfg, p, bar).value.price, Leaves(cfg, p, bar).value.reason);
      }
    }
  }

  lemma {:induction false} SameWorth(price: real, q: int)
    ensures Worth(price, q) == Cost(price, q) == q as real * price
  {
  }

  lemma {:induction false} SameFee(cfg: Config, amount: real)
    ensures FeeOn(cfg, amount) == Fee(cfg, amount)
  {
  }

  /** Whole shares are counted exactly. */
  lemma {:induction false} SharesAre(amount: real, price: real, q: int)
    requires price > 0.0 && q >= 0 && PaysFor(amount, price, q)
    ensures Shares(amount, price) == q
  {
    ProductNonNegative(q as real, price);
    SameWorth(price, q);
    SharesOfPositive(amount, price);
    SameWorth(price, Shares(amount, price));
    OnlyOne(amount, price, q, Shares(amount, price));
  }

  lemma {:induction false} OnlyOne(amount: real, price: real, q: int, r: int)
    requires price > 0.0 && PaysFor(amount, price, q) && PaysFor(amount, price, r)
    ensures q == r
  {
    if q < r { Apart(q, r, price); }
    if r < q { Apart(r, q, price); }
  }

  lemma {:induction false} Apart(r: int, q: int, price: real)
    requires r < q && price > 0.0
    ensures Worth(price, r) + price <= Worth(price, q)
  {
    var x, y := r as real, q as real;
    ProductMonotone(x + 1.0, y, price);
    assert (x + 1.0) * price == x * price + price;
    SameWorth(price, r);
    SameWorth(price, q);
  }

  lemma {:induction false} SharesPay(amount: real, price: real)
    requires price > 0.0 && Shares(amount, price) >= 1
    ensures PaysFor(amount, price, Shares(amount, price))
  {
    SameWorth(price, Shares(amount, price));
    if amount <= 0.0 {
      SharesOfNegative(amount, price);
    } else {
      SharesOfPositive(amount, price);
    }
  }

  lemma {:induction false} BudgetIs(cfg: Config, cash: real)
    ensures Budget(cfg, cash) == MayUse(cfg, cash)
  {
  }

  /** The number of shares in an order, from its full size and the commission on that. */
  lemma {:induction false} QuantityIs(cfg: Config, cash: real, price: real, full: int, cost: real, fee: real)
    requires full == Shares(MayUse(cfg, cash), price) && cost == Cost(price, full) && fee == Fee(cfg, cost)
    ensures BuyQuantity(cfg, cash, price)
         == if full > 0 && cost + fee > cash then Shares(cash - fee, price) else full
  {
    BudgetIs(cfg, cash);
  }

  lemma {:induction false} OrderIs(cfg: Config, cash: real, price: real, full: int, q: int)
    requires price > 0.0 && OrderOf(cfg, cash, price, full, q)
    ensures BuyQuantity(cfg, cash, price) == q
  {
    var cost := Cost(price, full);
    var fee := Fee(cfg, cost);
    SameWorth(price, full);
    SameFee(cfg, cost);
    SharesAre(MayUse(cfg, cash), price, full);
    QuantityIs(cfg, cash, price, full, cost, fee);
    if cost + fee > cash { SharesAre(cash - fee, price, q); }
  }

  /** And an order is always one of those. */
  lemma {:induction false} SomeOrder(cfg: Config, cash: real, price: real)
    requires price > 0.0 && BuyQuantity(cfg, cash, price) >= 1
    ensures OrderOf(cfg, cash, price, Shares(MayUse(cfg, cash), price), BuyQuantity(cfg, cash, price))
  {
    var full := Shares(MayUse(cfg, cash), price);
    var cost := Cost(price, full);
    var fee := Fee(cfg, cost);
    SameWorth(price, full);
    SameFee(cfg, cost);
    QuantityIs(cfg, cash, price, full, cost, fee);
    SharesPay(MayUse(cfg, cash), price);
    if cost + fee > cash { SharesPay(cash - fee, price); }
  }

  lemma {:induction false} SignalObeys(cfg: Config, symbol: string, signal: Signal, bar: Bar, a: Account)
    requires |a.positions| <= 1 && (a.positions != [] ==> a.positions[0].symbol == symbol)
    requires BuyPrice(cfg, bar.close) > 0.0
    ensures OrderRule(cfg, symbol, signal, bar, a, OnSignal(cfg, a, symbol, signal, bar))
  {
    SamePrices(cfg, bar.close);
    if a.positions == [] {
      if signal == BuySignal { BuyObeys(cfg, symbol, bar, a, BuyPrice(cfg, bar.close)); }
    } else {
      assert a.positions == [a.positions[0]] && FirstOf(a.positions, symbol) == Some(a.positions[0]);
      CloseObeys(cfg, a, a.positions[0], bar.date, bar.close, "SIGNAL");
    }
  }

  lemma {:induction false} BoughtObeys(cfg: Config, symbol: string, bar: Bar, a: Account, price: real, q: int)
    requires a.positions == [] && price == BuyPrice(cfg, bar.close) && q == BuyQuantity(cfg, a.cash, price) > 0
    ensures Bought(cfg, symbol, bar.date, price, a, Buy(cfg, a, symbol, bar.date, bar.close), q)
  {
    SameWorth(price, q);
    SameFee(cfg, Worth(price, q));
    OpenedIs(cfg, symbol, bar.date, price, q);
  }

  lemma {:induction false} OpenedIs(cfg: Config, symbol: string, date: string, price: real, q: int)
    ensures Opened(cfg, symbol, date, price, q)
         == Position(symbol, date, price, q, 0, Raised(price, cfg.stopLossPct), Raised(price, cfg.takeProfitPct))
  {
  }

  lemma {:induction false} SamePrices(cfg: Config, price: real)
    ensures Raised(price, cfg.slippageRate) == BuyPrice(cfg, price)
    ensures Cut(price, cfg.slippageRate) == SellPrice(cfg, price)
  {
  }

  lemma {:induction false} BuyObeys(cfg: Config, symbol: string, bar: Bar, a: Account, price: real)
    requires a.positions == [] && price == BuyPrice(cfg, bar.close) > 0.0
    ensures var b := Buy(cfg, a, symbol, bar.date, bar.close);
            && (forall full, q :: OrderOf(cfg, a.cash, price, full, q)
                  ==> Bought(cfg, symbol, bar.date, price, a, b, q))
            && ((forall full, q :: !OrderOf(cfg, a.cash, price, full, q)) ==> b == a)
  {
    var q := BuyQuantity(cfg, a.cash, price);
    forall full, q' | OrderOf(cfg, a.cash, price, full, q') ensures q' == q >= 1 {
      OrderIs(cfg, a.cash, price, full, q');
    }
    if q >= 1 {
      SomeOrder(cfg, a.cash, price);
      BoughtObeys(cfg, symbol, bar, a, price, q);
    }
  }

  lemma {:induction false} EndObeys(a: Account, bar: Bar)
    requires |a.positions| <= 1
    ensures CloseRule(bar, a, EndOfBar(a, bar))
  {
    if a.positions != [] {
      assert a.positions[1..] == [];
      assert StockValue(a.positions, bar.close) == a.positions[0].quantity as real * bar.close + 0.0;
      assert Aged(a.positions) == [a.positions[0].(holdDays := a.positions[0].holdDays + 1)];
    }
  }

  // ----- Whole runs

  /** Every bar of every run goes by the rules: on a buy signal with nothing held and cash for a share
      there is an order, on a sell signal what is held is sold, and nothing else is done. */
  lemma {:induction false} EveryBarRuled(cfg: Config, strategy: Strategy, symbol: string, bars: seq<Bar>, n: nat)
    requires LOOKBACK <= n < |bars| && Usable(cfg, bars)
    ensures BarRule(cfg, symbol, strategy(bars[..n + 1]), bars[n], RunTo(cfg, strategy, symbol, bars, n),
                    RunTo(cfg, strategy, symbol, bars, n + 1))
  {
    var a, signal, bar := RunTo(cfg, strategy, symbol, bars, n), strategy(bars[..n + 1]), bars[n];
    RunSound(cfg, strategy, symbol, bars, n);
    NextBar(cfg, strategy, symbol, bars, n);
    CheckSingle(cfg, a, bar);
    var left := CheckEach(cfg, a, a.positions, bar);
    ExitObeys(cfg, a, bar);
    SignalObeys(cfg, symbol, signal, bar, left);
    var traded := OnSignal(cfg, left, symbol, signal, bar);
    EndObeys(traded, bar);
    assert ExitRule(cfg, bar, a, left) && OrderRule(cfg, symbol, signal, bar, left, traded);
  }

  /** The run starts with the capital and nothing else, and sells what is left at the last close. */
  lemma {:induction false} EndsRuled(cfg: Config, strategy: Strategy, symbol: string, bars: seq<Bar>)
    requires LOOKBACK <= |bars| && Usable(cfg, bars)
    ensures RunTo(cfg, strategy, symbol, bars, LOOKBACK) == Account(cfg.initialCapital, [], [], [cfg.initialCapital])
    ensures var a, r := RunTo(cfg, strategy, symbol, bars, |bars|), RunAll(cfg, strategy, symbol, bars);
            var last := bars[|bars| - 1];
            if a.positions == [] then r == a
            else SoldOff(cfg, a, r, a.positions[0], last.date, last.close, "END_OF_DATA")
  {
    var a := RunTo(cfg, strategy, symbol, bars, |bars|);
    RunSound(cfg, strategy, symbol, bars, |bars|);
    FinishSingle(cfg, a, bars[|bars| - 1]);
    if a.positions != [] {
      assert a.positions == [a.positions[0]];
      CloseObeys(cfg, a, a.positions[0], bars[|bars| - 1].date, bars[|bars| - 1].close, "END_OF_DATA");
    }
  }

  /** The cash after the exits of a bar. */
  function CashLeftBy(cfg: Config, a: Account, bar: Bar): real {
    if a.positions == [] || Leaves(cfg, a.positions[0], bar) == None then a.cash
    else
      var p := a.positions[0];
      var revenue := Worth(Cut(Leaves(cfg, p, bar).value.price, cfg.slippageRate), p.quantity);
      a.cash + (revenue - FeeOn(cfg, revenue))
  }

  lemma {:induction false} ExitLeaves(cfg: Config, bar: Bar, a: Account, left: Account)
    requires ExitRule(cfg, bar, a, left) && (a.positions == [] || Leaves(cfg, a.positions[0], bar).Some?)
    ensures left.positions == [] && left.cash == CashLeftBy(cfg, a, bar)
  {
  }

  /** In particular: a buy signal, with nothing held after the exits of the bar and cash for `q` shares, is
      followed by exactly one position of `q` shares, entered on that bar at the close with slippage. */
  lemma {:induction false} BuySignalFollowed(cfg: Config, strategy: Strategy, symbol: string, bars: seq<Bar>, n: nat,
                                             full: int, q: int)
    requires LOOKBACK <= n < |bars| && Usable(cfg, bars) && strategy(bars[..n + 1]) == BuySignal
    requires var a, price := RunTo(cfg, strategy, symbol, bars, n), Raised(bars[n].close, cfg.slippageRate);
             && (a.positions == [] || Leaves(cfg, a.positions[0], bars[n]).Some?)
             && OrderOf(cfg, CashLeftBy(cfg, a, bars[n]), price, full, q)
    ensures var ps := RunTo(cfg, strategy, symbol, bars, n + 1).positions;
            && |ps| == 1 && ps[0].quantity == q && ps[0].symbol == symbol && ps[0].holdDays == 1
            && ps[0].entryDate == bars[n].date
            && ps[0].entryPrice == Raised(bars[n].close, cfg.slippageRate)
  {
    EveryBarRuled(cfg, strategy, symbol, bars, n);
    FollowsOrder(cfg, symbol, bars[n], RunTo(cfg, strategy, symbol, bars, n),
                 RunTo(cfg, strategy, symbol, bars, n + 1), full, q);
  }

  lemma {:induction false} FollowsOrder(cfg: Config, symbol: string, bar: Bar, a: Account, b: Account, full: int,
                                        q: int)
    requires BarRule(cfg, symbol, BuySignal, bar, a, b)
    requires a.positions == [] || Leaves(cfg, a.positions[0], bar).Some?
    requires OrderOf(cfg, CashLeftBy(cfg, a, bar), Raised(bar.close, cfg.slippageRate), full, q)
    ensures |b.positions| == 1 && b.positions[0].quantity == q && b.positions[0].symbol == symbol
    ensures b.positions[0].holdDays == 1 && b.positions[0].entryDate == bar.date
    ensures b.positions[0].entryPrice == Raised(bar.close, cfg.slippageRate)
  {
    var left, traded :| ExitRule(cfg, bar, a, left) && OrderRule(cfg, symbol, BuySignal, bar, left, traded)
                        && CloseRule(bar, traded, b);
    ExitLeaves(cfg, bar, a, left);
    assert OrderOf(cfg, left.cash, Raised(bar.close, cfg.slippageRate), full, q);
    assert Bought(cfg, symbol, bar.date, Raised(bar.close, cfg.slippageRate), left, traded, q);
  }
}
