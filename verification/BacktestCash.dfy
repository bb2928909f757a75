/** When the simulated cash can go below zero: an exact condition on the configuration. */
module BacktestCash {
  import opened Common
  import opened Backtest
  import opened BacktestLaws

  /** Positive prices, with the open and the close between the low and the high. */
  predicate WellFormed(bar: Bar) { 0.0 < bar.low <= bar.open <= bar.high && bar.low <= bar.close <= bar.high }

  predicate WellFormedBars(bars: seq<Bar>) { forall i :: 0 <= i < |bars| ==> WellFormed(bars[i]) }

  /** Some capital, slippage below 100%, and no negative rates. */
  predicate Sane(cfg: Config) {
    cfg.initialCapital > 0.0 && 0.0 <= cfg.slippageRate < 100.0 && 0.0 <= cfg.commissionRate
  }

  // ----- Shares of an amount

  lemma QuotientPositive(a: real, b: real)
    requires a > 0.0 && b > 0.0
    ensures a / b > 0.0 && a / b * b == a
  {
    assert a / b * b == a;
    if a / b <= 0.0 { ProductNonNegative(-(a / b), b); }
  }

  function CommissionShare(cfg: Config): real { cfg.commissionRate / 100.0 }

  /** What slippage leaves of a sale. */
  function SaleShare(cfg: Config): real { 1.0 - cfg.slippageRate / 100.0 }

  /** The share of the cash that a position may use. */
  function BudgetShare(cfg: Config): real { MinR(cfg.maxPositionPct / 100.0, 0.9) }

  // ----- Exit prices, as shares of the entry price

  function StopShare(cfg: Config): real { 1.0 + cfg.stopLossPct / 100.0 }

  function TakeShare(cfg: Config): real { 1.0 + cfg.takeProfitPct / 100.0 }

  /** The close of the entry bar itself: the entry without its slippage. */
  function SameDayShare(cfg: Config): (r: real)
    requires Sane(cfg)
    ensures r > 0.0 && r * (1.0 + cfg.slippageRate / 100.0) == 1.0
  {
    QuotientPositive(1.0, 1.0 + cfg.slippageRate / 100.0);
    1.0 / (1.0 + cfg.slippageRate / 100.0)
  }

  /** The highest price at which a position can leave. */
  function TopShare(cfg: Config): real
    requires Sane(cfg)
  {
    MaxR(MaxR(StopShare(cfg), TakeShare(cfg)), SameDayShare(cfg))
  }

  /** With commission `c`, sale share `k`, and top and target of the exits. */
  function LossOf(c: real, k: real, top: real, take: real): real {
    if c > 1.0 then top * k * (c - 1.0) else if take < 0.0 then -take * k * (1.0 - c) else 0.0
  }

  /** What the worst exit takes out of the cash: with commissions above 100% the one at the highest
      price, and otherwise only one at a negative target. */
  function ExitLoss(cfg: Config): real
    requires Sane(cfg)
  {
    LossOf(CommissionShare(cfg), SaleShare(cfg), TopShare(cfg), TakeShare(cfg))
  }

  /** Budget share `m` leaves enough for commission `c` and the worst exit `d`. */
  predicate Covers(m: real, c: real, d: real) { d == 0.0 || Times(m, Outlay(c, d)) <= 1.0 }

  function Times(a: real, b: real): real { a * b }

  /** What a position takes out of the cash at worst, per share of its price. */
  function Outlay(c: real, d: real): real { 1.0 + c + d }

  /** No budget, or commissions so high that no order fits the cash. */
  predicate Blocks(m: real, c: real) { m <= 0.0 || Times(m, 1.0 + c) >= 2.0 }

  /** No exit costs cash, or the budget leaves enough for the worst one. */
  predicate CanCover(cfg: Config, d: real) { Covers(BudgetShare(cfg), CommissionShare(cfg), d) }

  predicate NeverBuys(cfg: Config) { Blocks(BudgetShare(cfg), CommissionShare(cfg)) }

  predicate SafeRates(cfg: Config)
    requires Sane(cfg)
  {
    CanCover(cfg, ExitLoss(cfg)) || NeverBuys(cfg)
  }

  /** No run, on any well-formed bars and with any strategy, takes the cash below zero. */
  ghost predicate Solvent(cfg: Config) {
    forall strategy: Strategy, symbol: string, bars: seq<Bar> :: LOOKBACK <= |bars| && WellFormedBars(bars) ==>
      && RunAll(cfg, strategy, symbol, bars).cash >= 0.0
      && forall n :: LOOKBACK <= n <= |bars| ==> RunTo(cfg, strategy, symbol, bars, n).cash >= 0.0
  }

  // ----- How many shares an amount pays for

  lemma SharesOfPositive(amount: real, price: real)
    requires price > 0.0 && amount >= 0.0
    ensures var q := Shares(amount, price); q >= 0 && q as real * price <= amount < q as real * price + price
  {
    var ratio := amount / price;
    assert ratio >= 0.0 by { if ratio < 0.0 { ProductPositive(-ratio, price); } }
    WholePart(amount, ratio, ratio.Floor as real, price);
    NextPart(amount, ratio, ratio.Floor as real, price);
  }

  lemma WholePart(amount: real, ratio: real, low: real, price: real)
    requires amount == ratio * price && price > 0.0 && low <= ratio
    ensures low * price <= amount
  {
    ProductMonotone(low, ratio, price);
  }

  lemma NextPart(amount: real, ratio: real, low: real, price: real)
    requires amount == ratio * price && price > 0.0 && ratio < low + 1.0
    ensures amount < low * price + price
  {
    var gap := low + 1.0 - ratio;
    ProductPositive(gap, price);
    assert gap * price == low * price + price - ratio * price;
  }

  lemma SharesOfNegative(amount: real, price: real)
    requires price > 0.0 && amount <= 0.0
    ensures Shares(amount, price) <= 0
  {
    var ratio := amount / price;
    assert ratio * price == amount;
    assert ratio <= 0.0 by { if ratio > 0.0 { ProductPositive(ratio, price); } }
  }

  lemma BudgetIsShare(cfg: Config, cash: real)
    requires cash >= 0.0
    ensures Budget(cfg, cash) == BudgetShare(cfg) * cash
  {
    var pct := cfg.maxPositionPct / 100.0;
    if pct <= 0.9 {
      ProductMonotone(pct, 0.9, cash);
    } else {
      ProductMonotone(0.9, pct, cash);
    }
  }

  // ----- Orders fit the cash

  /** An order never costs more than the cash, also after it was cut down with the old commission. */
  lemma OrderFits(cfg: Config, cash: real, actual: real)
    requires cash >= 0.0 && actual > 0.0 && cfg.commissionRate >= 0.0
    ensures var qty := BuyQuantity(cfg, cash, actual);
            qty > 0 ==> Cost(actual, qty) + Fee(cfg, Cost(actual, qty)) <= cash
  {
    var qty := Shares(Budget(cfg, cash), actual);
    var commission := Fee(cfg, Cost(actual, qty));
    if qty > 0 && Cost(actual, qty) + commission > cash {
      if cash - commission >= 0.0 {
        SharesOfPositive(cash - commission, actual);
        var cut := Shares(cash - commission, actual);
        CutFits(cash, commission, Cost(actual, qty), Cost(actual, cut), cfg.commissionRate / 100.0);
      } else {
        SharesOfNegative(cash - commission, actual);
      }
    }
  }

  lemma CutFits(cash: real, commission: real, first: real, cut: real, rate: real)
    requires commission == first * rate && first + commission > cash && cut <= cash - commission && rate >= 0.0
    ensures cut + cut * rate <= cash
  {
    ProductMonotone(cut, first, rate);
  }

  // ----- The worst exit

  /** Where a position bought at `entry` can leave: not above the top, and below zero only at its target. */
  predicate Exitable(cfg: Config, entry: real, price: real)
    requires Sane(cfg)
  {
    price <= entry * TopShare(cfg) && (price >= 0.0 || price == entry * TakeShare(cfg))
  }

  lemma NetOf(cfg: Config, price: real, qty: int)
    ensures Net(cfg, price, qty) == SellPrice(cfg, price) * qty as real * (1.0 - CommissionShare(cfg))
  {
  }

  lemma LossNonNegative(c: real, k: real, top: real, take: real)
    requires c >= 0.0 && k > 0.0 && top > 0.0
    ensures LossOf(c, k, top, take) >= 0.0
    ensures LossOf(c, k, top, take) != 0.0 ==> LossOf(c, k, top, take) > 0.0
  {
    ProductPositive(top, k);
    if c > 1.0 {
      ProductPositive(top * k, c - 1.0);
    } else if take < 0.0 {
      ProductPositive(-take, k);
      ProductNonNegative(-take * k, 1.0 - c);
    }
  }

  lemma ExitLossNonNegative(cfg: Config)
    requires Sane(cfg)
    ensures ExitLoss(cfg) >= 0.0
  {
    LossNonNegative(CommissionShare(cfg), SaleShare(cfg), TopShare(cfg), TakeShare(cfg));
  }

  /** With `r` the top share, `k` the sale share and `d` the commission above 100%. */
  lemma LossBelowTop(price: real, entry: real, r: real, k: real, q: real, d: real)
    requires price <= entry * r && k >= 0.0 && q >= 0.0 && d >= 0.0
    ensures price * k * q * -d >= -((r * k * d) * (entry * q))
  {
    ProductNonNegative(k, q);
    ProductNonNegative(k * q, d);
    ProductMonotone(price, entry * r, k * q * d);
    SameProduct(price, k, q, d);
    SameProduct(entry * r, k, q, d);
    SwapProduct(entry, r, k, q, d);
  }

  lemma SameProduct(a: real, k: real, q: real, d: real)
    ensures a * (k * q * d) == -(a * k * q * -d)
  {
  }

  lemma SwapProduct(entry: real, r: real, k: real, q: real, d: real)
    ensures (entry * r) * k * q * -d == -((r * k * d) * (entry * q))
  {
  }

  lemma GainAboveZero(price: real, k: real, q: real, d: real)
    requires price >= 0.0 && k >= 0.0 && q >= 0.0 && d >= 0.0
    ensures price * k * q * d >= 0.0
  {
    ProductNonNegative(price, k);
    ProductNonNegative(price * k, q);
    ProductNonNegative(price * k * q, d);
  }

  lemma LossAtTarget(entry: real, t: real, k: real, q: real, d: real)
    ensures (entry * t) * k * q * d == -((-t * k * d) * (entry * q))
  {
  }

  lemma NumericBound(price: real, entry: real, q: real, c: real, k: real, top: real, take: real)
    requires entry > 0.0 && q >= 0.0 && c >= 0.0 && k > 0.0 && top > 0.0
    requires price <= entry * top && (price >= 0.0 || price == entry * take)
    ensures price * k * q * (1.0 - c) >= -(LossOf(c, k, top, take) * (entry * q))
  {
    ProductNonNegative(entry, q);
    LossNonNegative(c, k, top, take);
    if c > 1.0 {
      LossBelowTop(price, entry, top, k, q, c - 1.0);
    } else if price >= 0.0 {
      GainAboveZero(price, k, q, 1.0 - c);
      ProductNonNegative(LossOf(c, k, top, take), entry * q);
    } else {
      BelowZero(entry, take);
      LossAtTarget(entry, take, k, q, 1.0 - c);
    }
  }

  lemma BelowZero(entry: real, take: real)
    requires entry > 0.0 && entry * take < 0.0
    ensures take < 0.0
  {
    if take >= 0.0 { ProductNonNegative(entry, take); }
  }

  lemma SharesPositive(cfg: Config)
    requires Sane(cfg)
    ensures TopShare(cfg) > 0.0 && SaleShare(cfg) > 0.0 && CommissionShare(cfg) >= 0.0
  {
  }

  lemma NetIsProduct(cfg: Config, price: real, qty: int, k: real, c: real)
    requires k == SaleShare(cfg) && c == CommissionShare(cfg)
    ensures Net(cfg, price, qty) == price * k * qty as real * (1.0 - c)
  {
    NetOf(cfg, price, qty);
  }

  lemma NetBound(cfg: Config, entry: real, qty: int, price: real, c: real, k: real, top: real, take: real)
    requires k == SaleShare(cfg) > 0.0 && c == CommissionShare(cfg) >= 0.0 && top > 0.0 && entry > 0.0 && qty >= 0
    requires price <= entry * top && (price >= 0.0 || price == entry * take)
    ensures Net(cfg, price, qty) >= -(LossOf(c, k, top, take) * Cost(entry, qty))
  {
    NetIsProduct(cfg, price, qty, k, c);
    NumericBound(price, entry, qty as real, c, k, top, take);
  }

  /** No exit loses more than that share of what the position cost. */
  lemma ExitBound(cfg: Config, entry: real, qty: int, price: real)
    requires Sane(cfg) && entry > 0.0 && qty >= 0 && Exitable(cfg, entry, price)
    ensures Net(cfg, price, qty) >= -(ExitLoss(cfg) * Cost(entry, qty))
  {
    SharesPositive(cfg);
    NetBound(cfg, entry, qty, price, CommissionShare(cfg), SaleShare(cfg), TopShare(cfg), TakeShare(cfg));
  }

  // ----- The invariant: the cash covers the worst exit of what is held

  predicate Levelled(cfg: Config, p: Position) {
    p.stopLoss == p.entryPrice * StopShare(cfg) && p.takeProfit == p.entryPrice * TakeShare(cfg)
  }

  /** The cash covers a loss of `d` per share of the cost. */
  predicate Reserved(cfg: Config, d: real, cash: real, p: Position) {
    Levelled(cfg, p) && cash >= d * Cost(p.entryPrice, p.quantity)
  }

  predicate AllReserved(cfg: Config, d: real, a: Account) {
    a.cash >= 0.0 && forall i :: 0 <= i < |a.positions| ==> Reserved(cfg, d, a.cash, a.positions[i])
  }

  predicate Covered(cfg: Config, d: real, symbol: string, a: Account) {
    Sound(cfg, symbol, a) && AllReserved(cfg, d, a)
  }

  lemma CloseCovered(cfg: Config, a: Account, p: Position, date: string, price: real, reason: string)
    requires Sane(cfg) && p.entryPrice > 0.0 && p.quantity >= 0 && Reserved(cfg, ExitLoss(cfg), a.cash, p)
    requires Exitable(cfg, p.entryPrice, price)
    ensures Close(cfg, a, p, date, price, reason).cash >= 0.0
  {
    ExitBound(cfg, p.entryPrice, p.quantity, price);
  }

  lemma StopExitable(cfg: Config, p: Position, bar: Bar)
    requires Sane(cfg) && Levelled(cfg, p) && p.entryPrice > 0.0 && 0.0 < bar.low <= p.stopLoss
    ensures Exitable(cfg, p.entryPrice, p.stopLoss)
  {
    ProductMonotone(StopShare(cfg), TopShare(cfg), p.entryPrice);
  }

  lemma TakeExitable(cfg: Config, p: Position)
    requires Sane(cfg) && Levelled(cfg, p) && p.entryPrice > 0.0
    ensures Exitable(cfg, p.entryPrice, p.takeProfit)
  {
    ProductMonotone(TakeShare(cfg), TopShare(cfg), p.entryPrice);
  }

  lemma CloseExitable(cfg: Config, p: Position, close: real)
    requires Sane(cfg) && Levelled(cfg, p) && p.entryPrice > 0.0 && 0.0 < close < p.takeProfit
    ensures Exitable(cfg, p.entryPrice, close)
  {
    TakeExitable(cfg, p);
  }

  lemma SameDayExitable(cfg: Config, entry: real, close: real)
    requires Sane(cfg) && close > 0.0 && entry == BuyPrice(cfg, close)
    ensures Exitable(cfg, entry, close) && close == entry * SameDayShare(cfg) && entry > 0.0
  {
    BuyPricePositive(cfg, close);
    Undo(close, 1.0 + cfg.slippageRate / 100.0, SameDayShare(cfg));
    ProductMonotone(SameDayShare(cfg), TopShare(cfg), entry);
  }

  lemma Undo(close: real, up: real, down: real)
    requires down * up == 1.0
    ensures close == (close * up) * down
  {
    assert (close * up) * down == close * (down * up);
  }

  lemma BuyPricePositive(cfg: Config, close: real)
    requires Sane(cfg) && close > 0.0
    ensures BuyPrice(cfg, close) > 0.0
  {
    ProductPositive(close, 1.0 + cfg.slippageRate / 100.0);
  }

  lemma CheckCovered(cfg: Config, symbol: string, a: Account, bar: Bar)
    requires Sane(cfg) && Covered(cfg, ExitLoss(cfg), symbol, a) && WellFormed(bar)
    ensures var r := CheckEach(cfg, a, a.positions, bar);
            && r.cash >= 0.0
            && (r.positions == [] || (r == a && bar.high < a.positions[0].takeProfit))
  {
    CheckSingle(cfg, a, bar);
    if a.positions != [] {
      var p := a.positions[0];
      assert Reserved(cfg, ExitLoss(cfg), a.cash, p) && SoundPosition(cfg, symbol, p);
      if bar.low <= p.stopLoss {
        StopExitable(cfg, p, bar);
        CloseCovered(cfg, a, p, bar.date, p.stopLoss, "STOP_LOSS");
      } else if bar.high >= p.takeProfit {
        TakeExitable(cfg, p);
        CloseCovered(cfg, a, p, bar.date, p.takeProfit, "TAKE_PROFIT");
      } else if p.holdDays >= cfg.maxHoldDays {
        CloseExitable(cfg, p, bar.close);
        CloseCovered(cfg, a, p, bar.date, bar.close, "MAX_HOLD_DAYS");
      }
    }
  }

  /** After an order the cash covers a loss of `d` per share of the cost. */
  lemma BuyReserves(cfg: Config, cash: real, actual: real, d: real)
    requires Sane(cfg) && cash >= 0.0 && actual > 0.0 && d >= 0.0
    requires CanCover(cfg, d)
    ensures var qty := BuyQuantity(cfg, cash, actual);
            var rest := cash - (Cost(actual, qty) + Fee(cfg, Cost(actual, qty)));
            qty > 0 ==> rest >= 0.0 && rest >= d * Cost(actual, qty)
  {
    if d == 0.0 {
      OrderFits(cfg, cash, actual);
    } else {
      BudgetIsShare(cfg, cash);
      if BudgetShare(cfg) <= 0.0 {
        ProductMonotone(BudgetShare(cfg), 0.0, cash);
        SharesOfNegative(Budget(cfg, cash), actual);
      } else {
        BudgetReserves(cfg, cash, actual, d);
      }
    }
  }

  lemma Uncut(cfg: Config, cash: real, actual: real, q: int)
    requires q == Shares(Budget(cfg, cash), actual) && Cost(actual, q) + Fee(cfg, Cost(actual, q)) <= cash
    ensures BuyQuantity(cfg, cash, actual) == q
  {
  }

  lemma BudgetReserves(cfg: Config, cash: real, actual: real, d: real)
    requires Sane(cfg) && cash >= 0.0 && actual > 0.0 && BudgetShare(cfg) > 0.0
    requires Budget(cfg, cash) == BudgetShare(cfg) * cash
    requires CanCover(cfg, d) && d > 0.0
    ensures var qty := BuyQuantity(cfg, cash, actual);
            && Cost(actual, qty) + Fee(cfg, Cost(actual, qty)) <= cash - d * Cost(actual, qty)
            && Cost(actual, qty) + Fee(cfg, Cost(actual, qty)) <= cash
  {
    var q := BudgetBuys(cfg, cash, actual);
    FeeIsShare(cfg, Cost(actual, q));
    BudgetCovers(BudgetShare(cfg), CommissionShare(cfg), d, cash, Cost(actual, q));
    Uncut(cfg, cash, actual, q);
  }

  lemma BudgetBuys(cfg: Config, cash: real, actual: real) returns (q: int)
    requires cash >= 0.0 && actual > 0.0 && BudgetShare(cfg) > 0.0 && Budget(cfg, cash) == BudgetShare(cfg) * cash
    ensures q == Shares(Budget(cfg, cash), actual) && 0.0 <= Cost(actual, q) <= BudgetShare(cfg) * cash
  {
    var amount := Budget(cfg, cash);
    ProductNonNegative(BudgetShare(cfg), cash);
    SharesOfPositive(amount, actual);
    q := Shares(amount, actual);
    ProductNonNegative(q as real, actual);
  }

  /** With `m` the budget share, `c` the commission and `d` the loss of the worst exit. */
  lemma BudgetCovers(m: real, c: real, d: real, cash: real, cost: real)
    requires Covers(m, c, d) && d > 0.0 && m > 0.0 && c >= 0.0 && cash >= 0.0 && cost <= m * cash
    ensures cost + c * cost <= cash - d * cost
    ensures cost >= 0.0 ==> cost + c * cost <= cash
  {
    ProductMonotone(cost, m * cash, Outlay(c, d));
    ProductMonotone(m * Outlay(c, d), 1.0, cash);
    SwapCash(m, Outlay(c, d), cash);
    TimesOutlay(cost, c, d);
    if cost >= 0.0 { ProductNonNegative(d, cost); }
  }

  lemma SwapCash(m: real, t: real, cash: real)
    ensures (m * t) * cash == (m * cash) * t
  {
  }

  lemma Regroup(m: real, c: real, cash: real)
    ensures (m * (1.0 + c)) * cash == (m * cash) * (1.0 + c)
  {
  }

  lemma FeeIsShare(cfg: Config, amount: real)
    ensures Fee(cfg, amount) == CommissionShare(cfg) * amount
  {
  }

  lemma OpenedLevelled(cfg: Config, symbol: string, date: string, entry: real, qty: int)
    ensures Levelled(cfg, Opened(cfg, symbol, date, entry, qty))
  {
  }

  lemma BuyOutcome(cfg: Config, a: Account, symbol: string, date: string, price: real, actual: real, qty: int)
    requires actual == BuyPrice(cfg, price) && qty == BuyQuantity(cfg, a.cash, actual) && a.positions == []
    ensures var r := Buy(cfg, a, symbol, date, price);
            if qty <= 0 then r == a
            else
              && r.cash == a.cash - (Cost(actual, qty) + Fee(cfg, Cost(actual, qty)))
              && r.positions == [Opened(cfg, symbol, date, actual, qty)]
  {
  }

  lemma BoughtCovered(cfg: Config, d: real, symbol: string, a: Account, bar: Bar)
    requires Sane(cfg) && CanCover(cfg, d) && d >= 0.0 && a.positions == [] && a.cash >= 0.0 && WellFormed(bar)
    ensures var r := Buy(cfg, a, symbol, bar.date, bar.close); AllReserved(cfg, d, r) && Marked(cfg, r, bar)
  {
    var actual := BuyPrice(cfg, bar.close);
    var qty := BuyQuantity(cfg, a.cash, actual);
    BuyPricePositive(cfg, bar.close);
    BuyReserves(cfg, a.cash, actual, d);
    OpenedLevelled(cfg, symbol, bar.date, actual, qty);
    BuyOutcome(cfg, a, symbol, bar.date, bar.close, actual, qty);
  }

  /** What a bar leaves: its close is an exit price of what is still held. */
  predicate Marked(cfg: Config, a: Account, bar: Bar) {
    forall i :: 0 <= i < |a.positions| ==>
      a.positions[i].entryPrice == BuyPrice(cfg, bar.close) || bar.close < a.positions[i].takeProfit
  }

  lemma SoldCovered(cfg: Config, symbol: string, a: Account, bar: Bar)
    requires Sane(cfg) && Covered(cfg, ExitLoss(cfg), symbol, a) && a.positions != []
    requires WellFormed(bar) && bar.close < a.positions[0].takeProfit
    ensures Close(cfg, a, a.positions[0], bar.date, bar.close, "SIGNAL").cash >= 0.0
  {
    var p := a.positions[0];
    assert Reserved(cfg, ExitLoss(cfg), a.cash, p) && SoundPosition(cfg, symbol, p);
    CloseExitable(cfg, p, bar.close);
    CloseCovered(cfg, a, p, bar.date, bar.close, "SIGNAL");
  }

  lemma SignalCovered(cfg: Config, d: real, symbol: string, a: Account, signal: Signal, bar: Bar)
    requires Sane(cfg) && CanCover(cfg, d) && d >= 0.0 && AllReserved(cfg, d, a) && WellFormed(bar)
               && Marked(cfg, a, bar)
    requires a.positions != [] ==>
               && |a.positions| == 1 && a.positions[0].symbol == symbol
               && Close(cfg, a, a.positions[0], bar.date, bar.close, "SIGNAL").cash >= 0.0
    ensures var r := OnSignal(cfg, a, symbol, signal, bar); AllReserved(cfg, d, r) && Marked(cfg, r, bar)
  {
    OneOrder(cfg, a, symbol, signal, bar);
    if a.positions == [] {
      BoughtCovered(cfg, d, symbol, a, bar);
    }
  }

  /** A signal buys with nothing held, sells what is held, or does nothing. */
  lemma OneOrder(cfg: Config, a: Account, symbol: string, signal: Signal, bar: Bar)
    requires a.positions != [] ==> |a.positions| == 1 && a.positions[0].symbol == symbol
    ensures var r := OnSignal(cfg, a, symbol, signal, bar);
            || r == a
            || (a.positions == [] && r == Buy(cfg, a, symbol, bar.date, bar.close))
            || (a.positions != [] && r == Close(cfg, a, a.positions[0], bar.date, bar.close, "SIGNAL")
                && r.positions == [])
  {
  }

  lemma BarCovered(cfg: Config, symbol: string, a: Account, signal: Signal, bar: Bar)
    requires Sane(cfg) && CanCover(cfg, ExitLoss(cfg)) && Covered(cfg, ExitLoss(cfg), symbol, a) && WellFormed(bar)
    ensures var r := OnBar(cfg, a, symbol, signal, bar); Covered(cfg, ExitLoss(cfg), symbol, r) && Marked(cfg, r, bar)
  {
    ExitLossNonNegative(cfg);
    BuyPricePositive(cfg, bar.close);
    BarSound(cfg, symbol, a, signal, bar);
    CheckCovered(cfg, symbol, a, bar);
    var checked := CheckEach(cfg, a, a.positions, bar);
    if checked.positions != [] { SoldCovered(cfg, symbol, a, bar); }
    SignalCovered(cfg, ExitLoss(cfg), symbol, checked, signal, bar);
    AgeCovered(cfg, ExitLoss(cfg), OnSignal(cfg, checked, symbol, signal, bar), bar);
  }

  lemma AgeCovered(cfg: Config, d: real, a: Account, bar: Bar)
    requires Marked(cfg, a, bar) && AllReserved(cfg, d, a)
    ensures var r := EndOfBar(a, bar); Marked(cfg, r, bar) && AllReserved(cfg, d, r)
  {
    var r := EndOfBar(a, bar);
    forall i | 0 <= i < |r.positions| ensures Reserved(cfg, d, r.cash, r.positions[i]) {
      assert Reserved(cfg, d, a.cash, a.positions[i]);
    }
  }

  lemma RunCovered(cfg: Config, strategy: Strategy, symbol: string, bars: seq<Bar>, n: nat)
    requires Sane(cfg) && CanCover(cfg, ExitLoss(cfg)) && LOOKBACK <= n <= |bars| && WellFormedBars(bars)
    ensures Covered(cfg, ExitLoss(cfg), symbol, RunTo(cfg, strategy, symbol, bars, n))
  {
    var step := BarStep(cfg, strategy, symbol);
    forall b, k | LOOKBACK < k <= n && Covered(cfg, ExitLoss(cfg), symbol, b)
      ensures Covered(cfg, ExitLoss(cfg), symbol, step(b, bars[..k]))
    {
      BarCovered(cfg, symbol, b, strategy(bars[..k]), bars[k - 1]);
    }
    FoldKeeps(b => Covered(cfg, ExitLoss(cfg), symbol, b), step, Start(cfg), bars, n);
  }

  /** The account after the last bar, next to its close. */
  lemma LastMarked(cfg: Config, strategy: Strategy, symbol: string, bars: seq<Bar>)
    requires Sane(cfg) && CanCover(cfg, ExitLoss(cfg)) && LOOKBACK < |bars| && WellFormedBars(bars)
    ensures Marked(cfg, RunTo(cfg, strategy, symbol, bars, |bars|), bars[|bars| - 1])
  {
    var n := |bars|;
    RunCovered(cfg, strategy, symbol, bars, n - 1);
    BarCovered(cfg, symbol, RunTo(cfg, strategy, symbol, bars, n - 1), strategy(bars[..n]), bars[n - 1]);
    assert RunTo(cfg, strategy, symbol, bars, n)
        == BarStep(cfg, strategy, symbol)(RunTo(cfg, strategy, symbol, bars, n - 1), bars[..n]);
  }

  lemma FinishCovered(cfg: Config, strategy: Strategy, symbol: string, bars: seq<Bar>)
    requires Sane(cfg) && CanCover(cfg, ExitLoss(cfg)) && LOOKBACK <= |bars| && WellFormedBars(bars)
    ensures RunAll(cfg, strategy, symbol, bars).cash >= 0.0
  {
    RunCovered(cfg, strategy, symbol, bars, |bars|);
    if |bars| > LOOKBACK { LastMarked(cfg, strategy, symbol, bars); }
    var a, last := RunTo(cfg, strategy, symbol, bars, |bars|), bars[|bars| - 1];
    FinishSingle(cfg, a, last);
    if a.positions != [] {
      LastExit(cfg, symbol, a, last);
    }
  }

  lemma LastExit(cfg: Config, symbol: string, a: Account, last: Bar)
    requires Sane(cfg) && Covered(cfg, ExitLoss(cfg), symbol, a) && a.positions != []
    requires Marked(cfg, a, last) && WellFormed(last)
    ensures Close(cfg, a, a.positions[0], last.date, last.close, "END_OF_DATA").cash >= 0.0
  {
    var p := a.positions[0];
    assert Reserved(cfg, ExitLoss(cfg), a.cash, p) && SoundPosition(cfg, symbol, p);
    if p.entryPrice == BuyPrice(cfg, last.close) {
      SameDayExitable(cfg, p.entryPrice, last.close);
    } else {
      CloseExitable(cfg, p, last.close);
    }
    CloseCovered(cfg, a, p, last.date, last.close, "END_OF_DATA");
  }

  // ----- Nothing is ever bought

  /** With `q` the shares that the budget pays for: what is left after their commission buys none. */
  lemma ReducedToNone(m: real, c: real, cash: real, q: real, price: real)
    requires m * (1.0 + c) >= 2.0 && c > 1.0 && q >= 1.0 && price > 0.0 && cash >= 0.0
    requires m * cash < q * price + price
    ensures cash < q * price + c * (q * price)
    ensures cash - c * (q * price) < price
  {
    ProductMonotone(2.0, m * (1.0 + c), cash);
    Regroup(m, c, cash);
    StrictProduct(m * cash, q * price + price, 1.0 + c);
    assert 2.0 * cash < (q * price + price) * (1.0 + c);
    ProductNonNegative(q - 1.0, price);
    ProductNonNegative((q - 1.0) * price, 1.0 + c);
    ProductNonNegative((q - 1.0) * price, c - 1.0);
    Spread(q, price, c);
  }

  lemma StrictProduct(a: real, b: real, c: real)
    requires a < b && c > 0.0
    ensures a * c < b * c
  {
    ProductPositive(b - a, c);
  }

  lemma Spread(q: real, price: real, c: real)
    ensures (q * price + price) * (1.0 + c) == q * price + c * (q * price) + price + c * price
    ensures ((q - 1.0) * price) * (1.0 + c) == q * price + c * (q * price) - price - c * price
    ensures ((q - 1.0) * price) * (c - 1.0) == c * (q * price) - q * price - c * price + price
  {
  }

  /** The budget is at most 90% of the cash, so only commissions above 100% take twice the cash. */
  lemma HighCommission(m: real, c: real, both: real)
    requires m <= 0.9 && c >= 0.0 && both == m * (1.0 + c) >= 2.0
    ensures c > 1.0
  {
    ProductMonotone(m, 0.9, 1.0 + c);
    assert both <= 0.9 * (1.0 + c);
  }

  lemma BuysNothing(cfg: Config, cash: real, actual: real)
    requires Sane(cfg) && NeverBuys(cfg) && cash >= 0.0 && actual > 0.0
    ensures BuyQuantity(cfg, cash, actual) <= 0
  {
    BudgetIsShare(cfg, cash);
    var m, c := BudgetShare(cfg), CommissionShare(cfg);
    if m <= 0.0 {
      ProductMonotone(m, 0.0, cash);
      SharesOfNegative(Budget(cfg, cash), actual);
    } else {
      HighCommission(m, c, m * (1.0 + c));
      ProductNonNegative(m, cash);
      SharesOfPositive(Budget(cfg, cash), actual);
      var q := Shares(Budget(cfg, cash), actual);
      if q > 0 {
        ReducedToNone(m, c, cash, q as real, actual);
        LeftBuysNone(cfg, cash, actual, q);
      }
    }
  }

  lemma LeftBuysNone(cfg: Config, cash: real, actual: real, q: int)
    requires actual > 0.0 && cash - CommissionShare(cfg) * (q as real * actual) < actual
    ensures Shares(cash - Fee(cfg, Cost(actual, q)), actual) <= 0
  {
    FeeIsShare(cfg, Cost(actual, q));
    SharesOfLess(cash - Fee(cfg, Cost(actual, q)), actual);
  }

  lemma SharesOfLess(amount: real, price: real)
    requires price > 0.0 && amount < price
    ensures Shares(amount, price) <= 0
  {
    if amount <= 0.0 {
      SharesOfNegative(amount, price);
    } else {
      SharesOfPositive(amount, price);
      var q := Shares(amount, price) as real;
      if q >= 1.0 { ProductMonotone(1.0, q, price); }
    }
  }

  predicate Untouched(cfg: Config, a: Account) { a.positions == [] && a.cash == cfg.initialCapital }

  lemma BarUntouched(cfg: Config, symbol: string, a: Account, signal: Signal, bar: Bar)
    requires Sane(cfg) && NeverBuys(cfg) && Untouched(cfg, a) && bar.close > 0.0
    ensures Untouched(cfg, OnBar(cfg, a, symbol, signal, bar))
  {
    BuyPricePositive(cfg, bar.close);
    BuysNothing(cfg, a.cash, BuyPrice(cfg, bar.close));
  }

  lemma RunUntouched(cfg: Config, strategy: Strategy, symbol: string, bars: seq<Bar>, n: nat)
    requires Sane(cfg) && NeverBuys(cfg) && LOOKBACK <= n <= |bars| && WellFormedBars(bars)
    ensures Untouched(cfg, RunTo(cfg, strategy, symbol, bars, n))
  {
    var step := BarStep(cfg, strategy, symbol);
    forall b, k | LOOKBACK < k <= n && Untouched(cfg, b) ensures Untouched(cfg, step(b, bars[..k])) {
      BarUntouched(cfg, symbol, b, strategy(bars[..k]), bars[k - 1]);
    }
    FoldKeeps(b => Untouched(cfg, b), step, Start(cfg), bars, n);
  }

  // ----- Otherwise the commissions on one share, sold at the worst price, exceed the cash

  /** One share at `entry`: the whole budget, or less if the commission would not fit. Its worst exit
      takes more than what is left. */
  lemma EntryFits(m: real, c: real, d: real, cash: real, entry: real)
    requires cash > 0.0 && c >= 0.0 && d > 0.0 && !Covers(m, c, d) && !Blocks(m, c)
    requires entry == MinR(m * cash, cash / (1.0 + c))
    ensures 0.0 < entry <= m * cash < 2.0 * entry && entry + c * entry <= cash
    ensures cash - (entry + c * entry) < d * entry
  {
    var fits := cash / (1.0 + c);
    QuotientPositive(cash, 1.0 + c);
    ProductPositive(m, cash);
    ProductMonotone(entry, fits, 1.0 + c);
    WithinTwo(m, c, cash, fits);
    if entry == m * cash {
      ExceedsCash(m, c, d, cash, entry);
    } else {
      ProductPositive(d, entry);
      assert entry * (1.0 + c) == cash;
    }
  }

  lemma ExceedsCash(m: real, c: real, d: real, cash: real, amount: real)
    requires cash > 0.0 && d > 0.0 && !Covers(m, c, d) && amount == m * cash
    ensures cash < amount + c * amount + d * amount
  {
    ScaledUp(m, Outlay(c, d), cash, amount);
    TimesOutlay(amount, c, d);
  }

  lemma TimesOutlay(amount: real, c: real, d: real)
    ensures Times(amount, Outlay(c, d)) == amount + c * amount + d * amount
  {
  }

  lemma ScaledUp(m: real, t: real, cash: real, amount: real)
    requires cash > 0.0 && Times(m, t) > 1.0 && amount == m * cash
    ensures cash < Times(amount, t)
  {
    StrictProduct(1.0, m * t, cash);
    SwapCash(m, t, cash);
  }

  lemma WithinTwo(m: real, c: real, cash: real, fits: real)
    requires cash > 0.0 && m > 0.0 && c >= 0.0 && m * (1.0 + c) < 2.0 && fits * (1.0 + c) == cash
    ensures m * cash < 2.0 * fits
  {
    StrictProduct(m * (1.0 + c), 2.0, cash);
    Regroup(m, c, cash);
    if m * cash >= 2.0 * fits {
      ProductMonotone(2.0 * fits, m * cash, 1.0 + c);
    }
  }

  lemma SharesOne(amount: real, price: real)
    requires 0.0 < price <= amount < 2.0 * price
    ensures Shares(amount, price) == 1
  {
    SharesOfPositive(amount, price);
    OneMultiple(Shares(amount, price) as real, amount, price);
  }

  lemma OneMultiple(q: real, amount: real, price: real)
    requires 0.0 < price <= amount < 2.0 * price && q * price <= amount < q * price + price
    ensures 0.0 < q < 2.0
  {
    if q >= 2.0 { ProductMonotone(2.0, q, price); }
    if q <= 0.0 { ProductMonotone(q, 0.0, price); }
  }

  function CashLeft(cfg: Config, entry: real): real {
    cfg.initialCapital - (entry + CommissionShare(cfg) * entry)
  }

  lemma AffordableShare(cfg: Config, d: real) returns (entry: real)
    requires Sane(cfg) && d > 0.0 && !CanCover(cfg, d) && !NeverBuys(cfg)
    ensures entry > 0.0 && BuyQuantity(cfg, cfg.initialCapital, entry) == 1
    ensures CashLeft(cfg, entry) < d * entry
  {
    var amount;
    entry, amount := FittingEntry(BudgetShare(cfg), CommissionShare(cfg), d, cfg.initialCapital);
    BudgetIsShare(cfg, cfg.initialCapital);
    BuysOneShare(cfg, cfg.initialCapital, entry, CommissionShare(cfg));
  }

  lemma FittingEntry(m: real, c: real, d: real, cash: real) returns (entry: real, amount: real)
    requires cash > 0.0 && c >= 0.0 && d > 0.0 && !Covers(m, c, d) && !Blocks(m, c)
    ensures amount == m * cash && 0.0 < entry <= amount < 2.0 * entry && entry + c * entry <= cash
    ensures cash - (entry + c * entry) < d * entry
  {
    entry, amount := MinR(m * cash, cash / (1.0 + c)), m * cash;
    EntryFits(m, c, d, cash, entry);
  }

  lemma BuysOneShare(cfg: Config, cash: real, entry: real, c: real)
    requires c == CommissionShare(cfg) && entry + c * entry <= cash && 0.0 < entry <= Budget(cfg, cash) < 2.0 * entry
    ensures BuyQuantity(cfg, cash, entry) == 1
  {
    SharesOne(Budget(cfg, cash), entry);
    assert Cost(entry, 1) == entry;
    FeeIsShare(cfg, entry);
    Uncut(cfg, cash, entry, 1);
  }

  /** One price all day. */
  function Flat(price: real): Bar { Bar("", price, price, price, price, 0.0) }

  /** The bar whose close, slippage added, is `entry`. */
  function FirstBar(cfg: Config, entry: real): Bar
    requires Sane(cfg)
  {
    Flat(entry * SameDayShare(cfg))
  }

  function BuyOnce(): Strategy { (seen: seq<Bar>) => if |seen| == LOOKBACK + 1 then BuySignal else NoSignal }

  lemma FirstPrices(cfg: Config, entry: real)
    requires Sane(cfg) && entry > 0.0
    ensures FirstBar(cfg, entry).close > 0.0 && BuyPrice(cfg, FirstBar(cfg, entry).close) == entry
  {
    ProductPositive(entry, SameDayShare(cfg));
    Undo(entry, SameDayShare(cfg), 1.0 + cfg.slippageRate / 100.0);
  }

  lemma BuysOne(cfg: Config, symbol: string, price: real, entry: real)
    requires BuyPrice(cfg, price) == entry && BuyQuantity(cfg, cfg.initialCapital, entry) == 1
    ensures var r := Buy(cfg, Start(cfg), symbol, "", price);
            r.cash == CashLeft(cfg, entry) && r.positions == [Opened(cfg, symbol, "", entry, 1)]
  {
    assert Cost(entry, 1) == entry;
    FeeIsShare(cfg, entry);
  }

  lemma BoughtOnFirst(cfg: Config, symbol: string, entry: real)
    requires Sane(cfg) && entry > 0.0 && BuyQuantity(cfg, cfg.initialCapital, entry) == 1
    ensures var r := OnBar(cfg, Start(cfg), symbol, BuySignal, FirstBar(cfg, entry));
            && r.cash == CashLeft(cfg, entry)
            && r.positions == [Opened(cfg, symbol, "", entry, 1).(holdDays := 1)]
  {
    var bar := FirstBar(cfg, entry);
    FirstPrices(cfg, entry);
    BuysOne(cfg, symbol, bar.close, entry);
    CheckSingle(cfg, Start(cfg), bar);
    assert OnSignal(cfg, Start(cfg), symbol, BuySignal, bar) == Buy(cfg, Start(cfg), symbol, "", bar.close);
  }

  /** The next bar makes the position leave at `price`. */
  lemma SoldOnLast(cfg: Config, symbol: string, a: Account, p: Position, last: Bar, price: real, reason: string)
    requires a.positions == [p] && p.quantity == 1
    requires CheckOne(cfg, a, p, last) == Close(cfg, a, p, last.date, price, reason)
    ensures Finish(cfg, OnBar(cfg, a, symbol, NoSignal, last), last).cash == a.cash + Net(cfg, price, 1)
  {
    CheckSingle(cfg, a, last);
    FinishSingle(cfg, OnBar(cfg, a, symbol, NoSignal, last), last);
  }

  lemma SoldSameDay(cfg: Config, a: Account, p: Position, last: Bar)
    requires a.positions == [p] && p.quantity == 1
    ensures Finish(cfg, a, last).cash == a.cash + Net(cfg, last.close, 1)
  {
    FinishSingle(cfg, a, last);
  }

  lemma LossAt(entry: real, f: real, k: real, c: real, top: real, take: real)
    requires if c > 1.0 then f == top else f == take < 0.0
    ensures entry * f * k * 1.0 * (1.0 - c) == -(LossOf(c, k, top, take) * entry)
  {
  }

  /** The exit at share `f` of the entry price takes the whole loss. */
  lemma NetAtShare(cfg: Config, entry: real, f: real)
    requires Sane(cfg) && if CommissionShare(cfg) > 1.0 then f == TopShare(cfg) else f == TakeShare(cfg) < 0.0
    ensures Net(cfg, entry * f, 1) == -(ExitLoss(cfg) * entry)
  {
    NetIsProduct(cfg, entry * f, 1, SaleShare(cfg), CommissionShare(cfg));
    LossAt(entry, f, SaleShare(cfg), CommissionShare(cfg), TopShare(cfg), TakeShare(cfg));
  }

  // ----- The run in which that happens

  /** A run on well-formed bars that ends with a negative cash. */
  ghost predicate Ruins(cfg: Config, strategy: Strategy, symbol: string, bars: seq<Bar>) {
    LOOKBACK <= |bars| && WellFormedBars(bars) && RunAll(cfg, strategy, symbol, bars).cash < 0.0
  }

  /** The first day of such a run buys `p` and leaves `cash`. */
  predicate FirstDay(cfg: Config, symbol: string, first: Bar, cash: real, p: Position) {
    && WellFormed(first)
    && var r := OnBar(cfg, Start(cfg), symbol, BuySignal, first); r.cash == cash && r.positions == [p]
  }

  lemma FirstDayOf(cfg: Config, symbol: string, entry: real) returns (first: Bar, p: Position)
    requires Sane(cfg) && entry > 0.0 && BuyQuantity(cfg, cfg.initialCapital, entry) == 1
    ensures FirstDay(cfg, symbol, first, CashLeft(cfg, entry), p) && p.quantity == 1
    ensures p == Opened(cfg, symbol, "", entry, 1).(holdDays := 1) && first == FirstBar(cfg, entry)
  {
    first, p := FirstBar(cfg, entry), Opened(cfg, symbol, "", entry, 1).(holdDays := 1);
    FirstPrices(cfg, entry);
    BoughtOnFirst(cfg, symbol, entry);
  }

  lemma RuinedAtTheEnd(cfg: Config, symbol: string, first: Bar, cash: real, p: Position) returns (bars: seq<Bar>)
    requires FirstDay(cfg, symbol, first, cash, p) && p.quantity == 1 && cash + Net(cfg, first.close, 1) < 0.0
    ensures Ruins(cfg, BuyOnce(), symbol, bars)
  {
    bars := seq(LOOKBACK + 1, _ => first);
    OneBar(cfg, BuyOnce(), symbol, bars);
    SoldSameDay(cfg, OnBar(cfg, Start(cfg), symbol, BuySignal, first), p, first);
  }

  lemma OneBar(cfg: Config, strategy: Strategy, symbol: string, bars: seq<Bar>)
    requires |bars| == LOOKBACK + 1
    ensures RunAll(cfg, strategy, symbol, bars)
         == Finish(cfg, OnBar(cfg, Start(cfg), symbol, strategy(bars), bars[LOOKBACK]), bars[LOOKBACK])
  {
    var step := BarStep(cfg, strategy, symbol);
    assert bars[..LOOKBACK + 1] == bars;
    assert Fold(step, Start(cfg), bars, LOOKBACK) == Start(cfg);
    assert Fold(step, Start(cfg), bars, LOOKBACK + 1) == step(Start(cfg), bars);
  }

  lemma TwoBars(cfg: Config, strategy: Strategy, symbol: string, bars: seq<Bar>)
    requires |bars| == LOOKBACK + 2
    ensures RunAll(cfg, strategy, symbol, bars)
         == Finish(cfg, OnBar(cfg, OnBar(cfg, Start(cfg), symbol, strategy(bars[..LOOKBACK + 1]), bars[LOOKBACK]),
                              symbol, strategy(bars), bars[LOOKBACK + 1]), bars[LOOKBACK + 1])
  {
    var step := BarStep(cfg, strategy, symbol);
    assert bars[..LOOKBACK + 2] == bars;
    assert Fold(step, Start(cfg), bars, LOOKBACK) == Start(cfg);
    var one := Fold(step, Start(cfg), bars, LOOKBACK + 1);
    assert one == step(Start(cfg), bars[..LOOKBACK + 1]);
    assert Fold(step, Start(cfg), bars, LOOKBACK + 2) == step(one, bars);
  }

  lemma RuinedNextDay(cfg: Config, symbol: string, first: Bar, cash: real, p: Position, last: Bar, price: real,
                      reason: string)
    returns (bars: seq<Bar>)
    requires FirstDay(cfg, symbol, first, cash, p) && p.quantity == 1 && WellFormed(last)
               && cash + Net(cfg, price, 1) < 0.0
    requires forall a :: CheckOne(cfg, a, p, last) == Close(cfg, a, p, last.date, price, reason)
    ensures Ruins(cfg, BuyOnce(), symbol, bars)
  {
    bars := seq(LOOKBACK + 1, _ => first) + [last];
    TwoBars(cfg, BuyOnce(), symbol, bars);
    SoldOnLast(cfg, symbol, OnBar(cfg, Start(cfg), symbol, BuySignal, first), p, last, price, reason);
  }

  /** The target is reached on a day above the stop. */
  lemma RuinedAtTarget(cfg: Config, symbol: string, first: Bar, cash: real, p: Position) returns (bars: seq<Bar>)
    requires FirstDay(cfg, symbol, first, cash, p) && p.quantity == 1 && cash + Net(cfg, p.takeProfit, 1) < 0.0
    ensures Ruins(cfg, BuyOnce(), symbol, bars)
  {
    var last := Flat(MaxR(MaxR(p.stopLoss, p.takeProfit), 0.0) + 1.0);
    bars := RuinedNextDay(cfg, symbol, first, cash, p, last, p.takeProfit, "TAKE_PROFIT");
  }

  /** The price touches the stop. */
  lemma RuinedAtStop(cfg: Config, symbol: string, first: Bar, cash: real, p: Position) returns (bars: seq<Bar>)
    requires FirstDay(cfg, symbol, first, cash, p) && p.quantity == 1 && cash + Net(cfg, p.stopLoss, 1) < 0.0
    requires p.stopLoss > 0.0
    ensures Ruins(cfg, BuyOnce(), symbol, bars)
  {
    bars := RuinedNextDay(cfg, symbol, first, cash, p, Flat(p.stopLoss), p.stopLoss, "STOP_LOSS");
  }

  /** Unsafe rates: one share leaves at the target, at the stop or at the end of the data, whichever
      costs most, and takes the cash below zero. */
  lemma RuinousRun(cfg: Config, symbol: string) returns (bars: seq<Bar>)
    requires Sane(cfg) && !SafeRates(cfg)
    ensures Ruins(cfg, BuyOnce(), symbol, bars)
  {
    ExitLossNonNegative(cfg);
    var entry, price := WorstEntry(cfg, ExitLoss(cfg));
    bars := RunFrom(cfg, symbol, entry, price);
  }

  lemma WorstEntry(cfg: Config, loss: real) returns (entry: real, price: real)
    requires Sane(cfg) && loss == ExitLoss(cfg) > 0.0 && !CanCover(cfg, loss) && !NeverBuys(cfg)
    ensures entry > 0.0 && BuyQuantity(cfg, cfg.initialCapital, entry) == 1
    ensures CashLeft(cfg, entry) + Net(cfg, price, 1) < 0.0 && ExitPrice(cfg, entry, price)
  {
    entry := AffordableShare(cfg, loss);
    price := WorstPrice(cfg, entry, loss);
  }

  /** Target, stop, or the close of the entry day. */
  predicate ExitPrice(cfg: Config, entry: real, price: real)
    requires Sane(cfg)
  {
    var p := Opened(cfg, "", "", entry, 1);
    price == p.takeProfit || (price == p.stopLoss && price > 0.0) || price == FirstBar(cfg, entry).close
  }

  lemma WorstPrice(cfg: Config, entry: real, loss: real) returns (price: real)
    requires Sane(cfg) && loss == ExitLoss(cfg) > 0.0 && entry > 0.0
    ensures ExitPrice(cfg, entry, price) && Net(cfg, price, 1) == -(loss * entry)
  {
    var f := WorstShare(cfg);
    price := entry * f;
    NetAtShare(cfg, entry, f);
    ShareIsExit(cfg, entry, f);
  }

  lemma WorstShare(cfg: Config) returns (f: real)
    requires Sane(cfg) && ExitLoss(cfg) > 0.0
    ensures f == TakeShare(cfg) || (f == StopShare(cfg) && f > 0.0) || f == SameDayShare(cfg)
    ensures if CommissionShare(cfg) > 1.0 then f == TopShare(cfg) else f == TakeShare(cfg) < 0.0
  {
    f := if CommissionShare(cfg) > 1.0 then TopShare(cfg) else TakeShare(cfg);
  }

  lemma ShareIsExit(cfg: Config, entry: real, f: real)
    requires Sane(cfg) && entry > 0.0
    requires f == TakeShare(cfg) || (f == StopShare(cfg) && f > 0.0) || f == SameDayShare(cfg)
    ensures ExitPrice(cfg, entry, entry * f)
  {
    if f == StopShare(cfg) && f > 0.0 { ProductPositive(entry, f); }
  }

  lemma RunFrom(cfg: Config, symbol: string, entry: real, price: real) returns (bars: seq<Bar>)
    requires Sane(cfg) && entry > 0.0 && BuyQuantity(cfg, cfg.initialCapital, entry) == 1
    requires CashLeft(cfg, entry) + Net(cfg, price, 1) < 0.0 && ExitPrice(cfg, entry, price)
    ensures Ruins(cfg, BuyOnce(), symbol, bars)
  {
    var p := Opened(cfg, symbol, "", entry, 1);
    if price == p.takeProfit {
      bars := TargetRun(cfg, symbol, entry, price);
      return;
    }
    if price == FirstBar(cfg, entry).close {
      bars := EndRun(cfg, symbol, entry, price);
      return;
    }
    bars := StopRun(cfg, symbol, entry, price);
  }

  lemma TargetRun(cfg: Config, symbol: string, entry: real, price: real) returns (bars: seq<Bar>)
    requires Sane(cfg) && entry > 0.0 && BuyQuantity(cfg, cfg.initialCapital, entry) == 1
    requires price == Opened(cfg, symbol, "", entry, 1).takeProfit && CashLeft(cfg, entry) + Net(cfg, price, 1) < 0.0
    ensures Ruins(cfg, BuyOnce(), symbol, bars)
  {
    var first, p := FirstDayOf(cfg, symbol, entry);
    bars := RuinedAtTarget(cfg, symbol, first, CashLeft(cfg, entry), p);
  }

  lemma StopRun(cfg: Config, symbol: string, entry: real, price: real) returns (bars: seq<Bar>)
    requires Sane(cfg) && entry > 0.0 && BuyQuantity(cfg, cfg.initialCapital, entry) == 1
    requires price == Opened(cfg, symbol, "", entry, 1).stopLoss > 0.0
               && CashLeft(cfg, entry) + Net(cfg, price, 1) < 0.0
    ensures Ruins(cfg, BuyOnce(), symbol, bars)
  {
    var first, p := FirstDayOf(cfg, symbol, entry);
    bars := RuinedAtStop(cfg, symbol, first, CashLeft(cfg, entry), p);
  }

  lemma EndRun(cfg: Config, symbol: string, entry: real, price: real) returns (bars: seq<Bar>)
    requires Sane(cfg) && entry > 0.0 && BuyQuantity(cfg, cfg.initialCapital, entry) == 1
    requires price == FirstBar(cfg, entry).close && CashLeft(cfg, entry) + Net(cfg, price, 1) < 0.0
    ensures Ruins(cfg, BuyOnce(), symbol, bars)
  {
    var first, p := FirstDayOf(cfg, symbol, entry);
    bars := RuinedAtTheEnd(cfg, symbol, first, CashLeft(cfg, entry), p);
  }

  // ----- The exact condition

  lemma SafeRun(cfg: Config, strategy: Strategy, symbol: string, bars: seq<Bar>)
    requires Sane(cfg) && SafeRates(cfg) && LOOKBACK <= |bars| && WellFormedBars(bars)
    ensures RunAll(cfg, strategy, symbol, bars).cash >= 0.0
    ensures forall n :: LOOKBACK <= n <= |bars| ==> RunTo(cfg, strategy, symbol, bars, n).cash >= 0.0
  {
    ExitLossNonNegative(cfg);
    if CanCover(cfg, ExitLoss(cfg)) {
      forall n | LOOKBACK <= n <= |bars| ensures RunTo(cfg, strategy, symbol, bars, n).cash >= 0.0 {
        RunCovered(cfg, strategy, symbol, bars, n);
      }
      FinishCovered(cfg, strategy, symbol, bars);
    } else {
      forall n | LOOKBACK <= n <= |bars| ensures RunTo(cfg, strategy, symbol, bars, n).cash >= 0.0 {
        RunUntouched(cfg, strategy, symbol, bars, n);
      }
      RunUntouched(cfg, strategy, symbol, bars, |bars|);
    }
  }

  /** The cash stays non-negative on all well-formed bars and for every strategy exactly when no exit
      costs cash, the budget leaves enough for the worst exit, or nothing can ever be bought. */
  lemma SolventIff(cfg: Config)
    requires Sane(cfg)
    ensures Solvent(cfg) <==> SafeRates(cfg)
  {
    if SafeRates(cfg) {
      forall strategy: Strategy, symbol: string, bars: seq<Bar> | LOOKBACK <= |bars| && WellFormedBars(bars)
        ensures RunAll(cfg, strategy, symbol, bars).cash >= 0.0
        ensures forall n :: LOOKBACK <= n <= |bars| ==> RunTo(cfg, strategy, symbol, bars, n).cash >= 0.0
      {
        SafeRun(cfg, strategy, symbol, bars);
      }
    } else {
      var bars := RuinousRun(cfg, "");
      assert !(RunAll(cfg, BuyOnce(), "", bars).cash >= 0.0);
    }
  }
}
