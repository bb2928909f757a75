/** The simulator as an object that a run updates bar by bar. */
module BacktestEngine {
  import opened Common
  import opened Backtest
  import opened BacktestLaws

  datatype RunResult = TooFewBars | Completed(trades: seq<Trade>, curve: seq<real>)

  class Engine {
    const cfg: Config
    const strategy: Strategy
    var cash: real
    var positions: seq<Position>
    var trades: seq<Trade>
    var curve: seq<real>

    constructor (cfg: Config, strategy: Strategy)
      ensures this.cfg == cfg && this.strategy == strategy
      ensures cash == cfg.initialCapital && positions == [] && trades == [] && curve == []
    {
      this.cfg, this.strategy := cfg, strategy;
      cash, positions, trades, curve := cfg.initialCapital, [], [], [];
    }

    ghost function Value(): Account
      reads this
    {
      Account(cash, positions, trades, curve)
    }

    method RemovePosition(p: Position)
      modifies this`positions
      ensures positions == RemoveFirst(old(positions), p)
    {
      var i := 0;
      while i < |positions| && positions[i] != p
        invariant 0 <= i <= |positions| && positions == old(positions)
        invariant RemoveFirst(positions, p) == positions[..i] + RemoveFirst(positions[i..], p)
      {
        assert positions[i..][1..] == positions[i + 1..];
        assert positions[..i] + [positions[i]] == positions[..i + 1];
        i := i + 1;
      }
      if i < |positions| {
        assert positions[i..][1..] == positions[i + 1..];
        positions := positions[..i] + positions[i + 1..];
      }
    }

    method ClosePosition(p: Position, date: string, price: real, reason: string)
      modifies this
      ensures Value() == Close(cfg, old(Value()), p, date, price, reason)
    {
      var actual := SellPrice(cfg, price);
      var revenue := Cost(actual, p.quantity);
      var net := revenue - Fee(cfg, revenue);
      cash := cash + net;
      trades := trades + [Trade(p.symbol, p.entryDate, p.entryPrice, date, actual, p.quantity,
                                net - Cost(p.entryPrice, p.quantity), ReturnPct(p.entryPrice, actual), p.holdDays,
                                reason)];
      RemovePosition(p);
    }

    method CheckPosition(p: Position, bar: Bar)
      modifies this
      ensures Value() == CheckOne(cfg, old(Value()), p, bar)
    {
      if bar.low <= p.stopLoss {
        ClosePosition(p, bar.date, p.stopLoss, "STOP_LOSS");
      } else if bar.high >= p.takeProfit {
        ClosePosition(p, bar.date, p.takeProfit, "TAKE_PROFIT");
      } else if p.holdDays >= cfg.maxHoldDays {
        ClosePosition(p, bar.date, bar.close, "MAX_HOLD_DAYS");
      }
    }

    /** Goes over a copy of the positions, because the exits remove from the list. */
    method CheckPositions(bar: Bar)
      modifies this
      ensures Value() == CheckEach(cfg, old(Value()), old(positions), bar)
    {
      var todo := positions;
      ghost var goal := CheckEach(cfg, Value(), todo, bar);
      var i := 0;
      while i < |todo|
        invariant 0 <= i <= |todo|
        invariant CheckEach(cfg, Value(), todo[i..], bar) == goal
      {
        assert todo[i..][0] == todo[i] && todo[i..][1..] == todo[i + 1..];
        CheckPosition(todo[i], bar);
        i := i + 1;
      }
    }

    method OrderQuantity(actual: real) returns (quantity: int)
      ensures quantity == BuyQuantity(cfg, cash, actual)
    {
      quantity := Shares(Budget(cfg, cash), actual);
      if quantity <= 0 { return; }
      var commission := Fee(cfg, Cost(actual, quantity));
      if Cost(actual, quantity) + commission > cash {
        quantity := Shares(cash - commission, actual);
      }
    }

    method BuyShares(symbol: string, date: string, price: real)
      modifies this
      ensures Value() == Buy(cfg, old(Value()), symbol, date, price)
    {
      var actual := BuyPrice(cfg, price);
      var quantity := OrderQuantity(actual);
      if quantity <= 0 { return; }
      var cost := Cost(actual, quantity);
      cash := cash - (cost + Fee(cfg, cost));
      positions := positions + [Opened(cfg, symbol, date, actual, quantity)];
    }

    method Held(symbol: string) returns (p: Option<Position>)
      ensures p == FirstOf(positions, symbol)
    {
      var i := 0;
      while i < |positions|
        invariant 0 <= i <= |positions|
        invariant FirstOf(positions, symbol) == FirstOf(positions[i..], symbol)
      {
        if positions[i].symbol == symbol { return Some(positions[i]); }
        assert positions[i..][1..] == positions[i + 1..];
        i := i + 1;
      }
      return None;
    }

    method ActOn(symbol: string, signal: Signal, bar: Bar)
      modifies this
      ensures Value() == OnSignal(cfg, old(Value()), symbol, signal, bar)
    {
      var held := Held(symbol);
      if signal == BuySignal && held.None? {
        BuyShares(symbol, bar.date, bar.close);
      } else if signal == SellSignal && held.Some? {
        ClosePosition(held.value, bar.date, bar.close, "SIGNAL");
      }
    }

    method CalculateEquity(price: real) returns (equity: real)
      ensures equity == cash + StockValue(positions, price)
    {
      var stockValue, i := 0.0, 0;
      while i < |positions|
        invariant 0 <= i <= |positions|
        invariant stockValue + StockValue(positions[i..], price) == StockValue(positions, price)
      {
        assert positions[i..][1..] == positions[i + 1..];
        stockValue := stockValue + positions[i].quantity as real * price;
        i := i + 1;
      }
      equity := cash + stockValue;
    }

    method AgePositions()
      modifies this`positions
      ensures positions == Aged(old(positions))
    {
      ghost var aged := Aged(positions);
      var i := 0;
      while i < |positions|
        invariant 0 <= i <= |positions| == |aged|
        invariant forall k :: 0 <= k < |aged| ==> positions[k] == if k < i then aged[k] else old(positions)[k]
      {
        positions := positions[i := positions[i].(holdDays := positions[i].holdDays + 1)];
        i := i + 1;
      }
    }

    method ProcessBar(symbol: string, signal: Signal, bar: Bar)
      modifies this
      ensures Value() == EndOfBar(OnSignal(cfg, old(Value()), symbol, signal, bar), bar)
    {
      ActOn(symbol, signal, bar);
      var equity := CalculateEquity(bar.close);
      curve := curve + [equity];
      AgePositions();
    }

    method CloseRemaining(last: Bar)
      modifies this
      ensures Value() == Finish(cfg, old(Value()), last)
    {
      var todo := positions;
      ghost var goal := Finish(cfg, Value(), last);
      var i := 0;
      while i < |todo|
        invariant 0 <= i <= |todo|
        invariant CloseAll(cfg, Value(), todo[i..], last.date, last.close) == goal
      {
        assert todo[i..][0] == todo[i] && todo[i..][1..] == todo[i + 1..];
        ClosePosition(todo[i], last.date, last.close, "END_OF_DATA");
        i := i + 1;
      }
    }

    /** With fewer than 30 bars nothing is touched. The strategy is asked after the exits of the bar,
        about the bars so far. */
    method Run(symbol: string, bars: seq<Bar>) returns (r: RunResult)
      modifies this
      ensures |bars| < LOOKBACK ==> r == TooFewBars && Value() == old(Value())
      ensures |bars| >= LOOKBACK ==>
                Value() == RunAll(cfg, strategy, symbol, bars) && r == Completed(trades, curve)
    {
      if |bars| < LOOKBACK { return TooFewBars; }
      cash, positions, trades, curve := cfg.initialCapital, [], [], [cfg.initialCapital];
      var i := LOOKBACK;
      while i < |bars|
        invariant LOOKBACK <= i <= |bars|
        invariant Value() == RunTo(cfg, strategy, symbol, bars, i)
      {
        CheckPositions(bars[i]);
        ProcessBar(symbol, strategy(bars[..i + 1]), bars[i]);
        NextBar(cfg, strategy, symbol, bars, i);
        i := i + 1;
      }
      CloseRemaining(bars[|bars| - 1]);
      return Completed(trades, curve);
    }
  }
}
