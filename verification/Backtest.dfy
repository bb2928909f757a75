/** The bar-by-bar simulator: its account as a value, and the engine that updates it. */
module Backtest {
  import opened Common

  /** Rates and percentages in percent, as configured. */
  datatype Config = Config(
    initialCapital: real,
    maxPositionPct: real,
    commissionRate: real,
    slippageRate: real,
    stopLossPct: real,
    takeProfitPct: real,
    maxHoldDays: int)

  datatype Bar = Bar(date: string, open: real, high: real, low: real, close: real, volume: real)

  datatype Position = Position(
    symbol: string,
    entryDate: string,
    entryPrice: real,
    quantity: int,
    holdDays: int,
    stopLoss: real,
    takeProfit: real)

  /** A finished trade; `pnl` and `returnPct` before they are rounded to two decimals. */
  datatype Trade = Trade(
    symbol: string,
    entryDate: string,
    entryPrice: real,
    exitDate: string,
    exitPrice: real,
    quantity: int,
    pnl: real,
    returnPct: real,
    holdDays: int,
    reason: string)

  datatype Signal = NoSignal | BuySignal | SellSignal | HoldSignal

  datatype Account = Account(cash: real, positions: seq<Position>, trades: seq<Trade>, curve: seq<real>)

  const LOOKBACK := 30

  /** The strategy sees the bars up to and including the current one. */
  type Strategy = seq<Bar> -> Signal

  /** The engine divides by prices with the slippage added: they must be positive. */
  predicate Usable(cfg: Config, bars: seq<Bar>) {
    forall i :: 0 <= i < |bars| ==> BuyPrice(cfg, bars[i].close) > 0.0
  }

  // ----- Buying

  function BuyPrice(cfg: Config, price: real): real { price * (1.0 + cfg.slippageRate / 100.0) }

  function Fee(cfg: Config, amount: real): real { amount * (cfg.commissionRate / 100.0) }

  function Budget(cfg: Config, cash: real): real { MinR(cash * (cfg.maxPositionPct / 100.0), cash * 0.9) }

  function Cost(price: real, qty: int): real { price * qty as real }

  /** How many shares `amount` pays for at a positive price. */
  function Shares(amount: real, price: real): int { if price != 0.0 then Truncate(amount / price) else 0 }

  /** The number of shares bought at `actual`, slippage included; zero or less means no order. */
  function BuyQuantity(cfg: Config, cash: real, actual: real): int {
    var qty := Shares(Budget(cfg, cash), actual);
    var commission := Fee(cfg, Cost(actual, qty));
    if qty > 0 && Cost(actual, qty) + commission > cash then Shares(cash - commission, actual) else qty
  }

  function Opened(cfg: Config, symbol: string, date: string, actual: real, qty: int): Position {
    Position(symbol, date, actual, qty, 0,
             actual * (1.0 + cfg.stopLossPct / 100.0), actual * (1.0 + cfg.takeProfitPct / 100.0))
  }

  function Buy(cfg: Config, a: Account, symbol: string, date: string, price: real): Account
  {
    var actual := BuyPrice(cfg, price);
    var qty := BuyQuantity(cfg, a.cash, actual);
    if qty <= 0 then a
    else
      a.(cash := a.cash - (Cost(actual, qty) + Fee(cfg, Cost(actual, qty))),
         positions := a.positions + [Opened(cfg, symbol, date, actual, qty)])
  }

  // ----- Closing

  function SellPrice(cfg: Config, price: real): real { price * (1.0 - cfg.slippageRate / 100.0) }

  function Net(cfg: Config, price: real, qty: int): real {
    var revenue := Cost(SellPrice(cfg, price), qty);
    revenue - Fee(cfg, revenue)
  }

  /** Entry prices are positive whenever the bars are usable. */
  function ReturnPct(entry: real, exit: real): real {
    if entry > 0.0 then (exit - entry) / entry * 100.0 else 0.0
  }

  function RemoveFirst(ps: seq<Position>, p: Position): seq<Position> {
    if ps == [] then [] else if ps[0] == p then ps[1..] else [ps[0]] + RemoveFirst(ps[1..], p)
  }

  function Close(cfg: Config, a: Account, p: Position, date: string, price: real, reason: string): Account {
    var net := Net(cfg, price, p.quantity);
    var exit := SellPrice(cfg, price);
    a.(cash := a.cash + net,
       trades := a.trades + [Trade(p.symbol, p.entryDate, p.entryPrice, date, exit, p.quantity,
                                   net - Cost(p.entryPrice, p.quantity), ReturnPct(p.entryPrice, exit), p.holdDays,
                                   reason)],
       positions := RemoveFirst(a.positions, p))
  }

  /** Stop loss on the low, take profit on the high, then the holding limit. */
  function CheckOne(cfg: Config, a: Account, p: Position, bar: Bar): Account {
    if bar.low <= p.stopLoss then Close(cfg, a, p, bar.date, p.stopLoss, "STOP_LOSS")
    else if bar.high >= p.takeProfit then Close(cfg, a, p, bar.date, p.takeProfit, "TAKE_PROFIT")
    else if p.holdDays >= cfg.maxHoldDays then Close(cfg, a, p, bar.date, bar.close, "MAX_HOLD_DAYS")
    else a
  }

  function CheckEach(cfg: Config, a: Account, todo: seq<Position>, bar: Bar): Account
    decreases |todo|
  {
    if todo == [] then a else CheckEach(cfg, CheckOne(cfg, a, todo[0], bar), todo[1..], bar)
  }

  function CloseAll(cfg: Config, a: Account, todo: seq<Position>, date: string, price: real): Account
    decreases |todo|
  {
    if todo == [] then a
    else CloseAll(cfg, Close(cfg, a, todo[0], date, price, "END_OF_DATA"), todo[1..], date, price)
  }

  /** The first position of the symbol, if any. */
  function FirstOf(ps: seq<Position>, symbol: string): (r: Option<Position>)
    ensures r.Some? ==> r.value in ps && r.value.symbol == symbol
    ensures r.None? ==> forall i :: 0 <= i < |ps| ==> ps[i].symbol != symbol
  {
    if ps == [] then None else if ps[0].symbol == symbol then Some(ps[0]) else FirstOf(ps[1..], symbol)
  }

  // ----- One bar, the whole run

  function StockValue(ps: seq<Position>, price: real): real {
    if ps == [] then 0.0 else ps[0].quantity as real * price + StockValue(ps[1..], price)
  }

  function Aged(ps: seq<Position>): (r: seq<Position>)
    ensures |r| == |ps| && forall i :: 0 <= i < |ps| ==> r[i] == ps[i].(holdDays := ps[i].holdDays + 1)
  {
    seq(|ps|, i requires 0 <= i < |ps| => ps[i].(holdDays := ps[i].holdDays + 1))
  }

  /** The order that the signal asks for, if the holdings allow it. */
  function OnSignal(cfg: Config, a: Account, symbol: string, signal: Signal, bar: Bar): Account {
    var held := FirstOf(a.positions, symbol);
    if signal == BuySignal && held.None? then Buy(cfg, a, symbol, bar.date, bar.close)
    else if signal == SellSignal && held.Some? then Close(cfg, a, held.value, bar.date, bar.close, "SIGNAL")
    else a
  }

  /** The equity point of the bar, and one more day for what is held. */
  function EndOfBar(a: Account, bar: Bar): Account {
    a.(curve := a.curve + [a.cash + StockValue(a.positions, bar.close)], positions := Aged(a.positions))
  }

  function OnBar(cfg: Config, a: Account, symbol: string, signal: Signal, bar: Bar): Account {
    EndOfBar(OnSignal(cfg, CheckEach(cfg, a, a.positions, bar), symbol, signal, bar), bar)
  }

  function Start(cfg: Config): Account { Account(cfg.initialCapital, [], [], [cfg.initialCapital]) }

  /** What a bar does to the account, as a function of the bars seen so far. */
  type Stepper = (Account, seq<Bar>) -> Account

  function BarStep(cfg: Config, strategy: Strategy, symbol: string): Stepper {
    (a: Account, seen: seq<Bar>) =>
      if seen == [] then a else OnBar(cfg, a, symbol, strategy(seen), seen[|seen| - 1])
  }

  /** The account after the bars before `n`. */
  function Fold(step: Stepper, a: Account, bars: seq<Bar>, n: nat): Account
    requires LOOKBACK <= n <= |bars|
  {
    if n == LOOKBACK then a else step(Fold(step, a, bars, n - 1), bars[..n])
  }

  function RunTo(cfg: Config, strategy: Strategy, symbol: string, bars: seq<Bar>, n: nat): Account
    requires LOOKBACK <= n <= |bars|
  {
    Fold(BarStep(cfg, strategy, symbol), Start(cfg), bars, n)
  }

  function Finish(cfg: Config, a: Account, last: Bar): Account {
    CloseAll(cfg, a, a.positions, last.date, last.close)
  }

  function RunAll(cfg: Config, strategy: Strategy, symbol: string, bars: seq<Bar>): Account
    requires LOOKBACK <= |bars|
  {
    Finish(cfg, RunTo(cfg, strategy, symbol, bars, |bars|), bars[|bars| - 1])
  }
}
