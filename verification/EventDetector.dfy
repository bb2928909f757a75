/** Per-symbol alert levels: the trailing stop, the shared defaults, and the event cooldown. */
module EventDetector {
  import opened Common

  // ----- Levels and the trailing stop

  /** Prices and percentages; `highest` is the high that the trailing stop follows. */
  datatype Levels = Levels(
    surgePct: real,
    dropPct: real,
    volumeRatio: real,
    stop: real,
    take: real,
    trailingPct: real,
    highest: real)

  const DEFAULT_LEVELS := Levels(3.0, -3.0, 3.0, 0.0, 0.0, 0.0, 0.0)

  /** What is left of a price after the trailing percentage. */
  function Kept(pct: real): real { 1.0 - pct / 100.0 }

  function Ratchet(l: Levels, price: real): Levels {
    if l.trailingPct > 0.0 && price > l.highest then
      var stop := price * Kept(l.trailingPct);
      l.(highest := price, stop := if stop > l.stop then stop else l.stop)
    else l
  }

  function RatchetAll(l: Levels, prices: seq<real>): Levels {
    if prices == [] then l else Ratchet(RatchetAll(l, prices[..|prices| - 1]), prices[|prices| - 1])
  }

  /** The highest of the prices and `h`. */
  function HighOf(h: real, prices: seq<real>): real {
    if prices == [] then h else MaxR(HighOf(h, prices[..|prices| - 1]), prices[|prices| - 1])
  }

  /** The levels once the high is `high`: the stop follows if that is a new one. */
  function AtHigh(l: Levels, high: real): Levels {
    if l.trailingPct > 0.0 && high > l.highest
    then l.(highest := high, stop := MaxR(l.stop, high * Kept(l.trailingPct)))
    else l
  }

  /** The levels after a run, without going through the prices one by one. */
  function ClosedForm(l: Levels, prices: seq<real>): Levels { AtHigh(l, HighOf(l.highest, prices)) }

  predicate Positive(prices: seq<real>) { forall i :: 0 <= i < |prices| ==> prices[i] > 0.0 }

  /** The closed form describes every run of positive prices. */
  ghost predicate FollowsHigh(l: Levels) {
    forall prices: seq<real> :: Positive(prices) ==> RatchetAll(l, prices) == ClosedForm(l, prices)
  }

  /** Above 100 percent the stop falls with the price: then it must not start below. */
  predicate Followable(l: Levels) {
    l.trailingPct <= 100.0 || MaxR(l.highest, 0.0) * Kept(l.trailingPct) <= l.stop
  }

  /** The stop never falls and the high never falls, whatever the percentage. */
  lemma {:induction false} NeverFalls(l: Levels, prices: seq<real>)
    ensures var r := RatchetAll(l, prices); l.stop <= r.stop && l.highest <= r.highest && r.trailingPct == l.trailingPct
  {
    if prices == [] {
    } else {
      NeverFalls(l, prices[..|prices| - 1]);
    }
  }

  lemma {:induction false} HighGrows(h: real, prices: seq<real>)
    ensures HighOf(h, prices) >= h && (HighOf(h, prices) > h && Positive(prices) ==> HighOf(h, prices) > 0.0)
  {
    if prices == [] {
    } else {
      HighGrows(h, prices[..|prices| - 1]);
    }
  }

  /** With a factor that is not negative the higher high gives the higher product, with a negative one
      both stay below what some high below them gives. */
  lemma {:induction false} HigherProduct(h: real, low: real, high: real, k: real, stop: real)
    requires h <= low < high && (k >= 0.0 || h * k <= stop)
    ensures low * k <= high * k || (low * k <= stop && high * k <= stop)
  {
    if k >= 0.0 {
      ProductMonotone(low, high, k);
    } else {
      FallingProduct(h, low, k);
      FallingProduct(h, high, k);
    }
  }

  lemma {:induction false} FallingProduct(h: real, x: real, k: real)
    requires h <= x && k < 0.0
    ensures x * k <= h * k
  {
    ProductMonotone(h, x, -k);
    assert h * -k == -(h * k) && x * -k == -(x * k);
  }

  /** A higher high keeps a higher stop, or both stay below the stop that there is. */
  lemma HigherStop(l: Levels, low: real, high: real)
    requires Followable(l) && 0.0 < low < high && l.highest < low
    ensures MaxR(l.stop, low * Kept(l.trailingPct)) <= MaxR(l.stop, high * Kept(l.trailingPct))
  {
    HigherProduct(MaxR(l.highest, 0.0), low, high, Kept(l.trailingPct), l.stop);
  }

  lemma NextHigh(l: Levels, high: real, price: real)
    requires Followable(l) && price > 0.0 && high >= l.highest && (high > l.highest ==> high > 0.0)
    ensures Ratchet(AtHigh(l, high), price) == AtHigh(l, MaxR(high, price))
  {
    if price > high > l.highest { HigherStop(l, high, price); }
  }

  lemma {:induction false} FollowsFrom(l: Levels, prices: seq<real>)
    requires Followable(l) && Positive(prices)
    ensures RatchetAll(l, prices) == ClosedForm(l, prices)
  {
    if prices == [] {
    } else {
      var init := prices[..|prices| - 1];
      FollowsFrom(l, init);
      HighGrows(l.highest, init);
      NextHigh(l, HighOf(l.highest, init), prices[|prices| - 1]);
    }
  }

  /** Two rising prices after which the stop is above what the high alone would give. */
  lemma HighIsNotEnough(l: Levels) returns (prices: seq<real>)
    requires !Followable(l)
    ensures Positive(prices) && RatchetAll(l, prices) != ClosedForm(l, prices)
  {
    var h, k := MaxR(l.highest, 0.0), Kept(l.trailingPct);
    var step := (h * k - l.stop) / (2.0 * -k);
    assert step * (2.0 * -k) == h * k - l.stop;
    assert step > 0.0 by { if step <= 0.0 { ProductNonNegative(-step, 2.0 * -k); } }
    var low := h + step;
    assert low * k == h * k + step * k;
    prices := [low, low + 1.0];
    assert (low + 1.0) * k == low * k + k;
    TwoPrices(l, low, low + 1.0);
  }

  lemma TwoPrices(l: Levels, low: real, high: real)
    requires l.trailingPct > 0.0 && MaxR(l.highest, 0.0) < low < high
    requires low * Kept(l.trailingPct) > l.stop && low * Kept(l.trailingPct) > high * Kept(l.trailingPct)
    ensures RatchetAll(l, [low, high]) != ClosedForm(l, [low, high])
  {
    InTwoSteps(l, low, high);
    StopStays(l, low, high);
  }

  lemma InTwoSteps(l: Levels, a: real, b: real)
    ensures RatchetAll(l, [a, b]) == Ratchet(Ratchet(l, a), b)
    ensures HighOf(l.highest, [a, b]) == MaxR(MaxR(l.highest, a), b)
  {
    InOneStep(l, a);
    assert [a, b][..1] == [a];
  }

  lemma InOneStep(l: Levels, a: real)
    ensures RatchetAll(l, [a]) == Ratchet(l, a) && HighOf(l.highest, [a]) == MaxR(l.highest, a)
  {
    assert [a][..0] == [];
  }

  lemma StopStays(l: Levels, low: real, high: real)
    requires l.trailingPct > 0.0 && l.highest < low < high
    requires low * Kept(l.trailingPct) > l.stop && low * Kept(l.trailingPct) > high * Kept(l.trailingPct)
    ensures Ratchet(Ratchet(l, low), high).stop > AtHigh(l, high).stop
  {
    assert Ratchet(l, low).stop == low * Kept(l.trailingPct);
  }

  /** The trailing stop is a function of the high alone, on all runs of positive prices, exactly when
      the percentage is at most 100 or the stop starts no lower than the high would put it. */
  lemma FollowsHighIff(l: Levels)
    ensures FollowsHigh(l) <==> Followable(l)
  {
    if Followable(l) {
      forall prices: seq<real> | Positive(prices) ensures RatchetAll(l, prices) == ClosedForm(l, prices) {
        FollowsFrom(l, prices);
      }
    } else {
      var prices := HighIsNotEnough(l);
    }
  }

  // ----- Setting levels

  /** What a caller passes for one symbol; what is missing or not a number is `None`. */
  datatype Update = Update(
    surgePct: Option<real>,
    dropPct: Option<real>,
    volumeRatio: Option<real>,
    stop: Option<real>,
    take: Option<real>,
    trailingPct: Option<real>,
    highest: Option<real>,
    unknownNames: bool)

  function Or(o: Option<real>, x: real): real { if o.Some? then o.value else x }

  function Overlay(l: Levels, u: Update): Levels {
    Levels(Or(u.surgePct, l.surgePct), Or(u.dropPct, l.dropPct), Or(u.volumeRatio, l.volumeRatio), Or(u.stop, l.stop),
           Or(u.take, l.take), Or(u.trailingPct, l.trailingPct), Or(u.highest, l.highest))
  }

  /** A trailing stop without a high gets the high that its stop implies. */
  function WithHigh(l: Levels): Levels {
    if 0.0 < l.trailingPct < 100.0 && l.highest == 0.0 && l.stop > 0.0
    then l.(highest := l.stop / Kept(l.trailingPct))
    else l
  }

  /** The implied high puts the stop exactly where it is, so no price up to it moves the stop. */
  lemma ImpliedHigh(l: Levels, prices: seq<real>)
    requires 0.0 < l.trailingPct < 100.0 && l.highest == 0.0 && l.stop > 0.0
    requires Positive(prices) && forall i :: 0 <= i < |prices| ==> prices[i] <= WithHigh(l).highest
    ensures var r := WithHigh(l); r.highest * Kept(l.trailingPct) == l.stop && RatchetAll(r, prices) == r
  {
    var r := WithHigh(l);
    FollowsFrom(r, prices);
    NoNewHigh(r.highest, prices);
  }

  lemma {:induction false} NoNewHigh(h: real, prices: seq<real>)
    requires forall i :: 0 <= i < |prices| ==> prices[i] <= h
    ensures HighOf(h, prices) == h
  {
    if prices == [] {
    } else {
      NoNewHigh(h, prices[..|prices| - 1]);
    }
  }

  /** Every level that is given is set, the others stay; a trailing stop without a high gets the high
      that puts the stop where it is. */
  predicate Updated(l: Levels, u: Update, r: Levels) {
    && r.surgePct == (if u.surgePct.Some? then u.surgePct.value else l.surgePct)
    && r.dropPct == (if u.dropPct.Some? then u.dropPct.value else l.dropPct)
    && r.volumeRatio == (if u.volumeRatio.Some? then u.volumeRatio.value else l.volumeRatio)
    && r.stop == (if u.stop.Some? then u.stop.value else l.stop)
    && r.take == (if u.take.Some? then u.take.value else l.take)
    && r.trailingPct == (if u.trailingPct.Some? then u.trailingPct.value else l.trailingPct)
    && var highest := if u.highest.Some? then u.highest.value else l.highest;
       if 0.0 < r.trailingPct < 100.0 && highest == 0.0 && r.stop > 0.0
       then r.highest * (1.0 - r.trailingPct / 100.0) == r.stop
       else r.highest == highest
  }

  lemma {:induction false} OverlayUpdates(l: Levels, u: Update)
    ensures Updated(l, u, WithHigh(Overlay(l, u)))
  {
  }

  // ----- Shared objects

  class StockThresholds {
    var levels: Levels

    constructor (levels: Levels)
      ensures this.levels == levels
    {
      this.levels := levels;
    }
  }

  class Detector {
    const defaults: StockThresholds
    var thresholds: map<string, StockThresholds>

    /** The defaults are handed out for every unknown symbol, and still have their first values. */
    ghost predicate Valid()
      reads this, defaults
    {
      && defaults.levels == DEFAULT_LEVELS
      && (forall s :: s in thresholds ==> thresholds[s] != defaults)
      && (forall s, t :: s in thresholds && t in thresholds && s != t ==> thresholds[s] != thresholds[t])
    }

    ghost function LevelsOf(symbol: string): Levels
      requires symbol in thresholds
      reads this, thresholds[symbol]
    {
      thresholds[symbol].levels
    }

    constructor ()
      ensures Valid() && fresh(defaults) && thresholds == map[]
    {
      defaults := new StockThresholds(DEFAULT_LEVELS);
      thresholds := map[];
    }

    /** Unknown names are ignored for a known symbol, and an error for a new one. */
    method SetThresholds(symbol: string, u: Update) returns (done: bool)
      requires Valid()
      modifies this, if symbol in thresholds then {thresholds[symbol]} else {}
      ensures Valid()
      ensures done == (symbol in old(thresholds) || !u.unknownNames)
      ensures done ==> symbol in thresholds && LevelsOf(symbol)
                         == WithHigh(Overlay(if symbol in old(thresholds) then old(thresholds[symbol].levels)
                                             else DEFAULT_LEVELS, u))
      ensures done ==> Updated(if symbol in old(thresholds) then old(thresholds[symbol].levels)
                               else Levels(3.0, -3.0, 3.0, 0.0, 0.0, 0.0, 0.0), u, LevelsOf(symbol))
      ensures thresholds - {symbol} == old(thresholds) - {symbol} && (!done ==> thresholds == old(thresholds))
    {
      if symbol in thresholds {
        var th := thresholds[symbol];
        OverlayUpdates(th.levels, u);
        th.levels := WithHigh(Overlay(th.levels, u));
        return true;
      }
      if u.unknownNames { return false; }
      OverlayUpdates(DEFAULT_LEVELS, u);
      var th := new StockThresholds(WithHigh(Overlay(DEFAULT_LEVELS, u)));
      thresholds := thresholds[symbol := th];
      return true;
    }

    /** The shared default object is handed out for the unknown symbols, and only for them. */
    method GetThresholds(symbol: string) returns (th: StockThresholds)
      requires Valid()
      ensures th == defaults <==> symbol !in thresholds
      ensures symbol in thresholds ==> th == thresholds[symbol]
    {
      th := if symbol in thresholds then thresholds[symbol] else defaults;
    }

    method RemoveLevels(symbol: string)
      requires Valid()
      modifies this`thresholds
      ensures Valid() && thresholds == old(thresholds) - {symbol}
    {
      thresholds := thresholds - {symbol};
    }

    /** `th` was looked up before the price was published: meanwhile its symbol may have been
        removed or set again. Whatever it is, the defaults keep their values. */
    method FollowPrice(th: StockThresholds, price: real)
      requires Valid()
      modifies th
      ensures Valid() && th.levels == Ratchet(old(th.levels), price)
      ensures th == defaults ==> th.levels == old(th.levels)
    {
      if th.levels.trailingPct > 0.0 && price > th.levels.highest {
        var stop := price * Kept(th.levels.trailingPct);
        th.levels := th.levels.(highest := price);
        if stop > th.levels.stop {
          th.levels := th.levels.(stop := stop);
        }
      }
    }
  }
}
