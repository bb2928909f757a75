/** Trade statistics of the performance report, before rounding. */
module Reporting {
  import opened Common

  function Sum(ps: seq<real>): real { if ps == [] then 0.0 else ps[0] + Sum(ps[1..]) }

  function Wins(ps: seq<real>): seq<real> {
    if ps == [] then [] else (if ps[0] > 0.0 then [ps[0]] else []) + Wins(ps[1..])
  }

  function Losses(ps: seq<real>): seq<real> {
    if ps == [] then [] else (if ps[0] < 0.0 then [ps[0]] else []) + Losses(ps[1..])
  }

  function Zeros(ps: seq<real>): nat {
    if ps == [] then 0 else (if ps[0] == 0.0 then 1 else 0) + Zeros(ps[1..])
  }

  /** `total` over `count`, zero without any. */
  function Ratio(total: real, count: real): real { if count == 0.0 then 0.0 else total / count }

  function Mean(ps: seq<real>): real { Ratio(Sum(ps), |ps| as real) }

  /** Win rate times average win, and the rest times the average loss; among `n` trades there are
      `w` wins and `l` losses. */
  function Weigh(n: real, w: real, l: real, won: real, lost: real): real {
    Ratio(w, n) * Ratio(won, w) + (1.0 - Ratio(w, n)) * Ratio(lost, l)
  }

  function Expectancy(ps: seq<real>): real {
    if ps == [] then 0.0
    else Weigh(|ps| as real, |Wins(ps)| as real, |Losses(ps)| as real, Sum(Wins(ps)), Sum(Losses(ps)))
  }

  // ----- Expectancy and mean

  /** Every trade wins, loses, or does neither. */
  lemma {:induction false} Split(ps: seq<real>)
    ensures |Wins(ps)| + |Losses(ps)| + Zeros(ps) == |ps|
    ensures Sum(Wins(ps)) + Sum(Losses(ps)) == Sum(ps)
    ensures Sum(Losses(ps)) <= 0.0 && (Losses(ps) != [] ==> Sum(Losses(ps)) < 0.0)
  {
    if ps == [] {
    } else {
      Split(ps[1..]);
      Prefixed(ps[0], Wins(ps[1..]));
      Prefixed(ps[0], Losses(ps[1..]));
    }
  }

  lemma Prefixed(p: real, ps: seq<real>)
    ensures Sum([p] + ps) == p + Sum(ps) && [] + ps == ps
  {
    assert ([p] + ps)[1..] == ps;
  }

  lemma Expand(rate: real, win: real, loss: real, n: real, w: real, l: real, z: real)
    requires rate * n == w && w + l + z == n
    ensures (rate * win + (1.0 - rate) * loss) * n == win * w + loss * l + z * loss
  {
    Distribute(rate, win, loss, n);
    assert (rate * n) * win == w * win && (n - rate * n) * loss == (l + z) * loss;
  }

  lemma Distribute(rate: real, win: real, loss: real, n: real)
    ensures (rate * win + (1.0 - rate) * loss) * n == (rate * n) * win + (n - rate * n) * loss
  {
  }

  lemma RatioTimes(total: real, count: real)
    requires count == 0.0 ==> total == 0.0
    ensures Ratio(total, count) * count == total
  {
  }

  /** `z` trades neither win nor lose: they are weighted with the average loss. */
  lemma WeighedAgainstMean(n: real, w: real, l: real, z: real, won: real, lost: real)
    requires n > 0.0 && w >= 0.0 && l >= 0.0 && z >= 0.0 && w + l + z == n
    requires (w == 0.0 ==> won == 0.0) && (if l == 0.0 then lost == 0.0 else lost < 0.0)
    ensures Weigh(n, w, l, won, lost) <= Ratio(won + lost, n)
    ensures Weigh(n, w, l, won, lost) == Ratio(won + lost, n) <==> l == 0.0 || z == 0.0
  {
    RatioTimes(w, n);
    RatioTimes(won, w);
    RatioTimes(lost, l);
    RatioTimes(won + lost, n);
    WeighedNumbers(Ratio(w, n), Ratio(won, w), Ratio(lost, l), Ratio(won + lost, n), n, w, l, z, won, lost);
  }

  lemma WeighedNumbers(rate: real, win: real, loss: real, mean: real, n: real, w: real, l: real, z: real,
                       won: real, lost: real)
    requires n > 0.0 && l >= 0.0 && z >= 0.0 && w + l + z == n
    requires rate * n == w && win * w == won && loss * l == lost && mean * n == won + lost
    requires if l == 0.0 then loss == 0.0 else lost < 0.0
    ensures rate * win + (1.0 - rate) * loss <= mean
    ensures rate * win + (1.0 - rate) * loss == mean <==> l == 0.0 || z == 0.0
  {
    Expand(rate, win, loss, n, w, l, z);
    if l > 0.0 { NegativeFactor(loss, l, lost); }
    CompareScaled(rate * win + (1.0 - rate) * loss, mean, n, z, loss);
  }

  /** The expectancy never exceeds the mean, and equals it exactly when no trade loses or none ends at zero. */
  lemma ExpectancyAndMean(ps: seq<real>)
    ensures Expectancy(ps) <= Mean(ps)
    ensures Expectancy(ps) == Mean(ps) <==> Losses(ps) == [] || Zeros(ps) == 0
  {
    if ps != [] {
      Split(ps);
      WeighedAgainstMean(|ps| as real, |Wins(ps)| as real, |Losses(ps)| as real, Zeros(ps) as real,
                         Sum(Wins(ps)), Sum(Losses(ps)));
    }
  }

  lemma NegativeFactor(a: real, b: real, p: real)
    requires a * b == p < 0.0 && b > 0.0
    ensures a < 0.0
  {
    if a >= 0.0 { ProductNonNegative(a, b); }
  }

  lemma CompareScaled(e: real, mean: real, n: real, z: real, loss: real)
    requires n > 0.0 && z >= 0.0 && loss <= 0.0 && e * n == mean * n + z * loss
    ensures e <= mean && (e == mean <==> z == 0.0 || loss == 0.0)
  {
    if e > mean {
      ProductPositive(e - mean, n);
      ProductNonNegative(z, -loss);
    }
    if z > 0.0 && loss < 0.0 {
      ProductPositive(z, -loss);
    }
    if z == 0.0 || loss == 0.0 {
      assert z * loss == 0.0;
      if e < mean { ProductPositive(mean - e, n); }
    }
  }

  // ----- Drawdown of the cumulated profit

  /** The cumulated profit: nothing at first, then after each trade. */
  function Cumulated(ps: seq<real>): (r: seq<real>)
    ensures |r| == |ps| + 1 && r[0] == 0.0
  {
    if ps == [] then [0.0]
    else
      var before := Cumulated(ps[..|ps| - 1]);
      before + [before[|ps| - 1] + ps[|ps| - 1]]
  }

  /** The deepest fall between two moments. */
  ghost predicate DeepestFall(c: seq<real>, d: real) {
    && (exists i, j :: 0 <= i <= j < |c| && d == c[j] - c[i])
    && (forall i, j :: 0 <= i <= j < |c| ==> d <= c[j] - c[i])
  }

  predicate Highest(c: seq<real>, p: real) {
    p in c && forall i :: 0 <= i < |c| ==> c[i] <= p
  }

  lemma NextHigh(c: seq<real>, equity: real, peak: real)
    requires Highest(c, peak)
    ensures Highest(c + [equity], MaxR(peak, equity))
  {
    assert (c + [equity])[|c|] == equity;
  }

  lemma NoDeeperFall(c: seq<real>, equity: real, peak: real, maxDd: real, i: nat, j: nat)
    requires Highest(c, peak) && DeepestFall(c, maxDd) && i <= j <= |c|
    ensures MinR(maxDd, equity - MaxR(peak, equity)) <= (c + [equity])[j] - (c + [equity])[i]
  {
    if j < |c| {
      assert maxDd <= c[j] - c[i];
    }
  }

  lemma NextMoment(c: seq<real>, equity: real, peak: real, maxDd: real)
    requires Highest(c, peak) && DeepestFall(c, maxDd)
    ensures DeepestFall(c + [equity], MinR(maxDd, equity - MaxR(peak, equity)))
  {
    var d, next := c + [equity], MinR(maxDd, equity - MaxR(peak, equity));
    forall i, j | 0 <= i <= j < |d| ensures next <= d[j] - d[i] {
      NoDeeperFall(c, equity, peak, maxDd, i, j);
    }
    NextHigh(c, equity, peak);
    var from :| 0 <= from < |d| && d[from] == MaxR(peak, equity);
    var i, j :| 0 <= i <= j < |c| && maxDd == c[j] - c[i];
    assert maxDd == d[j] - d[i];
    assert equity - MaxR(peak, equity) == d[|c|] - d[from];
  }

  lemma FirstMoment(ps: seq<real>)
    ensures Cumulated(ps[..0]) == [0.0] && Highest([0.0], 0.0) && DeepestFall([0.0], 0.0)
  {
    var c := [0.0];
    assert c[0] - c[0] == 0.0;
  }

  lemma NextCumulated(ps: seq<real>, i: nat)
    requires i < |ps|
    ensures Cumulated(ps[..i + 1]) == Cumulated(ps[..i]) + [Cumulated(ps[..i])[i] + ps[i]]
  {
    assert ps[..i + 1][..i] == ps[..i];
  }

  method MaxDrawdown(ps: seq<real>) returns (maxDd: real)
    ensures DeepestFall(Cumulated(ps), maxDd)
  {
    var equity, peak, i := 0.0, 0.0, 0;
    maxDd := 0.0;
    ghost var c := [0.0];
    FirstMoment(ps);
    while i < |ps|
      invariant 0 <= i <= |ps| && c == Cumulated(ps[..i]) && equity == c[i]
      invariant Highest(c, peak) && DeepestFall(c, maxDd)
    {
      NextCumulated(ps, i);
      equity := equity + ps[i];
      NextMoment(c, equity, peak, maxDd);
      NextHigh(c, equity, peak);
      c := c + [equity];
      peak := MaxR(peak, equity);
      maxDd := MinR(maxDd, equity - peak);
      i := i + 1;
    }
    assert ps[..i] == ps;
  }

  // ----- Grouping

  datatype TradePoint = TradePoint(key: string, pnl: real)

  function Pnls(trades: seq<TradePoint>): seq<real> {
    if trades == [] then [] else [trades[0].pnl] + Pnls(trades[1..])
  }

  /** The trades of one key, in order. */
  function Of(trades: seq<TradePoint>, key: string): seq<TradePoint> {
    if trades == [] then [] else
      var rest := Of(trades[..|trades| - 1], key);
      var t := trades[|trades| - 1];
      if t.key == key then rest + [t] else rest
  }

  lemma {:induction false} SumAppend(trades: seq<TradePoint>, t: TradePoint)
    ensures Sum(Pnls(trades + [t])) == Sum(Pnls(trades)) + t.pnl
  {
    if trades == [] {
      assert trades + [t] == [t] && [t][1..] == [];
      assert Pnls([t]) == [t.pnl] && [t.pnl][1..] == [];
    } else {
      assert (trades + [t])[1..] == trades[1..] + [t];
      SumAppend(trades[1..], t);
      Prefixed(trades[0].pnl, Pnls(trades[1..]));
      Prefixed(trades[0].pnl, Pnls(trades[1..] + [t]));
    }
  }

  /** One more trade adds its profit to the group of its key only. */
  lemma {:induction false} TotalGrows(trades: seq<TradePoint>, keys: seq<string>, t: TradePoint)
    requires Distinct(keys)
    ensures GroupTotal(trades + [t], keys) == GroupTotal(trades, keys) + if t.key in keys then t.pnl else 0.0
  {
    if keys == [] {
    } else {
      var last := |keys| - 1;
      TotalGrows(trades, keys[..last], t);
      assert (trades + [t])[..|trades|] == trades;
      SumAppend(Of(trades, keys[last]), t);
    }
  }

  /** A key that is new starts a group of its own. */
  lemma TotalAfter(trades: seq<TradePoint>, keys: seq<string>, t: TradePoint)
    requires Distinct(keys)
    requires t.key !in keys ==> Of(trades, t.key) == []
    ensures GroupTotal(trades + [t], if t.key in keys then keys else keys + [t.key]) == GroupTotal(trades, keys) + t.pnl
    ensures Sum(Pnls(trades + [t])) == Sum(Pnls(trades)) + t.pnl
  {
    TotalGrows(trades, keys, t);
    SumAppend(trades, t);
    if t.key !in keys {
      assert (keys + [t.key])[..|keys|] == keys && (trades + [t])[..|trades|] == trades;
      assert Of(trades + [t], t.key) == [t];
      SumAppend([], t);
      assert [] + [t] == [t];
    }
  }

  /** The profit of all groups together. */
  function GroupTotal(trades: seq<TradePoint>, keys: seq<string>): real {
    if keys == [] then 0.0
    else GroupTotal(trades, keys[..|keys| - 1]) + Sum(Pnls(Of(trades, keys[|keys| - 1])))
  }

  /** Every trade is in the group of its key, in order, and every group has a trade. */
  ghost predicate Grouped(trades: seq<TradePoint>, keys: seq<string>, groups: map<string, seq<TradePoint>>) {
    && Distinct(keys)
    && (forall k :: k in groups <==> k in keys)
    && (forall k :: k in groups ==> groups[k] == Of(trades, k) != [])
    && (forall k :: k !in groups ==> Of(trades, k) == [])
  }

  lemma JoinsGroup(trades: seq<TradePoint>, keys: seq<string>, groups: map<string, seq<TradePoint>>, t: TradePoint)
    requires Grouped(trades, keys, groups) && t.key in groups
    ensures Grouped(trades + [t], keys, groups[t.key := groups[t.key] + [t]])
  {
    assert (trades + [t])[..|trades|] == trades;
  }

  lemma StartsGroup(trades: seq<TradePoint>, keys: seq<string>, groups: map<string, seq<TradePoint>>, t: TradePoint)
    requires Grouped(trades, keys, groups) && t.key !in groups
    ensures Grouped(trades + [t], keys + [t.key], groups[t.key := [t]])
  {
    assert (trades + [t])[..|trades|] == trades;
    assert Of(trades + [t], t.key) == [t];
  }

  /** The groups in the order of their first trade; their profits add up to the profit of all trades. */
  method Group(trades: seq<TradePoint>) returns (keys: seq<string>, groups: map<string, seq<TradePoint>>)
    ensures Grouped(trades, keys, groups)
    ensures GroupTotal(trades, keys) == Sum(Pnls(trades))
  {
    keys, groups := [], map[];
    var i := 0;
    while i < |trades|
      invariant 0 <= i <= |trades|
      invariant Grouped(trades[..i], keys, groups)
      invariant GroupTotal(trades[..i], keys) == Sum(Pnls(trades[..i]))
    {
      var t := trades[i];
      assert trades[..i] + [t] == trades[..i + 1];
      TotalAfter(trades[..i], keys, t);
      if t.key in groups {
        JoinsGroup(trades[..i], keys, groups, t);
        groups := groups[t.key := groups[t.key] + [t]];
      } else {
        StartsGroup(trades[..i], keys, groups, t);
        keys, groups := keys + [t.key], groups[t.key := [t]];
      }
      i := i + 1;
    }
    assert trades[..i] == trades;
  }
}
