/** Drawdown of an equity curve: a running peak in one pass, specified over all pairs of points. */
module Drawdown {
  import opened Common

  // ----- What the loops compute, over pairs and windows

  /** The loss, in percent, of what was worth `from` and is worth `to`. */
  function Loss(from: real, to: real): real
    requires from != 0.0
  {
    (to - from) / from * 100.0
  }

  /** What is left after a loss in percent. */
  lemma LossIs(from: real, to: real)
    requires from != 0.0
    ensures to == from * (1.0 + Loss(from, to) / 100.0)
  {
  }

  /** Capital at the start, never below zero afterwards. */
  predicate Funded(curve: seq<real>) {
    |curve| > 0 && curve[0] > 0.0 && forall i :: 0 <= i < |curve| ==> curve[i] >= 0.0
  }

  /** The worst loss between a point and a later one. */
  ghost predicate WorstLoss(curve: seq<real>, m: real) {
    && (exists i, j :: 0 <= i <= j < |curve| && curve[i] > 0.0 && m == Loss(curve[i], curve[j]))
    && (forall i, j :: 0 <= i <= j < |curve| && curve[i] > 0.0 ==> m <= Loss(curve[i], curve[j]))
  }

  /** The worst loss from a peak. */
  ghost predicate WorstFromPeak(curve: seq<real>, m: real) {
    && (exists j: nat, p: nat :: IsPeak(curve, j, p) && curve[p] != 0.0 && m == Loss(curve[p], curve[j]))
    && (forall j: nat, p: nat :: IsPeak(curve, j, p) && curve[p] != 0.0 ==> m <= Loss(curve[p], curve[j]))
  }

  /** Some earlier point was higher, and not negative. */
  ghost predicate Underwater(curve: seq<real>, j: nat)
    requires j < |curve|
  {
    exists i :: 0 <= i < j && curve[i] > curve[j] && curve[i] >= 0.0
  }

  ghost predicate UnderwaterThroughout(curve: seq<real>, a: nat, b: nat)
    requires a <= b <= |curve|
  {
    forall j :: a <= j < b ==> Underwater(curve, j)
  }

  /** `d` is the length of the longest stretch of consecutive underwater points. */
  ghost predicate LongestUnderwater(curve: seq<real>, d: nat) {
    && (exists a: nat, b: nat :: a <= b <= |curve| && UnderwaterThroughout(curve, a, b) && b - a == d)
    && (forall a: nat, b: nat :: a <= b <= |curve| && UnderwaterThroughout(curve, a, b) ==> b - a <= d)
  }

  /** The curve comes to zero before it was ever positive. */
  ghost predicate ZeroPeak(curve: seq<real>) { exists p: nat :: IsPeak(curve, p, p) && curve[p] == 0.0 }

  // ----- Floating point quotients: a peak of zero gives no number

  datatype Figure = Number(x: real) | MinusInfinity | NotANumber

  predicate IsNegative(f: Figure) { f.MinusInfinity? || (f.Number? && f.x < 0.0) }

  predicate AtMost(f: Figure, g: Figure) { f.MinusInfinity? || (f.Number? && g.Number? && f.x <= g.x) }

  function Entry(peak: real, value: real): Figure {
    if peak != 0.0 then Number(Loss(peak, value)) else if value == 0.0 then NotANumber else MinusInfinity
  }

  // ----- The running peak

  predicate IsPeak(curve: seq<real>, j: nat, p: nat) {
    p <= j < |curve| && forall i :: 0 <= i <= j ==> curve[i] <= curve[p]
  }

  /** Entry `j` is the loss from the peak so far. */
  ghost predicate FromPeak(curve: seq<real>, drawdown: seq<Figure>) {
    && |drawdown| <= |curve|
    && forall j :: 0 <= j < |drawdown| ==> EntryFromPeak(curve, j, drawdown[j])
  }

  ghost predicate EntryFromPeak(curve: seq<real>, j: nat, f: Figure)
    requires j < |curve|
  {
    exists p: nat :: IsPeak(curve, j, p) && f == Entry(curve[p], curve[j])
  }

  method RunningDrawdown(curve: seq<real>) returns (drawdown: seq<Figure>)
    requires curve != []
    ensures |drawdown| == |curve| && FromPeak(curve, drawdown)
  {
    drawdown := [];
    var peak, i := curve[0], 0;
    ghost var at := 0;
    while i < |curve|
      invariant 0 <= i <= |curve| && |drawdown| == i
      invariant 0 <= at < |curve| && at <= i && (i > 0 ==> IsPeak(curve, i - 1, at))
      invariant peak == curve[at]
      invariant FromPeak(curve, drawdown)
    {
      if curve[i] > peak {
        peak, at := curve[i], i;
      }
      assert IsPeak(curve, i, at);
      NextEntry(curve, drawdown, at);
      drawdown := drawdown + [Entry(peak, curve[i])];
      i := i + 1;
    }
  }

  lemma NextEntry(curve: seq<real>, drawdown: seq<Figure>, at: nat)
    requires FromPeak(curve, drawdown) && IsPeak(curve, |drawdown|, at)
    ensures FromPeak(curve, drawdown + [Entry(curve[at], curve[|drawdown|])])
  {
    var j := |drawdown|;
    assert EntryFromPeak(curve, j, Entry(curve[at], curve[j]));
  }

  /** One entry that is not a number makes the result none. */
  method Smallest(drawdown: seq<Figure>) returns (m: Figure)
    requires |drawdown| > 0
    ensures m in drawdown
    ensures if NotANumber in drawdown then m == NotANumber
            else forall j :: 0 <= j < |drawdown| ==> AtMost(m, drawdown[j])
  {
    m := drawdown[0];
    var i := 1;
    while i < |drawdown|
      invariant 1 <= i <= |drawdown| && m in drawdown[..i]
      invariant if NotANumber in drawdown[..i] then m == NotANumber
                else forall j :: 0 <= j < i ==> AtMost(m, drawdown[j])
    {
      assert drawdown[..i + 1] == drawdown[..i] + [drawdown[i]];
      if drawdown[i] == NotANumber {
        m := NotANumber;
      } else if m != NotANumber && AtMost(drawdown[i], m) {
        m := drawdown[i];
      }
      i := i + 1;
    }
    assert drawdown[..i] == drawdown;
  }

  // ----- The duration

  predicate Negative(drawdown: seq<Figure>, a: nat, b: nat)
    requires a <= b <= |drawdown|
  {
    forall j :: a <= j < b ==> IsNegative(drawdown[j])
  }

  ghost predicate LongestNegative(drawdown: seq<Figure>, n: nat, d: nat)
    requires n <= |drawdown|
  {
    && (exists a: nat, b: nat :: a <= b <= n && Negative(drawdown, a, b) && b - a == d)
    && (forall a: nat, b: nat :: a <= b <= n && Negative(drawdown, a, b) ==> b - a <= d)
  }

  /** The stretch that ends before `n` starts at `start`. */
  predicate OpenStretch(drawdown: seq<Figure>, start: nat, n: nat) {
    start < n <= |drawdown| && Negative(drawdown, start, n) && (start > 0 ==> !IsNegative(drawdown[start - 1]))
  }

  /** What the scan knows before it looks at entry `i`. */
  ghost predicate Scanned(drawdown: seq<Figure>, i: nat, inDd: bool, start: nat, longest: nat) {
    && i <= |drawdown|
    && (if inDd then OpenStretch(drawdown, start, i) && LongestNegative(drawdown, start, longest)
        else LongestNegative(drawdown, i, longest) && (i > 0 ==> !IsNegative(drawdown[i - 1])))
  }

  /** A stretch that ended at `n` was the longest so far, or not. */
  lemma StretchEnds(drawdown: seq<Figure>, start: nat, n: nat, longest: nat)
    requires OpenStretch(drawdown, start, n) && LongestNegative(drawdown, start, longest)
    ensures LongestNegative(drawdown, n, Max(longest, n - start))
  {
    var d: nat := Max(longest, n - start);
    assert Negative(drawdown, start, n);
    forall a: nat, b: nat | a <= b <= n && Negative(drawdown, a, b) ensures b - a <= d {
      if a < start {
        assert b <= start;
      }
    }
  }

  /** An entry that is not negative belongs to no stretch. */
  lemma DryEntry(drawdown: seq<Figure>, n: nat, longest: nat)
    requires n < |drawdown| && !IsNegative(drawdown[n]) && LongestNegative(drawdown, n, longest)
    ensures LongestNegative(drawdown, n + 1, longest)
  {
    forall a: nat, b: nat | a <= b <= n + 1 && Negative(drawdown, a, b) ensures b - a <= longest {
      assert b == n + 1 ==> a == b;
    }
  }

  method LongestStretch(drawdown: seq<Figure>) returns (longest: nat)
    ensures LongestNegative(drawdown, |drawdown|, longest)
  {
    longest := 0;
    var inDd, start, i := false, 0, 0;
    assert Negative(drawdown, 0, 0);
    while i < |drawdown|
      invariant 0 <= start && 0 <= i <= |drawdown| && Scanned(drawdown, i, inDd, start, longest)
    {
      if IsNegative(drawdown[i]) {
        if !inDd {
          start, inDd := i, true;
        }
      } else if inDd {
        StretchEnds(drawdown, start, i, longest);
        DryEntry(drawdown, i, Max(longest, i - start));
        longest, inDd := Max(longest, i - start), false;
      } else {
        DryEntry(drawdown, i, longest);
      }
      i := i + 1;
    }
    if inDd {
      StretchEnds(drawdown, start, |drawdown|, longest);
      longest := Max(longest, |drawdown| - start);
    }
  }

  // ----- Peaks are enough

  /** From a lower start the same end is a smaller loss, if that end is not negative; a negative end
      is the larger loss. */
  lemma LowerStart(peak: real, from: real, to: real)
    requires 0.0 < from <= peak
    ensures Loss(peak, to) <= Loss(from, to) <==> from == peak || to >= 0.0
  {
    var a, b := (to - peak) / peak, (to - from) / from;
    assert a * peak == to - peak && b * from == to - from;
    Ratios(a + 1.0, peak, b + 1.0, from, to);
  }

  lemma Ratios(x: real, peak: real, y: real, from: real, to: real)
    requires x * peak == to && y * from == to && 0.0 < from <= peak
    ensures x <= y <==> from == peak || to >= 0.0
  {
    if from < peak {
      if to >= 0.0 {
        assert y >= 0.0 by { if y < 0.0 { ProductPositive(-y, from); } }
        if x > y {
          ProductMonotone(from, peak, y);
          ProductPositive(x - y, peak);
        }
      } else {
        NegativeRatios(x, peak, y, from, to);
      }
    } else {
      assert x * peak == y * peak;
      SameRatio(x, y, peak);
    }
  }

  lemma SameRatio(x: real, y: real, peak: real)
    requires peak > 0.0 && x * peak == y * peak
    ensures x == y
  {
    if x > y { ProductPositive(x - y, peak); }
    if x < y { ProductPositive(y - x, peak); }
  }

  lemma NegativeRatios(x: real, peak: real, y: real, from: real, to: real)
    requires x * peak == to && y * from == to && 0.0 < from < peak && to < 0.0
    ensures x > y
  {
    assert y < 0.0 by { if y >= 0.0 { ProductNonNegative(y, from); } }
    ProductPositive(peak - from, -y);
    assert y * peak < y * from;
    if x <= y { ProductMonotone(x, y, peak); }
  }

  lemma LossSign(from: real, to: real)
    requires from != 0.0
    ensures Loss(from, to) < 0.0 <==> (to < from) == (from > 0.0) && to != from
  {
    var a := (to - from) / from;
    assert a * from == to - from;
    if from > 0.0 {
      if a < 0.0 { ProductPositive(-a, from); } else { ProductNonNegative(a, from); }
    } else {
      if a < 0.0 { ProductPositive(-a, -from); } else { ProductNonNegative(a, -from); }
    }
  }

  /** At a point the loss from the peak is the smallest over all earlier positive points exactly when
      the point is not negative, or those points are all as high as the peak. */
  lemma PeakIsWorstIff(curve: seq<real>, j: nat, p: nat)
    requires IsPeak(curve, j, p) && curve[p] > 0.0
    ensures (forall i :: 0 <= i <= j && curve[i] > 0.0 ==> Loss(curve[p], curve[j]) <= Loss(curve[i], curve[j]))
       <==> curve[j] >= 0.0 || forall i :: 0 <= i <= j && curve[i] > 0.0 ==> curve[i] == curve[p]
  {
    forall i | 0 <= i <= j && curve[i] > 0.0
      ensures Loss(curve[p], curve[j]) <= Loss(curve[i], curve[j]) <==> curve[i] == curve[p] || curve[j] >= 0.0
    {
      LowerStart(curve[p], curve[i], curve[j]);
    }
  }

  /** So on a funded curve the running peak gives the worst loss over all pairs. */
  lemma PeakGivesWorst(curve: seq<real>, m: real)
    requires Funded(curve) && WorstFromPeak(curve, m)
    ensures WorstLoss(curve, m)
  {
    forall i, j | 0 <= i <= j < |curve| && curve[i] > 0.0 ensures m <= Loss(curve[i], curve[j]) {
      var p := SomePeak(curve, j);
      LowerStart(curve[p], curve[i], curve[j]);
    }
    var j: nat, p: nat :| IsPeak(curve, j, p) && curve[p] != 0.0 && m == Loss(curve[p], curve[j]);
    assert curve[p] >= curve[0];
  }

  lemma {:induction false} SomePeak(curve: seq<real>, j: nat) returns (p: nat)
    requires j < |curve|
    ensures IsPeak(curve, j, p)
  {
    if j == 0 {
      p := 0;
    } else {
      p := SomePeak(curve, j - 1);
      if curve[j] > curve[p] { p := j; }
    }
  }

  // ----- What the entries tell

  lemma PeakValue(curve: seq<real>, j: nat, p: nat, q: nat)
    requires IsPeak(curve, j, p) && IsPeak(curve, j, q)
    ensures curve[p] == curve[q]
  {
  }

  /** Some entry is not a number exactly when the curve comes to zero before it was ever positive. */
  lemma NotANumberIff(curve: seq<real>, drawdown: seq<Figure>)
    requires |drawdown| == |curve| && FromPeak(curve, drawdown)
    ensures NotANumber in drawdown <==> ZeroPeak(curve)
  {
    if NotANumber in drawdown {
      var j :| 0 <= j < |drawdown| && drawdown[j] == NotANumber;
      assert EntryFromPeak(curve, j, drawdown[j]);
      var p: nat :| IsPeak(curve, j, p) && drawdown[j] == Entry(curve[p], curve[j]);
      assert IsPeak(curve, j, j);
    }
    if ZeroPeak(curve) {
      var q: nat :| IsPeak(curve, q, q) && curve[q] == 0.0;
      assert EntryFromPeak(curve, q, drawdown[q]);
      var p: nat :| IsPeak(curve, q, p) && drawdown[q] == Entry(curve[p], curve[q]);
      PeakValue(curve, q, p, q);
      assert drawdown[q] == NotANumber;
    }
  }

  /** An infinite loss comes after such a zero. */
  lemma InfiniteAfterZero(curve: seq<real>, drawdown: seq<Figure>)
    requires |drawdown| == |curve| && FromPeak(curve, drawdown) && MinusInfinity in drawdown
    ensures ZeroPeak(curve)
  {
    var j :| 0 <= j < |drawdown| && drawdown[j] == MinusInfinity;
    assert EntryFromPeak(curve, j, drawdown[j]);
    var p: nat :| IsPeak(curve, j, p) && drawdown[j] == Entry(curve[p], curve[j]);
    assert IsPeak(curve, p, p);
  }

  lemma SmallestIsWorst(curve: seq<real>, drawdown: seq<Figure>, m: real)
    requires |drawdown| == |curve| && FromPeak(curve, drawdown) && Number(m) in drawdown
    requires forall j :: 0 <= j < |drawdown| ==> AtMost(Number(m), drawdown[j])
    ensures WorstFromPeak(curve, m)
  {
    var k :| 0 <= k < |drawdown| && drawdown[k] == Number(m);
    assert EntryFromPeak(curve, k, drawdown[k]);
    forall j: nat, p: nat | IsPeak(curve, j, p) && curve[p] != 0.0 ensures m <= Loss(curve[p], curve[j]) {
      assert EntryFromPeak(curve, j, drawdown[j]);
      var q: nat :| IsPeak(curve, j, q) && drawdown[j] == Entry(curve[q], curve[j]);
      PeakValue(curve, j, p, q);
    }
  }

  lemma NegativeIsUnderwater(curve: seq<real>, drawdown: seq<Figure>, j: nat)
    requires |drawdown| == |curve| && FromPeak(curve, drawdown) && j < |curve|
    ensures IsNegative(drawdown[j]) <==> Underwater(curve, j)
  {
    assert EntryFromPeak(curve, j, drawdown[j]);
    var p: nat :| IsPeak(curve, j, p) && drawdown[j] == Entry(curve[p], curve[j]);
    if curve[p] != 0.0 { LossSign(curve[p], curve[j]); }
    assert curve[p] >= 0.0 && curve[j] < curve[p] ==> Underwater(curve, j);
  }

  lemma StretchesAgree(curve: seq<real>, drawdown: seq<Figure>, d: nat)
    requires |drawdown| == |curve| && FromPeak(curve, drawdown) && LongestNegative(drawdown, |drawdown|, d)
    ensures LongestUnderwater(curve, d)
  {
    var a: nat, b: nat :| a <= b <= |drawdown| && Negative(drawdown, a, b) && b - a == d;
    SameStretch(curve, drawdown, a, b);
    forall a: nat, b: nat | a <= b <= |curve| && UnderwaterThroughout(curve, a, b) ensures b - a <= d {
      SameStretch(curve, drawdown, a, b);
    }
  }

  lemma SameStretch(curve: seq<real>, drawdown: seq<Figure>, a: nat, b: nat)
    requires |drawdown| == |curve| && FromPeak(curve, drawdown) && a <= b <= |curve|
    ensures Negative(drawdown, a, b) <==> UnderwaterThroughout(curve, a, b)
  {
    forall j | a <= j < b ensures IsNegative(drawdown[j]) <==> Underwater(curve, j) {
      NegativeIsUnderwater(curve, drawdown, j);
    }
  }

  /** Both figures stay zero without trades or with a single point. */
  method DrawdownMetrics(anyTrades: bool, curve: seq<real>) returns (maxDrawdown: Figure, duration: nat)
    ensures !anyTrades || |curve| <= 1 ==> maxDrawdown == Number(0.0) && duration == 0
    ensures anyTrades && |curve| > 1 ==>
              && LongestUnderwater(curve, duration)
              && if ZeroPeak(curve) then maxDrawdown == NotANumber
                 else maxDrawdown.Number? && WorstFromPeak(curve, maxDrawdown.x)
    ensures anyTrades && |curve| > 1 && Funded(curve) ==> maxDrawdown.Number? && WorstLoss(curve, maxDrawdown.x)
  {
    maxDrawdown, duration := Number(0.0), 0;
    if anyTrades && |curve| > 1 {
      var drawdown := RunningDrawdown(curve);
      maxDrawdown := Smallest(drawdown);
      duration := LongestStretch(drawdown);
      StretchesAgree(curve, drawdown, duration);
      SmallestExplained(curve, drawdown, maxDrawdown);
    }
  }

  lemma SmallestExplained(curve: seq<real>, drawdown: seq<Figure>, m: Figure)
    requires curve != [] && |drawdown| == |curve| && FromPeak(curve, drawdown) && m in drawdown
    requires if NotANumber in drawdown then m == NotANumber
             else forall j :: 0 <= j < |drawdown| ==> AtMost(m, drawdown[j])
    ensures if ZeroPeak(curve) then m == NotANumber else m.Number? && WorstFromPeak(curve, m.x)
    ensures Funded(curve) ==> m.Number? && WorstLoss(curve, m.x)
  {
    NotANumberIff(curve, drawdown);
    if ZeroPeak(curve) { return; }
    if MinusInfinity in drawdown { InfiniteAfterZero(curve, drawdown); }
    SmallestIsWorst(curve, drawdown, m.x);
    if Funded(curve) { PeakGivesWorst(curve, m.x); }
  }
}
