/** The nearest-rank percentile of the elapsed times, before rounding. */
module Percentile {
  import opened Common

  function Insert(x: int, s: seq<int>): seq<int> {
    if s == [] || x <= s[0] then [x] + s else [s[0]] + Insert(x, s[1..])
  }

  function Sort(s: seq<int>): (r: seq<int>)
    ensures |r| == |s|
  {
    if s == [] then [] else
      var rest := Sort(s[1..]);
      InsertLength(s[0], rest);
      Insert(s[0], rest)
  }

  lemma {:induction false} InsertLength(x: int, s: seq<int>)
    ensures |Insert(x, s)| == |s| + 1
  {
    if s == [] || x <= s[0] {
    } else {
      InsertLength(x, s[1..]);
    }
  }

  function Ceil(x: real): int { -((-x).Floor) }

  /** Nothing without values, else the value of rank `ratio * n`, rounded up. */
  function NearestRank(values: seq<int>, ratio: real): Option<int>
    requires 0.0 < ratio <= 1.0
  {
    if values == [] then None
    else
      RankInRange(|values|, ratio);
      Some(Sort(values)[Max(0, Ceil(|values| as real * ratio) - 1)])
  }

  lemma RankInRange(n: nat, ratio: real)
    requires n > 0 && 0.0 < ratio <= 1.0
    ensures 0 <= Ceil(n as real * ratio) - 1 < n
    ensures (Ceil(n as real * ratio) - 1) as real < n as real * ratio <= Ceil(n as real * ratio) as real
  {
    ProductPositive(n as real, ratio);
    ProductMonotone(ratio, 1.0, n as real);
  }

  function AtMost(s: seq<int>, b: int): nat { if s == [] then 0 else (if s[0] <= b then 1 else 0) + AtMost(s[1..], b) }

  function Below(s: seq<int>, b: int): nat { if s == [] then 0 else (if s[0] < b then 1 else 0) + Below(s[1..], b) }

  predicate Sorted(s: seq<int>) { forall i, j :: 0 <= i < j < |s| ==> s[i] <= s[j] }

  lemma Prepended(a: int, s: seq<int>)
    requires Sorted(s) && forall y :: y in s ==> a <= y
    ensures Sorted([a] + s)
  {
    forall i, j | 0 <= i < j < |[a] + s| ensures ([a] + s)[i] <= ([a] + s)[j] {
      assert s[j - 1] in s;
      assert i > 0 ==> s[i - 1] <= s[j - 1];
    }
  }

  lemma {:induction false} InsertSorted(x: int, s: seq<int>)
    requires Sorted(s)
    ensures Sorted(Insert(x, s))
    ensures forall y :: y in Insert(x, s) <==> y == x || y in s
  {
    if s == [] || x <= s[0] {
    } else {
      InsertSorted(x, s[1..]);
      forall y ensures y in Insert(x, s) <==> y == x || y in s {
        assert y in s <==> y == s[0] || y in s[1..];
      }
      Prepended(s[0], Insert(x, s[1..]));
    }
  }

  lemma {:induction false} InsertCounts(x: int, s: seq<int>, b: int)
    ensures AtMost(Insert(x, s), b) == AtMost(s, b) + if x <= b then 1 else 0
    ensures Below(Insert(x, s), b) == Below(s, b) + if x < b then 1 else 0
  {
    if s == [] || x <= s[0] {
      assert ([x] + s)[1..] == s;
    } else {
      InsertCounts(x, s[1..], b);
      assert ([s[0]] + Insert(x, s[1..]))[1..] == Insert(x, s[1..]);
    }
  }

  lemma {:induction false} SortSorts(s: seq<int>, b: int)
    ensures Sorted(Sort(s)) && AtMost(Sort(s), b) == AtMost(s, b) && Below(Sort(s), b) == Below(s, b)
    ensures forall y :: y in Sort(s) <==> y in s
  {
    if s == [] {
    } else {
      SortSorts(s[1..], b);
      InsertSorted(s[0], Sort(s[1..]));
      InsertCounts(s[0], Sort(s[1..]), b);
      forall y ensures y in s <==> y == s[0] || y in s[1..] {
      }
    }
  }

  lemma {:induction false} RankCounts(s: seq<int>, i: nat)
    requires Sorted(s) && i < |s|
    ensures AtMost(s, s[i]) >= i + 1 && Below(s, s[i]) <= i
  {
    if i == 0 {
      NoneBelow(s, s[0]);
    } else {
      RankCounts(s[1..], i - 1);
    }
  }

  lemma {:induction false} NoneBelow(s: seq<int>, b: int)
    requires forall i :: 0 <= i < |s| ==> b <= s[i]
    ensures Below(s, b) == 0
  {
    if s == [] {
    } else {
      NoneBelow(s[1..], b);
    }
  }

  /** One of the values; at least the share `ratio` of them is at most that, and less than that share is below. */
  lemma NearestRankSplits(values: seq<int>, ratio: real)
    requires 0.0 < ratio <= 1.0
    ensures var r := NearestRank(values, ratio);
            if values == [] then r == None
            else
              && r.Some? && r.value in values
              && AtMost(values, r.value) as real >= |values| as real * ratio > Below(values, r.value) as real
  {
    if values != [] {
      RankInRange(|values|, ratio);
      RankSplits(values, Ceil(|values| as real * ratio) - 1);
    }
  }

  lemma RankSplits(values: seq<int>, i: nat)
    requires i < |values|
    ensures var v := Sort(values)[i]; v in values && AtMost(values, v) >= i + 1 && Below(values, v) <= i
  {
    var v := Sort(values)[i];
    SortSorts(values, v);
    RankCounts(Sort(values), i);
    assert v in Sort(values);
  }
}
