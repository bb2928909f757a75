/** For which symbols asked for the filter of the news list answers by membership, on all lists that
    ingestion stores. */
module NewsFilterLaws {
  import opened Common
  import opened Symbols
  import opened NewsIndex
  import opened NewsFilter

  /** The filter answers by membership on every stored column whose symbols hold no comma. */
  ghost predicate Exact(s: string) {
    forall items :: AllCommaFree(Chosen(items)) ==> (Finds(ToCsv(Chosen(items)), s) <==> Listed(Chosen(items), s))
  }

  // ----- Pieces that no stored symbol can be

  /** A comma beside a comma or a space. */
  predicate Seam(c: char, d: char) { (c == ',' && (d == ',' || IsSpace(d))) || (IsSpace(c) && d == ',') }

  /** Some piece between commas is empty, or has a space at an end. */
  predicate Torn(t: string)
    decreases |t|
  {
    |t| >= 2 && (Seam(t[0], t[1]) || Torn(t[1..]))
  }

  /** In how many ways its letters can be written. */
  function Spellings(p: string): nat {
    if p == "" then 1 else (if 'A' <= UpperChar(p[0]) <= 'Z' then 2 else 1) * Spellings(p[1..])
  }

  /** How many of the pieces are `p` up to case, wildcards aside. */
  function Times(pieces: seq<string>, p: string): nat {
    if pieces == [] then 0
    else
      var q := pieces[|pieces| - 1];
      Times(pieces[..|pieces| - 1], p) + if Plain(q) && Upper(q) == Upper(p) then 1 else 0
  }

  /** A piece without wildcards that is not in normal form, or comes more often than it can be spelled. */
  predicate Unheard(pieces: seq<string>, p: string) {
    p in pieces && Plain(p) && (Prefixed(p) || Times(pieces, p) > Spellings(p))
  }

  /** No column of stored symbols holds this. */
  predicate Impossible(s: string) {
    Torn(Delimited(s)) || exists p :: p in Pieces(s) && Unheard(Pieces(s), p)
  }

  // ----- Torn patterns match torn texts only

  lemma {:induction false} NotTornBefore(a: string, t: string)
    requires CommaFree(a) && (a == "" || !IsSpace(a[|a| - 1])) && t != "" && t[0] == ',' && !Torn(t)
    ensures !Torn(a + t)
  {
    if a == "" {
      assert a + t == t;
    } else {
      NotTornBefore(a[1..], t);
      assert (a + t)[1..] == a[1..] + t;
    }
  }

  lemma {:induction false} ColumnNotTorn(symbols: seq<string>)
    requires AllCommaFree(symbols) && forall i :: 0 <= i < |symbols| ==> symbols[i] != "" && Trimmed(symbols[i])
    ensures !Torn("," + Body(symbols))
  {
    if symbols == [] {
      assert "," + Body(symbols) == ",";
    } else {
      ColumnNotTorn(symbols[1..]);
      NotTornAround(symbols[0], "," + Body(symbols[1..]));
      assert Body(symbols) == symbols[0] + ("," + Body(symbols[1..]));
    }
  }

  lemma {:induction false} NotTornAround(a: string, t: string)
    requires CommaFree(a) && a != "" && Trimmed(a) && t != "" && t[0] == ',' && !Torn(t)
    ensures !Torn("," + (a + t))
  {
    NotTornBefore(a, t);
    assert ("," + (a + t))[1..] == a + t && (a + t)[0] == a[0];
  }

  lemma {:induction false} TornLater(t: string, i: nat)
    requires i <= |t| && Torn(t[i..])
    ensures Torn(t)
  {
    if i == 0 {
      assert t[0..] == t;
    } else {
      assert t[1..][i - 1..] == t[i..];
      TornLater(t[1..], i - 1);
    }
  }

  lemma {:induction false} TornNeeded(t: string, p: string)
    requires Torn(p) && Like(t, p)
    ensures Torn(t)
    decreases |p|
  {
    if p[0] == ANY {
      var i :| 0 <= i <= |t| && Like(t[i..], p[1..]);
      TornNeeded(t[i..], p[1..]);
      TornLater(t, i);
    } else if Seam(p[0], p[1]) {
      assert Like(t[1..], p[1..]);
      assert t[0] == p[0] && t[1..][0] == p[1];
    } else {
      TornNeeded(t[1..], p[1..]);
      TornLater(t, 1);
    }
  }

  lemma {:induction false} TornBefore(t: string, rest: string)
    requires Torn(t)
    ensures Torn(t + rest)
  {
    if Seam(t[0], t[1]) {
    } else {
      TornBefore(t[1..], rest);
      assert (t + rest)[1..] == t[1..] + rest;
    }
  }

  /** Stored symbols without commas, as a column. */
  predicate Column(symbols: seq<string>) { Settled(symbols) && AllCommaFree(symbols) }

  lemma {:induction false} TornNeverFound(symbols: seq<string>, s: string)
    requires Column(symbols) && Torn(Delimited(s))
    ensures !Finds(ToCsv(symbols), s)
  {
    assert Pattern(s)[1..] == Delimited(s) + [ANY];
    TornBefore(Delimited(s), [ANY]);
    TornLater(Pattern(s), 1);
    if symbols == [] {
      assert !Torn(ToCsv(symbols));
    } else {
      forall i | 0 <= i < |symbols| ensures Trimmed(symbols[i]) { NormalFormIff(symbols[i]); }
      CsvIsBody(symbols);
      ColumnNotTorn(symbols);
    }
    if Finds(ToCsv(symbols), s) { TornNeeded(ToCsv(symbols), Pattern(s)); }
  }

  // ----- What the pieces of a pattern have matched

  /** A piece without wildcards matches its like. */
  lemma {:induction false} PlainMatched(t: string, p: string, q: string)
    requires Plain(p) && Like(t, p + q)
    ensures |p| <= |t| && Upper(t[..|p|]) == Upper(p) && Like(t[|p|..], q)
    decreases |p|
  {
    if p == "" {
      assert p + q == q && t[0..] == t && t[..0] == "";
    } else {
      assert (p + q)[1..] == p[1..] + q;
      PlainMatched(t[1..], p[1..], q);
      assert t[..|p|] == [t[0]] + t[1..][..|p| - 1] && t[1..][|p| - 1..] == t[|p|..];
      assert ([t[0]] + t[1..][..|p| - 1])[1..] == t[1..][..|p| - 1];
    }
  }

  /** Any piece matches something. */
  lemma {:induction false} SomethingMatched(t: string, p: string, q: string) returns (i: nat)
    requires Like(t, p + q)
    ensures i <= |t| && Like(t[i..], q)
    decreases |p|
  {
    if p == "" {
      assert p + q == q && t[0..] == t;
      i := 0;
    } else {
      assert (p + q)[1..] == p[1..] + q;
      if p[0] == ANY {
        var k :| 0 <= k <= |t| && Like(t[k..], p[1..] + q);
        i := SomethingMatched(t[k..], p[1..], q);
        assert t[k..][i..] == t[k + i..];
        i := k + i;
      } else {
        i := SomethingMatched(t[1..], p[1..], q);
        assert t[1..][i..] == t[i + 1..];
        i := i + 1;
      }
    }
  }

  /** Commas of a column end its symbols. */
  lemma {:induction false} CommaEndsSymbol(symbols: seq<string>, i: nat) returns (m: nat)
    requires AllCommaFree(symbols) && i < |Body(symbols)| && Body(symbols)[i] == ','
    ensures m <= |symbols| && Body(symbols)[i + 1..] == Body(symbols[m..])
  {
    var a, rest := symbols[0], Body(symbols[1..]);
    assert Body(symbols) == a + ("," + rest);
    if i == |a| {
      m := 1;
    } else {
      assert i > |a|;
      assert rest[i - |a| - 1] == ',';
      m := CommaEndsSymbol(symbols[1..], i - |a| - 1);
      assert symbols[1..][m..] == symbols[m + 1..] && Body(symbols)[i + 1..] == rest[i - |a|..];
      m := m + 1;
    }
  }

  lemma {:induction false} CommaKept(a: string, b: string)
    requires Upper(a) == Upper(b)
    ensures |a| == |b| && forall i :: 0 <= i < |a| ==> UpperChar(a[i]) == UpperChar(b[i])
  {
    UpperAt(a);
    UpperAt(b);
    forall i | 0 <= i < |a| ensures UpperChar(a[i]) == UpperChar(b[i]) { assert Upper(a)[i] == Upper(b)[i]; }
  }

  /** A word before the first comma of a text, matched up to case by a piece before a comma. */
  lemma {:induction false} WordMatched(a: string, rest: string, t: string, p: string)
    requires t == a + ("," + rest) && CommaFree(a) && CommaFree(p)
    requires |p| < |t| && Upper(t[..|p|]) == Upper(p) && t[|p|] == ','
    ensures Upper(a) == Upper(p) && t[|p| + 1..] == rest
  {
    CommaKept(t[..|p|], p);
    assert t[..|a|] == a && t[|a|] == ',' && t[|a| + 1..] == rest;
    assert |a| == |p|;
  }

  /** The first symbol of a column. */
  lemma {:induction false} FirstMatched(symbols: seq<string>, p: string)
    requires AllCommaFree(symbols) && CommaFree(p) && |p| < |Body(symbols)|
    requires Upper(Body(symbols)[..|p|]) == Upper(p) && Body(symbols)[|p|] == ','
    ensures symbols != [] && Upper(symbols[0]) == Upper(p) && Body(symbols)[|p| + 1..] == Body(symbols[1..])
  {
    var a, rest := symbols[0], Body(symbols[1..]);
    assert Body(symbols) == a + ("," + rest);
    WordMatched(a, rest, Body(symbols), p);
  }

  /** For every piece that is `p` up to case there is a symbol of its own in the column. */
  lemma {:induction false} Matched(symbols: seq<string>, pieces: seq<string>, tail: string, p: string)
    returns (found: seq<string>)
    requires AllCommaFree(symbols) && Distinct(symbols) && AllCommaFree(pieces)
               && Like(Body(symbols), Body(pieces) + tail)
    ensures |found| == FromFront(pieces, p) && Distinct(found)
    ensures forall x :: x in found ==> x in symbols && Upper(x) == Upper(p)
    decreases |pieces|
  {
    if pieces == [] {
      found := [];
    } else {
      var q, rest := pieces[0], Body(pieces[1..]) + tail;
      assert Body(pieces) + tail == q + ("," + rest) && ("," + rest)[1..] == rest;
      var m := NextBoundary(symbols, q, rest);
      found := Matched(symbols[m..], pieces[1..], tail, p);
      assert forall x :: x in symbols[m..] ==> x in symbols;
      if Plain(q) && Upper(q) == Upper(p) {
        assert m == 1 && Upper(symbols[0]) == Upper(q);
        assert symbols[0] !in symbols[1..];
        found := [symbols[0]] + found;
      }
    }
  }

  function FromFront(pieces: seq<string>, p: string): nat {
    if pieces == [] then 0
    else (if Plain(pieces[0]) && Upper(pieces[0]) == Upper(p) then 1 else 0) + FromFront(pieces[1..], p)
  }

  /** One piece and its comma are matched up to the end of a symbol. */
  lemma {:induction false} NextBoundary(symbols: seq<string>, q: string, rest: string) returns (m: nat)
    requires AllCommaFree(symbols) && CommaFree(q) && Like(Body(symbols), q + ("," + rest))
    ensures m <= |symbols| && Like(Body(symbols[m..]), rest)
    ensures Plain(q) ==> m == 1 && Upper(symbols[0]) == Upper(q)
  {
    var t := Body(symbols);
    assert ("," + rest)[1..] == rest;
    if Plain(q) {
      PlainMatched(t, q, "," + rest);
      assert t[|q|..][1..] == t[|q| + 1..];
      FirstMatched(symbols, q);
      m := 1;
    } else {
      var i := SomethingMatched(t, q, "," + rest);
      assert t[i..][1..] == t[i + 1..];
      m := CommaEndsSymbol(symbols, i);
    }
  }

  lemma {:induction false} FrontIsTimes(pieces: seq<string>, p: string)
    ensures FromFront(pieces, p) == Times(pieces, p)
  {
    if pieces == [] {
    } else {
      FrontIsTimes(pieces[1..], p);
      TimesOfTail(pieces, p);
    }
  }

  lemma {:induction false} TimesOfTail(pieces: seq<string>, p: string)
    requires pieces != []
    ensures Times(pieces, p)
         == (if Plain(pieces[0]) && Upper(pieces[0]) == Upper(p) then 1 else 0) + Times(pieces[1..], p)
  {
    if |pieces| == 1 {
      assert pieces[..0] == [] && pieces[1..] == [];
    } else {
      var n := |pieces| - 1;
      TimesOfTail(pieces[..n], p);
      assert pieces[1..][..n - 1] == pieces[..n][1..];
    }
  }

  lemma {:induction false} PatternParts(s: string)
    ensures Pattern(s) == [ANY] + ("," + (Body(Pieces(s)) + [ANY]))
  {
    PiecesJoin(s);
    JoinIsBody(Pieces(s));
    assert s + "," == Body(Pieces(s));
    assert Pattern(s) == [ANY] + ("," + ((s + ",") + [ANY]));
  }

  /** The first comma of the pattern has matched a comma of the column. */
  lemma {:induction false} FirstBoundary(symbols: seq<string>, rest: string) returns (m: nat)
    requires AllCommaFree(symbols) && Like("," + Body(symbols), [ANY] + ("," + rest))
    ensures m <= |symbols| && Like(Body(symbols[m..]), rest)
  {
    var csv := "," + Body(symbols);
    assert ([ANY] + ("," + rest))[1..] == "," + rest && ("," + rest)[1..] == rest;
    var i :| 0 <= i <= |csv| && Like(csv[i..], "," + rest);
    assert csv[i..][0] == csv[i] == ',' && csv[i..][1..] == csv[i + 1..];
    if i == 0 {
      assert csv[1..] == Body(symbols) && symbols[0..] == symbols;
      m := 0;
    } else {
      assert Body(symbols)[i - 1] == ',' && csv[i + 1..] == Body(symbols)[i..];
      m := CommaEndsSymbol(symbols, i - 1);
    }
  }

  /** The whole filter pattern, against a column. */
  lemma {:induction false} FoundMatches(symbols: seq<string>, s: string, p: string) returns (found: seq<string>)
    requires Column(symbols) && symbols != [] && Finds(ToCsv(symbols), s)
    ensures |found| == Times(Pieces(s), p) && Distinct(found)
    ensures forall x :: x in found ==> x in symbols && Upper(x) == Upper(p)
  {
    CsvIsBody(symbols);
    PatternParts(s);
    PiecesCommaFree(s);
    var m := FirstBoundary(symbols, Body(Pieces(s)) + [ANY]);
    found := Matched(symbols[m..], Pieces(s), [ANY], p);
    assert forall x :: x in symbols[m..] ==> x in symbols;
    FrontIsTimes(Pieces(s), p);
  }

  // ----- Spellings

  /** The `k`-th spelling. */
  function Spelled(p: string, k: nat): string {
    if p == "" then ""
    else
      var u := UpperChar(p[0]);
      if 'A' <= u <= 'Z' then [if k % 2 == 0 then u else u - 'A' + 'a'] + Spelled(p[1..], k / 2)
      else [p[0]] + Spelled(p[1..], k)
  }

  function SpellingOf(x: string): nat {
    if x == "" then 0
    else if 'A' <= x[0] <= 'Z' then 2 * SpellingOf(x[1..])
    else if 'a' <= x[0] <= 'z' then 2 * SpellingOf(x[1..]) + 1
    else SpellingOf(x[1..])
  }

  lemma {:induction false} SpelledIsLike(p: string, k: nat)
    requires k < Spellings(p)
    ensures |Spelled(p, k)| == |p| && SpellingOf(Spelled(p, k)) == k
    ensures forall i :: 0 <= i < |p| ==> UpperChar(Spelled(p, k)[i]) == UpperChar(p[i])
  {
    if p == "" {
    } else if 'A' <= UpperChar(p[0]) <= 'Z' {
      SpelledIsLike(p[1..], k / 2);
    } else {
      SpelledIsLike(p[1..], k);
    }
  }

  lemma {:induction false} SpellingTold(x: string, y: string)
    requires Upper(x) == Upper(y)
    ensures SpellingOf(x) < Spellings(y)
    ensures SpellingOf(x) == SpellingOf(y) ==> x == y
  {
    CommaKept(x, y);
    if x == "" {
    } else {
      assert Upper(x)[1..] == Upper(x[1..]) && Upper(y)[1..] == Upper(y[1..]);
      SpellingTold(x[1..], y[1..]);
      assert x[1..] == y[1..] && x[0] == y[0] ==> x == [y[0]] + y[1..] == y;
    }
  }

  lemma {:induction false} BelowCount(n: nat, codes: set<nat>)
    requires forall k :: k in codes ==> k < n
    ensures |codes| <= n
  {
    if n == 0 {
      assert codes == {};
    } else {
      BelowCount(n - 1, codes - {n - 1});
    }
  }

  /** No more different symbols are alike than there are spellings. */
  lemma {:induction false} FewSpellings(found: seq<string>, p: string)
    requires Distinct(found) && forall x :: x in found ==> Upper(x) == Upper(p)
    ensures |found| <= Spellings(p)
  {
    CodesDiffer(found, p);
    forall x | x in found ensures SpellingOf(x) < Spellings(p) { SpellingTold(x, p); }
    BelowCount(Spellings(p), Codes(found));
  }

  function Codes(found: seq<string>): set<nat> { set x | x in found :: SpellingOf(x) }

  lemma {:induction false} CodesDiffer(found: seq<string>, p: string)
    requires Distinct(found) && forall x :: x in found ==> Upper(x) == Upper(p)
    ensures |Codes(found)| == |found|
  {
    if found == [] {
    } else {
      var n := |found| - 1;
      var init, x := found[..n], found[n];
      assert found == init + [x];
      CodesDiffer(init, p);
      assert Codes(found) == Codes(init) + {SpellingOf(x)};
      forall y | y in init ensures SpellingOf(y) != SpellingOf(x) { SpellingTold(y, x); }
    }
  }

  lemma {:induction false} PrefixedAlike(a: string, b: string)
    requires Upper(a) == Upper(b) && Prefixed(b)
    ensures Prefixed(a)
  {
    CommaKept(a, b);
  }


  /** What is impossible is never found. */
  lemma {:induction false} NothingFound(symbols: seq<string>, s: string)
    requires Column(symbols) && Impossible(s)
    ensures !Finds(ToCsv(symbols), s)
  {
    if Torn(Delimited(s)) {
      TornNeverFound(symbols, s);
    } else if symbols == [] {
      NothingInEmpty(s);
    } else if Finds(ToCsv(symbols), s) {
      var p :| p in Pieces(s) && Unheard(Pieces(s), p);
      var found := FoundMatches(symbols, s, p);
      FewSpellings(found, p);
      AtLeastOnce(Pieces(s), p);
      assert found[0] in found;
      var i :| 0 <= i < |symbols| && symbols[i] == found[0];
      NormalFormIff(symbols[i]);
      if Prefixed(p) { PrefixedAlike(found[0], p); }
    }
  }

  lemma {:induction false} NothingInEmpty(s: string)
    ensures !Finds("", s)
  {
    assert Pattern(s)[1..] == Delimited(s) + [ANY] && Pattern(s)[1..][0] == ',' && ""[0..] == "";
    assert !Like("", Pattern(s)[1..]);
  }

  lemma {:induction false} AtLeastOnce(pieces: seq<string>, p: string)
    requires p in pieces && Plain(p)
    ensures Times(pieces, p) > 0
  {
    var n := |pieces| - 1;
    if pieces[n] == p {
    } else {
      AtLeastOnce(pieces[..n], p);
    }
  }

  // ----- The failing input: a stored list that the pattern matches

  /** The wildcards replaced by a character. */
  function FilledWith(p: string, c: char): string {
    if p == "" then "" else [if Wild(p[0]) then c else p[0]] + FilledWith(p[1..], c)
  }

  lemma {:induction false} FilledAt(p: string, c: char)
    ensures |FilledWith(p, c)| == |p|
    ensures forall i :: 0 <= i < |p| ==> FilledWith(p, c)[i] == if Wild(p[i]) then c else p[i]
  {
    if p == "" {
    } else {
      FilledAt(p[1..], c);
    }
  }

  const PRIVATE := 0xE000
  const HIGHEST := 0x10FFFF

  /** The first character from `n` on that is not used. */
  function Unused(used: set<char>, n: nat): (c: char)
    requires PRIVATE <= n && n + |used| <= HIGHEST
    ensures c !in used && n <= c as int
    decreases |used|
  {
    if n as char !in used then n as char
    else
      var c := Unused(used - {n as char}, n + 1);
      assert c != n as char;
      c
  }

  function CharsOf(t: string): set<char> { set i | 0 <= i < |t| :: t[i] }

  lemma {:induction false} FewChars(t: string)
    ensures |CharsOf(t)| <= |t|
  {
    if t == "" {
    } else {
      FewChars(t[1..]);
      assert CharsOf(t) == CharsOf(t[1..]) + {t[0]};
    }
  }

  /** A piece between two commas of a pattern that is not torn. */
  predicate Sound(p: string) { p != "" && CommaFree(p) && !IsSpace(p[0]) && !IsSpace(p[|p| - 1]) }

  predicate Storable(x: string) { x != "" && CommaFree(x) && Normalize(x) == x }

  /** A character that is neither in the symbol asked for nor a letter. */
  predicate Marked(x: string, s: string) {
    exists i :: 0 <= i < |x| && x[i] as int >= PRIVATE && x[i] !in CharsOf(s)
  }

  /** A character that makes no difference to where a symbol ends, and to its prefix. */
  predicate Neutral(c: char) { !IsSpace(c) && !IsDigit(c) && c != ',' && c != 'A' && c != 'a' }

  lemma {:induction false} FilledStorable(p: string, c: char)
    requires Sound(p) && !Plain(p) && Neutral(c)
    ensures var x := FilledWith(p, c); Storable(x) && Fits(x, p) && c in CharsOf(x)
  {
    FilledAt(p, c);
    var x := FilledWith(p, c);
    var i :| 0 <= i < |p| && Wild(p[i]);
    assert x[i] == c;
    NormalFormIff(x);
  }

  lemma {:induction false} SpelledStorable(p: string, k: nat)
    requires Sound(p) && !Prefixed(p) && Plain(p) && k < Spellings(p)
    ensures var x := Spelled(p, k); Storable(x) && Fits(x, p)
  {
    SpelledIsLike(p, k);
    var x := Spelled(p, k);
    LettersOnly(x, p);
    NormalFormIff(x);
  }

  lemma {:induction false} LettersOnly(x: string, p: string)
    requires |x| == |p| && forall i :: 0 <= i < |p| ==> UpperChar(x[i]) == UpperChar(p[i])
    requires Sound(p) && !Prefixed(p)
    ensures Sound(x) && !Prefixed(x)
  {
  }

  /** What is marked is not another spelling of a piece. */
  lemma {:induction false} MarkedDiffers(x: string, p: string, k: nat, s: string)
    requires Marked(x, s) && k < Spellings(p) && forall i :: 0 <= i < |p| ==> p[i] in CharsOf(s)
    ensures x != Spelled(p, k)
  {
    SpelledIsLike(p, k);
    var i :| 0 <= i < |x| && x[i] as int >= PRIVATE && x[i] !in CharsOf(s);
  }

  lemma {:induction false} SpelledDiffer(p: string, k: nat, q: string, l: nat)
    requires k < Spellings(p) && l < Spellings(q) && (Upper(p) == Upper(q) ==> k != l)
    ensures Spelled(p, k) != Spelled(q, l)
  {
    SpelledIsLike(p, k);
    SpelledIsLike(q, l);
    UpperAt(p);
    UpperAt(q);
  }

  /** The pieces so far, each filled in or spelled anew. */
  ghost predicate Realized(xs: seq<string>, pieces: seq<string>, s: string) {
    && |xs| == |pieces| && Distinct(xs)
    && (forall i :: 0 <= i < |xs| ==> Storable(xs[i]) && Fits(xs[i], pieces[i]))
    && (forall i :: 0 <= i < |xs| ==>
          if Plain(pieces[i]) then xs[i] == Spelled(pieces[i], Times(pieces[..i], pieces[i])) else Marked(xs[i], s))
  }

  /** The pieces can be told apart. */
  predicate Realizable(pieces: seq<string>, s: string) {
    forall i :: 0 <= i < |pieces| ==>
      && Sound(pieces[i]) && (forall k :: 0 <= k < |pieces[i]| ==> pieces[i][k] in CharsOf(s))
      && (Plain(pieces[i]) ==> !Prefixed(pieces[i]) && Times(pieces[..i], pieces[i]) < Spellings(pieces[i]))
  }

  lemma {:induction false} TimesGrow(pieces: seq<string>, i: nat, p: string)
    requires i < |pieces| && Plain(pieces[i]) && Upper(pieces[i]) == Upper(p)
    ensures Times(pieces[..i], pieces[i]) < Times(pieces, p)
  {
    var n := |pieces| - 1;
    SameTimes(pieces[..i], pieces[i], p);
    if i == n {
    } else {
      TimesGrow(pieces[..n], i, p);
      assert pieces[..n][..i] == pieces[..i];
    }
  }

  lemma {:induction false} SameTimes(pieces: seq<string>, p: string, q: string)
    requires Upper(p) == Upper(q)
    ensures Times(pieces, p) == Times(pieces, q)
  {
    if pieces == [] {
    } else {
      SameTimes(pieces[..|pieces| - 1], p, q);
    }
  }

  lemma {:induction false} SameBody(xs: seq<string>, pieces: seq<string>)
    requires |xs| == |pieces| && forall i :: 0 <= i < |xs| ==> |xs[i]| == |pieces[i]|
    ensures |Body(xs)| == |Body(pieces)|
  {
    if xs == [] {
    } else {
      SameBody(xs[1..], pieces[1..]);
    }
  }

  lemma {:induction false} CharsOfBody(xs: seq<string>, i: nat)
    requires i < |xs|
    ensures CharsOf(xs[i]) <= CharsOf(Body(xs))
  {
    var a, rest := xs[0], Body(xs[1..]);
    var t := Body(xs);
    assert t == a + ("," + rest) && t[..|a|] == a && t[|a| + 1..] == rest;
    if i == 0 {
      forall k | 0 <= k < |a| ensures a[k] in CharsOf(t) { assert t[k] == a[k]; }
    } else {
      CharsOfBody(xs[1..], i - 1);
      forall k | 0 <= k < |rest| ensures rest[k] in CharsOf(t) { assert t[|a| + 1 + k] == rest[k]; }
    }
  }

  /** A spelling that is different from all before. */
  lemma {:induction false} SpelledAnew(xs: seq<string>, pieces: seq<string>, s: string, p: string)
    requires Realized(xs, pieces, s) && Realizable(pieces + [p], s) && Plain(p)
    ensures Realized(xs + [Spelled(p, Times(pieces, p))], pieces + [p], s)
  {
    var all, n := pieces + [p], |pieces|;
    assert all[n] == p && all[..n] == pieces;
    var x := Spelled(p, Times(pieces, p));
    SpelledStorable(p, Times(pieces, p));
    forall i | 0 <= i < n ensures xs[i] != x && all[..i] == pieces[..i] {
      assert all[i] == pieces[i] && all[..i] == pieces[..i];
      if Plain(pieces[i]) {
        if Upper(pieces[i]) == Upper(p) { TimesGrow(pieces, i, p); }
        SpelledDiffer(pieces[i], Times(pieces[..i], pieces[i]), p, Times(pieces, p));
      } else {
        MarkedDiffers(xs[i], p, Times(pieces, p), s);
      }
    }
  }

  /** A filling with a character that occurs nowhere before. */
  lemma {:induction false} FilledAnew(xs: seq<string>, pieces: seq<string>, s: string, p: string, c: char)
    requires Realized(xs, pieces, s) && Realizable(pieces + [p], s) && !Plain(p)
    requires c as int >= PRIVATE && c !in CharsOf(s) && c !in CharsOf(Body(xs))
    ensures Realized(xs + [FilledWith(p, c)], pieces + [p], s)
  {
    var all, n := pieces + [p], |pieces|;
    assert all[n] == p && all[..n] == pieces;
    var x := FilledWith(p, c);
    FilledStorable(p, c);
    forall i | 0 <= i < n ensures xs[i] != x && all[..i] == pieces[..i] {
      assert all[i] == pieces[i];
      CharsOfBody(xs, i);
    }
    var k :| 0 <= k < |x| && x[k] == c;
    assert Marked(x, s);
  }

  /** There are characters enough for the pieces with wildcards. */
  predicate Enough(pieces: seq<string>, s: string) {
    (forall i :: 0 <= i < |pieces| ==> Plain(pieces[i])) || PRIVATE + |s| + |Body(pieces)| <= HIGHEST
  }

  lemma {:induction false} Realize(pieces: seq<string>, s: string) returns (xs: seq<string>)
    requires Realizable(pieces, s) && Enough(pieces, s)
    ensures Realized(xs, pieces, s)
  {
    if pieces == [] {
      xs := [];
    } else {
      var n := |pieces| - 1;
      var init, p := pieces[..n], pieces[n];
      WithoutLast(pieces, s);
      assert pieces == init + [p];
      xs := Realize(init, s);
      if Plain(p) {
        SpelledAnew(xs, init, s, p);
        xs := xs + [Spelled(p, Times(init, p))];
      } else {
        var c := Another(xs, init, s);
        FilledAnew(xs, init, s, p, c);
        xs := xs + [FilledWith(p, c)];
      }
    }
  }

  lemma {:induction false} WithoutLast(pieces: seq<string>, s: string)
    requires pieces != [] && Realizable(pieces, s) && Enough(pieces, s)
    ensures var n := |pieces| - 1;
            && Realizable(pieces[..n], s) && Enough(pieces[..n], s)
            && (!Plain(pieces[n]) ==> PRIVATE + |s| + |Body(pieces[..n])| <= HIGHEST)
  {
    var n := |pieces| - 1;
    BodyOfInit(pieces[..n], pieces[n]);
    assert pieces == pieces[..n] + [pieces[n]];
    forall i | 0 <= i < n ensures pieces[..n][i] == pieces[i] && pieces[..n][..i] == pieces[..i] {
    }
  }

  lemma {:induction false} BodyOfInit(init: seq<string>, p: string)
    ensures |Body(init)| <= |Body(init + [p])|
  {
    if init == [] {
    } else {
      assert (init + [p])[1..] == init[1..] + [p];
      BodyOfInit(init[1..], p);
    }
  }

  lemma {:induction false} Another(xs: seq<string>, pieces: seq<string>, s: string) returns (c: char)
    requires Realized(xs, pieces, s) && PRIVATE + |s| + |Body(pieces)| <= HIGHEST
    ensures c as int >= PRIVATE && c !in CharsOf(s) && c !in CharsOf(Body(xs))
  {
    SameBody(xs, pieces);
    FewChars(s);
    FewChars(Body(xs));
    c := Unused(CharsOf(s) + CharsOf(Body(xs)), PRIVATE);
  }

  // ----- The pieces of a symbol that is not impossible

  /** No piece is empty or has a space at an end; the first one counts from its start only if `first`. */
  predicate Ended(pieces: seq<string>, first: bool) {
    && (forall i :: (if first then 0 else 1) <= i < |pieces| ==> pieces[i] != "" && !IsSpace(pieces[i][0]))
    && (forall i :: 0 <= i < |pieces| && pieces[i] != "" ==> !IsSpace(pieces[i][|pieces[i]| - 1]))
  }

  lemma {:induction false} EndedFirst(pieces: seq<string>)
    requires Ended(pieces, false) && pieces != [] && pieces[0] != "" && !IsSpace(pieces[0][0])
    ensures Ended(pieces, true)
  {
  }

  lemma {:induction false} EndedComma(pieces: seq<string>)
    requires Ended(pieces, true)
    ensures Ended([""] + pieces, false)
  {
  }

  lemma {:induction false} EndedMore(c: char, pieces: seq<string>)
    requires Ended(pieces, false) && pieces != [] && (pieces[0] == "" ==> !IsSpace(c))
    ensures Ended([[c] + pieces[0]] + pieces[1..], false)
  {
    var more := [[c] + pieces[0]] + pieces[1..];
    forall i | 0 < i < |more| ensures more[i] == pieces[i] {
    }
  }

  /** `first` says that a comma precedes `t`. */
  lemma {:induction false} PiecesEnds(t: string, first: bool)
    requires !Torn(if first then "," + t + "," else t + ",")
    ensures Ended(Pieces(t), first)
    decreases |t|, first
  {
    if first {
      assert ("," + t + ",")[1..] == t + ",";
      assert t == "" ==> "," + t + "," == ",,";
      PiecesEnds(t, false);
      EndedFirst(Pieces(t));
    } else if t != "" {
      assert (t + ",")[1..] == t[1..] + ",";
      if t[0] == ',' {
        assert t + "," == "," + t[1..] + ",";
        PiecesEnds(t[1..], true);
        EndedComma(Pieces(t[1..]));
      } else {
        PiecesEnds(t[1..], false);
        assert Pieces(t[1..])[0] == "" ==> (t + ",")[1] == ',';
        EndedMore(t[0], Pieces(t[1..]));
      }
    }
  }

  lemma {:induction false} PiecesChars(t: string)
    ensures forall i, k :: 0 <= i < |Pieces(t)| && 0 <= k < |Pieces(t)[i]| ==> Pieces(t)[i][k] in CharsOf(t)
  {
    if t == "" {
    } else {
      PiecesChars(t[1..]);
      assert CharsOf(t) == CharsOf(t[1..]) + {t[0]};
    }
  }

  lemma {:induction false} PossiblePieces(s: string)
    requires !Impossible(s)
    ensures Realizable(Pieces(s), s)
  {
    var pieces := Pieces(s);
    PiecesEnds(s, true);
    PiecesChars(s);
    PiecesCommaFree(s);
    forall i | 0 <= i < |pieces| && Plain(pieces[i])
      ensures !Prefixed(pieces[i]) && Times(pieces[..i], pieces[i]) < Spellings(pieces[i])
    {
      assert !Unheard(pieces, pieces[i]);
      TimesGrow(pieces, i, pieces[i]);
    }
  }

  lemma {:induction false} JoinFits(xs: seq<string>, pieces: seq<string>)
    requires |xs| == |pieces| && forall i :: 0 <= i < |xs| ==> Fits(xs[i], pieces[i])
    ensures Fits(Join(xs), Join(pieces))
  {
    if |xs| <= 1 {
    } else {
      JoinFits(xs[1..], pieces[1..]);
      FitsTogether(xs[0] + ",", pieces[0] + ",", Join(xs[1..]), Join(pieces[1..]));
    }
  }

  lemma {:induction false} FitsTogether(x: string, p: string, y: string, q: string)
    requires Fits(x, p) && Fits(y, q)
    ensures Fits(x + y, p + q)
  {
  }

  /** A stored list that is found for the symbol. */
  lemma {:induction false} Realization(s: string) returns (xs: seq<string>)
    requires !Impossible(s) && (Plain(s) || |s| < 0x80000)
    ensures Column(xs) && Finds(ToCsv(xs), s)
  {
    PossiblePieces(s);
    PiecesChars(s);
    PiecesJoin(s);
    JoinIsBody(Pieces(s));
    xs := Realize(Pieces(s), s);
    JoinFits(xs, Pieces(s));
    FitsTogether(",", ",", Join(xs), s);
    FitsTogether("," + Join(xs), "," + s, ",", ",");
    FitsFound(ToCsv(xs), s);
  }

  // ----- The exact condition

  lemma {:induction false} CommasUnlisted(symbols: seq<string>, s: string)
    requires !CommaFree(s) && AllCommaFree(symbols)
    ensures !Listed(symbols, s)
  {
    var k :| 0 <= k < |s| && s[k] == ',';
    forall i | 0 <= i < |symbols| ensures Upper(symbols[i]) != Upper(s) {
      if Upper(symbols[i]) == Upper(s) { CommaKept(symbols[i], s); }
    }
  }

  lemma {:induction false} OnePiece(t: string)
    requires CommaFree(t)
    ensures Pieces(t) == [t]
  {
    if t == "" {
    } else {
      OnePiece(t[1..]);
      assert [t[0]] + t[1..] == t;
    }
  }

  /** A symbol in normal form without commas is possible. */
  lemma {:induction false} OneIsPossible(s: string)
    requires Storable(s)
    ensures !Impossible(s)
  {
    NormalFormIff(s);
    OnePiece(s);
    NotTornBefore(s, ",");
    assert Delimited(s)[1..] == s + ",";
    SpellingsPositive(s);
    assert [s][..0] == [] && Times([s], s) <= 1;
  }

  lemma {:induction false} SpellingsPositive(p: string)
    ensures Spellings(p) >= 1
  {
    if p == "" {
    } else {
      SpellingsPositive(p[1..]);
    }
  }

  /** One symbol with its wildcards filled in is found, and is not the one asked for. */
  lemma {:induction false} FilledFound(s: string)
    requires Storable(s) && !Plain(s)
    ensures !Exact(s)
  {
    var x := FilledWith(s, 'x');
    NormalFormIff(s);
    FilledStorable(s, 'x');
    ChosenAgain([x]);
    FitsTogether(",", ",", x, s);
    FitsTogether("," + x, "," + s, ",", ",");
    FitsFound(ToCsv([x]), s);
    FilledDiffers(s);
    assert !Listed([x], s) && Chosen([x]) == [x] && AllCommaFree([x]);
  }

  lemma {:induction false} FilledDiffers(s: string)
    requires !Plain(s)
    ensures Upper(FilledWith(s, 'x')) != Upper(s)
  {
    FilledAt(s, 'x');
    var k :| 0 <= k < |s| && Wild(s[k]);
    if Upper(FilledWith(s, 'x')) == Upper(s) { CommaKept(FilledWith(s, 'x'), s); }
  }

  /** A symbol with commas that is possible is found, and never listed. */
  lemma {:induction false} PiecesFound(s: string)
    requires !CommaFree(s) && !Impossible(s) && (Plain(s) || |s| < 0x80000)
    ensures !Exact(s)
  {
    var xs := Realization(s);
    ChosenAgain(xs);
    CommasUnlisted(xs, s);
    assert Chosen(xs) == xs;
  }

  /** For every symbol asked for, in normal form: the filter answers by membership on all columns of
      stored symbols without commas exactly when the symbol holds neither comma nor wildcard, or has a
      piece that no stored symbol can be or comes too often, and is never found. */
  lemma {:induction false} ExactIff(s: string)
    requires s != "" && Normalize(s) == s && (Plain(s) || CommaFree(s) || |s| < 0x80000)
    ensures Exact(s) <==> (CommaFree(s) && Plain(s)) || Impossible(s)
  {
    if CommaFree(s) {
      OneIsPossible(s);
      if Plain(s) { PlainExact(s); } else { FilledFound(s); }
    } else if Impossible(s) {
      ImpossibleExact(s);
    } else {
      PiecesFound(s);
    }
  }

  lemma {:induction false} PlainExact(s: string)
    requires s != "" && CommaFree(s) && Plain(s)
    ensures Exact(s)
  {
    forall items | AllCommaFree(Chosen(items))
      ensures Finds(ToCsv(Chosen(items)), s) <==> Listed(Chosen(items), s)
    {
      ChosenSettled(items);
      FilterFindsIff(Chosen(items), s);
    }
  }

  lemma {:induction false} ImpossibleExact(s: string)
    requires !CommaFree(s) && Impossible(s)
    ensures Exact(s)
  {
    forall items | AllCommaFree(Chosen(items))
      ensures !Finds(ToCsv(Chosen(items)), s) && !Listed(Chosen(items), s)
    {
      ChosenSettled(items);
      NothingFound(Chosen(items), s);
      CommasUnlisted(Chosen(items), s);
    }
  }

  /** Once a stored symbol may hold a comma, no symbol asked for is safe. */
  lemma {:induction false} CommasMislead(s: string)
    requires s != "" && Normalize(s) == s
    ensures Chosen(["x," + s]) == ["x," + s] && Finds(ToCsv(["x," + s]), s) && !Listed(["x," + s], s)
  {
    StoredWithComma(s);
    FoundBehindComma(s);
    NotListed("x," + s, s);
  }

  lemma {:induction false} StoredWithComma(s: string)
    requires s != "" && Normalize(s) == s
    ensures Chosen(["x," + s]) == ["x," + s]
  {
    BehindComma(s);
    ChosenAgain(["x," + s]);
  }

  lemma {:induction false} FoundBehindComma(s: string)
    ensures Finds(ToCsv(["x," + s]), s)
  {
    LiteralFound(",x", s);
    assert ",x" + Delimited(s) == ToCsv(["x," + s]);
  }

  lemma {:induction false} NotListed(x: string, s: string)
    requires |x| != |s|
    ensures !Listed([x], s)
  {
    if Upper(x) == Upper(s) { CommaKept(x, s); }
  }

  lemma {:induction false} BehindComma(s: string)
    requires s != "" && Normalize(s) == s
    ensures Normalize("x," + s) == "x," + s
  {
    NormalFormIff(s);
    NormalFormIff("x," + s);
  }

  lemma {:induction false} LiteralFound(a: string, s: string)
    ensures Finds(a + Delimited(s), s)
  {
    AnyMatches("");
    FitsBefore(Delimited(s), Delimited(s), "", [ANY]);
    assert Delimited(s) + "" == Delimited(s);
    AnyBefore(a, Delimited(s), Delimited(s) + [ANY]);
    assert [ANY] + (Delimited(s) + [ANY]) == Pattern(s);
  }
}
