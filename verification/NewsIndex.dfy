/** The symbols of a news item as one delimited column, and the filter over it. */
module NewsIndex {
  import opened Common
  import opened Symbols

  // ----- Which symbols are stored

  /** The normalized symbols of an item: the first occurrence of each, nothing empty. */
  function Chosen(items: seq<string>): seq<string> {
    if items == [] then []
    else
      var rest, s := Chosen(items[..|items| - 1]), Normalize(items[|items| - 1]);
      if s != "" && s !in rest then rest + [s] else rest
  }

  method NormalizeSymbols(items: seq<string>) returns (symbols: seq<string>)
    ensures symbols == Chosen(items)
  {
    symbols := [];
    var i := 0;
    while i < |items|
      invariant 0 <= i <= |items| && symbols == Chosen(items[..i])
    {
      assert items[..i + 1][..i] == items[..i];
      var s := Normalize(items[i]);
      if s != "" && s !in symbols { symbols := symbols + [s]; }
      i := i + 1;
    }
    assert items[..i] == items;
  }

  ghost predicate Names(items: seq<string>, s: string) {
    exists i :: 0 <= i < |items| && Normalize(items[i]) == s
  }

  lemma NamesGrow(items: seq<string>, s: string)
    requires items != []
    ensures Names(items, s) <==> Normalize(items[|items| - 1]) == s || Names(items[..|items| - 1], s)
  {
    var init := items[..|items| - 1];
    if Names(init, s) {
      var i :| 0 <= i < |init| && Normalize(init[i]) == s;
      assert items[i] == init[i];
    }
  }

  /** Exactly the normalized symbols of the item, without the empty one. */
  lemma {:induction false} ChosenIff(items: seq<string>, s: string)
    ensures s in Chosen(items) <==> s != "" && Names(items, s)
  {
    if items == [] {
    } else {
      ChosenIff(items[..|items| - 1], s);
      NamesGrow(items, s);
    }
  }

  lemma NewSymbol(symbols: seq<string>, s: string)
    requires Distinct(symbols) && s !in symbols
    ensures Distinct(symbols + [s])
  {
    var r := symbols + [s];
    forall i, j | 0 <= i < j < |r| ensures r[i] != r[j] {
      assert r[i] == symbols[i] && symbols[i] in symbols;
    }
  }

  /** And each of them once. */
  lemma {:induction false} ChosenOnce(items: seq<string>)
    ensures Distinct(Chosen(items))
  {
    if items == [] {
    } else {
      var rest, s := Chosen(items[..|items| - 1]), Normalize(items[|items| - 1]);
      ChosenOnce(items[..|items| - 1]);
      if s !in rest { NewSymbol(rest, s); }
    }
  }

  /** What is stored: distinct symbols in their normal form. */
  predicate Settled(symbols: seq<string>) {
    && Distinct(symbols)
    && forall i :: 0 <= i < |symbols| ==> symbols[i] != "" && Normalize(symbols[i]) == symbols[i]
  }

  lemma {:induction false} ChosenAgain(symbols: seq<string>)
    requires Settled(symbols)
    ensures Chosen(symbols) == symbols
  {
    if symbols == [] {
    } else {
      var n := |symbols| - 1;
      ChosenAgain(symbols[..n]);
      assert symbols == symbols[..n] + [symbols[n]];
      assert forall i :: 0 <= i < n ==> symbols[..n][i] != symbols[n];
    }
  }

  /** Exactly these lists are stored. */
  lemma StoredIff(symbols: seq<string>)
    ensures (exists items :: Chosen(items) == symbols) <==> Settled(symbols)
  {
    if Settled(symbols) {
      ChosenAgain(symbols);
    }
    if exists items :: Chosen(items) == symbols {
      var items :| Chosen(items) == symbols;
      ChosenSettled(items);
    }
  }

  lemma ChosenSettled(items: seq<string>)
    ensures Settled(Chosen(items))
  {
    ChosenOnce(items);
    var symbols := Chosen(items);
    forall i | 0 <= i < |symbols| ensures symbols[i] != "" && Normalize(symbols[i]) == symbols[i] {
      ChosenIff(items, symbols[i]);
      var j :| 0 <= j < |items| && Normalize(items[j]) == symbols[i];
      NormalizeTwice(items[j]);
    }
  }

  // ----- The column

  /** Each symbol followed by a comma. */
  function Body(symbols: seq<string>): string {
    if symbols == [] then "" else symbols[0] + "," + Body(symbols[1..])
  }

  function Join(symbols: seq<string>): string {
    if symbols == [] then "" else if |symbols| == 1 then symbols[0] else symbols[0] + "," + Join(symbols[1..])
  }

  function ToCsv(symbols: seq<string>): string {
    if symbols == [] then "" else "," + Join(symbols) + ","
  }

  function StripCommasLeft(t: string): string { if t != "" && t[0] == ',' then StripCommasLeft(t[1..]) else t }

  function StripCommasRight(t: string): string {
    if t != "" && t[|t| - 1] == ',' then StripCommasRight(t[..|t| - 1]) else t
  }

  /** The pieces between the commas. */
  function Pieces(t: string): (r: seq<string>)
    ensures |r| > 0
  {
    if t == "" then [""]
    else
      var rest := Pieces(t[1..]);
      if t[0] == ',' then [""] + rest else [[t[0]] + rest[0]] + rest[1..]
  }

  function NonEmpty(xs: seq<string>): seq<string> {
    if xs == [] then [] else if xs[0] == "" then NonEmpty(xs[1..]) else [xs[0]] + NonEmpty(xs[1..])
  }

  function FromCsv(csv: string): seq<string> {
    var text := StripCommasRight(StripCommasLeft(csv));
    if text == "" then [] else NonEmpty(Pieces(text))
  }

  predicate CommaFree(s: string) { forall i :: 0 <= i < |s| ==> s[i] != ',' }

  predicate AllCommaFree(symbols: seq<string>) { forall i :: 0 <= i < |symbols| ==> CommaFree(symbols[i]) }

  predicate Clean(symbols: seq<string>) { forall i :: 0 <= i < |symbols| ==> symbols[i] != "" && CommaFree(symbols[i]) }

  lemma {:induction false} JoinIsBody(symbols: seq<string>)
    requires symbols != []
    ensures Join(symbols) + "," == Body(symbols)
  {
    if |symbols| > 1 {
      JoinIsBody(symbols[1..]);
      assert symbols[0] + "," + Join(symbols[1..]) + "," == symbols[0] + "," + (Join(symbols[1..]) + ",");
    } else {
      assert symbols[1..] == [];
      assert symbols[0] + "," + "" == symbols[0] + ",";
    }
  }

  lemma CsvIsBody(symbols: seq<string>)
    requires symbols != []
    ensures ToCsv(symbols) == "," + Body(symbols)
  {
    JoinIsBody(symbols);
    assert "," + Join(symbols) + "," == "," + (Join(symbols) + ",");
  }

  /** A symbol before a comma is a piece of its own. */
  lemma {:induction false} FirstPiece(s: string, t: string)
    requires CommaFree(s)
    ensures Pieces(s + "," + t) == [s] + Pieces(t)
  {
    if s == "" {
      assert s + "," + t == "," + t && ("," + t)[1..] == t;
    } else {
      FirstPiece(s[1..], t);
      assert (s + "," + t)[1..] == s[1..] + "," + t;
      assert ([s[1..]] + Pieces(t))[1..] == Pieces(t) && [s[0]] + s[1..] == s;
    }
  }

  lemma {:induction false} BodyPieces(symbols: seq<string>)
    requires Clean(symbols)
    ensures NonEmpty(Pieces(Body(symbols))) == symbols
  {
    if symbols == [] {
      assert Pieces("") == [""] && [""][1..] == [];
    } else {
      FirstPiece(symbols[0], Body(symbols[1..]));
      BodyPieces(symbols[1..]);
      assert ([symbols[0]] + Pieces(Body(symbols[1..])))[1..] == Pieces(Body(symbols[1..]));
    }
  }

  /** Commas at either end add empty pieces only. */
  lemma {:induction false} LeftCommas(t: string)
    ensures NonEmpty(Pieces(StripCommasLeft(t))) == NonEmpty(Pieces(t))
  {
    if t == "" || t[0] != ',' {
    } else {
      LeftCommas(t[1..]);
      assert ([""] + Pieces(t[1..]))[1..] == Pieces(t[1..]);
    }
  }

  lemma {:induction false} LastPiece(t: string)
    ensures Pieces(t + ",") == Pieces(t) + [""]
  {
    if t == "" {
      assert t + "," == ",";
      assert Pieces(",") == [""] + Pieces("");
    } else {
      LastPiece(t[1..]);
      assert (t + ",")[1..] == t[1..] + ",";
      var rest := Pieces(t[1..]);
      assert (rest + [""])[1..] == rest[1..] + [""];
    }
  }

  lemma {:induction false} NonEmptyAppend(xs: seq<string>)
    ensures NonEmpty(xs + [""]) == NonEmpty(xs)
  {
    if xs == [] {
      assert [] + [""] == [""] && [""][1..] == [];
    } else {
      NonEmptyAppend(xs[1..]);
      assert (xs + [""])[1..] == xs[1..] + [""];
    }
  }

  lemma {:induction false} RightCommas(t: string)
    ensures NonEmpty(Pieces(StripCommasRight(t))) == NonEmpty(Pieces(t))
  {
    if t == "" || t[|t| - 1] != ',' {
    } else {
      var init := t[..|t| - 1];
      RightCommas(init);
      assert t == init + ",";
      LastPiece(init);
      NonEmptyAppend(Pieces(init));
    }
  }

  lemma FromPieces(csv: string)
    ensures FromCsv(csv) == NonEmpty(Pieces(csv))
  {
    LeftCommas(csv);
    RightCommas(StripCommasLeft(csv));
    assert NonEmpty(Pieces("")) == [] by { assert [""][1..] == []; }
  }

  lemma {:induction false} PiecesCommaFree(t: string)
    ensures AllCommaFree(Pieces(t))
  {
    if t == "" {
    } else {
      PiecesCommaFree(t[1..]);
    }
  }

  lemma {:induction false} NonEmptyClean(xs: seq<string>)
    requires AllCommaFree(xs)
    ensures Clean(NonEmpty(xs))
  {
    if xs == [] {
    } else {
      NonEmptyClean(xs[1..]);
    }
  }

  /** The column gives the list back exactly when no symbol is empty or holds a comma. */
  lemma RoundTripIff(symbols: seq<string>)
    ensures FromCsv(ToCsv(symbols)) == symbols <==> Clean(symbols)
  {
    var csv := ToCsv(symbols);
    FromPieces(csv);
    PiecesCommaFree(csv);
    NonEmptyClean(Pieces(csv));
    if Clean(symbols) && symbols != [] {
      CsvIsBody(symbols);
      BodyPieces(symbols);
      assert ("," + Body(symbols))[1..] == Body(symbols);
      assert ([""] + Pieces(Body(symbols)))[1..] == Pieces(Body(symbols));
    }
  }

  // ----- The filter

  predicate OccursAt(t: string, p: string, i: nat) { i + |p| <= |t| && t[i..i + |p|] == p }

  ghost predicate Occurs(t: string, p: string) { exists i: nat :: OccursAt(t, p, i) }

  function Delimited(s: string): string { "," + s + "," }

  /** The first symbol of a column, met at its start. */
  lemma AtStart(a: string, rest: string, s: string)
    requires CommaFree(a) && CommaFree(s)
    ensures OccursAt("," + (a + "," + rest), Delimited(s), 0) <==> a == s
  {
    var t, p := "," + (a + "," + rest), Delimited(s);
    assert t[|a| + 1] == ',' && p[|s| + 1] == ',';
    assert forall i :: 1 <= i <= |a| ==> t[i] == a[i - 1];
    assert forall i :: 1 <= i <= |s| ==> p[i] == s[i - 1];
    assert |a| < |s| ==> p[|a| + 1] == s[|a|];
    assert |s| < |a| ==> t[|s| + 1] == a[|s|];
    if OccursAt(t, p, 0) {
      assert forall i :: 0 <= i < |p| ==> t[i] == p[i];
      assert forall i :: 0 <= i < |a| ==> a[i] == t[i + 1] == p[i + 1] == s[i];
    }
    if a == s {
      assert t[..|p|] == p;
    }
  }

  lemma NotInside(a: string, rest: string, s: string, i: nat)
    requires CommaFree(a) && 0 < i <= |a|
    ensures !OccursAt("," + (a + "," + rest), Delimited(s), i)
  {
    var t, p := "," + (a + "," + rest), Delimited(s);
    assert t[i] == a[i - 1] != ',';
    assert i + |p| <= |t| ==> t[i..i + |p|][0] == t[i] && p[0] == ',';
  }

  /** Later occurrences are occurrences in the rest. */
  lemma AfterStart(a: string, rest: string, s: string, i: nat)
    requires CommaFree(a) && i > |a|
    ensures OccursAt("," + (a + "," + rest), Delimited(s), i) <==> OccursAt("," + rest, Delimited(s), i - |a| - 1)
  {
    var t, p := "," + (a + "," + rest), Delimited(s);
    assert t[|a| + 1..] == "," + rest;
    if i + |p| <= |t| {
      assert t[i..i + |p|] == t[|a| + 1..][i - |a| - 1..i - |a| - 1 + |p|];
    }
  }

  lemma OccursHereOrLater(a: string, rest: string, s: string)
    requires CommaFree(a) && CommaFree(s)
    ensures Occurs("," + (a + "," + rest), Delimited(s)) <==> a == s || Occurs("," + rest, Delimited(s))
  {
    var t, p := "," + (a + "," + rest), Delimited(s);
    AtStart(a, rest, s);
    if Occurs(t, p) && a != s {
      var i: nat :| OccursAt(t, p, i);
      if 0 < i <= |a| { NotInside(a, rest, s, i); }
      AfterStart(a, rest, s, i);
      assert OccursAt("," + rest, p, i - |a| - 1);
    }
    if Occurs("," + rest, p) {
      var i: nat :| OccursAt("," + rest, p, i);
      AfterStart(a, rest, s, i + |a| + 1);
      assert OccursAt(t, p, i + |a| + 1);
    }
  }

  lemma {:induction false} BodyOccurs(symbols: seq<string>, s: string)
    requires AllCommaFree(symbols) && s != "" && CommaFree(s)
    ensures Occurs("," + Body(symbols), Delimited(s)) <==> s in symbols
  {
    if symbols == [] {
      assert "," + Body(symbols) == ",";
      assert forall i: nat :: !OccursAt(",", Delimited(s), i);
    } else {
      BodyOccurs(symbols[1..], s);
      OccursHereOrLater(symbols[0], Body(symbols[1..]), s);
      assert s in symbols <==> s == symbols[0] || s in symbols[1..];
    }
  }

  /** The delimited symbol occurs in the column exactly when the symbol is in the list. */
  lemma OccursIff(symbols: seq<string>, s: string)
    requires Clean(symbols) && s != "" && CommaFree(s)
    ensures Occurs(ToCsv(symbols), Delimited(s)) <==> s in symbols
  {
    if symbols == [] {
      assert forall i: nat :: !OccursAt("", Delimited(s), i);
    } else {
      CsvIsBody(symbols);
      BodyOccurs(symbols, s);
    }
  }

  /** Outside the clean lists it also finds what was never a symbol of the item. */
  lemma FindsFragments(a: string, b: string)
    requires a != "" && b != "" && CommaFree(a) && CommaFree(b)
    ensures Occurs(ToCsv([a + "," + b]), Delimited(b)) && b !in [a + "," + b]
  {
    var t, p := ToCsv([a + "," + b]), Delimited(b);
    assert t == "," + (a + "," + b) + ",";
    assert t[|a| + 1..] == p;
    assert OccursAt(t, p, |a| + 1);
    assert |b| < |a + "," + b|;
  }
}
