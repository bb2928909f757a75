/** The symbol filter of the news list: a LIKE pattern built from what the caller asks for. */
module NewsFilter {
  import opened Common
  import opened NewsIndex

  const ANY: char := '%'
  const ONE: char := '_'

  // ----- LIKE as the database evaluates it: two wildcards, ASCII letters alike

  ghost predicate Like(t: string, p: string)
    decreases |p|
  {
    if p == "" then t == ""
    else if p[0] == ANY then exists i :: 0 <= i <= |t| && Like(t[i..], p[1..])
    else t != "" && (p[0] == ONE || UpperChar(t[0]) == UpperChar(p[0])) && Like(t[1..], p[1..])
  }

  /** The symbol goes into the pattern as it is. */
  function Pattern(s: string): string { [ANY] + Delimited(s) + [ANY] }

  ghost predicate Finds(csv: string, s: string) { Like(csv, Pattern(s)) }

  /** Some symbol of the list is `s`, up to the case of letters. */
  predicate Listed(symbols: seq<string>, s: string) {
    exists i :: 0 <= i < |symbols| && Upper(symbols[i]) == Upper(s)
  }

  predicate Wild(c: char) { c == ANY || c == ONE }

  predicate Plain(s: string) { forall i :: 0 <= i < |s| ==> !Wild(s[i]) }

  // ----- Letters folded

  function UpperAll(symbols: seq<string>): seq<string> {
    if symbols == [] then [] else [Upper(symbols[0])] + UpperAll(symbols[1..])
  }

  lemma {:induction false} UpperAt(s: string)
    ensures |Upper(s)| == |s| && forall i :: 0 <= i < |s| ==> Upper(s)[i] == UpperChar(s[i])
  {
    if s == "" {
    } else {
      UpperAt(s[1..]);
    }
  }

  lemma UpperOfBoth(a: string, b: string)
    ensures Upper(a + b) == Upper(a) + Upper(b)
  {
    UpperAt(a);
    UpperAt(b);
    UpperAt(a + b);
  }

  lemma {:induction false} UpperBody(symbols: seq<string>)
    requires AllCommaFree(symbols)
    ensures Upper(Body(symbols)) == Body(UpperAll(symbols)) && AllCommaFree(UpperAll(symbols))
    ensures |UpperAll(symbols)| == |symbols|
    ensures forall i :: 0 <= i < |symbols| ==> UpperAll(symbols)[i] == Upper(symbols[i])
  {
    if symbols == [] {
    } else {
      var a, rest := symbols[0], Body(symbols[1..]);
      UpperBody(symbols[1..]);
      UpperAt(a);
      UpperOfBoth(a + ",", rest);
      UpperOfBoth(a, ",");
      UpperComma();
    }
  }

  lemma UpperComma()
    ensures Upper(",") == ","
  {
    UpperAt(",");
  }

  lemma UpperDelimited(s: string)
    ensures Upper(Delimited(s)) == Delimited(Upper(s))
  {
    UpperOfBoth("," + s, ",");
    UpperOfBoth(",", s);
    UpperComma();
  }

  /** The delimited symbol occurs in the column, letters folded, exactly when it is listed. */
  lemma FoldedOccursIff(symbols: seq<string>, s: string)
    requires AllCommaFree(symbols) && s != "" && CommaFree(s)
    ensures Occurs(Upper(ToCsv(symbols)), Upper(Delimited(s))) <==> Listed(symbols, s)
  {
    UpperDelimited(s);
    UpperAt(s);
    if symbols == [] {
      assert forall i: nat :: !OccursAt("", Delimited(Upper(s)), i);
    } else {
      CsvIsBody(symbols);
      UpperBody(symbols);
      UpperOfBoth(",", Body(symbols));
      UpperComma();
      BodyOccurs(UpperAll(symbols), Upper(s));
    }
  }

  // ----- Patterns without wildcards of their own

  lemma {:induction false} LiteralLike(t: string, q: string)
    requires Plain(q)
    ensures Like(t, q + [ANY]) <==> |q| <= |t| && Upper(t[..|q|]) == Upper(q)
    decreases |q|
  {
    if q == "" {
      assert q + [ANY] == [ANY] && [ANY][1..] == "";
      assert Like(t[|t|..], "");
      assert t[..0] == "";
    } else {
      assert (q + [ANY])[1..] == q[1..] + [ANY];
      if t != "" {
        LiteralLike(t[1..], q[1..]);
        if |q| <= |t| {
          assert t[..|q|][0] == t[0] && t[..|q|][1..] == t[1..][..|q| - 1];
          var x, y := Upper(t[1..][..|q| - 1]), Upper(q[1..]);
          assert Upper(t[..|q|]) == [UpperChar(t[0])] + x && Upper(q) == [UpperChar(q[0])] + y;
          assert ([UpperChar(t[0])] + x)[1..] == x && ([UpperChar(q[0])] + y)[1..] == y;
        }
      }
    }
  }

  lemma FoldedAt(t: string, q: string, i: nat)
    requires i + |q| <= |t|
    ensures Upper(t[i..][..|q|]) == Upper(q) <==> OccursAt(Upper(t), Upper(q), i)
  {
    UpperAt(t);
    UpperAt(q);
    UpperAt(t[i..][..|q|]);
    assert Upper(t)[i..i + |q|] == Upper(t[i..][..|q|]);
  }

  lemma PlainLike(t: string, q: string)
    requires Plain(q)
    ensures Like(t, [ANY] + q + [ANY]) <==> Occurs(Upper(t), Upper(q))
  {
    UpperAt(t);
    UpperAt(q);
    assert ([ANY] + q + [ANY])[1..] == q + [ANY];
    forall i | 0 <= i <= |t| ensures Like(t[i..], q + [ANY]) <==> OccursAt(Upper(t), Upper(q), i) {
      LiteralLike(t[i..], q);
      if i + |q| <= |t| { FoldedAt(t, q, i); }
    }
    if Occurs(Upper(t), Upper(q)) {
      var i: nat :| OccursAt(Upper(t), Upper(q), i);
      assert Like(t[i..], q + [ANY]);
    }
  }

  /** For a symbol without wildcards and commas the filter finds an item exactly when the symbol is listed. */
  lemma FilterFindsIff(symbols: seq<string>, s: string)
    requires Clean(symbols) && s != "" && CommaFree(s) && Plain(s)
    ensures Finds(ToCsv(symbols), s) <==> Listed(symbols, s)
  {
    PlainLike(ToCsv(symbols), Delimited(s));
    FoldedOccursIff(symbols, s);
  }

  /** Whatever is stored, such a symbol is found exactly if it stands between two commas: it is one of the
      symbols, or a piece of one that holds a comma. */
  lemma FindsPieceIff(symbols: seq<string>, s: string)
    requires symbols != [] && s != "" && CommaFree(s) && Plain(s)
    ensures Finds(ToCsv(symbols), s) <==> Listed(Pieces(Join(symbols)), s)
  {
    var pieces := Pieces(Join(symbols));
    PiecesJoin(Join(symbols));
    PiecesCommaFree(Join(symbols));
    PlainLike(ToCsv(pieces), Delimited(s));
    FoldedOccursIff(pieces, s);
  }

  lemma {:induction false} PiecesJoin(t: string)
    ensures Join(Pieces(t)) == t
  {
    if t == "" {
    } else {
      PiecesJoin(t[1..]);
      var rest := Pieces(t[1..]);
      if t[0] == ',' {
        assert ([""] + rest)[1..] == rest;
        assert "" + "," + Join(rest) == t;
      } else {
        var pieces := [[t[0]] + rest[0]] + rest[1..];
        assert pieces[1..] == rest[1..];
        assert |rest| > 1 ==> [t[0]] + rest[0] + "," + Join(rest[1..]) == [t[0]] + (rest[0] + "," + Join(rest[1..]));
        assert [t[0]] + t[1..] == t;
      }
    }
  }

  // ----- What fits a pattern

  /** Character by character the text is what the pattern asks for. */
  predicate Fits(x: string, p: string) {
    |x| == |p| && forall i :: 0 <= i < |p| ==> Wild(p[i]) || UpperChar(p[i]) == UpperChar(x[i])
  }

  lemma AnyBefore(a: string, t: string, p: string)
    requires Like(t, p)
    ensures Like(a + t, [ANY] + p)
  {
    assert (a + t)[|a|..] == t && ([ANY] + p)[1..] == p;
  }

  lemma OneBefore(x: char, c: char, t: string, p: string)
    requires Like(t, p) && c != ANY && (c == ONE || UpperChar(c) == UpperChar(x))
    ensures Like([x] + t, [c] + p)
  {
    assert ([x] + t)[1..] == t && ([c] + p)[1..] == p;
  }

  /** What fits may stand before what matches. */
  lemma {:induction false} FitsBefore(x: string, s: string, t: string, p: string)
    requires Fits(x, s) && Like(t, p)
    ensures Like(x + t, s + p)
    decreases |s|
  {
    if s == "" {
      assert x + t == t && s + p == p;
    } else {
      FitsBefore(x[1..], s[1..], t, p);
      assert x + t == [x[0]] + (x[1..] + t) && s + p == [s[0]] + (s[1..] + p);
      if s[0] == ANY {
        AnyBefore([x[0]], x[1..] + t, s[1..] + p);
      } else {
        OneBefore(x[0], s[0], x[1..] + t, s[1..] + p);
      }
    }
  }

  lemma AnyMatches(t: string)
    ensures Like(t, [ANY])
  {
    assert Like("", "");
    AnyBefore(t, "", "");
    assert t + "" == t && [ANY] + "" == [ANY];
  }

  /** What fits the delimited symbol is found. */
  lemma FitsFound(x: string, s: string)
    requires Fits(x, Delimited(s))
    ensures Finds(x, s)
  {
    AnyMatches("");
    FitsBefore(x, Delimited(s), "", [ANY]);
    assert x + "" == x;
    AnyBefore("", x, Delimited(s) + [ANY]);
    assert "" + x == x && [ANY] + (Delimited(s) + [ANY]) == Pattern(s);
  }

  // ----- Wildcards, by example

  /** A lone percent sign finds every item that has symbols. */
  lemma PercentFindsAll(symbols: seq<string>)
    requires symbols != []
    ensures Finds(ToCsv(symbols), [ANY])
  {
    var list := Join(symbols);
    AnyMatches("");
    FitsBefore(",", ",", "", [ANY]);
    AnyBefore(list, "," + "", "," + [ANY]);
    FitsBefore(",", ",", list + ("," + ""), [ANY] + ("," + [ANY]));
    AnyBefore("", "," + (list + ("," + "")), "," + ([ANY] + ("," + [ANY])));
    assert "" + ("," + (list + ("," + ""))) == ToCsv(symbols);
    assert [ANY] + ("," + ([ANY] + ("," + [ANY]))) == Pattern([ANY]);
  }

  /** An underscore stands for any character. */
  lemma UnderscoreFinds(digits: string, c: char)
    ensures Finds(ToCsv([digits + [c]]), digits + [ONE])
  {
    FitsFound(Delimited(digits + [c]), digits + [ONE]);
  }
}
