/** The repair of a JSON text seen from its grammar: strings made of characters and escapes, between
    quotes, and other characters around them; a truncated text may end inside a string. */
module JsonGrammar {
  import opened JsonRepair

  /** What a string is made of: a plain character, or a backslash with whatever follows it. */
  datatype Unit = Plain(c: char) | Pair(c: char)

  datatype Piece = Around(c: char) | Quoted(units: seq<Unit>)

  /** How the text ends: outside of strings, in a string, or in one after a backslash. */
  datatype Tail = Complete | Open(units: seq<Unit>) | Cut(units: seq<Unit>)

  datatype Document = Document(pieces: seq<Piece>, tail: Tail)

  predicate ValidUnits(units: seq<Unit>) {
    forall i :: 0 <= i < |units| && units[i].Plain? ==> units[i].c != '"' && units[i].c != '\\'
  }

  predicate Valid(doc: Document) {
    && (forall i :: 0 <= i < |doc.pieces| ==>
          match doc.pieces[i]
          case Around(c) => c != '"'
          case Quoted(units) => ValidUnits(units))
    && match doc.tail
       case Complete => true
       case Open(units) => ValidUnits(units)
       case Cut(units) => ValidUnits(units)
  }

  // ----- The text of a document

  function SpellUnit(u: Unit): string {
    match u
    case Plain(c) => [c]
    case Pair(c) => ['\\', c]
  }

  function SpellUnits(units: seq<Unit>): string {
    if units == [] then "" else SpellUnit(units[0]) + SpellUnits(units[1..])
  }

  function SpellPiece(p: Piece): string {
    match p
    case Around(c) => [c]
    case Quoted(units) => "\"" + SpellUnits(units) + "\""
  }

  function SpellPieces(ps: seq<Piece>): string {
    if ps == [] then "" else SpellPiece(ps[0]) + SpellPieces(ps[1..])
  }

  function SpellTail(t: Tail): string {
    match t
    case Complete => ""
    case Open(units) => "\"" + SpellUnits(units)
    case Cut(units) => "\"" + SpellUnits(units) + "\\"
  }

  function Spell(doc: Document): string { SpellPieces(doc.pieces) + SpellTail(doc.tail) }

  // ----- The repaired document

  /** A plain line feed, carriage return or tab becomes its escape; everything else stays. */
  function MendUnit(u: Unit): Unit {
    match u
    case Pair(_) => u
    case Plain(c) =>
      if c == '\n' then Pair('n') else if c == '\r' then Pair('r') else if c == '\t' then Pair('t') else u
  }

  function MendUnits(units: seq<Unit>): seq<Unit> {
    if units == [] then [] else [MendUnit(units[0])] + MendUnits(units[1..])
  }

  function MendPiece(p: Piece): Piece {
    match p
    case Around(_) => p
    case Quoted(units) => Quoted(MendUnits(units))
  }

  function MendPieces(ps: seq<Piece>): seq<Piece> {
    if ps == [] then [] else [MendPiece(ps[0])] + MendPieces(ps[1..])
  }

  function MendTail(t: Tail): Tail {
    match t
    case Complete => t
    case Open(units) => Open(MendUnits(units))
    case Cut(units) => Cut(MendUnits(units))
  }

  function Mend(doc: Document): Document { Document(MendPieces(doc.pieces), MendTail(doc.tail)) }

  // ----- The repair mends the document

  const INSIDE := State(true, false)

  lemma {:induction false} FirstOf(s: State, c: char, rest: string)
    ensures Repair(s, [c] + rest) == Emit(s, c) + Repair(Next(s, c), rest)
  {
    assert ([c] + rest)[1..] == rest;
  }

  lemma {:induction false} UnitMended(u: Unit, rest: string)
    requires ValidUnits([u])
    ensures Repair(INSIDE, SpellUnit(u) + rest) == SpellUnit(MendUnit(u)) + Repair(INSIDE, rest)
  {
    assert [u][0] == u;
    match u {
      case Plain(c) => FirstOf(INSIDE, c, rest);
      case Pair(c) =>
        assert SpellUnit(u) + rest == ['\\'] + ([c] + rest);
        FirstOf(INSIDE, '\\', [c] + rest);
        FirstOf(State(true, true), c, rest);
        assert ['\\'] + ([c] + Repair(INSIDE, rest)) == ['\\', c] + Repair(INSIDE, rest);
    }
  }

  lemma {:induction false} UnitsMended(units: seq<Unit>, rest: string)
    requires ValidUnits(units)
    ensures Repair(INSIDE, SpellUnits(units) + rest) == SpellUnits(MendUnits(units)) + Repair(INSIDE, rest)
  {
    if units == [] {
      assert "" + rest == rest && "" + Repair(INSIDE, rest) == Repair(INSIDE, rest);
    } else {
      var u, us := units[0], units[1..];
      assert SpellUnits(units) + rest == SpellUnit(u) + (SpellUnits(us) + rest);
      UnitMended(u, SpellUnits(us) + rest);
      UnitsMended(us, rest);
      assert MendUnits(units)[0] == MendUnit(u) && MendUnits(units)[1..] == MendUnits(us);
      Regroup(SpellUnit(MendUnit(u)), SpellUnits(MendUnits(us)), Repair(INSIDE, rest));
    }
  }

  lemma Regroup(a: string, b: string, c: string)
    ensures a + (b + c) == (a + b) + c
  {
  }

  lemma Wrapped(a: string, b: string)
    ensures ("\"" + a + "\"") + b == "\"" + (a + ("\"" + b))
  {
  }

  lemma {:induction false} QuoteFirst(rest: string)
    ensures Repair(START, "\"" + rest) == "\"" + Repair(INSIDE, rest)
    ensures Repair(INSIDE, "\"" + rest) == "\"" + Repair(START, rest)
  {
    FirstOf(START, '"', rest);
    FirstOf(INSIDE, '"', rest);
  }

  lemma {:induction false} PieceMended(p: Piece, rest: string)
    requires Valid(Document([p], Complete))
    ensures Repair(START, SpellPiece(p) + rest) == SpellPiece(MendPiece(p)) + Repair(START, rest)
  {
    assert Document([p], Complete).pieces[0] == p;
    match p {
      case Around(c) => FirstOf(START, c, rest);
      case Quoted(units) =>
        Wrapped(SpellUnits(units), rest);
        QuoteFirst(SpellUnits(units) + ("\"" + rest));
        UnitsMended(units, "\"" + rest);
        QuoteFirst(rest);
        Wrapped(SpellUnits(MendUnits(units)), Repair(START, rest));
    }
  }

  lemma {:induction false} PiecesMended(ps: seq<Piece>, rest: string)
    requires Valid(Document(ps, Complete))
    ensures Repair(START, SpellPieces(ps) + rest) == SpellPieces(MendPieces(ps)) + Repair(START, rest)
  {
    if ps == [] {
      assert "" + rest == rest && "" + Repair(START, rest) == Repair(START, rest);
    } else {
      var p, tail := ps[0], ps[1..];
      assert Valid(Document([p], Complete)) && Valid(Document(tail, Complete));
      assert SpellPieces(ps) + rest == SpellPiece(p) + (SpellPieces(tail) + rest);
      PieceMended(p, SpellPieces(tail) + rest);
      PiecesMended(tail, rest);
      assert MendPieces(ps)[0] == MendPiece(p) && MendPieces(ps)[1..] == MendPieces(tail);
      Regroup(SpellPiece(MendPiece(p)), SpellPieces(MendPieces(tail)), Repair(START, rest));
    }
  }

  lemma {:induction false} TailMended(t: Tail)
    requires Valid(Document([], t))
    ensures Repair(START, SpellTail(t)) == SpellTail(MendTail(t))
  {
    match t {
      case Complete =>
      case Open(units) =>
        QuoteFirst(SpellUnits(units));
        UnitsMended(units, "");
        assert SpellUnits(units) + "" == SpellUnits(units);
        assert SpellUnits(MendUnits(units)) + "" == SpellUnits(MendUnits(units));
      case Cut(units) =>
        assert SpellTail(t) == "\"" + (SpellUnits(units) + "\\");
        QuoteFirst(SpellUnits(units) + "\\");
        UnitsMended(units, "\\");
        OneCharacter(INSIDE, '\\');
        Regroup("\"", SpellUnits(MendUnits(units)), "\\");
    }
  }

  /** The repair of the text of a document is the text of the mended document: in every string each plain
      line feed, carriage return and tab becomes its escape, and nothing else changes anywhere. */
  lemma {:induction false} RepairMends(doc: Document)
    requires Valid(doc)
    ensures Repair(START, Spell(doc)) == Spell(Mend(doc))
  {
    assert Valid(Document(doc.pieces, Complete)) && Valid(Document([], doc.tail));
    PiecesMended(doc.pieces, SpellTail(doc.tail));
    TailMended(doc.tail);
  }

  // ----- Every text is the text of a document

  /** Where a string ends: at a quote with `r` after it, at the end of the text, or there after a backslash. */
  datatype Stop = Closed(r: string) | Ended | Dangling

  /** The units up to the closing quote, or to the end. */
  lemma {:induction false} UnitsOf(text: string) returns (units: seq<Unit>, rest: Stop)
    ensures ValidUnits(units)
    ensures match rest
            case Closed(r) => text == SpellUnits(units) + "\"" + r
            case Ended => text == SpellUnits(units)
            case Dangling => text == SpellUnits(units) + "\\"
    decreases |text|
  {
    if text == "" {
      units, rest := [], Ended;
    } else if text[0] == '"' {
      units, rest := [], Closed(text[1..]);
      assert text == "" + "\"" + text[1..];
    } else if text == "\\" {
      units, rest := [], Dangling;
      assert text == "" + "\\";
    } else if text[0] == '\\' {
      units, rest := UnitsOf(text[2..]);
      units := FirstUnit(Pair(text[1]), text, text[2..], units, rest);
    } else {
      units, rest := UnitsOf(text[1..]);
      units := FirstUnit(Plain(text[0]), text, text[1..], units, rest);
    }
  }

  lemma {:induction false} FirstUnit(u: Unit, text: string, tail: string, units: seq<Unit>, rest: Stop)
      returns (all: seq<Unit>)
    requires ValidUnits(units) && (u.Plain? ==> u.c != '"' && u.c != '\\') && text == SpellUnit(u) + tail
    requires match rest
             case Closed(r) => tail == SpellUnits(units) + "\"" + r
             case Ended => tail == SpellUnits(units)
             case Dangling => tail == SpellUnits(units) + "\\"
    ensures ValidUnits(all)
    ensures match rest
            case Closed(r) => text == SpellUnits(all) + "\"" + r
            case Ended => text == SpellUnits(all)
            case Dangling => text == SpellUnits(all) + "\\"
  {
    all := [u] + units;
    assert all[0] == u && all[1..] == units;
    assert SpellUnits(all) == SpellUnit(u) + SpellUnits(units);
  }

  lemma {:induction false} EveryText(text: string) returns (doc: Document)
    ensures Valid(doc) && Spell(doc) == text
    decreases |text|
  {
    if text == "" {
      return Document([], Complete);
    }
    if text[0] != '"' {
      var later := EveryText(text[1..]);
      doc := FirstPiece(Around(text[0]), text, later);
      return;
    }
    var units, rest := UnitsOf(text[1..]);
    assert text == "\"" + text[1..];
    match rest {
      case Closed(r) =>
        var later := EveryText(r);
        QuotedText(text, units, r);
        doc := FirstPiece(Quoted(units), text, later);
      case Ended => doc := OnlyTail(Open(units));
      case Dangling =>
        doc := OnlyTail(Cut(units));
        Regroup("\"", SpellUnits(units), "\\");
    }
  }

  lemma {:induction false} QuotedText(text: string, units: seq<Unit>, r: string)
    requires text == "\"" + (SpellUnits(units) + "\"" + r)
    ensures text == SpellPiece(Quoted(units)) + r
  {
    Wrapped(SpellUnits(units), r);
    Regroup(SpellUnits(units), "\"", r);
  }

  lemma {:induction false} OnlyTail(t: Tail) returns (doc: Document)
    requires Valid(Document([], t))
    ensures Valid(doc) && Spell(doc) == SpellTail(t)
  {
    doc := Document([], t);
    assert "" + SpellTail(t) == SpellTail(t);
  }

  lemma {:induction false} FirstPiece(p: Piece, text: string, later: Document) returns (doc: Document)
    requires Valid(later) && Valid(Document([p], Complete)) && text == SpellPiece(p) + Spell(later)
    ensures Valid(doc) && Spell(doc) == text
  {
    doc := Document([p] + later.pieces, later.tail);
    StillValid(p, later);
    SpelledFirst(p, later.pieces);
    Regroup(SpellPiece(p), SpellPieces(later.pieces), SpellTail(later.tail));
  }

  lemma {:induction false} SpelledFirst(p: Piece, ps: seq<Piece>)
    ensures SpellPieces([p] + ps) == SpellPiece(p) + SpellPieces(ps)
  {
    assert ([p] + ps)[1..] == ps;
  }

  lemma {:induction false} StillValid(p: Piece, later: Document)
    requires Valid(later) && Valid(Document([p], Complete))
    ensures Valid(Document([p] + later.pieces, later.tail))
  {
    assert Document([p], Complete).pieces[0] == p;
  }
}
