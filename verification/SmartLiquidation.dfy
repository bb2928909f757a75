/** Which holdings are sold before the close and which are kept, whatever the model answers; and
    what both rounds of orders together may sell. */
module SmartLiquidation {
  import opened Common
  import opened Liquidation

  /** One decision of the model's answer. `action` is `None` if it is there but no text, a missing one
      is SELL; `numeric`: the confidence is missing or can be written with two decimals. A decision
      that is no object, or whose symbol cannot be looked up, is `Garbled`. */
  datatype Answer = Answer(symbol: string, action: Option<string>, numeric: bool) | Garbled

  /** What is kept of an answer, the action in upper case. */
  datatype Decision = Decision(action: string, numeric: bool)

  // ----- Filters

  /** The elements whose flag is `want`. */
  function Where<T>(xs: seq<T>, flags: seq<bool>, want: bool): seq<T>
    requires |flags| == |xs|
  {
    if xs == [] then []
    else
      var n := |xs| - 1;
      var rest := Where(xs[..n], flags[..n], want);
      if flags[n] == want then rest + [xs[n]] else rest
  }

  lemma {:induction false} BothWheres(hs: seq<Holding>, flags: seq<bool>)
    requires |flags| == |hs|
    ensures multiset(Where(hs, flags, true)) + multiset(Where(hs, flags, false)) == multiset(hs)
  {
    if hs == [] {
    } else {
      var n := |hs| - 1;
      BothWheres(hs[..n], flags[..n]);
      assert hs == hs[..n] + [hs[n]];
    }
  }

  lemma {:induction false} BothQuantities(hs: seq<Holding>, flags: seq<bool>, symbol: string)
    requires |flags| == |hs|
    ensures QuantityOf(Where(hs, flags, true), symbol) + QuantityOf(Where(hs, flags, false), symbol)
              == QuantityOf(hs, symbol)
  {
    if hs == [] {
    } else {
      var n := |hs| - 1;
      BothQuantities(hs[..n], flags[..n], symbol);
      QuantityGrows(Where(hs[..n], flags[..n], flags[n]), hs[n], symbol);
    }
  }

  lemma {:induction false} WhereMembers(hs: seq<Holding>, flags: seq<bool>, want: bool, h: Holding)
    requires |flags| == |hs| && h in Where(hs, flags, want)
    ensures h in hs
  {
    var n := |hs| - 1;
    if h in Where(hs[..n], flags[..n], want) { WhereMembers(hs[..n], flags[..n], want, h); }
  }

  // ----- Collecting

  /** The last holding of a symbol: a later one of the same symbol replaces the earlier one. */
  function Latest(hs: seq<Holding>, symbol: string): Option<Holding> {
    if hs == [] then None
    else if hs[|hs| - 1].symbol == symbol then Some(hs[|hs| - 1])
    else Latest(hs[..|hs| - 1], symbol)
  }

  /** `found`: price and open lot of the holding could be read; it is sold right away otherwise. */
  method Collect(sellable: seq<Holding>, found: seq<bool>)
    returns (data: seq<Holding>, bySymbol: map<string, Holding>, fallback: seq<Holding>)
    requires |found| == |sellable|
    ensures data == Where(sellable, found, true) && fallback == Where(sellable, found, false)
    ensures forall s :: Latest(data, s) == if s in bySymbol then Some(bySymbol[s]) else None
  {
    data, bySymbol, fallback := [], map[], [];
    var i := 0;
    while i < |sellable|
      invariant 0 <= i <= |sellable|
      invariant data == Where(sellable[..i], found[..i], true) && fallback == Where(sellable[..i], found[..i], false)
      invariant forall s :: Latest(data, s) == if s in bySymbol then Some(bySymbol[s]) else None
    {
      var h := sellable[i];
      assert sellable[..i + 1][..i] == sellable[..i] && found[..i + 1][..i] == found[..i];
      if found[i] {
        assert (data + [h])[..|data|] == data;
        data, bySymbol := data + [h], bySymbol[h.symbol := h];
      } else {
        fallback := fallback + [h];
      }
      i := i + 1;
    }
    assert sellable[..i] == sellable && found[..i] == found;
  }

  // ----- Deciding

  /** Reading ends with an exception that is caught: what was read before stays. */
  predicate Stops(a: Answer, symbols: set<string>) {
    a.Garbled? || (a.symbol != "" && a.symbol in symbols && a.action.None?)
  }

  function Readable(answers: seq<Answer>, symbols: set<string>): seq<Answer> {
    if answers == [] || Stops(answers[0], symbols) then [] else [answers[0]] + Readable(answers[1..], symbols)
  }

  /** The last answer for a symbol; answers without a symbol do not count. */
  function DecisionFor(answers: seq<Answer>, symbol: string): Option<Decision> {
    if answers == [] || symbol == "" then None
    else
      var a := answers[|answers| - 1];
      if a.Answer? && a.action.Some? && a.symbol == symbol then Some(Decision(Upper(a.action.value), a.numeric))
      else DecisionFor(answers[..|answers| - 1], symbol)
  }

  /** The dictionary holds the last answer of each held symbol. */
  predicate Remembers(decisions: map<string, Decision>, answers: seq<Answer>, symbols: set<string>) {
    && "" !in decisions
    && forall s :: s in symbols ==> DecisionFor(answers, s) == if s in decisions then Some(decisions[s]) else None
  }

  method ReadAnswers(answers: seq<Answer>, bySymbol: map<string, Holding>) returns (decisions: map<string, Decision>)
    ensures Remembers(decisions, Readable(answers, bySymbol.Keys), bySymbol.Keys)
  {
    decisions := map[];
    var i := 0;
    while i < |answers|
      invariant 0 <= i <= |answers| && Remembers(decisions, answers[..i], bySymbol.Keys)
      invariant Readable(answers, bySymbol.Keys) == answers[..i] + Readable(answers[i..], bySymbol.Keys)
    {
      var a := answers[i];
      ReadNext(answers, i, bySymbol.Keys, decisions);
      if a.Garbled? { break; }
      if a.symbol != "" && a.symbol in bySymbol {
        if a.action.None? { break; }
        decisions := decisions[a.symbol := Decision(Upper(a.action.value), a.numeric)];
      }
      i := i + 1;
    }
    assert Readable(answers, bySymbol.Keys) == answers[..i];
  }

  /** One more answer: reading stops, or it replaces what was remembered. */
  lemma ReadNext(answers: seq<Answer>, i: nat, symbols: set<string>, decisions: map<string, Decision>)
    requires i < |answers| && Remembers(decisions, answers[..i], symbols)
    ensures var a := answers[i];
            if Stops(a, symbols) then Readable(answers[i..], symbols) == []
            else && answers[..i] + Readable(answers[i..], symbols)
                    == answers[..i + 1] + Readable(answers[i + 1..], symbols)
                 && Remembers(if a.symbol != "" && a.symbol in symbols
                              then decisions[a.symbol := Decision(Upper(a.action.value), a.numeric)] else decisions,
                              answers[..i + 1], symbols)
  {
    assert answers[..i + 1][..i] == answers[..i] && answers[i..][0] == answers[i]
             && answers[i..][1..] == answers[i + 1..];
    assert answers[..i + 1] == answers[..i] + [answers[i]];
  }

  /** A readable answer about a symbol. */
  predicate About(a: Answer, symbol: string) { symbol != "" && a.Answer? && a.symbol == symbol && a.action.Some? }

  /** Answer `i` is the last one about the symbol. */
  predicate LastAt(answers: seq<Answer>, symbol: string, i: nat) {
    && i < |answers| && About(answers[i], symbol)
    && forall j :: i < j < |answers| ==> !About(answers[j], symbol)
  }

  ghost predicate LastAbout(answers: seq<Answer>, symbol: string, a: Answer) {
    exists i: nat :: LastAt(answers, symbol, i) && answers[i] == a
  }

  ghost predicate Silent(answers: seq<Answer>, symbol: string) {
    forall i :: 0 <= i < |answers| ==> !About(answers[i], symbol)
  }

  /** What is decided by the last answer about a symbol. */
  ghost predicate Decides(answers: seq<Answer>, symbol: string, d: Option<Decision>) {
    match d
    case None => Silent(answers, symbol)
    case Some(d) => exists a :: LastAbout(answers, symbol, a) && d == Decision(Upper(a.action.value), a.numeric)
  }

  lemma {:induction false} DecisionIs(answers: seq<Answer>, symbol: string)
    ensures Decides(answers, symbol, DecisionFor(answers, symbol))
  {
    if answers == [] || symbol == "" {
    } else {
      var n := |answers| - 1;
      if About(answers[n], symbol) {
        assert LastAbout(answers, symbol, answers[n]);
      } else {
        DecisionIs(answers[..n], symbol);
        StillDecides(answers, symbol, DecisionFor(answers[..n], symbol));
      }
    }
  }

  lemma {:induction false} StillDecides(answers: seq<Answer>, symbol: string, d: Option<Decision>)
    requires answers != [] && !About(answers[|answers| - 1], symbol)
    requires Decides(answers[..|answers| - 1], symbol, d)
    ensures Decides(answers, symbol, d)
  {
    var init := answers[..|answers| - 1];
    if d.Some? {
      var a :| LastAbout(init, symbol, a) && d.value == Decision(Upper(a.action.value), a.numeric);
      SameLast(answers, symbol, a);
    } else {
      assert forall i :: 0 <= i < |init| ==> init[i] == answers[i];
    }
  }

  lemma {:induction false} OneLast(answers: seq<Answer>, symbol: string, a: Answer, b: Answer)
    requires LastAbout(answers, symbol, a) && LastAbout(answers, symbol, b)
    ensures a == b
  {
  }

  lemma {:induction false} SameLast(answers: seq<Answer>, symbol: string, a: Answer)
    requires answers != [] && !About(answers[|answers| - 1], symbol)
    ensures LastAbout(answers, symbol, a) <==> LastAbout(answers[..|answers| - 1], symbol, a)
  {
    var init := answers[..|answers| - 1];
    forall i: nat ensures LastAt(answers, symbol, i) <==> LastAt(init, symbol, i) { LastAtInit(answers, symbol, i); }
  }

  lemma {:induction false} LastAtInit(answers: seq<Answer>, symbol: string, i: nat)
    requires answers != [] && !About(answers[|answers| - 1], symbol)
    ensures LastAt(answers, symbol, i) <==> LastAt(answers[..|answers| - 1], symbol, i)
  {
    var init := answers[..|answers| - 1];
    assert forall j :: 0 <= j < |init| ==> init[j] == answers[j];
  }

  /** No object, or about a judged holding and its action no text. */
  predicate Malformed(a: Answer, symbols: set<string>) {
    a.Garbled? || (a.symbol != "" && a.symbol in symbols && a.action == None)
  }

  /** The answers that count are those before the first malformed one. */
  lemma {:induction false} ReadableIs(answers: seq<Answer>, symbols: set<string>) returns (n: nat)
    ensures n <= |answers| && Readable(answers, symbols) == answers[..n]
    ensures forall i :: 0 <= i < n ==> !Malformed(answers[i], symbols)
    ensures n < |answers| ==> Malformed(answers[n], symbols)
  {
    if answers == [] || Stops(answers[0], symbols) {
      n := 0;
    } else {
      n := ReadableIs(answers[1..], symbols);
      assert answers[..n + 1] == [answers[0]] + answers[1..][..n];
      n := n + 1;
    }
  }

  /** The last answer is HOLD, or there is none and the rules of the code say so. */
  ghost predicate StaysOvernight(answers: seq<Answer>, holds: Holding -> bool, h: Holding) {
    || (exists a :: LastAbout(answers, h.symbol, a) && Upper(a.action.value) == "HOLD")
    || (Silent(answers, h.symbol) && holds(h))
  }

  /** The last answer has a confidence that cannot be written down. */
  ghost predicate Unwritable(answers: seq<Answer>, h: Holding) {
    exists a :: LastAbout(answers, h.symbol, a) && !a.numeric
  }

  lemma {:induction false} JudgedByLast(answers: seq<Answer>, holds: Holding -> bool, h: Holding)
    ensures Kept(answers, holds, h) <==> StaysOvernight(answers, holds, h)
    ensures Breaks(answers, h) <==> Unwritable(answers, h)
  {
    DecisionIs(answers, h.symbol);
    var d := DecisionFor(answers, h.symbol);
    if d.Some? {
      var b :| LastAbout(answers, h.symbol, b) && d.value == Decision(Upper(b.action.value), b.numeric);
      forall a | LastAbout(answers, h.symbol, a) ensures a == b { OneLast(answers, h.symbol, a, b); }
    }
  }

  /** Kept overnight: HOLD by the model, or by the rules of the code where the model is silent. */
  predicate Kept(answers: seq<Answer>, holds: Holding -> bool, h: Holding) {
    match DecisionFor(answers, h.symbol)
    case Some(d) => d.action == "HOLD"
    case None => holds(h)
  }

  /** Writing down the decision fails: its confidence cannot be formatted. */
  predicate Breaks(answers: seq<Answer>, h: Holding) {
    match DecisionFor(answers, h.symbol)
    case Some(d) => !d.numeric
    case None => false
  }

  function Flags(hs: seq<Holding>, answers: seq<Answer>, holds: Holding -> bool): (r: seq<bool>)
    ensures |r| == |hs|
  {
    if hs == [] then [] else Flags(hs[..|hs| - 1], answers, holds) + [Kept(answers, holds, hs[|hs| - 1])]
  }

  /** Each symbol of the data is looked up again. */
  function LookedUp(data: seq<Holding>, n: nat): seq<Holding>
    requires n <= |data|
  {
    if n == 0 then []
    else
      var latest := Latest(data, data[n - 1].symbol);
      LookedUp(data, n - 1) + [if latest.Some? then latest.value else data[n - 1]]
  }

  /** What could not be read, then what is judged to be sold. */
  function ToSell(sellable: seq<Holding>, found: seq<bool>, answers: seq<Answer>, holds: Holding -> bool): seq<Holding>
    requires |found| == |sellable|
  {
    var data := Where(sellable, found, true);
    var judged := LookedUp(data, |data|);
    Where(sellable, found, false) + Where(judged, Flags(judged, answers, holds), false)
  }

  function ToHold(sellable: seq<Holding>, found: seq<bool>, answers: seq<Answer>, holds: Holding -> bool): seq<Holding>
    requires |found| == |sellable|
  {
    var data := Where(sellable, found, true);
    var judged := LookedUp(data, |data|);
    Where(judged, Flags(judged, answers, holds), true)
  }

  function SymbolsOf(data: seq<Holding>): set<string> { set h | h in data :: h.symbol }

  /** The answers that count for the readable holdings. */
  function Counted(sellable: seq<Holding>, found: seq<bool>, answers: seq<Answer>): seq<Answer>
    requires |found| == |sellable|
  {
    Readable(answers, SymbolsOf(Where(sellable, found, true)))
  }

  predicate NoneBreaks(answers: seq<Answer>, data: seq<Holding>) {
    forall i :: 0 <= i < |data| ==> !Breaks(answers, data[i])
  }

  /** The last answer of every readable holding's symbol has a numeric confidence, or none. */
  predicate AllNumeric(sellable: seq<Holding>, found: seq<bool>, answers: seq<Answer>)
    requires |found| == |sellable|
  {
    NoneBreaks(Counted(sellable, found, answers), Where(sellable, found, true))
  }

  datatype Outcome = Lists(toSell: seq<Holding>, toHold: seq<Holding>) | Exception

  function Decide(sellable: seq<Holding>, found: seq<bool>, answers: seq<Answer>, holds: Holding -> bool): Outcome
    requires |found| == |sellable|
  {
    var counted := Counted(sellable, found, answers);
    if AllNumeric(sellable, found, answers) then
      Lists(ToSell(sellable, found, counted, holds), ToHold(sellable, found, counted, holds))
    else Exception
  }

  method Smart(sellable: seq<Holding>, found: seq<bool>, answers: seq<Answer>, holds: Holding -> bool)
    returns (o: Outcome)
    requires |found| == |sellable|
    ensures o == Decide(sellable, found, answers, holds)
  {
    var data, bySymbol, fallback := Collect(sellable, found);
    SymbolsFound(data, bySymbol);
    if data == [] {
      return Lists(fallback, []);
    }
    var decisions := ReadAnswers(answers, bySymbol);
    var sold, held, broken := Judge(data, bySymbol, Counted(sellable, found, answers), decisions, holds);
    o := if broken then Exception else Lists(fallback + sold, held);
  }

  lemma SymbolsFound(data: seq<Holding>, bySymbol: map<string, Holding>)
    requires forall s :: Latest(data, s) == if s in bySymbol then Some(bySymbol[s]) else None
    ensures bySymbol.Keys == SymbolsOf(data)
  {
    forall s ensures s in bySymbol <==> s in SymbolsOf(data) { LatestIff(data, s); }
  }

  lemma {:induction false} LatestIff(data: seq<Holding>, symbol: string)
    ensures Latest(data, symbol).Some? <==> symbol in SymbolsOf(data)
  {
    if data == [] {
    } else {
      LatestIff(data[..|data| - 1], symbol);
      assert data == data[..|data| - 1] + [data[|data| - 1]];
    }
  }

  method Judge(data: seq<Holding>, bySymbol: map<string, Holding>, ghost answers: seq<Answer>,
               decisions: map<string, Decision>, holds: Holding -> bool)
    returns (sold: seq<Holding>, held: seq<Holding>, broken: bool)
    requires forall s :: Latest(data, s) == if s in bySymbol then Some(bySymbol[s]) else None
    requires Remembers(decisions, answers, bySymbol.Keys)
    ensures broken == !NoneBreaks(answers, data)
    ensures var judged := LookedUp(data, |data|);
            !broken ==> sold == Picked(judged, answers, holds, false) && held == Picked(judged, answers, holds, true)
  {
    sold, held, broken := [], [], false;
    var i := 0;
    while i < |data|
      invariant 0 <= i <= |data| && JudgedTo(data, i, answers, holds, sold, held)
    {
      LatestFound(data, i);
      var h := bySymbol[data[i].symbol];
      JudgedNext(data, i, answers, holds, sold, held, h);
      var keep, numeric := JudgeOne(h, answers, decisions, holds);
      if !numeric {
        return sold, held, true;
      }
      if keep {
        held := held + [h];
      } else {
        sold := sold + [h];
      }
      i := i + 1;
    }
    assert data[..i] == data;
  }

  method JudgeOne(h: Holding, ghost answers: seq<Answer>, decisions: map<string, Decision>, holds: Holding -> bool)
    returns (keep: bool, numeric: bool)
    requires DecisionFor(answers, h.symbol) == if h.symbol in decisions then Some(decisions[h.symbol]) else None
    ensures keep == Kept(answers, holds, h) && numeric == !Breaks(answers, h)
  {
    if h.symbol in decisions {
      return decisions[h.symbol].action == "HOLD", decisions[h.symbol].numeric;
    }
    return holds(h), true;
  }

  /** The judged holdings of one kind. */
  function Picked(judged: seq<Holding>, answers: seq<Answer>, holds: Holding -> bool, want: bool): seq<Holding> {
    Where(judged, Flags(judged, answers, holds), want)
  }

  /** What has been judged so far is in the two lists, and nothing broke. */
  predicate JudgedTo(data: seq<Holding>, n: nat, answers: seq<Answer>, holds: Holding -> bool,
                     sold: seq<Holding>, held: seq<Holding>)
    requires n <= |data|
  {
    && NoneBreaks(answers, data[..n])
    && sold == Picked(LookedUp(data, n), answers, holds, false)
    && held == Picked(LookedUp(data, n), answers, holds, true)
  }

  lemma {:induction false} JudgedNext(data: seq<Holding>, n: nat, answers: seq<Answer>, holds: Holding -> bool,
                   sold: seq<Holding>, held: seq<Holding>, h: Holding)
    requires n < |data| && JudgedTo(data, n, answers, holds, sold, held)
    requires Latest(data, data[n].symbol) == Some(h) && h.symbol == data[n].symbol
    ensures if Breaks(answers, h) then !NoneBreaks(answers, data)
            else if Kept(answers, holds, h) then JudgedTo(data, n + 1, answers, holds, sold, held + [h])
            else JudgedTo(data, n + 1, answers, holds, sold + [h], held)
  {
    SameSymbolBreaks(answers, h, data[n]);
    if Breaks(answers, h) { return; }
    PickedNext(data, n, answers, holds, h, true);
    PickedNext(data, n, answers, holds, h, false);
  }

  lemma SameSymbolBreaks(answers: seq<Answer>, g: Holding, h: Holding)
    requires g.symbol == h.symbol
    ensures Breaks(answers, g) == Breaks(answers, h)
  {
  }

  lemma PickedNext(data: seq<Holding>, n: nat, answers: seq<Answer>, holds: Holding -> bool, h: Holding, want: bool)
    requires n < |data| && Latest(data, data[n].symbol) == Some(h)
    ensures var before := Picked(LookedUp(data, n), answers, holds, want);
            Picked(LookedUp(data, n + 1), answers, holds, want)
              == if Kept(answers, holds, h) == want then before + [h] else before
  {
    assert LookedUp(data, n + 1) == LookedUp(data, n) + [h];
    OneMore(LookedUp(data, n), answers, holds, h);
  }

  lemma OneMore(judged: seq<Holding>, answers: seq<Answer>, holds: Holding -> bool, h: Holding)
    ensures var before, after := Flags(judged, answers, holds), Flags(judged + [h], answers, holds);
            && after == before + [Kept(answers, holds, h)]
            && forall want :: Where(judged + [h], after, want)
                 == if Kept(answers, holds, h) == want then Where(judged, before, want) + [h]
                   else Where(judged, before, want)
  {
    assert (judged + [h])[..|judged|] == judged;
    var before, after := Flags(judged, answers, holds), Flags(judged + [h], answers, holds);
    assert after[..|judged|] == before;
  }

  lemma {:induction false} LatestFound(data: seq<Holding>, i: nat)
    requires i < |data|
    ensures Latest(data, data[i].symbol).Some? && Latest(data, data[i].symbol).value.symbol == data[i].symbol
  {
    if data[|data| - 1].symbol == data[i].symbol {
    } else {
      LatestFound(data[..|data| - 1], i);
    }
  }

  lemma {:induction false} JudgedIff(judged: seq<Holding>, answers: seq<Answer>, holds: Holding -> bool, want: bool,
                                     h: Holding)
    ensures h in Where(judged, Flags(judged, answers, holds), want) <==> h in judged && Kept(answers, holds, h) == want
  {
    if judged == [] {
    } else {
      var init, last := judged[..|judged| - 1], judged[|judged| - 1];
      JudgedIff(init, answers, holds, want, h);
      OneMore(init, answers, holds, last);
      assert judged == init + [last];
    }
  }

  /** With distinct symbols: kept overnight are exactly the readable holdings that the model holds, or
      that the rules hold where it is silent; sold are exactly the others. */
  lemma HeldIff(sellable: seq<Holding>, found: seq<bool>, answers: seq<Answer>, holds: Holding -> bool, h: Holding)
    requires |found| == |sellable| && NoMixUp(Where(sellable, found, true))
    ensures var o, data := Decide(sellable, found, answers, holds), Where(sellable, found, true);
            var kept := h in data && StaysOvernight(Counted(sellable, found, answers), holds, h);
            o.Lists? ==> (h in o.toHold <==> kept)
                         && (h in o.toSell <==> h in Where(sellable, found, false) || (h in data && !kept))
  {
    var data, counted := Where(sellable, found, true), Counted(sellable, found, answers);
    JudgedByLast(counted, holds, h);
    LookedUpIsData(data, |data|);
    assert data[..|data|] == data;
    JudgedIff(data, counted, holds, true, h);
    JudgedIff(data, counted, holds, false, h);
  }

  // ----- Every holding once

  /** No two of the judged holdings share a symbol unless they are the same. */
  predicate NoMixUp(data: seq<Holding>) {
    forall i, j :: 0 <= i < j < |data| && data[i].symbol == data[j].symbol ==> data[i] == data[j]
  }

  lemma {:induction false} LatestIsOne(data: seq<Holding>, symbol: string)
    ensures Latest(data, symbol).Some? ==> Latest(data, symbol).value in data
  {
    if data == [] || data[|data| - 1].symbol == symbol {
    } else {
      LatestIsOne(data[..|data| - 1], symbol);
    }
  }

  lemma {:induction false} LookedUpIsData(data: seq<Holding>, n: nat)
    requires n <= |data| && NoMixUp(data)
    ensures LookedUp(data, n) == data[..n]
  {
    if n == 0 {
    } else {
      LookedUpIsData(data, n - 1);
      LatestFound(data, n - 1);
      LatestIsOne(data, data[n - 1].symbol);
      assert data[..n] == data[..n - 1] + [data[n - 1]];
    }
  }

  lemma {:induction false} LookedUpAt(data: seq<Holding>, n: nat, h: Holding)
    requires n <= |data|
    ensures |LookedUp(data, n)| == n
    ensures h in LookedUp(data, n) ==> Latest(data, h.symbol) == Some(h)
  {
    if n == 0 {
    } else {
      LookedUpAt(data, n - 1, h);
      LatestFound(data, n - 1);
    }
  }

  lemma JudgedOnceIff(data: seq<Holding>)
    ensures multiset(LookedUp(data, |data|)) == multiset(data) <==> NoMixUp(data)
  {
    if NoMixUp(data) {
      LookedUpIsData(data, |data|);
      assert data[..|data|] == data;
    } else {
      var i, j :| 0 <= i < j < |data| && data[i].symbol == data[j].symbol && data[i] != data[j];
      OneIsLost(data, i, j);
    }
  }

  lemma SameWithout(fallback: multiset<Holding>, sell: multiset<Holding>, hold: multiset<Holding>,
                    data: multiset<Holding>, judged: multiset<Holding>)
    requires hold + sell == judged
    ensures fallback + sell + hold == data + fallback <==> judged == data
  {
    assert fallback + sell + hold == fallback + judged;
    if fallback + judged == data + fallback {
      forall h ensures judged[h] == data[h] {
        assert (fallback + judged)[h] == (data + fallback)[h];
      }
      assert judged == data;
    }
  }

  lemma ListedOnceIff(sellable: seq<Holding>, found: seq<bool>, answers: seq<Answer>, holds: Holding -> bool)
    requires |found| == |sellable|
    ensures (multiset(ToSell(sellable, found, answers, holds)) + multiset(ToHold(sellable, found, answers, holds))
               == multiset(sellable))
            <==> NoMixUp(Where(sellable, found, true))
  {
    var data, fallback := Where(sellable, found, true), Where(sellable, found, false);
    var judged := LookedUp(data, |data|);
    var flags := Flags(judged, answers, holds);
    BothWheres(sellable, found);
    BothWheres(judged, flags);
    SameWithout(multiset(fallback), multiset(Where(judged, flags, false)), multiset(Where(judged, flags, true)),
                multiset(data), multiset(judged));
    JudgedOnceIff(data);
  }

  /** Whatever the model answers or leaves out: lists come back, and every sellable holding is in one of
      them exactly once, if and only if the last answers of the judged holdings are numeric and no two
      different ones of these share a symbol. */
  lemma EachHoldingOnce(sellable: seq<Holding>, found: seq<bool>, answers: seq<Answer>, holds: Holding -> bool)
    requires |found| == |sellable|
    ensures var o := Decide(sellable, found, answers, holds);
            (o.Lists? && multiset(o.toSell) + multiset(o.toHold) == multiset(sellable))
            <==> (forall h :: h in Where(sellable, found, true) ==> !Unwritable(Counted(sellable, found, answers), h))
                 && NoMixUp(Where(sellable, found, true))
  {
    forall h
      ensures Breaks(Counted(sellable, found, answers), h) <==> Unwritable(Counted(sellable, found, answers), h)
    {
      JudgedByLast(Counted(sellable, found, answers), holds, h);
    }
    ListedOnceIff(sellable, found, Counted(sellable, found, answers), holds);
  }

  /** One confidence in quotes, for any readable holding, and there are no lists at all. */
  lemma ConfidenceBreaks(sellable: seq<Holding>, found: seq<bool>, holds: Holding -> bool, h: Holding, action: string)
    requires |found| == |sellable| && h in Where(sellable, found, true) && h.symbol != ""
    ensures Decide(sellable, found, [Answer(h.symbol, Some(action), false)], holds) == Exception
  {
    var answers := [Answer(h.symbol, Some(action), false)];
    OnlyAnswer(answers, SymbolsOf(Where(sellable, found, true)), h);
    var i :| 0 <= i < |Where(sellable, found, true)| && Where(sellable, found, true)[i] == h;
  }

  lemma OnlyAnswer(answers: seq<Answer>, symbols: set<string>, h: Holding)
    requires |answers| == 1 && answers[0].Answer? && answers[0].symbol == h.symbol != ""
    requires answers[0].action.Some? && !answers[0].numeric
    ensures Readable(answers, symbols) == answers && Breaks(answers, h)
  {
    assert Readable(answers[1..], symbols) == [];
  }

  lemma OneIsLost(data: seq<Holding>, i: nat, j: nat)
    requires i < j < |data| && data[i].symbol == data[j].symbol && data[i] != data[j]
    ensures multiset(LookedUp(data, |data|)) != multiset(data)
  {
    var judged := LookedUp(data, |data|);
    LookedUpAt(data, |data|, data[i]);
    LookedUpAt(data, |data|, data[j]);
    assert data[i] !in judged || data[j] !in judged;
    assert data[i] in multiset(data) && data[j] in multiset(data);
  }

  // ----- Both rounds of orders

  /** `TimedOut`: answered as a failure, although the broker took the order. */
  datatype Reply = Skipped | Succeeded | Failed | TimedOut | Raised

  /** What is tried once more. */
  const RETRIED := {Failed, TimedOut}

  /** What the broker may have taken: also an order that raised. */
  const LIVE := {Succeeded, TimedOut, Raised}

  method SellRound(hs: seq<Holding>, replies: seq<Reply>) returns (sold: seq<Holding>, failed: seq<Holding>)
    requires |replies| == |hs|
    ensures sold == With(hs, replies, {Succeeded}) && failed == With(hs, replies, RETRIED)
  {
    sold, failed := [], [];
    var i := 0;
    while i < |hs|
      invariant 0 <= i <= |hs|
      invariant sold == With(hs[..i], replies[..i], {Succeeded}) && failed == With(hs[..i], replies[..i], RETRIED)
    {
      assert hs[..i + 1][..i] == hs[..i] && replies[..i + 1][..i] == replies[..i];
      match replies[i] {
        case Succeeded => sold := sold + [hs[i]];
        case Failed => failed := failed + [hs[i]];
        case TimedOut => failed := failed + [hs[i]];
        case _ =>
      }
      i := i + 1;
    }
    assert hs[..i] == hs && replies[..i] == replies;
  }

  function With(hs: seq<Holding>, replies: seq<Reply>, which: set<Reply>): seq<Holding>
    requires |replies| == |hs|
  {
    if hs == [] then []
    else
      var n := |hs| - 1;
      var rest := With(hs[..n], replies[..n], which);
      if replies[n] in which then rest + [hs[n]] else rest
  }

  function Replied(hs: seq<Holding>, replies: seq<Reply>, which: set<Reply>, symbol: string): int
    requires |replies| == |hs|
  {
    QuantityOf(With(hs, replies, which), symbol)
  }

  lemma {:induction false} RepliedBoth(hs: seq<Holding>, replies: seq<Reply>, a: set<Reply>, b: set<Reply>,
                                       symbol: string)
    requires |replies| == |hs| && a !! b
    ensures Replied(hs, replies, a + b, symbol) == Replied(hs, replies, a, symbol) + Replied(hs, replies, b, symbol)
  {
    if hs == [] {
    } else {
      var n := |hs| - 1;
      RepliedBoth(hs[..n], replies[..n], a, b, symbol);
      QuantityGrows(With(hs[..n], replies[..n], a), hs[n], symbol);
      QuantityGrows(With(hs[..n], replies[..n], b), hs[n], symbol);
      QuantityGrows(With(hs[..n], replies[..n], a + b), hs[n], symbol);
    }
  }

  lemma {:induction false} AllReplied(hs: seq<Holding>, replies: seq<Reply>, which: set<Reply>)
    requires |replies| == |hs| && forall i :: 0 <= i < |replies| ==> replies[i] in which
    ensures With(hs, replies, which) == hs
  {
    if hs == [] {
    } else {
      AllReplied(hs[..|hs| - 1], replies[..|hs| - 1], which);
    }
  }

  lemma OneOfFive(reply: Reply)
    ensures reply.Skipped? || reply.Succeeded? || reply.Failed? || reply.TimedOut? || reply.Raised?
  {
  }

  lemma RepliedWithin(hs: seq<Holding>, replies: seq<Reply>, which: set<Reply>, symbol: string)
    requires |replies| == |hs|
    ensures 0 <= Replied(hs, replies, which, symbol) <= QuantityOf(hs, symbol)
  {
    var all := {Skipped, Succeeded, Failed, TimedOut, Raised};
    forall reply: Reply ensures reply in all { OneOfFive(reply); }
    RepliedBoth(hs, replies, which, all - which, symbol);
    assert which + (all - which) == all;
    AllReplied(hs, replies, all);
    QuantityNonNegative(With(hs, replies, which), symbol);
    QuantityNonNegative(With(hs, replies, all - which), symbol);
  }

  /** What both rounds may have sold. */
  function BothRounds(toSell: seq<Holding>, first: seq<Reply>, second: seq<Reply>, symbol: string): int
    requires |first| == |toSell| && |second| == |With(toSell, first, RETRIED)|
  {
    Replied(toSell, first, LIVE, symbol) + Replied(With(toSell, first, RETRIED), second, LIVE, symbol)
  }

  /** The parts of the first round. */
  lemma FirstRound(toSell: seq<Holding>, first: seq<Reply>, symbol: string)
    requires |first| == |toSell|
    ensures Replied(toSell, first, LIVE, symbol) + Replied(toSell, first, RETRIED, symbol)
         == QuantityOf(toSell, symbol)
            + Replied(toSell, first, {TimedOut}, symbol) - Replied(toSell, first, {Skipped}, symbol)
  {
    RepliedBoth(toSell, first, {Failed}, {TimedOut}, symbol);
    assert {Failed} + {TimedOut} == RETRIED;
    RepliedBoth(toSell, first, {Failed}, {Skipped}, symbol);
    RepliedBoth(toSell, first, LIVE, {Failed} + {Skipped}, symbol);
    forall reply: Reply ensures reply in LIVE + ({Failed} + {Skipped}) { OneOfFive(reply); }
    AllReplied(toSell, first, LIVE + ({Failed} + {Skipped}));
  }

  /** Both rounds sell at most what was to be sold, and once more what timed out. */
  lemma RoundsWithin(toSell: seq<Holding>, first: seq<Reply>, second: seq<Reply>, symbol: string)
    requires |first| == |toSell| && |second| == |With(toSell, first, RETRIED)|
    ensures BothRounds(toSell, first, second, symbol)
         <= QuantityOf(toSell, symbol)
            + Replied(toSell, first, {TimedOut}, symbol) - Replied(toSell, first, {Skipped}, symbol)
  {
    FirstRound(toSell, first, symbol);
    RepliedWithin(With(toSell, first, RETRIED), second, LIVE, symbol);
  }

  /** However the retry goes, no more is sold than was to be sold. */
  ghost predicate RetrySafe(toSell: seq<Holding>, first: seq<Reply>, symbol: string)
    requires |first| == |toSell|
  {
    forall second :: |second| == |With(toSell, first, RETRIED)| ==>
      BothRounds(toSell, first, second, symbol) <= QuantityOf(toSell, symbol)
  }

  /** After the first round: exactly when no more timed out than was skipped. */
  lemma RetrySafeIff(toSell: seq<Holding>, first: seq<Reply>, symbol: string)
    requires |first| == |toSell|
    ensures RetrySafe(toSell, first, symbol)
       <==> Replied(toSell, first, {TimedOut}, symbol) <= Replied(toSell, first, {Skipped}, symbol)
  {
    if Replied(toSell, first, {TimedOut}, symbol) <= Replied(toSell, first, {Skipped}, symbol) {
      forall second | |second| == |With(toSell, first, RETRIED)|
        ensures BothRounds(toSell, first, second, symbol) <= QuantityOf(toSell, symbol)
      {
        RoundsWithin(toSell, first, second, symbol);
      }
    } else {
      var retried := With(toSell, first, RETRIED);
      var second := seq(|retried|, i requires 0 <= i < |retried| => Succeeded);
      FirstRound(toSell, first, symbol);
      AllReplied(retried, second, LIVE);
      assert BothRounds(toSell, first, second, symbol) > QuantityOf(toSell, symbol);
    }
  }

  lemma {:induction false} QuantityOfBoth(a: seq<Holding>, b: seq<Holding>, symbol: string)
    ensures QuantityOf(a + b, symbol) == QuantityOf(a, symbol) + QuantityOf(b, symbol)
  {
    if b == [] {
      assert a + b == a;
    } else {
      var n := |b| - 1;
      QuantityOfBoth(a, b[..n], symbol);
      var m := |a + b| - 1;
      assert (a + b)[..m] == a + b[..n] && (a + b)[m] == b[n];
    }
  }

  /** The part of the sellable holdings that is chosen for sale is no larger than all of them. */
  lemma ChosenWithin(sellable: seq<Holding>, found: seq<bool>, answers: seq<Answer>, holds: Holding -> bool,
                     symbol: string)
    requires |found| == |sellable| && NoMixUp(Where(sellable, found, true))
    ensures var data := Where(sellable, found, true);
            var judged := LookedUp(data, |data|);
            QuantityOf(Where(sellable, found, false) + Where(judged, Flags(judged, answers, holds), false), symbol)
              <= QuantityOf(sellable, symbol)
  {
    var data := Where(sellable, found, true);
    LookedUpIsData(data, |data|);
    assert data[..|data|] == data;
    var flags := Flags(data, answers, holds);
    BothQuantities(sellable, found, symbol);
    BothQuantities(data, flags, symbol);
    QuantityNonNegative(Where(data, flags, true), symbol);
    QuantityOfBoth(Where(sellable, found, false), Where(data, flags, false), symbol);
  }

  lemma {:induction false} OffersDistinct(hs: seq<Holding>, orders: seq<PendingOrder>)
    requires DistinctSymbols(hs)
    ensures DistinctSymbols(Sellable(hs, orders))
  {
    if hs == [] {
    } else {
      var init := hs[..|hs| - 1];
      OffersDistinct(init, orders);
      forall h | h in Sellable(init, orders) ensures h.symbol != hs[|hs| - 1].symbol {
        SellableMembers(init, orders, h);
      }
    }
  }

  lemma {:induction false} WhereDistinct(hs: seq<Holding>, flags: seq<bool>, want: bool)
    requires |flags| == |hs| && DistinctSymbols(hs)
    ensures DistinctSymbols(Where(hs, flags, want))
  {
    if hs == [] {
    } else {
      var n := |hs| - 1;
      WhereDistinct(hs[..n], flags[..n], want);
      forall h | h in Where(hs[..n], flags[..n], want) ensures h.symbol != hs[n].symbol {
        WhereMembers(hs[..n], flags[..n], want, h);
      }
    }
  }

  lemma ToSellWithin(hs: seq<Holding>, orders: seq<PendingOrder>, found: seq<bool>, answers: seq<Answer>,
                     holds: Holding -> bool, symbol: string)
    requires DistinctSymbols(hs) && |found| == |Sellable(hs, orders)|
    ensures QuantityOf(ToSell(Sellable(hs, orders), found, answers, holds), symbol)
         <= Max(QuantityOf(hs, symbol) - PendingOf(orders, symbol), 0)
  {
    OffersDistinct(hs, orders);
    WhereDistinct(Sellable(hs, orders), found, true);
    ChosenWithin(Sellable(hs, orders), found, answers, holds, symbol);
    NeverOffersTooMuch(hs, orders, symbol);
  }

  /** What goes to the broker: nothing after an exception. */
  function Chosen(o: Outcome): seq<Holding> { if o.Lists? then o.toSell else [] }

  /** From the holdings to the orders: whatever could be read, whatever the model answers and however the
      broker replies, both rounds sell at most what is held and not being sold already, and once more
      what was answered as a failure in the first round although the broker took it. */
  lemma LiquidationBound(hs: seq<Holding>, orders: seq<PendingOrder>, found: seq<bool>, answers: seq<Answer>,
                         holds: Holding -> bool, first: seq<Reply>, second: seq<Reply>, symbol: string)
    requires DistinctSymbols(hs) && |found| == |Sellable(hs, orders)|
    requires |first| == |Chosen(Decide(Sellable(hs, orders), found, answers, holds))|
    requires |second| == |With(Chosen(Decide(Sellable(hs, orders), found, answers, holds)), first, RETRIED)|
    ensures var toSell := Chosen(Decide(Sellable(hs, orders), found, answers, holds));
            BothRounds(toSell, first, second, symbol)
              <= Max(QuantityOf(hs, symbol) - PendingOf(orders, symbol), 0) + Replied(toSell, first, {TimedOut}, symbol)
  {
    ChosenFits(hs, orders, found, answers, holds, symbol);
    BothWithin(Chosen(Decide(Sellable(hs, orders), found, answers, holds)), first, second, symbol);
  }

  lemma {:induction false} ChosenFits(hs: seq<Holding>, orders: seq<PendingOrder>, found: seq<bool>,
                                      answers: seq<Answer>, holds: Holding -> bool, symbol: string)
    requires DistinctSymbols(hs) && |found| == |Sellable(hs, orders)|
    ensures QuantityOf(Chosen(Decide(Sellable(hs, orders), found, answers, holds)), symbol)
         <= Max(QuantityOf(hs, symbol) - PendingOf(orders, symbol), 0)
  {
    ToSellWithin(hs, orders, found, Counted(Sellable(hs, orders), found, answers), holds, symbol);
  }

  lemma {:induction false} BothWithin(toSell: seq<Holding>, first: seq<Reply>, second: seq<Reply>, symbol: string)
    requires |first| == |toSell| && |second| == |With(toSell, first, RETRIED)|
    ensures BothRounds(toSell, first, second, symbol)
         <= QuantityOf(toSell, symbol) + Replied(toSell, first, {TimedOut}, symbol)
  {
    RoundsWithin(toSell, first, second, symbol);
    RepliedWithin(toSell, first, {Skipped}, symbol);
  }

  /** In day trading mode everything on offer is sold. After the first round no retry can sell more than
      is held and not being sold already, if and only if no more timed out than was skipped. */
  lemma DayTradingSafeIff(hs: seq<Holding>, orders: seq<PendingOrder>, first: seq<Reply>, symbol: string)
    requires DistinctSymbols(hs) && |first| == |Sellable(hs, orders)|
    ensures (forall second :: |second| == |With(Sellable(hs, orders), first, RETRIED)| ==>
               BothRounds(Sellable(hs, orders), first, second, symbol)
                 <= Max(QuantityOf(hs, symbol) - PendingOf(orders, symbol), 0))
            <==> Replied(Sellable(hs, orders), first, {TimedOut}, symbol)
                   <= Replied(Sellable(hs, orders), first, {Skipped}, symbol)
  {
    OffersAll(hs, orders, symbol);
    RetrySafeIff(Sellable(hs, orders), first, symbol);
  }
}
