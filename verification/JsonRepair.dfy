/** Escaping raw line feeds, carriage returns and tabs inside the strings of a JSON text. */
module JsonRepair {

  const QUOTE: char := '"'
  const BACKSLASH: char := '\\'

  /** What the scan remembers: inside a string, and right after a backslash in one. */
  datatype State = State(inString: bool, escaped: bool)

  const START := State(false, false)

  function Next(s: State, c: char): State {
    if s.escaped then State(s.inString, false)
    else if c == BACKSLASH && s.inString then State(true, true)
    else if c == QUOTE then State(!s.inString, false)
    else s
  }

  predicate Raw(c: char) { c == '\n' || c == '\r' || c == '\t' }

  /** A raw control character that the repair replaces. */
  predicate Replaced(s: State, c: char) { s.inString && !s.escaped && Raw(c) }

  function Letter(c: char): char
    requires Raw(c)
  {
    if c == '\n' then 'n' else if c == '\r' then 'r' else 't'
  }

  function Emit(s: State, c: char): string { if Replaced(s, c) then [BACKSLASH, Letter(c)] else [c] }

  function Final(s: State, text: string): State
    decreases |text|
  {
    if text == "" then s else Final(Next(s, text[0]), text[1..])
  }

  function Repair(s: State, text: string): string
    decreases |text|
  {
    if text == "" then "" else Emit(s, text[0]) + Repair(Next(s, text[0]), text[1..])
  }

  // ----- The loop

  lemma {:induction false} InTwoParts(s: State, a: string, b: string)
    ensures Final(s, a + b) == Final(Final(s, a), b)
    ensures Repair(s, a + b) == Repair(s, a) + Repair(Final(s, a), b)
    decreases |a|
  {
    if a == "" {
      assert a + b == b;
      assert "" + Repair(s, b) == Repair(s, b);
    } else {
      InTwoParts(Next(s, a[0]), a[1..], b);
      assert (a + b)[1..] == a[1..] + b;
      assert Emit(s, a[0]) + (Repair(Next(s, a[0]), a[1..]) + Repair(Final(s, a), b))
               == Repair(s, a) + Repair(Final(s, a), b);
    }
  }

  lemma OneCharacter(s: State, c: char)
    ensures Final(s, [c]) == Next(s, c) && Repair(s, [c]) == Emit(s, c)
  {
    assert [c][1..] == "";
    assert Emit(s, c) + "" == Emit(s, c);
  }

  method EscapeNewlinesInStrings(text: string) returns (result: string)
    ensures result == Repair(START, text)
  {
    result := "";
    var inString, escapeNext, i := false, false, 0;
    while i < |text|
      invariant 0 <= i <= |text|
      invariant State(inString, escapeNext) == Final(START, text[..i]) && result == Repair(START, text[..i])
    {
      var c := text[i];
      InTwoParts(START, text[..i], [c]);
      OneCharacter(State(inString, escapeNext), c);
      assert text[..i] + [c] == text[..i + 1];
      if escapeNext {
        result, escapeNext := result + [c], false;
      } else if c == BACKSLASH && inString {
        result, escapeNext := result + [c], true;
      } else if c == QUOTE {
        inString, result := !inString, result + [c];
      } else if inString && c == '\n' {
        result := result + [BACKSLASH, 'n'];
      } else if inString && c == '\r' {
        result := result + [BACKSLASH, 'r'];
      } else if inString && c == '\t' {
        result := result + [BACKSLASH, 't'];
      } else {
        result := result + [c];
      }
      i := i + 1;
    }
    assert text[..i] == text;
  }

  // ----- The output is scanned like the input

  lemma EmitScans(s: State, c: char)
    ensures Final(s, Emit(s, c)) == Next(s, c) && Repair(s, Emit(s, c)) == Emit(s, c)
  {
    OneCharacter(s, c);
    if Replaced(s, c) {
      assert Emit(s, c)[1..] == [Letter(c)];
      OneCharacter(State(true, true), Letter(c));
    }
  }

  /** After the repair of any prefix the scan is in the state that it has after the prefix itself. */
  lemma {:induction false} SameState(s: State, text: string)
    ensures Final(s, Repair(s, text)) == Final(s, text)
    decreases |text|
  {
    if text == "" {
    } else {
      SameState(Next(s, text[0]), text[1..]);
      EmitScans(s, text[0]);
      InTwoParts(s, Emit(s, text[0]), Repair(Next(s, text[0]), text[1..]));
    }
  }

  /** Repairing again changes nothing. */
  lemma {:induction false} Idempotent(s: State, text: string)
    ensures Repair(s, Repair(s, text)) == Repair(s, text)
    decreases |text|
  {
    if text == "" {
    } else {
      Idempotent(Next(s, text[0]), text[1..]);
      EmitScans(s, text[0]);
      InTwoParts(s, Emit(s, text[0]), Repair(Next(s, text[0]), text[1..]));
    }
  }

  // ----- What is left

  /** No raw line feed, carriage return or tab in a string, except right after a backslash. */
  predicate Clean(s: State, text: string)
    decreases |text|
  {
    text == "" || (!Replaced(s, text[0]) && Clean(Next(s, text[0]), text[1..]))
  }

  lemma {:induction false} RepairLength(s: State, text: string)
    ensures |Repair(s, text)| >= |text| && (|Repair(s, text)| == |text| <==> Clean(s, text))
    decreases |text|
  {
    if text == "" {
    } else {
      RepairLength(Next(s, text[0]), text[1..]);
    }
  }

  /** The repair leaves exactly the clean texts as they are. */
  lemma {:induction false} FixedIff(s: State, text: string)
    ensures Repair(s, text) == text <==> Clean(s, text)
    decreases |text|
  {
    RepairLength(s, text);
    if Clean(s, text) && text != "" {
      FixedIff(Next(s, text[0]), text[1..]);
      assert text == [text[0]] + text[1..];
    }
  }

  /** And what it returns is clean. */
  lemma RepairIsClean(s: State, text: string)
    ensures Clean(s, Repair(s, text))
  {
    Idempotent(s, text);
    FixedIff(s, Repair(s, text));
  }

  /** Clean, position by position. */
  lemma {:induction false} CleanAt(s: State, text: string, i: nat)
    requires Clean(s, text) && i < |text|
    ensures !Replaced(Final(s, text[..i]), text[i])
    decreases |text|
  {
    if i == 0 {
      assert text[..0] == "";
    } else {
      CleanAt(Next(s, text[0]), text[1..], i - 1);
      assert text[..i][0] == text[0] && text[..i][1..] == text[1..][..i - 1];
    }
  }

  /** The text outside of strings, quotes included. */
  function Outside(s: State, text: string): string
    decreases |text|
  {
    if text == "" then ""
    else
      var rest := Outside(Next(s, text[0]), text[1..]);
      if s.inString && Next(s, text[0]).inString then rest else [text[0]] + rest
  }

  /** Outside of strings nothing is touched. */
  lemma {:induction false} OutsideUnchanged(s: State, text: string)
    ensures Outside(s, Repair(s, text)) == Outside(s, text)
    decreases |text|
  {
    if text == "" {
    } else {
      var c := text[0];
      var rest := Repair(Next(s, c), text[1..]);
      OutsideUnchanged(Next(s, c), text[1..]);
      if Replaced(s, c) {
        SkipsEscape(s, Letter(c), rest);
      } else {
        assert ([c] + rest)[1..] == rest;
      }
    }
  }

  lemma SkipsEscape(s: State, letter: char, rest: string)
    requires s == State(true, false)
    ensures Outside(s, [BACKSLASH, letter] + rest) == Outside(s, rest)
  {
    var text := [BACKSLASH, letter] + rest;
    assert text[1..] == [letter] + rest && ([letter] + rest)[1..] == rest;
  }

  // ----- Meaning: a reader that also takes raw control characters in strings

  datatype Token = Structure(c: char) | Content(c: char) | Escape(c: char)

  /** One character of a string, or the escape that stands for it. */
  function Unescaped(c: char): Token {
    if c == 'n' then Content('\n') else if c == 'r' then Content('\r') else if c == 't' then Content('\t')
      else Escape(c)
  }

  function Read(s: State, text: string): seq<Token>
    decreases |text|
  {
    if text == "" then []
    else
      var c, rest := text[0], Read(Next(s, text[0]), text[1..]);
      if s.escaped then [Unescaped(c)] + rest
      else if c == BACKSLASH && s.inString then rest
      else if s.inString && c != QUOTE then [Content(c)] + rest
      else [Structure(c)] + rest
  }

  /** The repaired text reads as the original. */
  lemma {:induction false} MeaningKept(s: State, text: string)
    ensures Read(s, Repair(s, text)) == Read(s, text)
    decreases |text|
  {
    if text == "" {
    } else {
      var c := text[0];
      var rest := Repair(Next(s, c), text[1..]);
      MeaningKept(Next(s, c), text[1..]);
      if Replaced(s, c) {
        ReadsEscape(s, Letter(c), rest);
      } else {
        assert ([c] + rest)[1..] == rest;
      }
    }
  }

  lemma ReadsEscape(s: State, letter: char, rest: string)
    requires s == State(true, false)
    ensures Read(s, [BACKSLASH, letter] + rest) == [Unescaped(letter)] + Read(s, rest)
  {
    var text := [BACKSLASH, letter] + rest;
    assert text[1..] == [letter] + rest && ([letter] + rest)[1..] == rest;
  }

  // ----- Control characters, as section 7 of RFC 8259 wants them

  predicate Control(c: char) { c < ' ' }

  /** No control character inside a string. */
  predicate Strict(s: State, text: string)
    decreases |text|
  {
    text == "" || ((s.inString ==> !Control(text[0])) && Strict(Next(s, text[0]), text[1..]))
  }

  /** Inside strings, no control character but line feed, carriage return and tab, and none of those
      after a backslash. */
  predicate Repairable(s: State, text: string)
    decreases |text|
  {
    || text == ""
    || ((s.inString && Control(text[0]) ==> Replaced(s, text[0])) && Repairable(Next(s, text[0]), text[1..]))
  }

  /** The repair makes the strings free of control characters exactly when those are the only ones. */
  lemma {:induction false} StrictIff(s: State, text: string)
    ensures Strict(s, Repair(s, text)) <==> Repairable(s, text)
    decreases |text|
  {
    if text == "" {
    } else {
      var c := text[0];
      var rest := Repair(Next(s, c), text[1..]);
      StrictIff(Next(s, c), text[1..]);
      if Replaced(s, c) {
        StrictEscape(s, Letter(c), rest);
      } else {
        assert ([c] + rest)[1..] == rest;
      }
    }
  }

  lemma StrictEscape(s: State, letter: char, rest: string)
    requires s == State(true, false) && !Control(letter)
    ensures Strict(s, [BACKSLASH, letter] + rest) <==> Strict(s, rest)
  {
    var text := [BACKSLASH, letter] + rest;
    assert text[1..] == [letter] + rest && ([letter] + rest)[1..] == rest;
  }
}
