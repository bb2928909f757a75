/** Exchange symbols: real-time codes such as `A005930` become `005930`. */
module Symbols {

  predicate IsSpace(c: char) { c == ' ' || '\t' <= c <= '\r' || '\U{1C}' <= c <= '\U{1F}' }

  predicate IsDigit(c: char) { '0' <= c <= '9' }

  function StripLeft(s: string): string {
    if s != "" && IsSpace(s[0]) then StripLeft(s[1..]) else s
  }

  function StripRight(s: string): string {
    if s != "" && IsSpace(s[|s| - 1]) then StripRight(s[..|s| - 1]) else s
  }

  function Strip(s: string): string { StripRight(StripLeft(s)) }

  /** `A` or `a` and six digits. */
  predicate Prefixed(s: string) {
    |s| == 7 && (s[0] == 'A' || s[0] == 'a') && forall i :: 1 <= i < 7 ==> IsDigit(s[i])
  }

  function Normalize(s: string): string {
    var raw := Strip(s);
    if Prefixed(raw) then raw[1..] else raw
  }

  /** No space at either end. */
  predicate Trimmed(s: string) { s == "" || (!IsSpace(s[0]) && !IsSpace(s[|s| - 1])) }

  lemma {:induction false} StripLeftTrims(s: string)
    ensures var r := StripLeft(s); r == "" || !IsSpace(r[0])
  {
    if s == "" || !IsSpace(s[0]) {
    } else {
      StripLeftTrims(s[1..]);
    }
  }

  lemma {:induction false} StripRightTrims(s: string)
    requires s == "" || !IsSpace(s[0])
    ensures Trimmed(StripRight(s))
  {
    if s == "" || !IsSpace(s[|s| - 1]) {
    } else {
      StripRightTrims(s[..|s| - 1]);
    }
  }

  lemma TrimmedStaysPut(s: string)
    requires Trimmed(s)
    ensures Strip(s) == s
  {
  }

  /** Normalizing twice is normalizing once: what is compared against a normalized code may itself
      be normalized or not. */
  lemma NormalizeTwice(s: string)
    ensures Normalize(Normalize(s)) == Normalize(s)
  {
    StripLeftTrims(s);
    StripRightTrims(StripLeft(s));
    TrimmedStaysPut(Strip(s));
    if Prefixed(Strip(s)) { TrimmedStaysPut(Strip(s)[1..]); }
  }

  lemma {:induction false} StripLeftShortens(s: string)
    ensures |StripLeft(s)| <= |s| && (|StripLeft(s)| == |s| ==> StripLeft(s) == s)
  {
    if s == "" || !IsSpace(s[0]) {
    } else {
      StripLeftShortens(s[1..]);
    }
  }

  lemma {:induction false} StripRightShortens(s: string)
    ensures |StripRight(s)| <= |s| && (|StripRight(s)| == |s| ==> StripRight(s) == s)
  {
    if s == "" || !IsSpace(s[|s| - 1]) {
    } else {
      StripRightShortens(s[..|s| - 1]);
    }
  }

  /** What is in normal form: no space at either end, and no prefix to drop. */
  lemma NormalFormIff(s: string)
    ensures Normalize(s) == s <==> Trimmed(s) && !Prefixed(s)
  {
    StripLeftShortens(s);
    StripRightShortens(StripLeft(s));
    StripLeftTrims(s);
    StripRightTrims(StripLeft(s));
    if Trimmed(s) { TrimmedStaysPut(s); }
  }

  predicate Blank(s: string) { forall i :: 0 <= i < |s| ==> IsSpace(s[i]) }

  /** Stripping drops spaces at the ends and nothing else: between `i` and `j` stands what is left. */
  lemma {:induction false} StripIs(s: string) returns (i: nat, j: nat)
    ensures i <= j <= |s| && Strip(s) == s[i..j] && Trimmed(Strip(s)) && Blank(s[..i]) && Blank(s[j..])
    ensures Strip(s) == "" <==> Blank(s)
  {
    i := StripLeftIs(s);
    var left := StripLeft(s);
    var n := StripRightIs(left);
    StripLeftTrims(s);
    StripRightTrims(left);
    j := i + n;
    assert s[j..] == left[n..] && s[i..j] == left[..n];
    if i < j { assert s[i] == left[0]; }
    if Strip(s) == "" {
      assert s == s[..i] + s[j..];
    }
  }

  lemma {:induction false} StripLeftIs(s: string) returns (i: nat)
    ensures i <= |s| && StripLeft(s) == s[i..] && Blank(s[..i])
  {
    i := 0;
    if s != "" && IsSpace(s[0]) {
      var rest := StripLeftIs(s[1..]);
      i := rest + 1;
      assert s[..i] == [s[0]] + s[1..][..rest];
    }
  }

  lemma {:induction false} StripRightIs(s: string) returns (n: nat)
    ensures n <= |s| && StripRight(s) == s[..n] && Blank(s[n..])
  {
    n := |s|;
    if s != "" && IsSpace(s[|s| - 1]) {
      n := StripRightIs(s[..|s| - 1]);
      assert s[n..] == s[..|s| - 1][n..] + [s[|s| - 1]];
    }
  }

  /** Normalizing drops spaces at the ends and then, where exactly a letter A and six digits are left, the
      letter: nothing else is ever changed. */
  lemma NormalizeIs(s: string) returns (i: nat, j: nat)
    ensures i <= j <= |s| && Blank(s[..i]) && Blank(s[j..]) && Trimmed(s[i..j])
    ensures var coded := j - i == 7 && s[i] in "Aa" && forall k :: i < k < j ==> '0' <= s[k] <= '9';
            Normalize(s) == if coded then s[i + 1..j] else s[i..j]
  {
    i, j := StripIs(s);
    var raw := s[i..j];
    assert forall k :: 0 <= k < |raw| ==> raw[k] == s[i + k];
    assert forall k :: i < k < j ==> s[k] == raw[k - i];
    if j - i == 7 {
      assert raw[1..] == s[i + 1..j];
    }
  }

  /** The prefixed and the plain code of a share meet. */
  lemma PrefixedMeetsPlain(digits: string)
    requires |digits| == 6 && forall i :: 0 <= i < 6 ==> IsDigit(digits[i])
    ensures Normalize("A" + digits) == Normalize("a" + digits) == Normalize(digits) == digits
  {
    TrimmedStaysPut("A" + digits);
    TrimmedStaysPut("a" + digits);
    TrimmedStaysPut(digits);
    assert ("A" + digits)[1..] == digits && ("a" + digits)[1..] == digits;
  }
}
