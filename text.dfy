/**
 * The few pieces of Python's string behaviour the roulette tools rely on:
 * str.isspace, str.split() without arguments, str.strip(), str.join,
 * str.isdigit on ASCII digits, int(·) of a digit string and str(·) of an int.
 */
module Text {

  /** Python's str.isspace for one character (the Unicode White_Space set Python uses). */
  predicate IsSpace(c: char) {
    var k := c as int;
    (9 <= k <= 13) || (28 <= k <= 32) || k == 0x85 || k == 0xA0 || k == 0x1680
    || (0x2000 <= k <= 0x200A) || k == 0x2028 || k == 0x2029 || k == 0x202F
    || k == 0x205F || k == 0x3000
  }

  /** A token produced by str.split(): non-empty and free of whitespace. */
  predicate IsWord(t: string) {
    t != [] && forall i :: 0 <= i < |t| ==> !IsSpace(t[i])
  }

  /** Length of the leading run of non-whitespace characters. */
  function WordLength(s: string): (n: nat)
    ensures n <= |s|
    ensures forall i :: 0 <= i < n ==> !IsSpace(s[i])
    ensures n < |s| ==> IsSpace(s[n])
  {
    if s == [] || IsSpace(s[0]) then 0 else 1 + WordLength(s[1..])
  }

  /** s.split(): the maximal runs of non-whitespace characters, in order. */
  function Split(s: string): (r: seq<string>)
    ensures forall k :: 0 <= k < |r| ==> IsWord(r[k])
    decreases |s|
  {
    if s == [] then []
    else if IsSpace(s[0]) then Split(s[1..])
    else
      var n := WordLength(s);
      [s[..n]] + Split(s[n..])
  }

  /** sep.join(parts) */
  function JoinWith(parts: seq<string>, sep: string): string
  {
    if parts == [] then ""
    else if |parts| == 1 then parts[0]
    else parts[0] + sep + JoinWith(parts[1..], sep)
  }

  lemma {:induction false} WordLengthOfWord(t: string, u: string)
    requires IsWord(t)
    requires u == [] || IsSpace(u[0])
    ensures WordLength(t + u) == |t|
    decreases |t|
  {
    if |t| > 1 {
      assert (t + u)[1..] == t[1..] + u;
      WordLengthOfWord(t[1..], u);
    } else {
      assert (t + u)[1..] == u;
    }
  }

  /** A word followed by whitespace or nothing splits off as the first token. */
  lemma SplitAfterWord(t: string, u: string)
    requires IsWord(t)
    requires u == [] || IsSpace(u[0])
    ensures Split(t + u) == [t] + Split(u)
  {
    WordLengthOfWord(t, u);
    assert (t + u)[..|t|] == t;
    assert (t + u)[|t|..] == u;
  }

  /** A leading space only separates. */
  lemma SplitAfterSpace(rest: string)
    ensures Split(" " + rest) == Split(rest)
  {
    var u := " " + rest;
    assert u[0] == ' ' && u[1..] == rest;
  }

  /** Splitting words joined by single spaces gives the words back. */
  lemma {:induction false} SplitJoin(ts: seq<string>)
    requires forall k :: 0 <= k < |ts| ==> IsWord(ts[k])
    ensures Split(JoinWith(ts, " ")) == ts
    decreases |ts|
  {
    if |ts| == 1 {
      var t := ts[0];
      assert t + [] == t;
      SplitAfterWord(t, []);
    } else if |ts| > 1 {
      var t, rest := ts[0], JoinWith(ts[1..], " ");
      var u := " " + rest;
      assert JoinWith(ts, " ") == t + u;
      SplitAfterWord(t, u);
      SplitAfterSpace(rest);
      SplitJoin(ts[1..]);
      assert ts == [t] + ts[1..];
    }
  }

  /** Every character is whitespace (true of the empty string). */
  predicate Blank(u: string) {
    forall i :: 0 <= i < |u| ==> IsSpace(u[i])
  }

  /** The index of the first non-whitespace character at or after i, or |s| when there is none. */
  function SkipSpaces(s: string, i: nat): (k: nat)
    requires i <= |s|
    ensures i <= k <= |s|
    ensures forall m :: i <= m < k ==> IsSpace(s[m])
    ensures k < |s| ==> !IsSpace(s[k])
    decreases |s| - i
  {
    if i < |s| && IsSpace(s[i]) then SkipSpaces(s, i + 1) else i
  }

  /** The index just after the last non-whitespace character in s[i..j], or i when there is none. */
  function BackSpaces(s: string, i: nat, j: nat): (k: nat)
    requires i <= j <= |s|
    ensures i <= k <= j
    ensures forall m :: k <= m < j ==> IsSpace(s[m])
    ensures k > i ==> !IsSpace(s[k - 1])
  {
    if j > i && IsSpace(s[j - 1]) then BackSpaces(s, i, j - 1) else j
  }

  /**
   * s.strip(): the slice of s that starts at its first non-whitespace character;
   * everything outside the slice is whitespace, the slice neither starts nor ends
   * with whitespace, and it is empty exactly when s is blank.
   */
  function Strip(s: string): (r: string)
    ensures var i := SkipSpaces(s, 0); i + |r| <= |s| && r == s[i..i + |r|]
    ensures var i := SkipSpaces(s, 0); forall m :: 0 <= m < |s| && !(i <= m < i + |r|) ==> IsSpace(s[m])
    ensures r != [] ==> !IsSpace(r[0]) && !IsSpace(r[|r| - 1])
    ensures r == [] <==> Blank(s)
  {
    var i := SkipSpaces(s, 0);
    var j := BackSpaces(s, i, |s|);
    s[i..j]
  }

  predicate IsDigit(c: char) {
    '0' <= c <= '9'
  }

  /** Python's str.isdigit restricted to ASCII: non-empty and all digits. */
  predicate AllDigits(s: string) {
    s != [] && forall i :: 0 <= i < |s| ==> IsDigit(s[i])
  }

  /** A digit string as str(int(·)) writes it: no leading zero unless it is "0". */
  predicate Canonical(s: string) {
    AllDigits(s) && (|s| > 1 ==> s[0] != '0')
  }

  function DigitChar(d: nat): (c: char)
    requires d < 10
    ensures IsDigit(c)
  {
    ('0' as int + d) as char
  }

  function DigitValue(c: char): (d: nat)
    requires IsDigit(c)
    ensures d < 10 && DigitChar(d) == c
  {
    c as int - '0' as int
  }

  /** str(n) for a natural number n. */
  function NatToString(n: nat): (s: string)
    ensures Canonical(s)
    ensures n > 0 ==> s[0] != '0'
  {
    if n < 10 then [DigitChar(n)] else NatToString(n / 10) + [DigitChar(n % 10)]
  }

  /** str(i) for any integer. */
  function IntToString(i: int): (s: string)
    ensures i >= 0 ==> Canonical(s) && DigitsValue(s) == i
    ensures i < 0 ==> |s| >= 2 && s[0] == '-' && Canonical(s[1..]) && DigitsValue(s[1..]) == -i
  {
    if i < 0 then
      var digits := NatToString(-i);
      ValueOfString(-i);
      assert ("-" + digits)[1..] == digits;
      "-" + digits
    else ValueOfString(i); NatToString(i)
  }

  /** str(i) starts with a minus sign exactly when i is negative. */
  lemma SignOfString(i: int)
    ensures IntToString(i)[0] == '-' <==> i < 0
  {
    assert IsDigit(NatToString(if i < 0 then -i else i)[0]);
  }

  /** Different integers have different decimal strings. */
  lemma IntToStringInjective(a: int, b: int)
    requires IntToString(a) == IntToString(b)
    ensures a == b
  {
    SignOfString(a);
    SignOfString(b);
    if a >= 0 {
      ValueOfString(a);
      ValueOfString(b);
    } else {
      var s := IntToString(a);
      assert s[1..] == NatToString(-a) && s[1..] == NatToString(-b);
      ValueOfString(-a);
      ValueOfString(-b);
    }
  }

  /** int(s) for a string of ASCII digits. */
  function DigitsValue(s: string): nat
    requires forall i :: 0 <= i < |s| ==> IsDigit(s[i])
  {
    if s == [] then 0 else DigitsValue(s[..|s| - 1]) * 10 + DigitValue(s[|s| - 1])
  }

  /** The digit string with its redundant leading zeros removed ("007" becomes "7", "00" becomes "0"). */
  function StripLeadingZeros(s: string): (r: string)
    requires AllDigits(s)
    ensures Canonical(r)
  {
    if |s| > 1 && s[0] == '0' then StripLeadingZeros(s[1..]) else s
  }

  /** int(str(n)) == n */
  lemma {:induction false} ValueOfString(n: nat)
    ensures DigitsValue(NatToString(n)) == n
  {
    var s := NatToString(n);
    if n >= 10 {
      ValueOfString(n / 10);
      assert s[..|s| - 1] == NatToString(n / 10);
    } else {
      assert s[..0] == [];
    }
  }

  lemma {:induction false} LeadingZeroValue(t: string)
    requires forall i :: 0 <= i < |t| ==> IsDigit(t[i])
    ensures DigitsValue("0" + t) == DigitsValue(t)
  {
    var z := "0" + t;
    if t == [] {
      assert z[..0] == [];
    } else {
      assert z[..|z| - 1] == "0" + t[..|t| - 1];
      LeadingZeroValue(t[..|t| - 1]);
    }
  }

  lemma {:induction false} StripKeepsValue(s: string)
    requires AllDigits(s)
    ensures DigitsValue(StripLeadingZeros(s)) == DigitsValue(s)
  {
    if |s| > 1 && s[0] == '0' {
      StripKeepsValue(s[1..]);
      assert s == "0" + s[1..];
      LeadingZeroValue(s[1..]);
    }
  }

  lemma {:induction false} PositiveValue(s: string)
    requires AllDigits(s) && s[0] != '0'
    ensures DigitsValue(s) >= 1
  {
    if |s| > 1 {
      PositiveValue(s[..|s| - 1]);
    } else {
      assert s[..0] == [];
    }
  }

  lemma {:induction false} CanonicalRoundTrip(s: string)
    requires Canonical(s)
    ensures NatToString(DigitsValue(s)) == s
  {
    var p := s[..|s| - 1];
    if |s| == 1 {
      assert p == [];
      assert NatToString(DigitsValue(s)) == [s[0]];
    } else {
      PositiveValue(p);
      CanonicalRoundTrip(p);
      var v := DigitsValue(s);
      assert v / 10 == DigitsValue(p) && v % 10 == DigitValue(s[|s| - 1]);
      assert s == p + [s[|s| - 1]];
    }
  }

  /** str(int(s)) is s without its leading zeros. */
  lemma StringOfValue(s: string)
    requires AllDigits(s)
    ensures NatToString(DigitsValue(s)) == StripLeadingZeros(s)
  {
    StripKeepsValue(s);
    CanonicalRoundTrip(StripLeadingZeros(s));
  }
}
