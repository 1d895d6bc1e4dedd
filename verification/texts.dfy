/** Text operations on ASCII letters and white space. */
module Texts {

  predicate IsSpace(c: char) { c == ' ' || '\t' <= c <= '\r' }

  /** Space, tab, line feed, vertical tab, form feed and carriage return. */
  lemma SpaceChars(c: char)
    ensures IsSpace(c) <==> c as int in {32, 9, 10, 11, 12, 13}
  {
  }

  function StripLeft(s: string): string {
    if s != [] && IsSpace(s[0]) then StripLeft(s[1..]) else s
  }

  function StripRight(s: string): string {
    if s != [] && IsSpace(s[|s| - 1]) then StripRight(s[..|s| - 1]) else s
  }

  function Strip(s: string): string { StripRight(StripLeft(s)) }

  function LowerChar(c: char): char {
    if 'A' <= c <= 'Z' then (c as int + 32) as char else c
  }

  function Lower(s: string): string {
    seq(|s|, i requires 0 <= i < |s| => LowerChar(s[i]))
  }

  function Upper(c: char): char {
    if 'a' <= c <= 'z' then (c as int - 32) as char else c
  }

  function UpperAll(s: string): (r: string)
    ensures |r| == |s| && forall i | 0 <= i < |s| :: r[i] == Upper(s[i])
  {
    seq(|s|, i requires 0 <= i < |s| => Upper(s[i]))
  }

  /** The same letter in either case, or the same character. */
  predicate SameChar(a: char, b: char) {
    a == b
    || ('A' <= a <= 'Z' && b as int == a as int + 32)
    || ('A' <= b <= 'Z' && a as int == b as int + 32)
  }

  predicate SameButForCase(a: string, b: string) {
    |a| == |b| && forall i | 0 <= i < |a| :: SameChar(a[i], b[i])
  }

  lemma LowerForgetsCase(a: string, b: string)
    ensures Lower(a) == Lower(b) <==> SameButForCase(a, b)
  {
    if Lower(a) == Lower(b) {
      assert |a| == |Lower(a)| == |Lower(b)| == |b|;
      forall i | 0 <= i < |a|
        ensures SameChar(a[i], b[i])
      {
        assert Lower(a)[i] == LowerChar(a[i]) && Lower(b)[i] == LowerChar(b[i]);
      }
    }
  }

  /** `inner` is `s` without the space at its two ends. */
  ghost predicate Inside(s: string, inner: string) {
    && (exists i: nat, j: nat :: InsideAt(s, inner, i, j))
    && (inner != [] ==> !IsSpace(inner[0]) && !IsSpace(inner[|inner| - 1]))
  }

  predicate InsideAt(s: string, inner: string, i: nat, j: nat) {
    i <= j <= |s| && inner == s[i..j] && forall k | 0 <= k < |s| && !(i <= k < j) :: IsSpace(s[k])
  }

  lemma {:induction false} StripLeftCuts(s: string) returns (i: nat)
    ensures i <= |s| && StripLeft(s) == s[i..] && forall k | 0 <= k < i :: IsSpace(s[k])
    ensures i < |s| ==> !IsSpace(s[i])
  {
    if s != [] && IsSpace(s[0]) {
      i := StripLeftCuts(s[1..]);
      i := i + 1;
    } else {
      i := 0;
    }
  }

  lemma {:induction false} StripRightCuts(s: string) returns (j: nat)
    ensures j <= |s| && StripRight(s) == s[..j] && forall k | j <= k < |s| :: IsSpace(s[k])
    ensures j > 0 ==> !IsSpace(s[j - 1])
  {
    if s != [] && IsSpace(s[|s| - 1]) {
      j := StripRightCuts(s[..|s| - 1]);
    } else {
      j := |s|;
    }
  }

  /** Stripping takes away the outer space and nothing else. */
  lemma StripIsInside(s: string)
    ensures Inside(s, Strip(s))
  {
    var i := StripLeftCuts(s);
    var j := StripRightCuts(s[i..]);
    assert Strip(s) == s[i..][..j] == s[i..i + j];
    forall k | 0 <= k < |s| && !(i <= k < i + j)
      ensures IsSpace(s[k])
    {
      if k >= i { assert s[i..][k - i] == s[k]; }
    }
    assert InsideAt(s, Strip(s), i, i + j);
  }

  /** Two texts cut at their first separator agree in both parts. */
  lemma SplitAtFirst(sep: char, a: string, b: string, c: string, d: string)
    requires sep !in a && sep !in c && a + [sep] + b == c + [sep] + d
    ensures a == c && b == d
  {
    var l, r := a + [sep] + b, c + [sep] + d;
    assert forall k | 0 <= k < |a| :: l[k] == a[k] && a[k] in a;
    assert forall k | 0 <= k < |c| :: r[k] == c[k] && c[k] in c;
    assert l[|a|] == sep && r[|c|] == sep;
    assert |a| == |c|;
    assert l[..|a|] == a && r[..|c|] == c;
    assert l[|a| + 1..] == b && r[|a| + 1..] == d;
  }

  predicate IsDigit(c: char) { '0' <= c <= '9' }

  function DigitValue(c: char): int { c as int - '0' as int }

  /** Decimal digits of a natural number, without padding. */
  function Dec(n: nat): (r: string)
    ensures |r| >= 1 && forall i | 0 <= i < |r| :: IsDigit(r[i])
  {
    var last := "0123456789"[n % 10];
    if n < 10 then [last] else Dec(n / 10) + [last]
  }
}
