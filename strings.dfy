/** The few .NET string operations the printer relies on, over `seq<char>`. */
module Strings {

  /** Environment.NewLine, fixed to the one-character line feed. */
  const NewLine: string := "\n"

  predicate EndsWith(s: string, suffix: string) {
    |suffix| <= |s| && s[|s| - |suffix|..] == suffix
  }

  predicate IsLineBreak(c: char) {
    c == '\r' || c == '\n'
  }

  /** new string('\t', n) */
  function Tabs(n: nat): (s: string)
    ensures |s| == n
    ensures forall i | 0 <= i < n :: s[i] == '\t'
  {
    seq(n, _ => '\t')
  }

  /** String.IndexOf(char): the first position of `c`, or -1 when `c` does not occur. */
  function IndexOf(s: string, c: char): (i: int)
    ensures -1 <= i < |s|
    ensures i == -1 <==> c !in s
    ensures 0 <= i ==> s[i] == c && c !in s[..i]
  {
    if |s| == 0 then -1
    else if s[0] == c then 0
    else
      var j := IndexOf(s[1..], c);
      assert 0 <= j ==> s[..j + 1] == [s[0]] + s[1..][..j];
      if j < 0 then -1 else j + 1
  }

  /** The first occurrence of c is the one right after a prefix that does not contain it. */
  lemma {:induction false} IndexOfFirst(s: string, c: char, t: string)
    requires c !in s
    ensures IndexOf(s + [c] + t, c) == |s|
  {
    if s != [] {
      assert (s + [c] + t)[1..] == s[1..] + [c] + t;
      IndexOfFirst(s[1..], c, t);
    }
  }

  /** string.Join(sep, parts) */
  function Join(sep: string, parts: seq<string>): string
  {
    if |parts| == 0 then ""
    else if |parts| == 1 then parts[0]
    else parts[0] + sep + Join(sep, parts[1..])
  }

  /** TrimEnd('\r', '\n'): strips every trailing carriage return and line feed. */
  function TrimLineEnd(s: string): (r: string)
    ensures r <= s
    ensures r == [] || !IsLineBreak(r[|r| - 1])
    ensures forall i | |r| <= i < |s| :: IsLineBreak(s[i])
  {
    if |s| > 0 && IsLineBreak(s[|s| - 1]) then TrimLineEnd(s[..|s| - 1]) else s
  }

  function Digit(d: nat): char
    requires d < 10
  {
    "0123456789"[d]
  }

  /** Int32.ToString() of a non-negative number: its decimal digits. */
  function NatToString(n: nat): (s: string)
    ensures |s| > 0
    ensures forall i | 0 <= i < |s| :: '0' <= s[i] <= '9'
  {
    if n < 10 then [Digit(n)] else NatToString(n / 10) + [Digit(n % 10)]
  }

  /** The number a run of decimal digits spells, most significant digit first. */
  function DecimalValue(s: string): nat
    requires forall i | 0 <= i < |s| :: '0' <= s[i] <= '9'
  {
    if s == [] then 0 else 10 * DecimalValue(s[..|s| - 1]) + (s[|s| - 1] as int - '0' as int)
  }

  /** The digits NatToString produces spell the number back. */
  lemma {:induction false} NatToStringValue(n: nat)
    ensures DecimalValue(NatToString(n)) == n
  {
    var s := NatToString(n);
    if n >= 10 {
      NatToStringValue(n / 10);
      assert s[..|s| - 1] == NatToString(n / 10);
    }
  }

  /** Distinct numbers print differently, so no two list indices share a label. */
  lemma NatToStringInjective(a: nat, b: nat)
    requires NatToString(a) == NatToString(b)
    ensures a == b
  {
    NatToStringValue(a);
    NatToStringValue(b);
  }

  /** Text made of whole lines: empty, or ending in NewLine. */
  predicate Lines(s: string) {
    s == [] || EndsWith(s, NewLine)
  }

  lemma EndsWithConcat(a: string, b: string, suffix: string)
    requires EndsWith(b, suffix)
    ensures EndsWith(a + b, suffix)
  {
    assert (a + b)[|a + b| - |suffix|..] == b[|b| - |suffix|..];
  }

  /** Appending whole lines to text that ends in NewLine leaves it ending in NewLine. */
  lemma LinesAfter(a: string, b: string)
    requires EndsWith(a, NewLine) && Lines(b)
    ensures EndsWith(a + b, NewLine)
  {
    if b == [] {
      assert a + b == a;
    } else {
      EndsWithConcat(a, b, NewLine);
    }
  }

  lemma LinesConcat(a: string, b: string)
    requires Lines(a) && Lines(b)
    ensures Lines(a + b)
  {
    if a == [] {
      assert a + b == b;
    } else {
      LinesAfter(a, b);
    }
  }

  /** `part` occurs in `s` as a contiguous piece (String.Contains, ordinal). */
  ghost predicate Contains(s: string, part: string) {
    exists i | 0 <= i <= |s| :: part <= s[i..]
  }

  lemma ContainsStart(part: string, b: string)
    ensures Contains(part + b, part)
  {
    assert part <= (part + b)[0..];
  }

  lemma ContainsAfter(a: string, b: string, part: string)
    requires Contains(b, part)
    ensures Contains(a + b, part)
  {
    var i :| 0 <= i <= |b| && part <= b[i..];
    assert (a + b)[|a| + i..] == b[i..];
  }

  lemma ContainsBefore(a: string, b: string, part: string)
    requires Contains(a, part)
    ensures Contains(a + b, part)
  {
    var i :| 0 <= i <= |a| && part <= a[i..];
    assert (a + b)[i..] == a[i..] + b;
  }
}
