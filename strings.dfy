/** Character classes of JavaScript regular expressions and small facts about strings. */
module Strings {

  predicate IsNewline(c: char) { c == '\n' }

  predicate IsHash(c: char) { c == '#' }

  /** `\d`: the ASCII digits. */
  predicate IsDigit(c: char) { '0' <= c <= '9' }

  /** `[A-Z]`: the ASCII upper-case letters. */
  predicate IsUpper(c: char) { 'A' <= c <= 'Z' }

  /** The line terminators, which `.` does not match. */
  predicate IsLineTerminator(c: char) {
    c == '\n' || c == '\r' || c == '\U{2028}' || c == '\U{2029}'
  }

  /** What `.` matches without the `s` flag. */
  predicate IsLineChar(c: char) { !IsLineTerminator(c) }

  /** `\s`: JavaScript white space and line terminators. */
  predicate IsSpace(c: char) {
    c == '\t' || c == '\n' || c == '\U{000B}' || c == '\U{000C}' || c == '\r' || c == ' '
    || c == '\U{00A0}' || c == '\U{1680}' || ('\U{2000}' <= c <= '\U{200A}')
    || c == '\U{2028}' || c == '\U{2029}' || c == '\U{202F}' || c == '\U{205F}'
    || c == '\U{3000}' || c == '\U{FEFF}'
  }

  /** Length of the longest prefix of `s` whose characters all satisfy `p`
      (what a greedy `p+` or `p*` consumes). */
  function LeadingRun(s: string, p: char -> bool): (n: nat)
    ensures n <= |s|
    ensures forall i :: 0 <= i < n ==> p(s[i])
    ensures n < |s| ==> !p(s[n])
  {
    if s != [] && p(s[0]) then 1 + LeadingRun(s[1..], p) else 0
  }

  /** `s` with every character satisfying `drop` removed. */
  function Without(s: string, drop: char -> bool): (r: string)
    ensures |r| <= |s|
    ensures forall i :: 0 <= i < |r| ==> !drop(r[i])
  {
    if s == [] then [] else (if drop(s[0]) then [] else [s[0]]) + Without(s[1..], drop)
  }

  /** The non-white-space characters of `s`, in order. */
  function NonSpace(s: string): string {
    Without(s, IsSpace)
  }

  lemma {:induction false} WithoutAppend(a: string, b: string, drop: char -> bool)
    ensures Without(a + b, drop) == Without(a, drop) + Without(b, drop)
  {
    if a == [] {
      assert a + b == b;
    } else {
      assert (a + b)[0] == a[0] && (a + b)[1..] == a[1..] + b;
      WithoutAppend(a[1..], b, drop);
    }
  }

  lemma {:induction false} WithoutNone(s: string, drop: char -> bool)
    requires forall i :: 0 <= i < |s| ==> drop(s[i])
    ensures Without(s, drop) == []
  {
    if s != [] {
      WithoutNone(s[1..], drop);
    }
  }

  /** Removing a smaller class first does not change what removing a larger one leaves. */
  lemma {:induction false} WithoutNested(s: string, inner: char -> bool, outer: char -> bool)
    requires forall c :: inner(c) ==> outer(c)
    ensures Without(Without(s, inner), outer) == Without(s, outer)
  {
    if s != [] {
      WithoutNested(s[1..], inner, outer);
      var head := if inner(s[0]) then [] else [s[0]];
      WithoutAppend(head, Without(s[1..], inner), outer);
    }
  }

  /** Every newline is white space, so deleting newlines never changes the non-space content. */
  lemma NewlinesAreSpace(s: string)
    ensures NonSpace(Without(s, IsNewline)) == NonSpace(s)
  {
    WithoutNested(s, IsNewline, IsSpace);
  }

  /** `r` is `s` with newlines added and nothing else changed: read left to right, each
      character of `r` is either an added newline or the next character of `s`. */
  predicate NewlinesAdded(s: string, r: string)
    decreases |r|
  {
    if r == [] then s == []
    else
      || (r[0] == '\n' && NewlinesAdded(s, r[1..]))
      || (s != [] && r[0] == s[0] && NewlinesAdded(s[1..], r[1..]))
  }

  lemma {:induction false} NoNewlinesAdded(s: string)
    ensures NewlinesAdded(s, s)
  {
    if s != [] {
      NoNewlinesAdded(s[1..]);
    }
  }

  lemma {:induction false} OnlyNewlinesAdded(r: string)
    requires forall i :: 0 <= i < |r| ==> r[i] == '\n'
    ensures NewlinesAdded([], r)
  {
    if r != [] {
      OnlyNewlinesAdded(r[1..]);
    }
  }

  /** Adding newlines to two texts adds newlines to their concatenation. */
  lemma {:induction false} NewlinesAddedAppend(a: string, x: string, b: string, y: string)
    requires NewlinesAdded(a, x) && NewlinesAdded(b, y)
    ensures NewlinesAdded(a + b, x + y)
    decreases |x|
  {
    if x == [] {
      assert a + b == b && x + y == y;
    } else {
      assert (x + y)[0] == x[0] && (x + y)[1..] == x[1..] + y;
      if x[0] == '\n' && NewlinesAdded(a, x[1..]) {
        NewlinesAddedAppend(a, x[1..], b, y);
      } else {
        assert (a + b)[0] == a[0] && (a + b)[1..] == a[1..] + b;
        NewlinesAddedAppend(a[1..], x[1..], b, y);
      }
    }
  }

  /** Adding newlines never shortens a text and changes nothing but its newlines. */
  lemma {:induction false} NewlinesAddedKeepsLines(s: string, r: string)
    requires NewlinesAdded(s, r)
    ensures |s| <= |r|
    ensures Without(r, IsNewline) == Without(s, IsNewline)
    decreases |r|
  {
    if r != [] {
      if r[0] == '\n' && NewlinesAdded(s, r[1..]) {
        NewlinesAddedKeepsLines(s, r[1..]);
      } else {
        NewlinesAddedKeepsLines(s[1..], r[1..]);
      }
    }
  }

  /** `r` is `s` with some white-space runs that lie between a period and a capital
      letter each replaced by one newline, and nothing else changed. */
  predicate RunsBroken(s: string, r: string)
    decreases |s|
  {
    if s == [] then r == []
    else
      || (r != [] && r[0] == s[0] && RunsBroken(s[1..], r[1..]))
      || (var w := LeadingRun(s[1..], IsSpace);
          && s[0] == '.' && w >= 1 && 1 + w < |s| && IsUpper(s[1 + w])
          && |r| >= 2 && r[..2] == ".\n"
          && RunsBroken(s[1 + w..], r[2..]))
  }

  /** Breaking runs never lengthens a text. */
  lemma {:induction false} RunsBrokenShorter(s: string, r: string)
    requires RunsBroken(s, r)
    ensures |r| <= |s|
    decreases |s|
  {
    if s != [] {
      if r != [] && r[0] == s[0] && RunsBroken(s[1..], r[1..]) {
        RunsBrokenShorter(s[1..], r[1..]);
      } else {
        var w := LeadingRun(s[1..], IsSpace);
        RunsBrokenShorter(s[1 + w..], r[2..]);
      }
    }
  }

  function DigitChar(d: nat): (c: char)
    requires d < 10
    ensures IsDigit(c)
  {
    ['0', '1', '2', '3', '4', '5', '6', '7', '8', '9'][d]
  }

  /** Decimal rendering of a natural number, as a template literal prints it. */
  function NatToString(n: nat): (r: string)
    ensures |r| >= 1
    ensures forall i :: 0 <= i < |r| ==> IsDigit(r[i])
    ensures n >= 10 ==> r[0] != '0'
    decreases n
  {
    if n < 10 then [DigitChar(n)] else NatToString(n / 10) + [DigitChar(n % 10)]
  }

  /** The part after `x` of `x + s` is `s`. */
  lemma DropPrefix(x: string, s: string)
    ensures (x + s)[|x|..] == s
  {
  }

  /** The first `k` characters of `x + s`, when `x` has that many, are those of `x`. */
  lemma PrefixAppendRight(x: string, s: string, k: nat)
    requires k <= |x|
    ensures (x + s)[..k] == x[..k]
  {
  }

  lemma AppendAssoc(a: string, b: string, c: string)
    ensures a + b + c == a + (b + c)
  {
  }

  /** A prefix of the middle part of a concatenation, with what precedes it, is a prefix of the whole. */
  lemma PrefixWithin(pre: string, x: string, mid: string, post: string)
    requires x <= mid
    ensures pre + x <= pre + mid + post
  {
    var whole := pre + mid + post;
    assert whole[..|pre| + |x|] == pre + x by {
      assert forall k :: 0 <= k < |pre| + |x| ==> whole[k] == (pre + x)[k];
    }
  }
}
