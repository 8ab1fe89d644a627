/** `enhanceFormatting`: a fixed sequence of global regular-expression replacements
    that put blank lines around headings, list items and code fences, and a pass
    that breaks long paragraphs at sentence boundaries. */
module TextReflow {
  import opened Wrappers
  import opened Strings

  /** The replacement passes, in the order the reflow applies them. */
  datatype Pass =
    | HeadingBefore   // a blank line before 1-3 `#` and a space that follow another character
    | HeadingAfter    // a blank line after a heading line that a line of text follows
    | BulletBefore    // a blank line before a `- ` item that directly follows a line
    | NumberBefore    // a blank line before a `<digits>. ` item that directly follows a line
    | SentenceBreak   // a period, white space and a capital letter: the space becomes one newline
    | FenceBefore     // a blank line before a fence that directly follows a line
    | FenceAfter      // a blank line after a fence line that a line of text follows

  /** A match at the current position: how many characters it covers and what replaces them. */
  datatype Rewrite = Rewrite(consumed: nat, output: string)

  const Fence := "```"
  const ParagraphSeparator := "\n\n"
  /** Paragraphs longer than this are broken at sentence boundaries. */
  const LongParagraph: nat := 150

  function HeadingBeforeAt(t: string): (m: Option<Rewrite>)
    ensures m.Some? ==> 0 < m.value.consumed <= |t|
  {
    if t != [] && t[0] != '\n' then
      var h := LeadingRun(t[1..], IsHash);
      if 1 <= h <= 3 && 1 + h < |t| && t[1 + h] == ' ' then
        Some(Rewrite(h + 2, [t[0]] + "\n\n" + t[1..h + 2]))
      else None
    else None
  }

  function HeadingAfterAt(t: string): (m: Option<Rewrite>)
    ensures m.Some? ==> 0 < m.value.consumed <= |t|
  {
    var h := LeadingRun(t, IsHash);
    if 1 <= h <= 3 && h < |t| && t[h] == ' ' then
      // `.*` stops at the first line terminator; the match needs that one to be `\n`
      var q := h + 1 + LeadingRun(t[h + 1..], IsLineChar);
      if q + 1 < |t| && t[q] == '\n' && t[q + 1] != '\n' && t[q + 1] != '#' then
        Some(Rewrite(q + 2, t[..q + 1] + "\n" + [t[q + 1]]))
      else None
    else None
  }

  function BulletBeforeAt(t: string): (m: Option<Rewrite>)
    ensures m.Some? ==> 0 < m.value.consumed <= |t|
  {
    if |t| >= 4 && t[0] != '\n' && t[1] == '\n' && t[2] == '-' && t[3] == ' ' then
      Some(Rewrite(4, [t[0]] + "\n\n- "))
    else None
  }

  function NumberBeforeAt(t: string): (m: Option<Rewrite>)
    ensures m.Some? ==> 0 < m.value.consumed <= |t|
  {
    if |t| >= 2 && t[0] != '\n' && t[1] == '\n' then
      var d := LeadingRun(t[2..], IsDigit);
      if d >= 1 && 3 + d < |t| && t[2 + d] == '.' && t[3 + d] == ' ' then
        Some(Rewrite(4 + d, [t[0]] + "\n\n" + t[2..4 + d]))
      else None
    else None
  }

  function SentenceBreakAt(t: string): (m: Option<Rewrite>)
    ensures m.Some? ==> 0 < m.value.consumed <= |t|
  {
    if t != [] && t[0] == '.' then
      var w := LeadingRun(t[1..], IsSpace);
      if w >= 1 && 1 + w < |t| && IsUpper(t[1 + w]) then
        Some(Rewrite(2 + w, ".\n" + [t[1 + w]]))
      else None
    else None
  }

  function FenceBeforeAt(t: string): (m: Option<Rewrite>)
    ensures m.Some? ==> 0 < m.value.consumed <= |t|
  {
    if |t| >= 5 && t[0] != '\n' && t[1] == '\n' && t[2..5] == Fence then
      Some(Rewrite(5, [t[0]] + "\n\n" + Fence))
    else None
  }

  function FenceAfterAt(t: string): (m: Option<Rewrite>)
    ensures m.Some? ==> 0 < m.value.consumed <= |t|
  {
    if |t| >= 5 && t[..3] == Fence && t[3] == '\n' && t[4] != '\n' then
      Some(Rewrite(5, Fence + "\n\n" + [t[4]]))
    else None
  }

  /** Whether the pattern of `pass` matches at the start of `t`, and how. */
  function MatchAt(pass: Pass, t: string): (m: Option<Rewrite>)
    ensures m.Some? ==> 0 < m.value.consumed <= |t|
  {
    match pass
    case HeadingBefore => HeadingBeforeAt(t)
    case HeadingAfter => HeadingAfterAt(t)
    case BulletBefore => BulletBeforeAt(t)
    case NumberBefore => NumberBeforeAt(t)
    case SentenceBreak => SentenceBreakAt(t)
    case FenceBefore => FenceBeforeAt(t)
    case FenceAfter => FenceAfterAt(t)
  }

  /** `s.replace(pattern, replacement)` with the `g` flag: matches are found left to
      right, never overlap, and the text between them is copied unchanged. */
  function ReplaceAll(pass: Pass, s: string): string
    decreases |s|
  {
    if s == [] then []
    else match MatchAt(pass, s)
      case Some(m) => m.output + ReplaceAll(pass, s[m.consumed..])
      case None => [s[0]] + ReplaceAll(pass, s[1..])
  }

  /** `s.split('\n\n')`. */
  function Split(s: string): (ps: seq<string>)
    ensures |ps| >= 1
    decreases |s|
  {
    if |s| >= 2 && s[..2] == ParagraphSeparator then [""] + Split(s[2..])
    else if s == [] then [""]
    else
      var rest := Split(s[1..]);
      [[s[0]] + rest[0]] + rest[1..]
  }

  /** `ps.join('\n\n')`. */
  function Join(ps: seq<string>): string
  {
    if ps == [] then ""
    else if |ps| == 1 then ps[0]
    else ps[0] + ParagraphSeparator + Join(ps[1..])
  }

  /** A paragraph the sentence pass leaves alone because it starts like a heading or a list item. */
  predicate StartsWithMarker(p: string) {
    (p != [] && (p[0] == '#' || p[0] == '-' || p[0] == '*'))
    || (var d := LeadingRun(p, IsDigit); d >= 1 && d < |p| && p[d] == '.')
  }

  function ReflowParagraph(p: string): string {
    if |p| > LongParagraph && !StartsWithMarker(p) then ReplaceAll(SentenceBreak, p) else p
  }

  /** Split into paragraphs, break the long ones at sentence boundaries, join again. */
  function BreakLongParagraphs(s: string): string {
    var ps := Split(s);
    Join(seq(|ps|, i requires 0 <= i < |ps| => ReflowParagraph(ps[i])))
  }

  function EnhanceFormatting(text: string): string {
    var headed := ReplaceAll(HeadingAfter, ReplaceAll(HeadingBefore, text));
    var listed := ReplaceAll(NumberBefore, ReplaceAll(BulletBefore, headed));
    var broken := BreakLongParagraphs(listed);
    ReplaceAll(FenceAfter, ReplaceAll(FenceBefore, broken))
  }

  // ---------------------------------------------------------------------------
  // Content preservation

  /** Adding newlines between two pieces of text keeps all its other characters. */
  lemma NewlinesInserted(front: string, middle: string, extra: string, back: string)
    requires forall i :: 0 <= i < |middle| ==> middle[i] == '\n'
    requires forall i :: 0 <= i < |extra| ==> extra[i] == '\n'
    ensures Without(front + (middle + extra) + back, IsNewline) == Without(front + middle + back, IsNewline)
    ensures NewlinesAdded(front + middle + back, front + (middle + extra) + back)
  {
    NoNewlinesAdded(front);
    NoNewlinesAdded(middle);
    NoNewlinesAdded(back);
    OnlyNewlinesAdded(extra);
    assert middle + [] == middle;
    NewlinesAddedAppend(middle, middle, [], extra);
    NewlinesAddedAppend(front, front, middle, middle + extra);
    NewlinesAddedAppend(front + middle, front + (middle + extra), back, back);
    WithoutNone(middle, IsNewline);
    WithoutNone(middle + extra, IsNewline);
    WithoutAppend(front + middle, back, IsNewline);
    WithoutAppend(front, middle, IsNewline);
    WithoutAppend(front + (middle + extra), back, IsNewline);
    WithoutAppend(front, middle + extra, IsNewline);
  }

  /** A sentence match covers a period, a white-space run and a capital letter, and
      replaces the run by one newline. */
  lemma SentenceBreakKeepsText(t: string)
    requires SentenceBreakAt(t).Some?
    ensures var m := SentenceBreakAt(t).value;
      NonSpace(m.output) == NonSpace(t[..m.consumed])
    ensures var m := SentenceBreakAt(t).value;
      && m.consumed >= 3 && t[0] == '.' && IsUpper(t[m.consumed - 1])
      && (forall j :: 1 <= j < m.consumed - 1 ==> IsSpace(t[j]))
      && m.output == ".\n" + [t[m.consumed - 1]]
  {
    var m := SentenceBreakAt(t).value;
    var w := LeadingRun(t[1..], IsSpace);
    var u := t[1 + w];
    assert t[..m.consumed] == ['.'] + t[1..1 + w] + [u];
    assert m.output == ['.'] + ['\n'] + [u];
    WithoutNone(t[1..1 + w], IsSpace);
    WithoutAppend(['.'] + t[1..1 + w], [u], IsSpace);
    WithoutAppend(['.'], t[1..1 + w], IsSpace);
    WithoutAppend(['.'] + ['\n'], [u], IsSpace);
    WithoutAppend(['.'], ['\n'], IsSpace);
  }

  lemma HeadingBeforeKeepsText(t: string)
    requires HeadingBeforeAt(t).Some?
    ensures var m := HeadingBeforeAt(t).value;
      Without(m.output, IsNewline) == Without(t[..m.consumed], IsNewline)
    ensures var m := HeadingBeforeAt(t).value;
      NewlinesAdded(t[..m.consumed], m.output)
  {
    var m := HeadingBeforeAt(t).value;
    var c := m.consumed;
    assert t[..c] == [t[0]] + [] + t[1..c];
    assert m.output == [t[0]] + ([] + "\n\n") + t[1..c];
    NewlinesInserted([t[0]], [], "\n\n", t[1..c]);
  }

  lemma HeadingAfterKeepsText(t: string)
    requires HeadingAfterAt(t).Some?
    ensures var m := HeadingAfterAt(t).value;
      Without(m.output, IsNewline) == Without(t[..m.consumed], IsNewline)
    ensures var m := HeadingAfterAt(t).value;
      NewlinesAdded(t[..m.consumed], m.output)
  {
    var m := HeadingAfterAt(t).value;
    var c := m.consumed;
    assert t[..c] == t[..c - 1] + [] + [t[c - 1]];
    assert m.output == t[..c - 1] + ([] + "\n") + [t[c - 1]];
    NewlinesInserted(t[..c - 1], [], "\n", [t[c - 1]]);
  }

  lemma BulletBeforeKeepsText(t: string)
    requires BulletBeforeAt(t).Some?
    ensures var m := BulletBeforeAt(t).value;
      Without(m.output, IsNewline) == Without(t[..m.consumed], IsNewline)
    ensures var m := BulletBeforeAt(t).value;
      NewlinesAdded(t[..m.consumed], m.output)
  {
    var m := BulletBeforeAt(t).value;
    assert t[..m.consumed] == [t[0]] + "\n" + "- ";
    assert m.output == [t[0]] + ("\n" + "\n") + "- ";
    NewlinesInserted([t[0]], "\n", "\n", "- ");
  }

  lemma NumberBeforeKeepsText(t: string)
    requires NumberBeforeAt(t).Some?
    ensures var m := NumberBeforeAt(t).value;
      Without(m.output, IsNewline) == Without(t[..m.consumed], IsNewline)
    ensures var m := NumberBeforeAt(t).value;
      NewlinesAdded(t[..m.consumed], m.output)
  {
    var m := NumberBeforeAt(t).value;
    var c := m.consumed;
    assert t[..c] == [t[0]] + "\n" + t[2..c];
    assert m.output == [t[0]] + ("\n" + "\n") + t[2..c];
    NewlinesInserted([t[0]], "\n", "\n", t[2..c]);
  }

  lemma FenceBeforeKeepsText(t: string)
    requires FenceBeforeAt(t).Some?
    ensures var m := FenceBeforeAt(t).value;
      Without(m.output, IsNewline) == Without(t[..m.consumed], IsNewline)
    ensures var m := FenceBeforeAt(t).value;
      NewlinesAdded(t[..m.consumed], m.output)
  {
    var m := FenceBeforeAt(t).value;
    assert t[..m.consumed] == [t[0]] + "\n" + Fence;
    assert m.output == [t[0]] + ("\n" + "\n") + Fence;
    NewlinesInserted([t[0]], "\n", "\n", Fence);
  }

  lemma FenceAfterKeepsText(t: string)
    requires FenceAfterAt(t).Some?
    ensures var m := FenceAfterAt(t).value;
      Without(m.output, IsNewline) == Without(t[..m.consumed], IsNewline)
    ensures var m := FenceAfterAt(t).value;
      NewlinesAdded(t[..m.consumed], m.output)
  {
    var m := FenceAfterAt(t).value;
    assert t[..m.consumed] == Fence + "\n" + [] + [t[4]];
    assert m.output == Fence + "\n" + ([] + "\n") + [t[4]];
    NewlinesInserted(Fence + "\n", [], "\n", [t[4]]);
  }

  /** One replacement of an insertion pass only adds newlines; the sentence replacement
      keeps every character but white space. */
  lemma MatchKeepsText(pass: Pass, t: string)
    requires MatchAt(pass, t).Some?
    ensures var m := MatchAt(pass, t).value;
      pass != SentenceBreak ==> Without(m.output, IsNewline) == Without(t[..m.consumed], IsNewline)
    ensures var m := MatchAt(pass, t).value;
      NonSpace(m.output) == NonSpace(t[..m.consumed])
    ensures var m := MatchAt(pass, t).value;
      pass != SentenceBreak ==> NewlinesAdded(t[..m.consumed], m.output)
  {
    var m := MatchAt(pass, t).value;
    match pass {
      case SentenceBreak => SentenceBreakKeepsText(t);
      case HeadingBefore => HeadingBeforeKeepsText(t);
      case HeadingAfter => HeadingAfterKeepsText(t);
      case BulletBefore => BulletBeforeKeepsText(t);
      case NumberBefore => NumberBeforeKeepsText(t);
      case FenceBefore => FenceBeforeKeepsText(t);
      case FenceAfter => FenceAfterKeepsText(t);
    }
    if pass != SentenceBreak {
      NewlinesAreSpace(m.output);
      NewlinesAreSpace(t[..m.consumed]);
    }
  }

  /** Replacing a prefix by text with the same characters outside `drop`, and the rest
      likewise, keeps the whole text's characters outside `drop`. */
  lemma WithoutPieces(out: string, rest: string, s: string, c: nat, drop: char -> bool)
    requires c <= |s|
    requires Without(out, drop) == Without(s[..c], drop)
    requires Without(rest, drop) == Without(s[c..], drop)
    ensures Without(out + rest, drop) == Without(s, drop)
  {
    assert s == s[..c] + s[c..];
    WithoutAppend(out, rest, drop);
    WithoutAppend(s[..c], s[c..], drop);
  }

  /** A global replacement pass of an insertion pattern changes only newlines. */
  lemma ReplaceAllKeepsLines(pass: Pass, s: string)
    requires pass != SentenceBreak
    ensures Without(ReplaceAll(pass, s), IsNewline) == Without(s, IsNewline)
  {
    ReplaceAllAddsNewlines(pass, s);
    NewlinesAddedKeepsLines(s, ReplaceAll(pass, s));
  }

  /** Adding newlines to a prefix and to the rest adds newlines to the whole text. */
  lemma AddedPieces(out: string, rest: string, s: string, c: nat)
    requires c <= |s|
    requires NewlinesAdded(s[..c], out) && NewlinesAdded(s[c..], rest)
    ensures NewlinesAdded(s, out + rest)
  {
    NewlinesAddedAppend(s[..c], out, s[c..], rest);
    assert s[..c] + s[c..] == s;
  }

  /** A global replacement pass of an insertion pattern adds newlines and changes nothing else. */
  lemma {:induction false} ReplaceAllAddsNewlines(pass: Pass, s: string)
    requires pass != SentenceBreak
    ensures NewlinesAdded(s, ReplaceAll(pass, s))
    decreases |s|
  {
    if s != [] {
      var c, out;
      match MatchAt(pass, s) {
        case Some(m) =>
          MatchKeepsText(pass, s);
          c, out := m.consumed, m.output;
        case None =>
          c, out := 1, [s[0]];
          assert s[..1] == out;
          NoNewlinesAdded(out);
      }
      ReplaceAllAddsNewlines(pass, s[c..]);
      AddedPieces(out, ReplaceAll(pass, s[c..]), s, c);
    }
  }

  /** A sentence match followed by text whose runs are broken gives a text whose runs are broken. */
  lemma BreakStep(s: string, rest: string)
    requires SentenceBreakAt(s).Some?
    requires RunsBroken(s[SentenceBreakAt(s).value.consumed..], rest)
    ensures RunsBroken(s, SentenceBreakAt(s).value.output + rest)
  {
    var m := SentenceBreakAt(s).value;
    var w := LeadingRun(s[1..], IsSpace);
    var u := s[1 + w];
    var r := m.output + rest;
    assert r[..2] == ".\n" && r[2..] == [u] + rest;
    assert s[1 + w..][1..] == s[m.consumed..];
    assert RunsBroken(s[1 + w..], [u] + rest);
  }

  /** A character copied in front of text whose runs are broken keeps them broken. */
  lemma CopyStep(s: string, rest: string)
    requires s != [] && RunsBroken(s[1..], rest)
    ensures RunsBroken(s, [s[0]] + rest)
  {
    assert ([s[0]] + rest)[1..] == rest;
  }

  /** The global sentence pass changes only white-space runs between a period and a
      capital letter, each into one newline, so it never lengthens the text. */
  lemma {:induction false} ReplaceAllBreaksRuns(s: string)
    ensures RunsBroken(s, ReplaceAll(SentenceBreak, s))
    ensures |ReplaceAll(SentenceBreak, s)| <= |s|
    decreases |s|
  {
    if s != [] {
      match MatchAt(SentenceBreak, s) {
        case Some(m) =>
          ReplaceAllBreaksRuns(s[m.consumed..]);
          BreakStep(s, ReplaceAll(SentenceBreak, s[m.consumed..]));
        case None =>
          ReplaceAllBreaksRuns(s[1..]);
          CopyStep(s, ReplaceAll(SentenceBreak, s[1..]));
      }
      RunsBrokenShorter(s, ReplaceAll(SentenceBreak, s));
    }
  }

  /** Where no sentence match starts, the pass copies the first character. */
  lemma SentenceCopy(t: string)
    requires t != [] && SentenceBreakAt(t).None?
    ensures ReplaceAll(SentenceBreak, t) == [t[0]] + ReplaceAll(SentenceBreak, t[1..])
  {
  }

  /** Where a sentence match starts, the pass puts ".\n" and the capital letter in its place. */
  lemma SentenceMatch(t: string)
    requires SentenceBreakAt(t).Some?
    ensures var c := SentenceBreakAt(t).value.consumed;
      3 <= c <= |t| && t[0] == '.' && IsUpper(t[c - 1])
      && ReplaceAll(SentenceBreak, t) == ".\n" + [t[c - 1]] + ReplaceAll(SentenceBreak, t[c..])
  {
  }

  /** The sentence pass keeps the first character of a text. */
  lemma FirstKept(t: string)
    requires t != []
    ensures ReplaceAll(SentenceBreak, t) != [] && ReplaceAll(SentenceBreak, t)[0] == t[0]
  {
    if SentenceBreakAt(t).Some? {
      SentenceMatch(t);
    } else {
      SentenceCopy(t);
    }
  }

  /** The sentence pass copies the white space a text starts with. */
  lemma {:induction false} SpaceRunCopied(t: string, w: nat)
    requires w == LeadingRun(t, IsSpace)
    ensures ReplaceAll(SentenceBreak, t) == t[..w] + ReplaceAll(SentenceBreak, t[w..])
    decreases w
  {
    if w > 0 {
      assert t[0] != '.';
      SentenceCopy(t);
      SpaceRunCopied(t[1..], w - 1);
      assert t[1..][w - 1..] == t[w..];
      assert [t[0]] + t[1..][..w - 1] == t[..w];
    }
  }

  /** `LeadingRun` is the length of a run of `p` that `p` does not continue. */
  lemma {:induction false} LeadingRunOf(t: string, p: char -> bool, w: nat)
    requires w <= |t| && (forall i :: 0 <= i < w ==> p(t[i])) && (w < |t| ==> !p(t[w]))
    ensures LeadingRun(t, p) == w
    decreases w
  {
    if w > 0 {
      LeadingRunOf(t[1..], p, w - 1);
    }
  }

  /** Where no sentence match starts before `t`, none starts there once `t` has been through the pass. */
  lemma NoMatchStays(c: char, t: string)
    requires SentenceBreakAt([c] + t).None?
    ensures SentenceBreakAt([c] + ReplaceAll(SentenceBreak, t)).None?
  {
    var r := ReplaceAll(SentenceBreak, t);
    assert ([c] + t)[1..] == t && ([c] + r)[1..] == r;
    if c == '.' {
      var w := LeadingRun(t, IsSpace);
      SpaceRunCopied(t, w);
      if w < |t| {
        FirstKept(t[w..]);
      }
      LeadingRunOf(r, IsSpace, w);
    }
  }

  /** A period, a newline and a capital letter are matched again, and replaced by themselves. */
  lemma BrokenRunStays(u: char, rest: string)
    requires IsUpper(u)
    ensures ReplaceAll(SentenceBreak, ".\n" + [u] + rest) == ".\n" + [u] + ReplaceAll(SentenceBreak, rest)
  {
    var r := ".\n" + [u] + rest;
    assert r[1..][0] == '\n' && r[1..][1] == u;
    LeadingRunOf(r[1..], IsSpace, 1);
    SentenceMatch(r);
    assert r[3..] == rest;
  }

  /** The sentence pass leaves nothing for a second run to break: every white-space run
      between a period and a capital letter is a single newline in its output. */
  lemma {:induction false} SentencePassIdempotent(s: string)
    ensures ReplaceAll(SentenceBreak, ReplaceAll(SentenceBreak, s)) == ReplaceAll(SentenceBreak, s)
    decreases |s|
  {
    if s != [] {
      if SentenceBreakAt(s).Some? {
        SentenceMatch(s);
        var c := SentenceBreakAt(s).value.consumed;
        SentencePassIdempotent(s[c..]);
        BrokenRunStays(s[c - 1], ReplaceAll(SentenceBreak, s[c..]));
      } else {
        SentenceCopy(s);
        var t := ReplaceAll(SentenceBreak, s[1..]);
        SentencePassIdempotent(s[1..]);
        assert s == [s[0]] + s[1..];
        NoMatchStays(s[0], s[1..]);
        SentenceCopy([s[0]] + t);
        assert ([s[0]] + t)[1..] == t;
      }
    }
  }

  /** Every global replacement pass changes the text only by adding newlines or by
      turning white space into a newline. */
  lemma {:induction false} ReplaceAllKeepsText(pass: Pass, s: string)
    ensures NonSpace(ReplaceAll(pass, s)) == NonSpace(s)
    decreases |s|
  {
    if s != [] {
      var c, out;
      match MatchAt(pass, s) {
        case Some(m) =>
          MatchKeepsText(pass, s);
          c, out := m.consumed, m.output;
        case None =>
          c, out := 1, [s[0]];
          assert s[..1] == out;
      }
      ReplaceAllKeepsText(pass, s[c..]);
      WithoutPieces(out, ReplaceAll(pass, s[c..]), s, c, IsSpace);
    }
  }

  /** Splitting on "\n\n" and joining with "\n\n" gives the text back. */
  lemma {:induction false} SplitJoin(s: string)
    ensures Join(Split(s)) == s
    decreases |s|
  {
    if |s| >= 2 && s[..2] == ParagraphSeparator {
      SplitJoin(s[2..]);
      assert s == ParagraphSeparator + s[2..];
    } else if s != [] {
      var rest := Split(s[1..]);
      SplitJoin(s[1..]);
      var ps := [[s[0]] + rest[0]] + rest[1..];
      assert ps[1..] == rest[1..];
      assert s == [s[0]] + s[1..];
    }
  }

  /** Joining paragraph lists that agree paragraph by paragraph on their non-space
      characters gives texts that agree on their non-space characters. */
  lemma {:induction false} JoinKeepsText(ps: seq<string>, qs: seq<string>)
    requires |ps| == |qs|
    requires forall i :: 0 <= i < |ps| ==> NonSpace(qs[i]) == NonSpace(ps[i])
    ensures NonSpace(Join(qs)) == NonSpace(Join(ps))
    decreases |ps|
  {
    if |ps| > 1 {
      JoinKeepsText(ps[1..], qs[1..]);
      WithoutAppend(ps[0] + ParagraphSeparator, Join(ps[1..]), IsSpace);
      WithoutAppend(ps[0], ParagraphSeparator, IsSpace);
      WithoutAppend(qs[0] + ParagraphSeparator, Join(qs[1..]), IsSpace);
      WithoutAppend(qs[0], ParagraphSeparator, IsSpace);
    }
  }

  lemma BreakKeepsText(s: string)
    ensures NonSpace(BreakLongParagraphs(s)) == NonSpace(s)
  {
    var ps := Split(s);
    var qs := seq(|ps|, i requires 0 <= i < |ps| => ReflowParagraph(ps[i]));
    forall i | 0 <= i < |ps| ensures NonSpace(qs[i]) == NonSpace(ps[i]) {
      ReplaceAllKeepsText(SentenceBreak, ps[i]);
    }
    JoinKeepsText(ps, qs);
    SplitJoin(s);
  }

  /** The reflow never adds, drops or reorders a non-white-space character. */
  lemma EnhanceKeepsText(text: string)
    ensures NonSpace(EnhanceFormatting(text)) == NonSpace(text)
  {
    var t1 := ReplaceAll(HeadingBefore, text);
    var t2 := ReplaceAll(HeadingAfter, t1);
    var t3 := ReplaceAll(BulletBefore, t2);
    var t4 := ReplaceAll(NumberBefore, t3);
    var t5 := BreakLongParagraphs(t4);
    var t6 := ReplaceAll(FenceBefore, t5);
    ReplaceAllKeepsText(HeadingBefore, text);
    ReplaceAllKeepsText(HeadingAfter, t1);
    ReplaceAllKeepsText(BulletBefore, t2);
    ReplaceAllKeepsText(NumberBefore, t3);
    BreakKeepsText(t4);
    ReplaceAllKeepsText(FenceBefore, t5);
    ReplaceAllKeepsText(FenceAfter, t6);
  }

  // ---------------------------------------------------------------------------
  // When the reflow changes nothing

  /** A pass whose pattern matches nowhere leaves the text as it is. */
  lemma {:induction false} ReplaceAllNoMatch(pass: Pass, s: string)
    requires forall i :: 0 <= i < |s| ==> MatchAt(pass, s[i..]).None?
    ensures ReplaceAll(pass, s) == s
    decreases |s|
  {
    if s != [] {
      assert s[0..] == s;
      forall i | 0 <= i < |s[1..]| ensures MatchAt(pass, s[1..][i..]).None? {
        assert s[1..][i..] == s[i + 1..];
      }
      ReplaceAllNoMatch(pass, s[1..]);
      assert s == [s[0]] + s[1..];
    }
  }

  /** The sentence pass changes nothing in paragraphs of at most 150 characters
      or in paragraphs that start with `#`, `-`, `*` or digits and a period. */
  lemma BreakKeepsShortParagraphs(s: string)
    requires forall i :: 0 <= i < |Split(s)| ==>
      |Split(s)[i]| <= LongParagraph || StartsWithMarker(Split(s)[i])
    ensures BreakLongParagraphs(s) == s
  {
    var ps := Split(s);
    var qs := seq(|ps|, i requires 0 <= i < |ps| => ReflowParagraph(ps[i]));
    assert qs == ps;
    SplitJoin(s);
  }

  /** No paragraph is longer than the text it was split from. */
  lemma {:induction false} SplitPartsShort(s: string)
    ensures forall i :: 0 <= i < |Split(s)| ==> |Split(s)[i]| <= |s|
    decreases |s|
  {
    if |s| >= 2 && s[..2] == ParagraphSeparator {
      SplitPartsShort(s[2..]);
    } else if s != [] {
      SplitPartsShort(s[1..]);
    }
  }

  /** A text of at most 150 characters is never broken at sentence boundaries. */
  lemma ShortTextNotBroken(s: string)
    requires |s| <= LongParagraph
    ensures BreakLongParagraphs(s) == s
  {
    SplitPartsShort(s);
    BreakKeepsShortParagraphs(s);
  }

  /** A text without a newline is a single paragraph. */
  lemma {:induction false} SplitSingle(s: string)
    requires forall i :: 0 <= i < |s| ==> s[i] != '\n'
    ensures Split(s) == [s]
    decreases |s|
  {
    if s != [] {
      SplitSingle(s[1..]);
      assert s == [s[0]] + s[1..];
    }
  }

  /** Without a newline or a `#` no insertion pattern can match. */
  lemma InsertionNeedsMarker(pass: Pass, t: string)
    requires pass != SentenceBreak
    requires forall i :: 0 <= i < |t| ==> t[i] != '\n' && t[i] != '#'
    ensures MatchAt(pass, t).None?
  {
    if pass == HeadingBefore && |t| >= 2 {
      assert t[1..][0] == t[1];
    } else if pass == HeadingAfter && t != [] {
      assert t[0] != '#';
    }
  }

  lemma NoMarkerNoMatch(pass: Pass, s: string)
    requires pass != SentenceBreak
    requires forall i :: 0 <= i < |s| ==> s[i] != '\n' && s[i] != '#'
    ensures ReplaceAll(pass, s) == s
  {
    forall i | 0 <= i < |s| ensures MatchAt(pass, s[i..]).None? {
      InsertionNeedsMarker(pass, s[i..]);
    }
    ReplaceAllNoMatch(pass, s);
  }

  /** A single line of at most 150 characters with no `#` comes back unchanged;
      in particular the empty text does. */
  lemma ShortPlainTextUnchanged(text: string)
    requires forall i :: 0 <= i < |text| ==> text[i] != '\n' && text[i] != '#'
    requires |text| <= LongParagraph
    ensures EnhanceFormatting(text) == text
  {
    NoMarkerNoMatch(HeadingBefore, text);
    NoMarkerNoMatch(HeadingAfter, text);
    NoMarkerNoMatch(BulletBefore, text);
    NoMarkerNoMatch(NumberBefore, text);
    ShortTextNotBroken(text);
    NoMarkerNoMatch(FenceBefore, text);
    NoMarkerNoMatch(FenceAfter, text);
  }
}
