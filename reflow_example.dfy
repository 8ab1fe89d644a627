/** Worked inputs of the reflow. On the first, applying the reflow twice differs from
    applying it once: the heading pass consumes the `# ` it matches, so a second `# `
    right after it is only separated on the next run. On the second, a "## " heading
    at the start of a line is split after its first `#`. */
module ReflowExample {
  import opened Strings
  import opened TextReflow

  const Input := "a# # x"
  /** The reflow of `Input`. */
  const Once := "a\n\n# # x"
  /** The reflow of `Once`. */
  const Twice := "a\n\n# \n\n# x"

  /** A heading at the start of a line, as the prompt asks the model to write them. */
  const Heading := "## T"
  /** The reflow of `Heading`: the heading's own first `#` is taken for the character
      before a `# `, so the heading is split after it. */
  const HeadingSplit := "#\n\n# T"

  // the heading-before pass, one character at a time

  /** No heading starts right after `c`: the pass copies it. */
  lemma HeadingBeforeSkip(c: char, s: string)
    requires c == '\n' || s == [] || s[0] != '#'
    ensures ReplaceAll(HeadingBefore, [c] + s) == [c] + ReplaceAll(HeadingBefore, s)
  {
    var t := [c] + s;
    assert t[1..] == s;
    if c != '\n' && s != [] {
      assert LeadingRun(s, IsHash) == 0;
    }
  }

  /** A `# ` right after `c` is moved to a paragraph of its own. */
  lemma HeadingBeforeSplit(c: char, r: string)
    requires c != '\n'
    ensures ReplaceAll(HeadingBefore, [c] + "# " + r) == [c] + "\n\n# " + ReplaceAll(HeadingBefore, r)
  {
    var t := [c] + "# " + r;
    assert t[1..] == "# " + r && t[1..3] == "# " && t[3..] == r;
    assert LeadingRun(t[1..], IsHash) == 1;
  }

  // the three texts, character by character

  lemma InputShape()
    ensures Input == ['a'] + "# " + (['#'] + ([' '] + ['x']))
  {
  }

  lemma OnceShape()
    ensures Once == ['a'] + "\n\n# " + (['#'] + ([' '] + ['x']))
    ensures Once == ['a'] + (['\n'] + (['\n'] + (['#'] + ([' '] + "# " + ['x']))))
  {
  }

  lemma TwiceShape()
    ensures Twice == ['a'] + (['\n'] + (['\n'] + (['#'] + ([' '] + "\n\n# " + ['x']))))
  {
  }

  lemma HeadingBeforeLast(c: char)
    ensures ReplaceAll(HeadingBefore, [c]) == [c]
  {
    HeadingBeforeSkip(c, []);
    assert [c] + [] == [c];
  }

  lemma HeadingBeforeInput()
    ensures ReplaceAll(HeadingBefore, Input) == Once
  {
    var x := ['x'];
    HeadingBeforeLast('x');
    HeadingBeforeSkip(' ', x);
    var tail := ['#'] + ([' '] + x);
    HeadingBeforeSkip('#', [' '] + x);
    HeadingBeforeSplit('a', tail);
    InputShape();
    OnceShape();
  }

  lemma HeadingBeforeOnce()
    ensures ReplaceAll(HeadingBefore, Once) == Twice
  {
    var x := ['x'];
    HeadingBeforeLast('x');
    var s4 := [' '] + "# " + x;
    HeadingBeforeSplit(' ', x);
    var s3 := ['#'] + s4;
    HeadingBeforeSkip('#', s4);
    var s2 := ['\n'] + s3;
    HeadingBeforeSkip('\n', s3);
    var s1 := ['\n'] + s2;
    HeadingBeforeSkip('\n', s2);
    HeadingBeforeSkip('a', s1);
    OnceShape();
    TwiceShape();
  }

  // the other insertion passes find nothing to separate

  /** Every newline is followed by another newline or by a `#`. */
  predicate NewlinesBeforeBlankOrHeading(s: string) {
    forall j :: 0 <= j < |s| - 1 && s[j] == '\n' ==> s[j + 1] == '\n' || s[j + 1] == '#'
  }

  lemma HeadingAfterNone(t: string)
    requires NewlinesBeforeBlankOrHeading(t)
    ensures MatchAt(HeadingAfter, t).None?
  {
    var h := LeadingRun(t, IsHash);
    if 1 <= h <= 3 && h < |t| && t[h] == ' ' {
      var q := h + 1 + LeadingRun(t[h + 1..], IsLineChar);
      assert q + 1 < |t| && t[q] == '\n' ==> t[q + 1] == '\n' || t[q + 1] == '#';
    }
  }

  /** The heading-after pass needs a newline followed by a line that is not a heading. */
  lemma {:induction false} HeadingAfterIdle(s: string)
    requires NewlinesBeforeBlankOrHeading(s)
    ensures ReplaceAll(HeadingAfter, s) == s
    decreases |s|
  {
    if s != [] {
      HeadingAfterNone(s);
      HeadingAfterIdle(s[1..]);
      assert s == [s[0]] + s[1..];
    }
  }

  /** No `-`, digit or backtick. */
  predicate Plain(s: string) {
    forall j :: 0 <= j < |s| ==> s[j] != '-' && s[j] != '`' && !IsDigit(s[j])
  }

  /** The list and fence patterns need a `-`, a digit or a backtick. */
  lemma ListAndFenceNone(pass: Pass, t: string)
    requires pass == BulletBefore || pass == NumberBefore || pass == FenceBefore || pass == FenceAfter
    requires Plain(t)
    ensures MatchAt(pass, t).None?
  {
    if |t| >= 3 {
      assert t[..3][0] == t[0] && t[2..][0] == t[2];
    }
  }

  lemma {:induction false} ListAndFenceIdle(pass: Pass, s: string)
    requires pass == BulletBefore || pass == NumberBefore || pass == FenceBefore || pass == FenceAfter
    requires Plain(s)
    ensures ReplaceAll(pass, s) == s
    decreases |s|
  {
    if s != [] {
      ListAndFenceNone(pass, s);
      ListAndFenceIdle(pass, s[1..]);
      assert s == [s[0]] + s[1..];
    }
  }

  /** A text whose newlines all precede a newline or a `#`, and that holds no `-`, digit
      or backtick, is left alone by every insertion pass after the first. */
  lemma PlainIdle(s: string)
    requires NewlinesBeforeBlankOrHeading(s) && Plain(s)
    ensures ReplaceAll(HeadingAfter, s) == s
    ensures forall pass ::
      (pass == BulletBefore || pass == NumberBefore || pass == FenceBefore || pass == FenceAfter)
      ==> ReplaceAll(pass, s) == s
  {
    HeadingAfterIdle(s);
    forall pass | pass == BulletBefore || pass == NumberBefore || pass == FenceBefore || pass == FenceAfter
      ensures ReplaceAll(pass, s) == s
    {
      ListAndFenceIdle(pass, s);
    }
  }

  lemma OnceIdle(s: string)
    requires s == Once
    ensures ReplaceAll(HeadingAfter, s) == s
    ensures forall pass ::
      (pass == BulletBefore || pass == NumberBefore || pass == FenceBefore || pass == FenceAfter)
      ==> ReplaceAll(pass, s) == s
  {
    assert NewlinesBeforeBlankOrHeading(s) && Plain(s);
    PlainIdle(s);
  }

  lemma TwiceIdle(s: string)
    requires s == Twice
    ensures ReplaceAll(HeadingAfter, s) == s
    ensures forall pass ::
      (pass == BulletBefore || pass == NumberBefore || pass == FenceBefore || pass == FenceAfter)
      ==> ReplaceAll(pass, s) == s
  {
    assert NewlinesBeforeBlankOrHeading(s) && Plain(s);
    PlainIdle(s);
  }

  lemma EnhanceInput(s: string)
    requires s == Input
    ensures EnhanceFormatting(s) == Once
  {
    HeadingBeforeInput();
    OnceIdle(Once);
    ShortTextNotBroken(Once);
  }

  lemma EnhanceOnce()
    ensures EnhanceFormatting(Once) == Twice
  {
    HeadingBeforeOnce();
    TwiceIdle(Twice);
    ShortTextNotBroken(Twice);
  }

  /** The reflow is not idempotent: a second application can still insert blank lines. */
  lemma EnhanceNotIdempotent()
    ensures EnhanceFormatting(EnhanceFormatting(Input)) != EnhanceFormatting(Input)
  {
    EnhanceInput(Input);
    EnhanceOnce();
    assert |Once| != |Twice|;
  }

  lemma HeadingBeforeHeading()
    ensures ReplaceAll(HeadingBefore, Heading) == HeadingSplit
  {
    HeadingBeforeLast('T');
    HeadingBeforeSplit('#', ['T']);
    assert Heading == ['#'] + "# " + ['T'];
    assert HeadingSplit == ['#'] + "\n\n# " + ['T'];
  }

  lemma HeadingSplitIdle(s: string)
    requires s == HeadingSplit
    ensures ReplaceAll(HeadingAfter, s) == s
    ensures forall pass ::
      (pass == BulletBefore || pass == NumberBefore || pass == FenceBefore || pass == FenceAfter)
      ==> ReplaceAll(pass, s) == s
  {
    assert NewlinesBeforeBlankOrHeading(s) && Plain(s);
    PlainIdle(s);
  }

  /** A "## " heading at the start of a line does not survive the reflow: it is cut
      into a lone `#` and a "# " heading, with a blank line between them. */
  lemma EnhanceSplitsHeading(s: string)
    requires s == Heading
    ensures EnhanceFormatting(s) == HeadingSplit
  {
    HeadingBeforeHeading();
    HeadingSplitIdle(HeadingSplit);
    ShortTextNotBroken(HeadingSplit);
  }
}
