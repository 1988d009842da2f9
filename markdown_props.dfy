/** Properties of the formatter: what each pass does around the text it
    captures, which characters the passes can introduce, and what the
    fixed pass order implies. */
module MarkdownProps {
  import opened Wrappers
  import opened Markdown
  import opened MarkdownPatterns
  import opened MarkdownSteps

  /** A pass leaves text without its trigger character unchanged. */
  lemma {:induction false} NoTriggerUnchanged(rule: Rule, s: seq<char>, b: bool)
    requires Trigger(rule) !in s
    ensures Rewrite(rule, s, b) == s
    decreases |s|
  {
    if s != [] {
      MatchTrigger(rule, s, b);
      assert Trigger(rule) !in s[1..];
      NoTriggerUnchanged(rule, s[1..], IsLineTerminator(s[0]));
    }
  }

  /** Every character a pass outputs was in its input or in the fixed markup. */
  lemma {:induction false} RewriteChars(rule: Rule, s: seq<char>, b: bool)
    ensures forall c :: c in Rewrite(rule, s, b) ==> c in s || c in Markup
    decreases |s|
  {
    if s != [] {
      MatchChars(rule, s, b);
      match MatchAt(rule, s, b)
      case Some(h) =>
        RewriteChars(rule, s[h.len..], IsLineTerminator(s[h.len - 1]));
        CharsGlue(s, h.len, h.out, Rewrite(rule, s[h.len..], IsLineTerminator(s[h.len - 1])));
      case None =>
        RewriteChars(rule, s[1..], IsLineTerminator(s[0]));
        CharsGlue(s, 1, [s[0]], Rewrite(rule, s[1..], IsLineTerminator(s[0])));
    }
  }

  /** The characters the five patterns are built around. */
  predicate Reserved(c: char) {
    c == '\n' || c == '*' || c == '[' || c == '#'
  }

  // The markup constants are checked one by one (the long ones alone), so
  // that each test stays small; `MarkupReserved` combines them.
  lemma H3OpenAvoids(c: char)
    requires Reserved(c)
    ensures c !in H3Open
  {
    if c == '\n' {} else if c == '*' {} else if c == '[' {} else {}
  }

  lemma LiOpenAvoids(c: char)
    requires Reserved(c)
    ensures c !in LiOpen
  {
    if c == '\n' {} else if c == '*' {} else if c == '[' {} else {}
  }

  lemma AnchorTargetAvoids(c: char)
    requires Reserved(c)
    ensures c !in AnchorTarget
  {
    if c == '\n' {} else if c == '*' {} else if c == '[' {} else {}
  }

  lemma AnchorRelAvoids(c: char)
    requires Reserved(c)
    ensures c !in AnchorRel
  {
    if c == '\n' {} else if c == '*' {} else if c == '[' {} else {}
  }

  lemma AnchorClassAvoids(c: char)
    requires Reserved(c)
    ensures c !in AnchorClass
  {
    if c == '\n' {} else if c == '*' {} else if c == '[' {} else {}
  }

  lemma ShortMarkupAvoids(c: char)
    requires Reserved(c)
    ensures c !in H3Close && c !in StrongOpen && c !in StrongClose && c !in LiClose
    ensures c !in AnchorOpen && c !in AnchorClose && c !in Br
  {
    if c == '\n' {} else if c == '*' {} else if c == '[' {} else {}
  }

  /** The inserted markup holds none of the characters the patterns react to:
      no line feed, `*`, `[` and no `#` (so no `###`). */
  lemma MarkupReserved(c: char)
    requires Reserved(c)
    ensures c !in Markup
  {
    H3OpenAvoids(c);
    LiOpenAvoids(c);
    AnchorTargetAvoids(c);
    AnchorRelAvoids(c);
    AnchorClassAvoids(c);
    ShortMarkupAvoids(c);
    assert c !in AnchorMid;
  }

  /** The passes introduce no `*`, `[` or `#`: every one of them in the output
      comes from the model's reply, so later passes react only to original text. */
  lemma PipelineAddsNoMarkdown(md: seq<char>, c: char)
    requires c == '*' || c == '[' || c == '#'
    ensures c in MarkdownToHtml(md) ==> c in md
  {
    MarkupReserved(c);
    RewriteChars(Heading, md, true);
    RewriteChars(Bold, Headings(md), true);
    RewriteChars(Bullet, Bolds(Headings(md)), true);
    RewriteChars(Link, Bullets(Bolds(Headings(md))), true);
    RewriteChars(LineBreak, Links(Bullets(Bolds(Headings(md)))), true);
  }

  /** The last pass leaves no line feed. */
  lemma {:induction false} LineBreaksLeaveNoNewline(s: seq<char>, b: bool)
    ensures '\n' !in Rewrite(LineBreak, s, b)
    decreases |s|
  {
    if s != [] {
      match MatchAt(LineBreak, s, b)
      case Some(h) => LineBreaksLeaveNoNewline(s[h.len..], IsLineTerminator(s[h.len - 1]));
      case None => LineBreaksLeaveNoNewline(s[1..], IsLineTerminator(s[0]));
    }
  }

  /** The formatter's output never holds a line feed (script.js:121). */
  lemma NoNewlineInOutput(md: seq<char>)
    ensures '\n' !in MarkdownToHtml(md)
  {
    LineBreaksLeaveNoNewline(Links(Bullets(Bolds(Headings(md)))), true);
  }

  /** The line-break pass works character by character: it distributes over
      concatenation, so every line feed becomes `<br>` and nothing else changes. */
  lemma {:induction false} LineBreaksSplit(a: seq<char>, c: seq<char>)
    ensures LineBreaks(a + c) == LineBreaks(a) + LineBreaks(c)
    ensures LineBreaks(['\n']) == Br
    decreases |a|
  {
    assert LineBreaks(['\n']) == Br + LineBreaks([]);
    if a == [] {
      assert a + c == c;
    } else {
      var s := a + c;
      assert s[0] == a[0];
      assert s[1..] == a[1..] + c;
      LineBreaksSplit(a[1..], c);
      FlagIrrelevant(LineBreak, s[1..], IsLineTerminator(s[0]));
      FlagIrrelevant(LineBreak, a[1..], IsLineTerminator(a[0]));
    }
  }

  /** Text without a line feed, `*` or `[` (the empty reply included) comes back unchanged. */
  lemma PlainTextUnchanged(md: seq<char>)
    requires '\n' !in md && '*' !in md && '[' !in md
    ensures MarkdownToHtml(md) == md
  {
    NoTriggerUnchanged(Heading, md, true);
    NoTriggerUnchanged(Bold, md, true);
    NoTriggerUnchanged(Bullet, md, true);
    NoTriggerUnchanged(Link, md, true);
    NoTriggerUnchanged(LineBreak, md, true);
  }

  // ---- Headings (script.js:113) ----

  /** A heading at the front of the rest of the input. */
  lemma HeadingMatch(t: seq<char>, x: seq<char>, rest: seq<char>)
    requires t == "### " + x + "\n" + rest && LineFree(x)
    ensures HeadingAt(t) == Some(Hit(|x| + 5, H3Open + x + H3Close))
    ensures t[|x| + 5..] == rest && t[|x| + 4] == '\n'
  {
    assert t[4..] == x + "\n" + rest;
    LazyRunStops(x, "\n", rest);
    assert t[4..4 + |x|] == x;
  }

  lemma HeadingFront(t: seq<char>, b: bool, x: seq<char>, rest: seq<char>)
    requires t == "### " + x + "\n" + rest && LineFree(x)
    ensures Rewrite(Heading, t, b) == H3Open + x + H3Close + Rewrite(Heading, rest, true)
  {
    HeadingMatch(t, x, rest);
    HitStep(Heading, t, b, Hit(|x| + 5, H3Open + x + H3Close));
  }

  lemma HeadingAfter(s: seq<char>, pre: seq<char>, x: seq<char>, rest: seq<char>)
    requires s == pre + ("### " + x + "\n" + rest) && '#' !in pre && LineFree(x)
    ensures Rewrite(Heading, s, true) == pre + H3Open + x + H3Close + Rewrite(Heading, rest, true)
  {
    var t := "### " + x + "\n" + rest;
    InertPrefix(Heading, pre, t, true);
    HeadingFront(t, LineStartAfter(pre, true), x, rest);
    Regroup3(pre, H3Open, x, H3Close, Rewrite(Heading, rest, true));
  }

  /** `### X\n` becomes an h3 holding X, wherever it stands on the line, and
      the line feed is consumed. */
  lemma HeadingAnywhere(pre: seq<char>, x: seq<char>, rest: seq<char>)
    requires '#' !in pre && LineFree(x)
    ensures Headings(pre + "### " + x + "\n" + rest) == pre + H3Open + x + H3Close + Headings(rest)
  {
    var s := pre + "### " + x + "\n" + rest;
    assert s == pre + ("### " + x + "\n" + rest);
    HeadingAfter(s, pre, x, rest);
  }

  /** Without a line feed no heading is recognised: `### X` at the end of the
      reply stays literal. */
  lemma HeadingNeedsNewline(md: seq<char>)
    requires '\n' !in md
    ensures Headings(md) == md
  {
    NoTriggerUnchanged(Heading, md, true);
  }

  // ---- Bold (script.js:115) ----

  /** A bold span at the front of the rest of the input. */
  lemma BoldMatch(t: seq<char>, x: seq<char>, rest: seq<char>)
    requires t == "**" + x + "**" + rest && '*' !in x && LineFree(x)
    ensures BoldAt(t) == Some(Hit(|x| + 4, StrongOpen + x + StrongClose))
    ensures t[|x| + 4..] == rest
  {
    assert t[2..] == x + "**" + rest;
    LazyRunStops(x, "**", rest);
    assert t[2..2 + |x|] == x;
  }

  lemma BoldFront(t: seq<char>, b: bool, x: seq<char>, rest: seq<char>)
    requires t == "**" + x + "**" + rest && '*' !in x && LineFree(x)
    ensures Rewrite(Bold, t, b) == StrongOpen + x + StrongClose + Rewrite(Bold, rest, true)
  {
    BoldMatch(t, x, rest);
    var h := Hit(|x| + 4, StrongOpen + x + StrongClose);
    HitStep(Bold, t, b, h);
    FlagIrrelevant(Bold, rest, IsLineTerminator(t[h.len - 1]));
  }

  lemma BoldAfter(s: seq<char>, pre: seq<char>, x: seq<char>, rest: seq<char>)
    requires s == pre + ("**" + x + "**" + rest) && '*' !in pre && '*' !in x && LineFree(x)
    ensures Rewrite(Bold, s, true) == pre + StrongOpen + x + StrongClose + Rewrite(Bold, rest, true)
  {
    var t := "**" + x + "**" + rest;
    InertPrefix(Bold, pre, t, true);
    BoldFront(t, LineStartAfter(pre, true), x, rest);
    Regroup3(pre, StrongOpen, x, StrongClose, Rewrite(Bold, rest, true));
  }

  /** `**X**` becomes a strong span holding X when X holds no `*` and no line break. */
  lemma BoldSpan(pre: seq<char>, x: seq<char>, rest: seq<char>)
    requires '*' !in pre && '*' !in x && LineFree(x)
    ensures Bolds(pre + "**" + x + "**" + rest) == pre + StrongOpen + x + StrongClose + Bolds(rest)
  {
    var s := pre + "**" + x + "**" + rest;
    assert s == pre + ("**" + x + "**" + rest);
    BoldAfter(s, pre, x, rest);
  }

  lemma TwoBoldSteps(s: seq<char>, tail: seq<char>, t: seq<char>, a: seq<char>, b: seq<char>)
    requires s == "**" + a + "**" + tail && tail == " " + t && t == "**" + b + "**" + []
    requires '*' !in a && '*' !in b && LineFree(a) && LineFree(b)
    ensures Rewrite(Bold, s, true) == StrongOpen + a + StrongClose + " " + StrongOpen + b + StrongClose
  {
    BoldFront(s, true, a, tail);
    InertPrefix(Bold, " ", t, true);
    BoldFront(t, LineStartAfter(" ", true), b, []);
    Chain(StrongOpen + a + StrongClose, Rewrite(Bold, tail, true), " ", Rewrite(Bold, t, LineStartAfter(" ", true)),
      StrongOpen, b, StrongClose, Rewrite(Bold, [], true));
  }

  /** Bold is shortest-span: `**a** **b**` gives two strong spans, not one. */
  lemma TwoBoldSpans(a: seq<char>, b: seq<char>)
    requires '*' !in a && '*' !in b && LineFree(a) && LineFree(b)
    ensures Bolds("**" + a + "** **" + b + "**")
         == StrongOpen + a + StrongClose + " " + StrongOpen + b + StrongClose
  {
    var t := "**" + b + "**";
    var tail := " " + t;
    var s := "**" + a + "** **" + b + "**";
    assert s == "**" + a + "**" + tail;
    assert t == "**" + b + "**" + [];
    TwoBoldSteps(s, tail, t, a, b);
  }

  /** A lone `*` that does not begin `**` is copied. */
  lemma LoneStar(t: seq<char>, b: bool)
    requires t == [] || t[0] != '*'
    ensures Rewrite(Bold, "*" + t, b) == "*" + Rewrite(Bold, t, false)
  {
    CopyStep(Bold, "*" + t, b);
    assert ("*" + t)[1..] == t;
  }

  /** `**` that no `**` closes on its line is copied. */
  lemma OpenStarsCopied(s: seq<char>, w: seq<char>, b: bool)
    requires s == "**" + w && LazyRun(w, "**").None? && (w == [] || w[0] != '*')
    ensures Rewrite(Bold, s, b) == "**" + Rewrite(Bold, w, false)
  {
    assert s[2..] == w;
    CopyStep(Bold, s, b);
    assert s[1..] == "*" + w;
    LoneStar(w, false);
  }

  /** An unclosed `**` stays literal. */
  lemma BoldUnclosed(x: seq<char>)
    requires '*' !in x
    ensures Bolds("**" + x) == "**" + x
  {
    RunNeedsDelimiter(x, "**");
    OpenStarsCopied("**" + x, x, true);
    NoTriggerUnchanged(Bold, x, false);
  }

  /** No `**` run is found past a line feed. */
  lemma NoRunAcrossLine(x: seq<char>, y: seq<char>)
    requires '*' !in x && '*' !in y
    ensures LazyRun(x + "\n" + y + "**", "**").None?
  {
    var u := x + "\n" + y + "**";
    LazyRunMeaning(u, "**");
    forall i | 0 <= i < |x| ensures u[i] != '*' {
      assert u[i] == x[i];
    }
    assert u[|x|] == '\n';
    forall k | 0 <= k <= |u| && OccursAt(u, k, "**") ensures !LineFree(u[..k]) {
      assert u[k] == u[k..k + 2][0];
      assert u[..k][|x|] == '\n';
    }
  }

  /** A bold span cannot cross a line break: `**a\nb**` stays literal. */
  lemma BoldStaysOnLine(x: seq<char>, y: seq<char>)
    requires '*' !in x && '*' !in y
    ensures Bolds("**" + x + "\n" + y + "**") == "**" + x + "\n" + y + "**"
  {
    var w := x + "\n" + y;
    NoRunAcrossLine(x, y);
    assert "**" + x + "\n" + y + "**" == "**" + (w + "**");
    OpenStarsCopied("**" + (w + "**"), w + "**", true);
    InertPrefix(Bold, w, "**", false);
    OpenStarsCopied("**", [], LineStartAfter(w, false));
  }

  // ---- Bullets (script.js:117) ----

  /** `* X` at a line start becomes a list item holding the rest of the line;
      the line's terminator is left in place. */
  lemma BulletAtLineStart(t: seq<char>, x: seq<char>, rest: seq<char>)
    requires t == "* " + x + rest && LineFree(x) && (rest == [] || IsLineTerminator(rest[0]))
    ensures Rewrite(Bullet, t, true) == LiOpen + x + LiClose + Rewrite(Bullet, rest, false)
  {
    assert t[2..] == x + rest;
    LineEndStops(x, rest);
    assert t[2..2 + |x|] == x;
    HitStep(Bullet, t, true, Hit(|x| + 2, LiOpen + x + LiClose));
    assert t[|x| + 2..] == rest;
  }

  /** A `* ` is made a list item only at a line start: where no `* ` starts a
      line, the bullet pass changes nothing. */
  lemma {:induction false} BulletsOnlyAtLineStart(s: seq<char>, b: bool)
    requires forall k :: 0 <= k < |s| - 1 && s[k] == '*' && s[k + 1] == ' ' ==> !LineStartAfter(s[..k], b)
    ensures Rewrite(Bullet, s, b) == s
    decreases |s|
  {
    if s != [] {
      assert s[..0] == [];
      BulletAtMeaning(s, b);
      CopyStep(Bullet, s, b);
      var f := IsLineTerminator(s[0]);
      forall k | 0 <= k < |s[1..]| - 1 && s[1..][k] == '*' && s[1..][k + 1] == ' '
        ensures !LineStartAfter(s[1..][..k], f)
      {
        LineStartShift(s, k, b);
      }
      BulletsOnlyAtLineStart(s[1..], f);
    }
  }

  /** `* ` anywhere but at a line start stays literal. */
  lemma BulletMidLine(t: seq<char>)
    ensures Rewrite(Bullet, "* " + t, false) == "* " + Rewrite(Bullet, t, false)
  {
    var s := "* " + t;
    CopyStep(Bullet, s, false);
    assert s[1..] == " " + t;
    CopyStep(Bullet, s[1..], false);
    assert s[1..][1..] == t;
  }

  lemma TwoBulletSteps(s: seq<char>, t: seq<char>, t2: seq<char>, a: seq<char>, b: seq<char>)
    requires s == "* " + a + t && t == "\n" + t2 && t2 == "* " + b + []
    requires LineFree(a) && LineFree(b)
    ensures Rewrite(Bullet, s, true) == LiOpen + a + LiClose + "\n" + LiOpen + b + LiClose
  {
    BulletAtLineStart(s, a, t);
    InertPrefix(Bullet, "\n", t2, false);
    assert LineStartAfter("\n", false);
    BulletAtLineStart(t2, b, []);
    Chain(LiOpen + a + LiClose, Rewrite(Bullet, t, false), "\n", Rewrite(Bullet, t2, true),
      LiOpen, b, LiClose, Rewrite(Bullet, [], false));
  }

  /** `* a\n* b` gives two list items, in order, with the line feed between them. */
  lemma TwoBulletLines(a: seq<char>, b: seq<char>)
    requires LineFree(a) && LineFree(b)
    ensures Bullets("* " + a + "\n* " + b) == LiOpen + a + LiClose + "\n" + LiOpen + b + LiClose
  {
    var t2 := "* " + b;
    var t := "\n" + t2;
    var s := "* " + a + "\n* " + b;
    assert s == "* " + a + t;
    assert t2 == "* " + b + [];
    TwoBulletSteps(s, t, t2, a, b);
  }

  // ---- Links (script.js:119) ----

  lemma LinkLabelStops(t: seq<char>, l: seq<char>, u: seq<char>, rest: seq<char>)
    requires t == "[" + l + "](" + u + ")" + rest && LineFree(l) && ']' !in l
    ensures LazyRun(t[1..], "](") == Some(|l|) && t[1..1 + |l|] == l
  {
    assert t[1..] == l + "](" + (u + ")" + rest);
    LazyRunStops(l, "](", u + ")" + rest);
  }

  lemma LinkTargetStops(t: seq<char>, l: seq<char>, u: seq<char>, rest: seq<char>)
    requires t == "[" + l + "](" + u + ")" + rest && LineFree(u) && ')' !in u
    ensures LazyRun(t[|l| + 3..], ")") == Some(|u|) && t[|l| + 3..|l| + 3 + |u|] == u
    ensures t[|l| + |u| + 4..] == rest
  {
    assert t[|l| + 3..] == u + ")" + rest;
    LazyRunStops(u, ")", rest);
  }

  /** The link pattern at the front of `t` takes the first `](` and the first `)`. */
  lemma LinkMatch(t: seq<char>, l: seq<char>, u: seq<char>, rest: seq<char>)
    requires t == "[" + l + "](" + u + ")" + rest
    requires LineFree(l) && ']' !in l && LineFree(u) && ')' !in u
    ensures LinkAt(t) == Some(Hit(|l| + |u| + 4, AnchorOpen + u + AnchorMid + l + AnchorClose))
    ensures t[|l| + |u| + 4..] == rest
  {
    LinkLabelStops(t, l, u, rest);
    LinkTargetStops(t, l, u, rest);
  }

  /** A link at the front of the rest of the input. */
  lemma LinkFront(t: seq<char>, b: bool, l: seq<char>, u: seq<char>, rest: seq<char>)
    requires t == "[" + l + "](" + u + ")" + rest
    requires LineFree(l) && ']' !in l && LineFree(u) && ')' !in u
    ensures Rewrite(Link, t, b) == AnchorOpen + u + AnchorMid + l + AnchorClose + Rewrite(Link, rest, true)
  {
    LinkMatch(t, l, u, rest);
    var h := Hit(|l| + |u| + 4, AnchorOpen + u + AnchorMid + l + AnchorClose);
    HitStep(Link, t, b, h);
    FlagIrrelevant(Link, rest, IsLineTerminator(t[h.len - 1]));
  }

  lemma LinkAfter(s: seq<char>, pre: seq<char>, l: seq<char>, u: seq<char>, rest: seq<char>)
    requires s == pre + ("[" + l + "](" + u + ")" + rest)
    requires '[' !in pre && LineFree(l) && ']' !in l && LineFree(u) && ')' !in u
    ensures Rewrite(Link, s, true) == pre + AnchorOpen + u + AnchorMid + l + AnchorClose + Rewrite(Link, rest, true)
  {
    var t := "[" + l + "](" + u + ")" + rest;
    InertPrefix(Link, pre, t, true);
    LinkFront(t, LineStartAfter(pre, true), l, u, rest);
    Regroup5(pre, AnchorOpen, u, AnchorMid, l, AnchorClose, Rewrite(Link, rest, true));
  }

  /** `[L](U)` becomes an anchor to U labelled L that opens in a new browsing
      context with `noopener noreferrer`; U and L are inserted as they are. */
  lemma LinkSpan(pre: seq<char>, l: seq<char>, u: seq<char>, rest: seq<char>)
    requires '[' !in pre && LineFree(l) && ']' !in l && LineFree(u) && ')' !in u
    ensures Links(pre + "[" + l + "](" + u + ")" + rest)
         == pre + AnchorOpen + u + AnchorMid + l + AnchorClose + Links(rest)
  {
    var s := pre + "[" + l + "](" + u + ")" + rest;
    assert s == pre + ("[" + l + "](" + u + ")" + rest);
    LinkAfter(s, pre, l, u, rest);
  }

  // ---- The pass order (script.js:111-123) ----

  /** The heading markup around line-free text holds no character a later
      pass reacts to unless the text does. */
  lemma H3Avoids(x: seq<char>, c: char)
    requires Reserved(c) && c !in x
    ensures c !in H3Open + x + H3Close
  {
    H3OpenAvoids(c);
    ShortMarkupAvoids(c);
  }

  lemma LineFreeNoNewline(x: seq<char>)
    ensures LineFree(x) ==> '\n' !in x
  {
    if '\n' in x {
      var i :| 0 <= i < |x| && x[i] == '\n';
      assert IsLineTerminator(x[i]);
    }
  }

  lemma OrderHeadings(md: seq<char>, a: seq<char>, x: seq<char>, y: seq<char>)
    requires md == "### " + x + "\n" + ("* " + y + "\n") && a == H3Open + x + H3Close
    requires LineFree(x) && '#' !in y
    ensures Headings(md) == a + ("* " + y + "\n")
  {
    HeadingFront(md, true, x, "* " + y + "\n");
    NoLeadUnchanged(Heading, "* " + y + "\n", true);
  }

  lemma OrderBolds(h: seq<char>, a: seq<char>, y: seq<char>)
    requires h == a + ("* " + y + "\n") && '*' !in a && '*' !in y
    ensures Bolds(h) == h
  {
    var t := " " + y + "\n";
    assert "* " + y + "\n" == "*" + t;
    InertPrefix(Bold, a, "*" + t, true);
    LoneStar(t, LineStartAfter(a, true));
    NoLeadUnchanged(Bold, t, false);
  }

  lemma OrderBullets(h: seq<char>, a: seq<char>, y: seq<char>)
    requires h == a + ("* " + y + "\n") && '*' !in a && '*' !in y && a != [] && a[|a| - 1] == '>'
    ensures Bullets(h) == h
  {
    InertPrefix(Bullet, a, "* " + (y + "\n"), true);
    assert "* " + y + "\n" == "* " + (y + "\n");
    BulletMidLine(y + "\n");
    NoLeadUnchanged(Bullet, y + "\n", false);
  }

  lemma OrderBreaks(h: seq<char>, c: seq<char>)
    requires h == c + "\n" && '\n' !in c
    ensures LineBreaks(h) == c + Br
  {
    LineBreaksSplit(c, "\n");
    NoTriggerUnchanged(LineBreak, c, true);
  }

  /** The heading consumes its line feed, so a `* ` line right after a heading
      no longer starts a line and stays literal:
      `### X\n* Y\n` becomes the h3 holding X, then `* Y<br>`. */
  lemma HeadingThenBullet(x: seq<char>, y: seq<char>)
    requires LineFree(x) && LineFree(y)
    requires '#' !in x && '*' !in x && '[' !in x && '#' !in y && '*' !in y && '[' !in y
    ensures MarkdownToHtml("### " + x + "\n* " + y + "\n") == H3Open + x + H3Close + "* " + y + Br
  {
    var a := H3Open + x + H3Close;
    var md := "### " + x + "\n* " + y + "\n";
    var h := a + ("* " + y + "\n");
    var c := a + "* " + y;
    assert md == "### " + x + "\n" + ("* " + y + "\n");
    assert h == c + "\n";
    LineFreeNoNewline(x);
    LineFreeNoNewline(y);
    H3Avoids(x, '*');
    H3Avoids(x, '[');
    H3Avoids(x, '\n');
    assert a[|a| - 1] == H3Close[4];
    OrderHeadings(md, a, x, y);
    OrderBolds(h, a, y);
    OrderBullets(h, a, y);
    NoTriggerUnchanged(Link, h, true);
    OrderBreaks(h, c);
  }
}
