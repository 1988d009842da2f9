/** How one pass of the formatter proceeds over a concrete input: a copied
    character, a replaced match, inert text in front, and where the lazy runs
    stop. The sequence lemmas at the end regroup concatenations apart from the
    passes, where the solver handles them cheaply. */
module MarkdownSteps {
  import opened Wrappers
  import opened Markdown

  /** What a multiline `^` sees after `pre` has been consumed. */
  function LineStartAfter(pre: seq<char>, atLineStart: bool): bool {
    if pre == [] then atLineStart else IsLineTerminator(pre[|pre| - 1])
  }

  /** Where no match starts, the pass copies one character. */
  lemma CopyStep(rule: Rule, s: seq<char>, b: bool)
    requires s != [] && MatchAt(rule, s, b).None?
    ensures Rewrite(rule, s, b) == [s[0]] + Rewrite(rule, s[1..], IsLineTerminator(s[0]))
  {
  }

  /** Where a match starts, the pass emits its replacement and resumes after it. */
  lemma HitStep(rule: Rule, s: seq<char>, b: bool, h: Hit)
    requires s != [] && MatchAt(rule, s, b) == Some(h)
    ensures 0 < h.len <= |s|
    ensures Rewrite(rule, s, b) == h.out + Rewrite(rule, s[h.len..], IsLineTerminator(s[h.len - 1]))
  {
  }

  /** One copied character at the front of a longer text. */
  lemma CopyFront(rule: Rule, pre: seq<char>, t: seq<char>, b: bool)
    requires pre != [] && Lead(rule) !in pre
    ensures Rewrite(rule, pre + t, b) == [pre[0]] + Rewrite(rule, pre[1..] + t, IsLineTerminator(pre[0]))
  {
    var s := pre + t;
    assert s[0] == pre[0];
    CopyStep(rule, s, b);
    assert s[1..] == pre[1..] + t;
  }

  /** One copied character in front of the rest of a copied prefix gives
      the whole prefix. */
  lemma Glue(r0: seq<char>, c: char, r1: seq<char>, r2: seq<char>, pre: seq<char>)
    requires pre != [] && c == pre[0] && r0 == [c] + r1 && r1 == pre[1..] + r2
    ensures r0 == pre + r2
  {
    assert pre == [c] + pre[1..];
  }

  /** Text before the first character any match could start with is copied as it is. */
  lemma {:induction false} InertPrefix(rule: Rule, pre: seq<char>, t: seq<char>, b: bool)
    requires Lead(rule) !in pre
    ensures Rewrite(rule, pre + t, b) == pre + Rewrite(rule, t, LineStartAfter(pre, b))
    decreases |pre|
  {
    if pre == [] {
      assert pre + t == t;
    } else {
      var f := IsLineTerminator(pre[0]);
      CopyFront(rule, pre, t, b);
      InertPrefix(rule, pre[1..], t, f);
      assert LineStartAfter(pre[1..], f) == LineStartAfter(pre, b);
      Glue(Rewrite(rule, pre + t, b), pre[0], Rewrite(rule, pre[1..] + t, f), Rewrite(rule, t, LineStartAfter(pre, b)), pre);
    }
  }

  /** Only the bullet pattern looks at the line-start flag. */
  lemma {:induction false} FlagIrrelevant(rule: Rule, s: seq<char>, b: bool)
    requires rule != Bullet
    ensures Rewrite(rule, s, b) == Rewrite(rule, s, true)
    decreases |s|
  {
    if s != [] {
      assert MatchAt(rule, s, b) == MatchAt(rule, s, true);
      match MatchAt(rule, s, b)
      case Some(h) => FlagIrrelevant(rule, s[h.len..], IsLineTerminator(s[h.len - 1]));
      case None => FlagIrrelevant(rule, s[1..], IsLineTerminator(s[0]));
    }
  }

  /** Where `d` first occurs on the line, the lazy run stops there. */
  lemma {:induction false} LazyRunStops(pre: seq<char>, d: seq<char>, post: seq<char>)
    requires d != [] && LineFree(pre) && d[0] !in pre
    ensures LazyRun(pre + d + post, d) == Some(|pre|)
    decreases |pre|
  {
    var s := pre + d + post;
    if pre == [] {
      assert s == d + post;
    } else {
      assert s[0] == pre[0] && !IsLineTerminator(pre[0]);
      assert s[1..] == pre[1..] + d + post;
      LazyRunStops(pre[1..], d, post);
    }
  }

  /** Text without the rule's lead character is copied whole. */
  lemma NoLeadUnchanged(rule: Rule, s: seq<char>, b: bool)
    requires Lead(rule) !in s
    ensures Rewrite(rule, s, b) == s
  {
    InertPrefix(rule, s, [], b);
    assert s + [] == s;
  }

  /** The line-start flag seen at index `k + 1` of `s` is the one seen at
      index `k` of `s[1..]` once `s[0]` has been consumed. */
  lemma LineStartShift(s: seq<char>, k: nat, b: bool)
    requires k + 1 <= |s|
    ensures LineStartAfter(s[1..][..k], IsLineTerminator(s[0])) == LineStartAfter(s[..k + 1], b)
  {
    if k > 0 {
      assert s[1..][..k][k - 1] == s[..k + 1][k];
    }
  }

  /** A run is found only where `d`'s first character occurs. */
  lemma RunNeedsDelimiter(s: seq<char>, d: seq<char>)
    requires d != []
    ensures LazyRun(s, d).Some? ==> d[0] in s
  {
    if LazyRun(s, d).Some? {
      var k := LazyRun(s, d).value;
      assert s[k] == s[k..k + |d|][0];
    }
  }

  /** The multiline `$` stops at the first line terminator. */
  lemma {:induction false} LineEndStops(x: seq<char>, t: seq<char>)
    requires LineFree(x) && (t == [] || IsLineTerminator(t[0]))
    ensures LineEnd(x + t) == |x|
    decreases |x|
  {
    if x == [] {
      assert x + t == t;
    } else {
      assert (x + t)[0] == x[0];
      assert (x + t)[1..] == x[1..] + t;
      LineEndStops(x[1..], t);
    }
  }

  /** A replacement followed by the rest of a pass keeps every character
      drawn from the input or the markup. */
  lemma CharsGlue(s: seq<char>, n: nat, out: seq<char>, r: seq<char>)
    requires n <= |s|
    requires forall c :: c in out ==> c in s || c in Markup
    requires forall c :: c in r ==> c in s[n..] || c in Markup
    ensures forall c :: c in out + r ==> c in s || c in Markup
  {
    assert forall c :: c in s[n..] ==> c in s;
  }

  /** Concatenation regrouped, kept apart from the passes so that the
      solver sees only sequences here. */
  lemma Regroup3(p: seq<char>, a: seq<char>, b: seq<char>, c: seq<char>, r: seq<char>)
    ensures p + (a + b + c + r) == p + a + b + c + r
  {
  }

  /** As `Regroup3`, for a replacement of five pieces. */
  lemma Regroup5(p: seq<char>, a: seq<char>, b: seq<char>, c: seq<char>, d: seq<char>, e: seq<char>, r: seq<char>)
    ensures p + (a + b + c + d + e + r) == p + a + b + c + d + e + r
  {
  }

  /** Two replacements with a separator between them and nothing after. */
  lemma Chain(x: seq<char>, r1: seq<char>, sep: seq<char>, r2: seq<char>, a: seq<char>, b: seq<char>, c: seq<char>, r3: seq<char>)
    requires r1 == sep + r2 && r2 == a + b + c + r3 && r3 == []
    ensures x + r1 == x + sep + a + b + c
  {
  }
}
