/** What each pattern of the formatter finds at the front of the remaining
    input, stated in the regular expression's own terms (script.js:113-121). */
module MarkdownPatterns {
  import opened Wrappers
  import opened Markdown

  /** An occurrence one step further into `s`. */
  lemma OccursShift(s: seq<char>, j: nat, d: seq<char>)
    requires 1 <= j
    ensures OccursAt(s, j, d) <==> |s| > 0 && OccursAt(s[1..], j - 1, d)
  {
    if j + |d| <= |s| {
      assert s[1..][j - 1..j - 1 + |d|] == s[j..j + |d|];
    }
  }

  /** `d` occurs at index 0 exactly when it is a prefix. */
  lemma OccursFront(s: seq<char>, d: seq<char>)
    ensures OccursAt(s, 0, d) <==> d <= s
  {
  }

  /** The lazy run `(.*?)d` is the shortest one: it holds no line terminator,
      `d` follows it and occurs nowhere earlier; when there is none, every
      occurrence of `d` lies past a line terminator. */
  lemma {:induction false} LazyRunMeaning(s: seq<char>, d: seq<char>)
    requires d != []
    ensures LazyRun(s, d).Some? ==> LineFree(s[..LazyRun(s, d).value])
    ensures LazyRun(s, d).Some? ==> forall j :: 0 <= j < LazyRun(s, d).value ==> !OccursAt(s, j, d)
    ensures LazyRun(s, d).None? ==> forall k :: 0 <= k <= |s| && OccursAt(s, k, d) ==> !LineFree(s[..k])
    decreases |s|
  {
    OccursFront(s, d);
    if d <= s {
    } else if s == [] {
    } else if IsLineTerminator(s[0]) {
      forall k | 0 <= k <= |s| && OccursAt(s, k, d) ensures !LineFree(s[..k]) {
        assert s[..k][0] == s[0];
      }
    } else {
      LazyRunMeaning(s[1..], d);
      match LazyRun(s[1..], d)
      case Some(k) =>
        assert s[..k + 1] == [s[0]] + s[1..][..k];
        forall j | 1 <= j < k + 1 ensures !OccursAt(s, j, d) {
          OccursShift(s, j, d);
        }
      case None =>
        forall j | 1 <= j <= |s| && OccursAt(s, j, d) ensures !LineFree(s[..j]) {
          OccursShift(s, j, d);
          var i :| 0 <= i < j - 1 && IsLineTerminator(s[1..][..j - 1][i]);
          assert s[..j][i + 1] == s[1..][..j - 1][i];
        }
    }
  }

  /** The multiline `(.*?)$` stops at the first line terminator or the end. */
  lemma {:induction false} LineEndMeaning(s: seq<char>)
    ensures LineFree(s[..LineEnd(s)])
    ensures LineEnd(s) < |s| ==> IsLineTerminator(s[LineEnd(s)])
    decreases |s|
  {
    if s != [] && !IsLineTerminator(s[0]) {
      LineEndMeaning(s[1..]);
      assert s[..LineEnd(s)] == [s[0]] + s[1..][..LineEnd(s[1..])];
    }
  }

  /** `/### (.*?)\n/` at the front of `s`: the heading text is the run up to
      the first line terminator, and that terminator must be a `\n`, which the
      match consumes; with no such run there is no match. */
  lemma HeadingAtMeaning(s: seq<char>)
    ensures HeadingAt(s).Some? ==> var n := HeadingAt(s).value.len;
      5 <= n <= |s| && "### " <= s && s[n - 1] == '\n' && LineFree(s[4..n - 1])
      && HeadingAt(s).value.out == H3Open + s[4..n - 1] + H3Close
    ensures HeadingAt(s).None? ==>
      !("### " <= s) || forall k :: 4 <= k < |s| && s[k] == '\n' ==> !LineFree(s[4..k])
  {
    if "### " <= s {
      ShiftedSuffix(s, 4, "\n");
      LazyRunMeaning(s[4..], "\n");
      if HeadingAt(s).None? {
        forall k | 4 <= k < |s| && s[k] == '\n' ensures !LineFree(s[4..k]) {
          assert OccursAt(s, k, "\n");
        }
      }
    }
  }

  // The pattern /\*\*(.*?)\*\*/ at the front of `s`: the shortest
  // line-terminator-free span between this `**` and the next; with no such
  // span there is no match.
  lemma BoldAtMeaning(s: seq<char>)
    ensures BoldAt(s).Some? ==> var n := BoldAt(s).value.len;
      4 <= n <= |s| && "**" <= s && OccursAt(s, n - 2, "**") && LineFree(s[2..n - 2])
      && (forall j :: 2 <= j < n - 2 ==> !OccursAt(s, j, "**"))
      && BoldAt(s).value.out == StrongOpen + s[2..n - 2] + StrongClose
    ensures BoldAt(s).None? ==>
      !("**" <= s) || forall k :: 2 <= k && OccursAt(s, k, "**") ==> !LineFree(s[2..k])
  {
    if "**" <= s {
      ShiftedSuffix(s, 2, "**");
      LazyRunMeaning(s[2..], "**");
    }
  }

  /** `/^\* (.*?)$/m` at the front of `s`: a match exactly at a line start that
      begins `* `, and then the item text is the rest of the line, without its
      terminator. */
  lemma BulletAtMeaning(s: seq<char>, atLineStart: bool)
    ensures BulletAt(s, atLineStart).Some? <==> atLineStart && "* " <= s
    ensures BulletAt(s, atLineStart).Some? ==> var n := BulletAt(s, atLineStart).value.len;
      2 <= n <= |s| && LineFree(s[2..n]) && (n < |s| ==> IsLineTerminator(s[n]))
      && BulletAt(s, atLineStart).value.out == LiOpen + s[2..n] + LiClose
  {
    if atLineStart && "* " <= s {
      LineEndMeaning(s[2..]);
      assert s[2..][..LineEnd(s[2..])] == s[2..2 + LineEnd(s[2..])];
    }
  }

  /** A pass can only match where its input holds the rule's trigger character. */
  lemma MatchTrigger(rule: Rule, s: seq<char>, atLineStart: bool)
    requires s != []
    ensures MatchAt(rule, s, atLineStart).Some? ==> Trigger(rule) in s
  {
    if rule == Heading && HeadingAt(s).Some? {
      HeadingAtMeaning(s);
    }
  }

  /** A replacement holds only characters of the matched input and of the fixed markup. */
  lemma MatchChars(rule: Rule, s: seq<char>, atLineStart: bool)
    requires s != []
    ensures MatchAt(rule, s, atLineStart).Some? ==>
      forall c :: c in MatchAt(rule, s, atLineStart).value.out ==> c in s || c in Markup
  {
    match rule
    case Heading => HeadingChars(s);
    case Bold => BoldChars(s);
    case Bullet => BulletChars(s, atLineStart);
    case Link => LinkChars(s);
    case LineBreak =>
  }

  lemma HeadingChars(s: seq<char>)
    ensures HeadingAt(s).Some? ==> forall c :: c in HeadingAt(s).value.out ==> c in s || c in Markup
  {
  }

  lemma BoldChars(s: seq<char>)
    ensures BoldAt(s).Some? ==> forall c :: c in BoldAt(s).value.out ==> c in s || c in Markup
  {
  }

  lemma BulletChars(s: seq<char>, atLineStart: bool)
    ensures BulletAt(s, atLineStart).Some? ==>
      forall c :: c in BulletAt(s, atLineStart).value.out ==> c in s || c in Markup
  {
  }

  lemma LinkChars(s: seq<char>)
    ensures LinkAt(s).Some? ==> forall c :: c in LinkAt(s).value.out ==> c in s || c in Markup
  {
  }

  /** The regular expression's own reading of a link at the front of `s`:
      `[`, a line-free label of `k1` characters, `](`, a line-free target of
      `k2` characters, `)`. */
  predicate LinkShape(s: seq<char>, k1: nat, k2: nat) {
    1 + k1 + 2 + k2 + 1 <= |s| && s[0] == '[' && OccursAt(s, 1 + k1, "](") && LineFree(s[1..1 + k1])
    && s[1 + k1 + 2 + k2] == ')' && LineFree(s[1 + k1 + 2..1 + k1 + 2 + k2])
  }

  /** Any link reading puts a `](` after a line-free run. */
  lemma LinkLabelRun(s: seq<char>, j1: nat, j2: nat)
    requires LinkShape(s, j1, j2)
    ensures OccursAt(s[1..], j1, "](") && LineFree(s[1..][..j1])
  {
    assert s[1..][..j1] == s[1..1 + j1];
    assert s[1..][j1..j1 + 2] == s[1 + j1..1 + j1 + 2];
  }

  /** The first `](` on the line bounds every reading's label from below;
      without one there is no reading at all. */
  lemma LinkLabelFirst(s: seq<char>)
    requires "[" <= s
    ensures LazyRun(s[1..], "](").None? ==> forall j1: nat, j2: nat :: !LinkShape(s, j1, j2)
    ensures LazyRun(s[1..], "](").Some? ==>
      forall j1: nat, j2: nat :: LinkShape(s, j1, j2) ==> LazyRun(s[1..], "](").value <= j1
  {
    LazyRunMeaning(s[1..], "](");
    forall j1: nat, j2: nat | LinkShape(s, j1, j2)
      ensures LazyRun(s[1..], "](").Some? && LazyRun(s[1..], "](").value <= j1
    {
      LinkLabelRun(s, j1, j2);
    }
  }

  /** From index `q` on, a reading whose `](` is not before `q` runs line-free
      up to its closing `)`. */
  lemma LinkTargetRun(s: seq<char>, q: nat, j1: nat, j2: nat)
    requires LinkShape(s, j1, j2) && 1 <= q <= 1 + j1 + 2
    ensures OccursAt(s[q..], 1 + j1 + 2 + j2 - q, ")") && LineFree(s[q..][..1 + j1 + 2 + j2 - q])
  {
    var m := 1 + j1 + 2 + j2 - q;
    var u := s[q..];
    assert u[m..m + 1] == [s[1 + j1 + 2 + j2]];
    forall i | 0 <= i < m ensures !IsLineTerminator(u[..m][i]) {
      var p := q + i;
      assert u[..m][i] == s[p];
      if p < 1 + j1 {
        assert s[p] == s[1..1 + j1][p - 1];
      } else if p < 1 + j1 + 2 {
        assert s[p] == s[1 + j1..1 + j1 + 2][p - 1 - j1];
      } else {
        assert s[p] == s[1 + j1 + 2..1 + j1 + 2 + j2][p - 1 - j1 - 2];
      }
    }
  }

  /** After the first `](`, the first `)` on the line bounds the target of
      every reading with that label from below; without one there is no reading. */
  lemma LinkTargetFirst(s: seq<char>, k1: nat)
    requires 1 + k1 + 2 <= |s|
    requires forall j1: nat, j2: nat :: LinkShape(s, j1, j2) ==> k1 <= j1
    ensures LazyRun(s[1 + k1 + 2..], ")").None? ==> forall j1: nat, j2: nat :: !LinkShape(s, j1, j2)
    ensures LazyRun(s[1 + k1 + 2..], ")").Some? ==>
      forall j2: nat :: LinkShape(s, k1, j2) ==> LazyRun(s[1 + k1 + 2..], ")").value <= j2
  {
    var q := 1 + k1 + 2;
    LazyRunMeaning(s[q..], ")");
    forall j1: nat, j2: nat | LinkShape(s, j1, j2)
      ensures LazyRun(s[q..], ")").Some? && (j1 == k1 ==> LazyRun(s[q..], ")").value <= j2)
    {
      LinkTargetRun(s, q, j1, j2);
    }
  }

  /** The link matcher agrees with the backtracking regex: it finds a match
      exactly when the regex can read a link at the front of `s`, and then the
      reading the lazy groups prefer: the shortest label, and for it the
      shortest target. */
  lemma LinkAtIsLeastMatch(s: seq<char>)
    ensures LinkAt(s).None? ==> forall k1: nat, k2: nat :: !LinkShape(s, k1, k2)
    ensures LinkAt(s).Some? ==>
      exists k1: nat, k2: nat :: LinkShape(s, k1, k2) && LinkAt(s) == Some(LinkHit(s, k1, k2))
        && (forall j1: nat, j2: nat :: LinkShape(s, j1, j2) ==> k1 < j1 || (k1 == j1 && k2 <= j2))
  {
    if "[" <= s {
      LinkLabelFirst(s);
      match LazyRun(s[1..], "](")
      case None =>
      case Some(k1) =>
        var q := 1 + k1 + 2;
        LinkTargetFirst(s, k1);
        match LazyRun(s[q..], ")")
        case None =>
        case Some(k2) =>
          LazyRunMeaning(s[1..], "](");
          LazyRunMeaning(s[q..], ")");
          assert s[1..][..k1] == s[1..1 + k1];
          assert s[q..][..k2] == s[q..q + k2];
          assert s[1..][k1..k1 + 2] == s[1 + k1..1 + k1 + 2];
          assert LinkShape(s, k1, k2);
    } else {
      assert forall k1: nat, k2: nat :: LinkShape(s, k1, k2) ==> "[" <= s;
    }
  }
}
