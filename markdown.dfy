/** The reply formatter `markdownToHtml` (script.js:111-123): five global
    regular-expression replacements applied one after the other.

    Every pass is an instance of one engine, `Rewrite`, which follows the
    semantics of JavaScript's `String.prototype.replace` with a global regex:
    the input is scanned left to right; where the pattern matches, the match is
    replaced and scanning resumes after it; elsewhere one character is copied.
    None of the five patterns can match the empty string. */
module Markdown {
  import opened Wrappers

  /** The characters a JavaScript `.` refuses and a multiline `^`/`$` looks for. */
  predicate IsLineTerminator(c: char) {
    c == '\n' || c == '\r' || c == '\U{2028}' || c == '\U{2029}'
  }

  /** `t` could be matched by `.*` */
  predicate LineFree(t: seq<char>) {
    forall i :: 0 <= i < |t| ==> !IsLineTerminator(t[i])
  }

  /** `d` occurs in `s` starting at index `k` */
  predicate OccursAt(s: seq<char>, k: nat, d: seq<char>) {
    k + |d| <= |s| && s[k..k + |d|] == d
  }

  // The fixed markup the replacement strings insert around the captured groups.
  const H3Open: string := "<h3 class=\"text-lg font-semibold mt-4 mb-2\">"
  const H3Close: string := "</h3>"
  const StrongOpen: string := "<strong>"
  const StrongClose: string := "</strong>"
  const LiOpen: string := "<li class=\"ml-4 list-disc\">"
  const LiClose: string := "</li>"
  const AnchorOpen: string := "<a href=\""
  const AnchorTarget: string := "\" target=\"_blank\""
  const AnchorRel: string := " rel=\"noopener noreferrer\""
  const AnchorClass: string := " class=\"text-blue-300 hover:underline\">"
  /** Closes the href and opens the link in a new browsing context that gets no
      handle on this page and no referrer. */
  const AnchorMid: string := AnchorTarget + AnchorRel + AnchorClass
  const AnchorClose: string := "</a>"
  const Br: string := "<br>"

  /** All inserted markup, for statements about which characters a pass can introduce. */
  const Markup: string :=
    H3Open + H3Close + StrongOpen + StrongClose + LiOpen + LiClose + AnchorOpen + AnchorMid + AnchorClose + Br

  /** The lazy group `(.*?)` followed by the literal `d`: the length of the
      shortest run at the front of `s` that holds no line terminator and is
      followed by `d`; `None` when a line terminator or the end of `s` comes first. */
  function LazyRun(s: seq<char>, d: seq<char>): (r: Option<nat>)
    requires d != []
    ensures r.Some? ==> OccursAt(s, r.value, d)
    decreases |s|
  {
    if d <= s then Some(0)
    else if s == [] || IsLineTerminator(s[0]) then None
    else
      match LazyRun(s[1..], d)
      case Some(k) =>
        assert s[1..][k..k + |d|] == s[k + 1..k + 1 + |d|];
        Some(k + 1)
      case None => None
  }

  /** The lazy `(.*?)$` of a multiline regex: the length of the run up to the
      first line terminator, or to the end of `s`. */
  function LineEnd(s: seq<char>): (k: nat)
    ensures k <= |s|
    decreases |s|
  {
    if s == [] || IsLineTerminator(s[0]) then 0
    else 1 + LineEnd(s[1..])
  }

  /** `s[m..]` seen from index `m` of `s`. */
  lemma ShiftedSuffix(s: seq<char>, m: nat, d: seq<char>)
    requires m <= |s|
    ensures forall j :: 0 <= j <= |s| - m ==> s[m..][..j] == s[m..m + j]
    ensures forall j :: 0 <= j && OccursAt(s[m..], j, d) ==> OccursAt(s, m + j, d)
    ensures forall j :: m <= j && OccursAt(s, j, d) ==> OccursAt(s[m..], j - m, d)
  {
    forall j | 0 <= j && OccursAt(s[m..], j, d) ensures OccursAt(s, m + j, d) {
      assert s[m..][j..j + |d|] == s[m + j..m + j + |d|];
    }
    forall j | m <= j && OccursAt(s, j, d) ensures OccursAt(s[m..], j - m, d) {
      assert s[m..][j - m..j - m + |d|] == s[j..j + |d|];
    }
  }

  /** A result of trying one pattern at the front of the remaining input:
      the number of characters consumed and the replacement text. */
  datatype Hit = Hit(len: nat, out: seq<char>)

  /** The five patterns, in the order the formatter applies them. */
  datatype Rule = Heading | Bold | Bullet | Link | LineBreak

  /** The character every match of the rule starts with. */
  function Lead(rule: Rule): char {
    match rule
    case Heading => '#'
    case Bold => '*'
    case Bullet => '*'
    case Link => '['
    case LineBreak => '\n'
  }

  /** `/### (.*?)\n/` at the front of `s`: the heading text is the run up to
      the first line terminator, and that terminator must be a `\n`, which the
      match consumes. */
  function HeadingAt(s: seq<char>): (r: Option<Hit>)
    ensures r.Some? ==> 0 < r.value.len <= |s| && s[0] == '#'
  {
    if "### " <= s then
      match LazyRun(s[4..], "\n")
      case Some(k) => Some(Hit(4 + k + 1, H3Open + s[4..4 + k] + H3Close))
      case None => None
    else None
  }

  // The pattern /\*\*(.*?)\*\*/ at the front of `s`: the shortest
  // line-terminator-free span between this `**` and the next.
  function BoldAt(s: seq<char>): (r: Option<Hit>)
    ensures r.Some? ==> 0 < r.value.len <= |s| && s[0] == '*'
  {
    if "**" <= s then
      match LazyRun(s[2..], "**")
      case Some(k) => Some(Hit(2 + k + 2, StrongOpen + s[2..2 + k] + StrongClose))
      case None => None
    else None
  }

  /** `/^\* (.*?)$/m` at the front of `s`: only at a line start, and then the
      item text is the rest of the line, without its terminator. */
  function BulletAt(s: seq<char>, atLineStart: bool): (r: Option<Hit>)
    ensures r.Some? ==> 0 < r.value.len <= |s| && s[0] == '*'
  {
    if atLineStart && "* " <= s then
      var k := LineEnd(s[2..]);
      Some(Hit(2 + k, LiOpen + s[2..2 + k] + LiClose))
    else None
  }

  /** The replacement `<a href="$2" ...>$1</a>` for a link whose label is
      `s[1..1 + k1]` and whose target is the `k2` characters after `](`. */
  function LinkHit(s: seq<char>, k1: nat, k2: nat): Hit
    requires 1 + k1 + 2 + k2 + 1 <= |s|
  {
    Hit(1 + k1 + 2 + k2 + 1, AnchorOpen + s[1 + k1 + 2..1 + k1 + 2 + k2] + AnchorMid + s[1..1 + k1] + AnchorClose)
  }

  /** `/\[(.*?)\]\((.*?)\)/` at the front of `s`: the first `](` on the line,
      then the first `)` after it on the line. */
  function LinkAt(s: seq<char>): (r: Option<Hit>)
    ensures r.Some? ==> 0 < r.value.len <= |s| && s[0] == '['
  {
    if "[" <= s then
      match LazyRun(s[1..], "](")
      case Some(k1) =>
        (match LazyRun(s[1 + k1 + 2..], ")")
         case Some(k2) => Some(LinkHit(s, k1, k2))
         case None => None)
      case None => None
    else None
  }

  /** `/\n/`: a line feed becomes `<br>`. */
  function LineBreakAt(s: seq<char>): Option<Hit>
    requires s != []
  {
    if s[0] == '\n' then Some(Hit(1, Br)) else None
  }

  /** A character without which the rule's pattern cannot match anywhere. */
  function Trigger(rule: Rule): char {
    match rule
    case Heading => '\n'
    case Bold => '*'
    case Bullet => '*'
    case Link => '['
    case LineBreak => '\n'
  }

  /** The rule's pattern tried at the front of `s`; `atLineStart` says whether
      the preceding input character (if any) was a line terminator. */
  function MatchAt(rule: Rule, s: seq<char>, atLineStart: bool): (r: Option<Hit>)
    requires s != []
    ensures r.Some? ==> 0 < r.value.len <= |s| && s[0] == Lead(rule)
  {
    match rule
    case Heading => HeadingAt(s)
    case Bold => BoldAt(s)
    case Bullet => BulletAt(s, atLineStart)
    case Link => LinkAt(s)
    case LineBreak => LineBreakAt(s)
  }

  /** `s.replace(pattern, replacement)` with a global regex, over the rest of the
      input `s`; `atLineStart` says whether the input consumed so far is empty or
      ends in a line terminator (what a multiline `^` looks at). */
  function Rewrite(rule: Rule, s: seq<char>, atLineStart: bool): seq<char>
    decreases |s|
  {
    if s == [] then []
    else
      match MatchAt(rule, s, atLineStart)
      case Some(h) => h.out + Rewrite(rule, s[h.len..], IsLineTerminator(s[h.len - 1]))
      case None => [s[0]] + Rewrite(rule, s[1..], IsLineTerminator(s[0]))
  }

  function Headings(md: seq<char>): seq<char> { Rewrite(Heading, md, true) }
  function Bolds(md: seq<char>): seq<char> { Rewrite(Bold, md, true) }
  function Bullets(md: seq<char>): seq<char> { Rewrite(Bullet, md, true) }
  function Links(md: seq<char>): seq<char> { Rewrite(Link, md, true) }
  function LineBreaks(md: seq<char>): seq<char> { Rewrite(LineBreak, md, true) }

  /** `markdownToHtml`: the five passes in the source's order. */
  function MarkdownToHtml(md: seq<char>): seq<char> {
    LineBreaks(Links(Bullets(Bolds(Headings(md)))))
  }
}
