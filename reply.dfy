/** The outcome handling of `callGeminiAPI` (script.js:87-104): which markup
    the assistant entry shows for each way the request can end. */
module Reply {
  import opened Wrappers
  import opened Markdown
  import opened MarkdownProps

  datatype ReplyPart = ReplyPart(text: Option<string>)

  datatype ReplyContent = ReplyContent(parts: Option<seq<Option<ReplyPart>>>)

  datatype Candidate = Candidate(content: Option<ReplyContent>)

  /** The parsed JSON body; an absent field and a JSON `null` are both `None`. */
  datatype Envelope = Envelope(candidates: Option<seq<Option<Candidate>>>)

  /** How the request ended: a response whose `ok` is false (its body only
      goes to the console), an ok response with its parsed body, or an
      exception (the network failed, or the body was not JSON). */
  datatype Outcome = NotOk(status: int) | Ok(body: Envelope) | Threw

  /** `xs?.[0]`: the first element, when the array is there, is not empty
      and does not start with `null`. */
  function First<T>(xs: Option<seq<Option<T>>>): Option<T> {
    if xs.Some? && |xs.value| > 0 then xs.value[0] else None
  }

  /** `result.candidates?.[0]` and then `candidate.content?.parts?.[0]?.text`,
      without the truthiness test. */
  function FirstText(e: Envelope): Option<string> {
    match First(e.candidates)
    case None => None
    case Some(c) =>
      if c.content.None? then None
      else
        match First(c.content.value.parts)
        case None => None
        case Some(p) => p.text
  }

  /** The test at script.js:95: the first part's text, kept only when it is
      truthy, that is a non-empty string. */
  function ReplyText(e: Envelope): Option<string> {
    match FirstText(e)
    case Some(t) => if t != [] then Some(t) else None
    case None => None
  }

  // The fixed error message of script.js:104. Concatenated, the pieces are
  // exactly that literal; they are kept short so that the solver can show,
  // piece by piece, that none holds a line feed.
  const ErrorOpen: string := "<p class=\"text-red-400\">"
  const ErrorSorry: string := "Sorry, I encountered an error"
  const ErrorWhile: string := " while analyzing the prescription."
  const ErrorCheck: string := " Please check the console"
  const ErrorRetry: string := " for details or try again."
  const ErrorClose: string := "</p>"
  const ErrorHtml: string := ErrorOpen + ErrorSorry + ErrorWhile + ErrorCheck + ErrorRetry + ErrorClose

  /** The markup the assistant entry shows: the formatted reply text when
      there is one, and the fixed error message on every other path (a
      non-ok status, no usable text, an exception). */
  function AssistantHtml(o: Outcome): string {
    if o.Ok? && ReplyText(o.body).Some? then MarkdownToHtml(ReplyText(o.body).value)
    else ErrorHtml
  }

  /** The body `{ candidates: [{ content: { parts: [{ text: t }, ...parts] } }, ...more] }`. */
  function TextReply(t: string, parts: seq<Option<ReplyPart>>, more: seq<Option<Candidate>>): Envelope {
    Envelope(Some([Some(Candidate(Some(ReplyContent(Some([Some(ReplyPart(Some(t)))] + parts)))))] + more))
  }

  /** The reply text is `t` exactly when `t` is not empty and the body is
      `{ candidates: [{ content: { parts: [{ text: t }, ...] } }, ...] }`,
      whatever the other parts and candidates are. */
  lemma ReplyTextShape(e: Envelope, t: string)
    ensures ReplyText(e) == Some(t) <==> t != [] && exists parts, more :: e == TextReply(t, parts, more)
  {
    if ReplyText(e) == Some(t) {
      var c := e.candidates.value;
      var ps := c[0].value.content.value.parts.value;
      assert c == [c[0]] + c[1..];
      assert ps == [ps[0]] + ps[1..];
      assert e == TextReply(t, ps[1..], c[1..]);
    }
  }

  /** A non-ok status and an exception both end in the fixed message. */
  lemma TransportErrors(status: int)
    ensures AssistantHtml(NotOk(status)) == ErrorHtml
    ensures AssistantHtml(Threw) == ErrorHtml
  {
  }

  /** An ok body without candidates, or whose first candidate is `null` or
      has no content, ends in the fixed message. */
  lemma CandidateErrors(more: seq<Option<Candidate>>)
    ensures AssistantHtml(Ok(Envelope(None))) == ErrorHtml
    ensures AssistantHtml(Ok(Envelope(Some([])))) == ErrorHtml
    ensures AssistantHtml(Ok(Envelope(Some([None] + more)))) == ErrorHtml
    ensures AssistantHtml(Ok(Envelope(Some([Some(Candidate(None))] + more)))) == ErrorHtml
  {
  }

  /** A first candidate without parts, or whose first part is `null` or has
      no text, ends in the fixed message. */
  lemma PartErrors(more: seq<Option<Candidate>>, parts: seq<Option<ReplyPart>>)
    ensures AssistantHtml(Ok(Envelope(Some([Some(Candidate(Some(ReplyContent(None))))] + more)))) == ErrorHtml
    ensures AssistantHtml(Ok(Envelope(Some([Some(Candidate(Some(ReplyContent(Some([])))))] + more)))) == ErrorHtml
    ensures AssistantHtml(Ok(Envelope(Some([Some(Candidate(Some(ReplyContent(Some([None] + parts)))))] + more)))) == ErrorHtml
    ensures AssistantHtml(Ok(Envelope(Some([Some(Candidate(Some(ReplyContent(Some([Some(ReplyPart(None))] + parts)))))] + more)))) == ErrorHtml
  {
  }

  /** Only the first part of the first candidate is read: its text is
      formatted when it is not empty, and an empty text is an error, whatever
      the other parts and candidates hold. */
  lemma FirstPartDecides(t: string, parts: seq<Option<ReplyPart>>, more: seq<Option<Candidate>>)
    ensures AssistantHtml(Ok(TextReply(t, parts, more))) == if t != [] then MarkdownToHtml(t) else ErrorHtml
  {
  }

  // One small lemma per piece of the error message, combined below.
  lemma ErrorOpenOnOneLine() ensures '\n' !in ErrorOpen && '\n' !in ErrorClose {}
  lemma ErrorSorryOnOneLine() ensures '\n' !in ErrorSorry {}
  lemma ErrorWhileOnOneLine() ensures '\n' !in ErrorWhile {}
  lemma ErrorCheckOnOneLine() ensures '\n' !in ErrorCheck {}
  lemma ErrorRetryOnOneLine() ensures '\n' !in ErrorRetry {}

  /** The fixed error message holds no line feed. */
  lemma ErrorHtmlOnOneLine()
    ensures '\n' !in ErrorHtml
  {
    ErrorOpenOnOneLine();
    ErrorSorryOnOneLine();
    ErrorWhileOnOneLine();
    ErrorCheckOnOneLine();
    ErrorRetryOnOneLine();
  }

  /** Whatever the outcome, the assistant entry holds no line feed. */
  lemma AssistantHtmlOnOneLine(o: Outcome)
    ensures '\n' !in AssistantHtml(o)
  {
    ErrorHtmlOnOneLine();
    if o.Ok? && ReplyText(o.body).Some? {
      NoNewlineInOutput(ReplyText(o.body).value);
    }
  }

  /** A reply that is a heading line and then a bullet line: the heading
      becomes an h3, but the bullet, no longer at a line start once the
      heading has consumed its line feed, stays literal. */
  lemma HeadingThenBulletReply(x: string, y: string)
    requires LineFree(x) && LineFree(y)
    requires '#' !in x && '*' !in x && '[' !in x && '#' !in y && '*' !in y && '[' !in y
    ensures AssistantHtml(Ok(TextReply("### " + x + "\n* " + y + "\n", [], [])))
         == H3Open + x + H3Close + "* " + y + Br
  {
    FirstPartDecides("### " + x + "\n* " + y + "\n", [], []);
    HeadingThenBullet(x, y);
  }

  lemma AspirinWords()
    ensures LineFree("Aspirin") && '#' !in "Aspirin" && '*' !in "Aspirin" && '[' !in "Aspirin"
    ensures LineFree("Pain relief") && '#' !in "Pain relief" && '*' !in "Pain relief" && '[' !in "Pain relief"
  {
  }

  /** The reply `### Aspirin\n* Pain relief\n` shows as the h3 holding
      `Aspirin` followed by the literal `* Pain relief<br>`. */
  lemma AspirinReply()
    ensures AssistantHtml(Ok(TextReply("### " + "Aspirin" + "\n* " + "Pain relief" + "\n", [], [])))
         == H3Open + "Aspirin" + H3Close + "* " + "Pain relief" + Br
  {
    AspirinWords();
    HeadingThenBulletReply("Aspirin", "Pain relief");
  }
}
