# Prescription reader chat page, modelled in Dafny

The page lets a user pick a photo of a handwritten prescription, sends it with
a fixed instruction to a generative-language API, and shows the answer in a
chat log. This project models the two parts of `script.js` that hold logic:

- **The reply formatter** `markdownToHtml` (script.js:111-123): five global
  regular-expression replacements in a fixed order (headings, bold, bullets,
  links, line feeds). Each pass is an instance of one engine,
  `Markdown.Rewrite`, which follows JavaScript's global `replace`: left to
  right, non-overlapping, resuming after each match. A lazy `(.*?)`
  followed by a literal is `Markdown.LazyRun`; the bullet's multiline
  `(.*?)$` is `Markdown.LineEnd`. JavaScript's `.` refuses `\n`, `\r`, U+2028 and U+2029.
  The multiline `^` looks at the previous input character.
- **The page's state machine** (script.js:9-47, 80-108, 125-156): the pending
  file, the upload and convert buttons, the loader and the append-only chat
  log. This is `Chat.Session`, a class whose methods are the event handlers
  and helpers of the script. Around it sit two pure parts:
  - the request payload and the cut of the data URL at its first comma
    (module `Request`);
  - the decision between the formatted reply and the fixed error message
    (module `Reply`).

Files:

- `wrappers.dfy`: `Option`.
- `markdown.dfy`: the formatter: matchers, engine and passes.
- `markdown_patterns.dfy`: what each matcher finds, stated in the regex's
  own terms. This includes the proof that the simple link scan agrees with
  the backtracking regex.
- `markdown_steps.dfy`: how a pass proceeds over a concrete input.
- `markdown_props.dfy`: the properties of the formatter.
- `request.dfy`, `reply.dfy`, `chat.dfy`: the request, the outcome handling
  and the page.

The functions that model the script's computations carry no contract of
their own; the lemmas named with each state what they compute:

- `Markdown.MarkdownToHtml` is `markdownToHtml` (script.js:111-123), the
  five passes `Headings`, `Bolds`, `Bullets`, `Links` and `LineBreaks` over
  the engine `Markdown.Rewrite` (script.js:113-121). Stated by the
  `MarkdownProps` lemmas, e.g. `NoNewlineInOutput`, `PipelineAddsNoMarkdown`,
  `PlainTextUnchanged`, `HeadingThenBullet`.
- `Markdown.LineBreakAt` is the pattern `/\n/` (script.js:121); stated by
  `MarkdownProps.LineBreaksSplit`.
- `Request.DataSegment` is `split(',')[1]` (script.js:42), over
  `Request.Fields`; stated by `NoCommaNoSegment`, `SegmentAfterFirstComma`
  and `DataUrlSegment`.
- `Request.BuildPayload` is the payload literal (script.js:66-78); stated by
  `PayloadCarriesImage` and by `Chat.Session.ReaderLoaded`.
- `Reply.ReplyText` is the test at script.js:93-96; stated by
  `ReplyTextShape`.
- `Reply.AssistantHtml` is the choice between the formatted reply and the
  fixed error message of the `try`/`catch` (script.js:92-104); stated by
  `TransportErrors`, `CandidateErrors`, `PartErrors`, `FirstPartDecides` and
  `AssistantHtmlOnOneLine`, and used by `Chat.Session.ReplyReceived`.

### What the code does not do

The model follows the code, including where one might expect otherwise:

- **No busy flag.** One might expect a flag that refuses a second
  conversion while one is in flight. The code has none. Its only guards are
  `if (!uploadedFile) return` (script.js:25) and the disabled convert button
  (script.js:141, script.js:155). The model keeps these as the
  `!convertDisabled` precondition of `Chat.Session.ConvertClicked`. A second
  click during a conversion is impossible because that method leaves the
  button disabled. The ghost `phase` field only records which callback can
  fire next.
- **No escaping or sanitising.** One might expect the markup to be made
  safe. The code escapes nothing: captured text and link targets go into
  the HTML as they are, and so they do in the model.
- **Reply lifecycle.**
  - The user's image is appended when the reader finishes (script.js:38).
    This is after the loader is shown (script.js:46), not before.
  - The code installs no `FileReader` error handler. A read that fails
    leaves the page loading; a failed read does not reach the error
    message.
- **A bullet right after a heading stays literal.** One might expect the
  reply `### Aspirin\n* Pain relief\n` to show a list item. In the code,
  the heading pass consumes the heading's line feed, so the `* ` line no
  longer starts a line when the bullet pass runs. The model keeps
  this (`MarkdownProps.HeadingThenBullet`, `Reply.AspirinReply`).
- **Initial state.** The convert button starts disabled, the upload button
  enabled and the loader hidden. That comes from the page's markup, which is
  not part of this model, and is taken as the constructor's state.

## Model

| member | source | states |
|---|---|---|
| Markdown.LazyRun | script.js:113-119 | a lazy `(.*?)d` that succeeds leaves `d` right after the run |
| Markdown.LineEnd | script.js:117 | the multiline `(.*?)$` run never passes the end of the input |
| Markdown.HeadingAt | script.js:113 | a heading match consumes at least one character and starts at `#` |
| Markdown.BoldAt | script.js:115 | a bold match consumes at least one character and starts at `*` |
| Markdown.BulletAt | script.js:117 | a bullet match consumes at least one character and starts at `*` |
| Markdown.LinkAt | script.js:119 | a link match consumes at least one character and starts at `[` |
| Markdown.MatchAt | script.js:113-121 | every pattern's match is non-empty and starts with the rule's lead character, so the global scan always advances |
| MarkdownPatterns.LazyRunMeaning | script.js:113-119 | the lazy run is the shortest line-terminator-free run followed by `d`; when it fails, every occurrence of `d` lies past a line terminator |
| MarkdownPatterns.LineEndMeaning | script.js:117 | `(.*?)$` stops exactly at the first line terminator or at the end |
| MarkdownPatterns.HeadingAtMeaning | script.js:113 | `### (.*?)\n` matches exactly when a `\n` ends the first line after `### `; the h3 holds that line; otherwise no match |
| MarkdownPatterns.BoldAtMeaning | script.js:115 | `\*\*(.*?)\*\*` takes the nearest closing `**` on the same line; with none there is no match |
| MarkdownPatterns.BulletAtMeaning | script.js:117 | the bullet matches if and only if at a line start with `* `; the item holds the rest of the line without its terminator |
| MarkdownPatterns.MatchTrigger | script.js:113-121 | a pattern matches only where its input holds its trigger character |
| MarkdownPatterns.LinkLabelRun | script.js:119 | every way the link regex can read a link has a line-free label followed by `](` |
| MarkdownPatterns.LinkLabelFirst | script.js:119 | the first `](` on the line bounds every reading's label from below; with none, no reading exists |
| MarkdownPatterns.LinkTargetRun | script.js:119 | every reading has a line-free target followed by `)` |
| MarkdownPatterns.LinkTargetFirst | script.js:119 | after the first `](`, the first `)` on the line bounds the target; with none, no reading exists |
| MarkdownPatterns.LinkAtIsLeastMatch | script.js:119 | the link scan finds a match if and only if the backtracking regex can read a link, and then it finds the reading the lazy groups prefer |
| MarkdownSteps.InertPrefix | script.js:113-121 | text before any character a match could start with is copied as it is |
| MarkdownSteps.FlagIrrelevant | script.js:113-121 | only the bullet pattern (the one with the `m` flag and `^`) depends on the line start |
| MarkdownSteps.LazyRunStops | script.js:113-119 | on a line-free text the lazy run stops at the first occurrence of its delimiter |
| MarkdownSteps.NoLeadUnchanged | script.js:113-121 | text without the rule's lead character passes through unchanged |
| MarkdownSteps.RunNeedsDelimiter | script.js:113-119 | a lazy run is found only where the delimiter's first character occurs |
| MarkdownSteps.LineEndStops | script.js:117 | the multiline `$` stops at the end of a line-free text |
| MarkdownProps.NoTriggerUnchanged | script.js:113-121 | a pass leaves text without its trigger character unchanged |
| MarkdownProps.RewriteChars | script.js:113-121 | every character a pass outputs was in its input or in the fixed markup |
| MarkdownProps.MarkupReserved | script.js:113-121 | the inserted markup holds no `\n`, `*`, `[` or `#`, so later passes react only to original text |
| MarkdownProps.PipelineAddsNoMarkdown | script.js:111-123 | a `*`, `[` or `#` in the output was already in the reply |
| MarkdownProps.LineBreaksLeaveNoNewline | script.js:121 | the line-feed pass leaves no `\n` |
| MarkdownProps.NoNewlineInOutput | script.js:111-123 | the formatter's output never holds a `\n` |
| MarkdownProps.LineBreaksSplit | script.js:121 | the line-feed pass works character by character, turning each `\n` into `<br>` |
| MarkdownProps.PlainTextUnchanged | script.js:111-123 | a reply without `\n`, `*` or `[` (the empty reply included) comes back unchanged |
| MarkdownProps.HeadingMatch | script.js:113 | `### X\n` with a line-free X matches as one h3 holding X and consumes the line feed |
| MarkdownProps.HeadingAnywhere | script.js:113 | `### X\n` becomes an h3 holding X wherever it stands on the line, and the line feed is consumed |
| MarkdownProps.HeadingNeedsNewline | script.js:113 | without a line feed no heading is recognised; `### X` at the end stays literal |
| MarkdownProps.BoldMatch | script.js:115 | `**X**` with a line-free, star-free X matches as one strong span |
| MarkdownProps.BoldSpan | script.js:115 | `**X**` becomes a strong span holding X, and the text before it is kept |
| MarkdownProps.TwoBoldSpans | script.js:115 | bold is shortest-span: `**a** **b**` gives two strong spans |
| MarkdownProps.LoneStar | script.js:115 | a single `*` not starting `**` is copied |
| MarkdownProps.OpenStarsCopied | script.js:115 | a `**` that nothing closes on its line is copied |
| MarkdownProps.BoldUnclosed | script.js:115 | an unclosed `**` stays literal |
| MarkdownProps.NoRunAcrossLine | script.js:115 | the lazy run never finds a closing `**` past a line feed |
| MarkdownProps.BoldStaysOnLine | script.js:115 | a bold span cannot cross a line feed: `**a\nb**` stays literal |
| MarkdownProps.BulletAtLineStart | script.js:117 | `* X` at a line start becomes a list item holding the rest of the line |
| MarkdownProps.BulletsOnlyAtLineStart | script.js:117 | where no `* ` starts a line, the bullet pass changes nothing |
| MarkdownProps.BulletMidLine | script.js:117 | `* ` that is not at a line start stays literal |
| MarkdownProps.TwoBulletLines | script.js:117 | `* a\n* b` gives two list items in order, with the line feed between them |
| MarkdownProps.LinkMatch | script.js:119 | `[L](U)` matches up to the first `](` and the first `)` after it |
| MarkdownProps.LinkSpan | script.js:119 | `[L](U)` becomes an anchor to U labelled L that opens in a new browsing context without opener or referrer |
| MarkdownProps.HeadingThenBullet | script.js:111-123 | `### X\n* Y\n` becomes the h3 holding X, then the literal `* Y<br>`: the bullet is no longer at a line start |
| Request.Fields | script.js:42 | `split(',')` gives at least one field, and no field holds a comma |
| Request.FieldsPrefix | script.js:42 | text without a comma joins the first field of what follows it |
| Request.JoinFields | script.js:42 | joining the fields with commas gives back the string |
| Request.FieldsJoin | script.js:42 | splitting comma-free pieces joined by commas gives back the pieces |
| Request.SingleField | script.js:42 | there is one field exactly when the string holds no comma |
| Request.NoCommaNoSegment | script.js:42 | `split(',')[1]` is undefined exactly when the data URL holds no comma |
| Request.SegmentAfterFirstComma | script.js:42 | the segment is the text after the first comma, up to the next one |
| Request.DataUrlSegment | script.js:42-45 | for a base64 data URL whose type holds no comma, the segment is exactly the base64 text |
| Request.PayloadCarriesImage | script.js:42-78 | the request for a base64 data URL is one content holding the instruction text and then exactly that base64 image under the file's type |
| Reply.ReplyTextShape | script.js:93-96 | the reply text is `t` if and only if `t` is not empty and the body's first candidate has a first part whose text is `t`, whatever the other parts and candidates hold |
| Reply.TransportErrors | script.js:87-89 | a non-ok status and an exception both end in the fixed error message |
| Reply.CandidateErrors | script.js:93-100 | a body without candidates, or whose first candidate is null or has no content, ends in the error message |
| Reply.PartErrors | script.js:95-100 | a first candidate without parts, or whose first part is null or has no text, ends in the error message |
| Reply.FirstPartDecides | script.js:95-104 | only the first part of the first candidate is read; a non-empty text is formatted and an empty one is an error, whatever else the body holds |
| Reply.ErrorHtmlOnOneLine | script.js:104 | the fixed error message holds no line feed |
| Reply.AssistantHtmlOnOneLine | script.js:95-104 | whatever the outcome, the assistant entry holds no line feed |
| Reply.HeadingThenBulletReply | script.js:95-98 | a reply of a heading line then a bullet line shows the h3 and the literal bullet text |
| Reply.AspirinReply | script.js:113-117 | the reply `### Aspirin\n* Pain relief\n` shows the h3 holding `Aspirin`, then `* Pain relief<br>` |
| Chat.Session.constructor | script.js:9 | no pending file, the "No file selected..." label, convert disabled, upload enabled, loader hidden, empty log |
| Chat.Session.SelectFile | script.js:13-22 | a chosen file becomes pending, its name is shown and convert is enabled; a change without a file changes nothing |
| Chat.Session.SetLoading | script.js:137-147 | showing the loader disables both buttons; hiding it re-enables upload only, leaving convert as it was |
| Chat.Session.ResetInput | script.js:149-156 | the pending file is dropped, the label reset and convert disabled |
| Chat.Session.AddAiMessage | script.js:125-135 | exactly one assistant entry is appended to the log, and nothing else changes |
| Chat.Session.ConvertClicked | script.js:24-47 | without a pending file nothing happens; otherwise the read starts, the loader shows and both buttons are disabled |
| Chat.Session.ReaderLoaded | script.js:28-44 | the user's image is appended, and the request carries the file's type and the data URL's segment after its first comma |
| Chat.Session.ReplyReceived | script.js:80-108 | exactly one assistant entry (the formatted text or the error message) is appended; the file is cleared, the loader hidden, upload enabled, convert disabled |
| Chat.Lifecycle | script.js:13-108 | one conversion from page load leaves the log as the image and one answer, and the page ready for a new file with convert disabled |
| Chat.EmptySelection | script.js:13-22 | a change event without a file on a fresh page leaves nothing pending and convert disabled |

## Left out

- The DOM: element lookups, class-list changes for the label and loader, `scrollTop`, and the HTML wrapper around each bubble. Log entries are a tagged datatype.
- `FileReader.readAsDataURL` and base64 encoding: browser services. The reader's result enters as a parameter; only the split at its first comma is modelled.
- `fetch`, `response.json()`, `response.text()`, the API key and URL, and `console.error`: network and I/O. The request's outcome enters as an `Outcome` value.
- JSON values of the wrong type (a `text` that is a number, `candidates` that is not an array): the envelope is modelled with the types the code expects, with absent fields and `null` both as `None`.
- The wording of the instruction text: only its place in the payload matters, so it is a parameter of the session.
- Asynchronous suspension: the lifecycle is a sequence of discrete events, and the ghost phase says which one can come next. The file input is taken to be reached only through the upload button.
- The page's initial markup (`index.html` is not part of this model): its state is taken as the constructor's.
- Chat.Session.SelectFile: requires the upload button to be enabled. A change event from the file input while a conversion is in flight is not modelled.
- The click on the upload button (script.js:11) only opens the file picker; it appears as `SelectFile`'s precondition.
- Strings are `seq<char>`, sequences of Unicode scalar values, while JavaScript strings are UTF-16 code units, so a reply holding a lone surrogate cannot be represented. No pattern and no piece of markup depends on the difference.
