/** The request side of `callGeminiAPI` and the reader's `onload` handler
    (script.js:42, script.js:66-78): the base64 segment cut out of the data
    URL, and the payload built around it. */
module Request {
  import opened Wrappers

  /** `s.split(',')`: the pieces between commas, in order. There is always
      at least one, and none of them holds a comma. */
  function Fields(s: string): (r: seq<string>)
    ensures |r| >= 1
    ensures forall i :: 0 <= i < |r| ==> ',' !in r[i]
    decreases |s|
  {
    if s == [] then [[]]
    else
      var rest := Fields(s[1..]);
      if s[0] == ',' then [[]] + rest
      else [[s[0]] + rest[0]] + rest[1..]
  }

  /** `parts.join(',')`, the inverse of `Fields`. */
  function Join(parts: seq<string>): string
    requires parts != []
    decreases |parts|
  {
    if |parts| == 1 then parts[0] else parts[0] + "," + Join(parts[1..])
  }

  /** `split(',')[1]`: the text between the first comma and the next one (or
      the end); `None` stands for the `undefined` of a string without a comma. */
  function DataSegment(url: string): Option<string> {
    var f := Fields(url);
    if |f| >= 2 then Some(f[1]) else None
  }

  /** The data URL `FileReader.readAsDataURL` produces for base64 content. */
  function DataUrl(mimeType: string, base64: string): string {
    "data:" + mimeType + ";base64," + base64
  }

  /** `{ mimeType, data }`; a `data` of `None` is the `undefined` that
      `JSON.stringify` leaves out. */
  datatype InlineData = InlineData(mimeType: string, data: Option<string>)

  datatype Part = Text(text: string) | Inline(inlineData: InlineData)

  datatype Content = Content(parts: seq<Part>)

  /** The request body `{ contents: [{ parts: [...] }] }`. */
  datatype Payload = Payload(contents: seq<Content>)

  /** The payload of script.js:66-78: one content whose parts are the
      instruction text and then the image. */
  function BuildPayload(prompt: string, mimeType: string, data: Option<string>): Payload {
    Payload([Content([Text(prompt), Inline(InlineData(mimeType, data))])])
  }

  /** Text without a comma joins the first field of what follows it. */
  lemma {:induction false} FieldsPrefix(p: string, t: string)
    requires ',' !in p
    ensures Fields(p + t) == [p + Fields(t)[0]] + Fields(t)[1..]
    decreases |p|
  {
    if p == [] {
      assert p + t == t;
      assert p + Fields(t)[0] == Fields(t)[0];
      assert Fields(t) == [Fields(t)[0]] + Fields(t)[1..];
    } else {
      assert (p + t)[0] == p[0];
      assert (p + t)[1..] == p[1..] + t;
      FieldsPrefix(p[1..], t);
      var rest := Fields(p[1..] + t);
      assert rest[1..] == Fields(t)[1..];
      assert [p[0]] + (p[1..] + Fields(t)[0]) == p + Fields(t)[0];
    }
  }

  /** Joining the fields with commas gives back the string. */
  lemma {:induction false} JoinFields(s: string)
    ensures Join(Fields(s)) == s
    decreases |s|
  {
    if s != [] {
      JoinFields(s[1..]);
      var rest := Fields(s[1..]);
      if s[0] != ',' && |rest| > 1 {
        assert Fields(s)[1..] == rest[1..];
      }
    }
  }

  /** Splitting comma-free pieces joined with commas gives back the pieces. */
  lemma {:induction false} FieldsJoin(parts: seq<string>)
    requires parts != [] && forall i :: 0 <= i < |parts| ==> ',' !in parts[i]
    ensures Fields(Join(parts)) == parts
    decreases |parts|
  {
    if |parts| == 1 {
      FieldsPrefix(parts[0], []);
      assert Fields([]) == [[]];
      assert parts[0] + [] == parts[0];
      assert Fields(parts[0]) == [parts[0]];
      assert parts == [parts[0]];
    } else {
      FieldsJoin(parts[1..]);
      var t := "," + Join(parts[1..]);
      assert parts[0] + "," + Join(parts[1..]) == parts[0] + t;
      assert t[1..] == Join(parts[1..]);
      assert Fields(t) == [[]] + parts[1..];
      FieldsPrefix(parts[0], t);
      assert parts[0] + [] == parts[0];
      assert parts == [parts[0]] + parts[1..];
    }
  }

  /** There is a single field exactly when the string holds no comma. */
  lemma {:induction false} SingleField(s: string)
    ensures |Fields(s)| == 1 <==> ',' !in s
    decreases |s|
  {
    if s != [] {
      SingleField(s[1..]);
      assert s == [s[0]] + s[1..];
    }
  }

  /** `split(',')[1]` is `undefined` exactly when the data URL holds no comma. */
  lemma NoCommaNoSegment(url: string)
    ensures DataSegment(url).None? <==> ',' !in url
  {
    SingleField(url);
  }

  /** The segment is what follows the first comma, up to the next one. */
  lemma SegmentAfterFirstComma(p: string, t: string)
    requires ',' !in p
    ensures DataSegment(p + "," + t) == Some(Fields(t)[0])
  {
    FieldsPrefix(p, "," + t);
    assert p + "," + t == p + ("," + t);
    assert ("," + t)[1..] == t;
  }

  /** For a base64 data URL whose MIME type has no comma, the segment is
      exactly the base64 text (the base64 alphabet has no comma). */
  lemma DataUrlSegment(mimeType: string, base64: string)
    requires ',' !in mimeType && ',' !in base64
    ensures DataSegment(DataUrl(mimeType, base64)) == Some(base64)
  {
    var p := "data:" + mimeType + ";base64";
    assert DataUrl(mimeType, base64) == p + "," + base64;
    SegmentAfterFirstComma(p, base64);
    FieldsPrefix(base64, []);
    assert Fields([]) == [[]];
    assert base64 + [] == base64;
  }

  /** The request sent for a base64 data URL carries exactly the encoded
      image, under the file's type, after the instruction text. */
  lemma PayloadCarriesImage(prompt: string, mimeType: string, base64: string)
    requires ',' !in mimeType && ',' !in base64
    ensures BuildPayload(prompt, mimeType, DataSegment(DataUrl(mimeType, base64))).contents
         == [Content([Text(prompt), Inline(InlineData(mimeType, Some(base64)))])]
  {
    DataUrlSegment(mimeType, base64);
  }
}
