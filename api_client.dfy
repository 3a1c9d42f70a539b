/**
 * The browser's REST client: how a request's URL and `fetch` options are
 * put together, which message a failed request throws, the line handling
 * of the streaming fallback, and the small formatting and validation
 * helpers. Responses and the decoded body chunks are given as values;
 * `JSON.parse` is a parameter.
 */
module ApiClient {
  import opened Common
  import opened Strings
  import Ui
  import FileUpload

  const BaseUrl := "/api"

  /** JavaScript object literals of header names to values. */
  type Headers = map<string, string>

  const DefaultHeaders: Headers := map["Content-Type" := "application/json"]

  /** A request body: JSON text, or form data the browser encodes with its own boundary. */
  datatype Body = JsonBody(text: string) | FormDataBody(fields: seq<string>)

  /** The `options` argument of `request`; a missing key is `None`. */
  datatype RequestOptions = RequestOptions(verb: Option<string>, headers: Option<Headers>, body: Option<Body>)

  /** The object handed to `fetch`. */
  datatype FetchConfig = FetchConfig(verb: Option<string>, headers: Headers, body: Option<Body>)

  /** `request`'s URL: the base followed by the endpoint. */
  function RequestUrl(endpoint: string): (url: string)
    ensures StartsWith(url, BaseUrl) && url[|BaseUrl|..] == endpoint
  {
    BaseUrl + endpoint
  }

  /**
   * `{ headers: { ...defaultHeaders, ...options.headers }, ...options }`:
   * the merged headers are built first, and then the spread of `options`
   * overwrites them with `options.headers` whenever that key is present.
   */
  function MergeConfig(defaults: Headers, options: RequestOptions): FetchConfig {
    var merged := if options.headers.Some? then defaults + options.headers.value else defaults;
    var headers := if options.headers.Some? then options.headers.value else merged;
    FetchConfig(options.verb, headers, options.body)
  }

  /**
   * Given headers replace the defaults entirely, so `headers: {}` sends no
   * `Content-Type`; without them the defaults are sent.
   */
  lemma HeadersReplaced(defaults: Headers, options: RequestOptions)
    ensures options.headers.Some? ==> MergeConfig(defaults, options).headers == options.headers.value
    ensures options.headers.None? ==> MergeConfig(defaults, options).headers == defaults
    ensures options.headers == Some(map[]) ==> "Content-Type" !in MergeConfig(defaults, options).headers
    ensures MergeConfig(defaults, options).verb == options.verb && MergeConfig(defaults, options).body == options.body
  {
  }

  /** `sendMultimodalMessage` and `uploadFile` leave `Content-Type` to the browser; `createSession` sends JSON. */
  lemma FormRequestsHaveNoContentType(fields: seq<string>, title: Option<string>)
    ensures "Content-Type" !in MergeConfig(DefaultHeaders, RequestOptions(Some("POST"), Some(map[]), Some(FormDataBody(fields)))).headers
    ensures MergeConfig(DefaultHeaders, CreateSessionOptions(title)).headers == DefaultHeaders
  {
  }

  /** `title || 'New Chat'`. */
  function NewSessionTitle(title: Option<string>): (t: string)
    ensures t != ""
    ensures title.Some? && title.value != "" ==> t == title.value
  {
    if title.Some? && title.value != "" then title.value else "New Chat"
  }

  /** The options of `createSession`; the body is the JSON object holding the title. */
  function CreateSessionOptions(title: Option<string>): RequestOptions {
    RequestOptions(Some("POST"), None, Some(JsonBody("{\"title\":" + JsonQuote(NewSessionTitle(title)) + "}")))
  }

  /** `JSON.stringify` of a string: quotes around it, each character escaped as `JsonEscapeChar` says. */
  function JsonQuote(s: string): string {
    "\"" + JsonEscape(s) + "\""
  }

  function JsonEscape(s: string): string
    decreases |s|
  {
    if s == [] then "" else JsonEscapeChar(s[0]) + JsonEscape(s[1..])
  }

  /** A lower-case hexadecimal digit. */
  function HexDigit(d: nat): (c: char)
    requires d < 16
  {
    if d < 10 then ('0' as int + d) as char else ('a' as int + d - 10) as char
  }

  /**
   * How `JSON.stringify` writes one character of a string: a quote or a
   * backslash behind a backslash, the five control characters that have a
   * short escape by it, any other control character as `\u00` and two
   * lower-case hexadecimal digits, and everything else as it is.
   */
  function JsonEscapeChar(c: char): string {
    if c == '"' then "\\\""
    else if c == '\\' then "\\\\"
    else if c == 8 as char then "\\b"
    else if c == '\t' then "\\t"
    else if c == '\n' then "\\n"
    else if c == 12 as char then "\\f"
    else if c == '\r' then "\\r"
    else if c < ' ' then "\\u00" + [HexDigit(c as int / 16), HexDigit(c as int % 16)]
    else [c]
  }

  /** The value of a hexadecimal digit of either case, if it is one. */
  function HexValue(c: char): Option<nat> {
    if '0' <= c <= '9' then Some(c as int - '0' as int)
    else if 'a' <= c <= 'f' then Some(c as int - 'a' as int + 10)
    else if 'A' <= c <= 'F' then Some(c as int - 'A' as int + 10)
    else None
  }

  /** The character a one-letter escape stands for. */
  function ShortEscape(e: char): Option<char> {
    if e == '"' then Some('"') else if e == '\\' then Some('\\') else if e == '/' then Some('/')
    else if e == 'b' then Some(8 as char) else if e == 'f' then Some(12 as char)
    else if e == 'n' then Some('\n') else if e == 'r' then Some('\r') else if e == 't' then Some('\t')
    else None
  }

  function Prepend(c: char, rest: Option<string>): Option<string> {
    if rest.Some? then Some([c] + rest.value) else None
  }

  /**
   * A reader of the text between the quotes of a JSON string: an
   * unescaped quote or control character is an error, and so is an
   * escape JSON does not have. A `\u` escape is read only below the
   * surrogate range; pairs of surrogates are not handled.
   */
  function JsonUnescape(t: string): Option<string>
    decreases |t|
  {
    if t == [] then Some("")
    else if t[0] == '\\' then
      if |t| < 2 then None
      else if t[1] == 'u' then
        if |t| < 6 || HexValue(t[2]).None? || HexValue(t[3]).None? || HexValue(t[4]).None? || HexValue(t[5]).None? then None
        else
          var v := ((HexValue(t[2]).value * 16 + HexValue(t[3]).value) * 16 + HexValue(t[4]).value) * 16 + HexValue(t[5]).value;
          if v < 0xD800 then Prepend(v as char, JsonUnescape(t[6..])) else None
      else if ShortEscape(t[1]).Some? then Prepend(ShortEscape(t[1]).value, JsonUnescape(t[2..]))
      else None
    else if t[0] == '"' || t[0] < ' ' then None
    else Prepend(t[0], JsonUnescape(t[1..]))
  }

  /** One escaped character reads back as itself, in front of whatever follows. */
  lemma UnescapeChar(c: char, rest: string)
    ensures JsonUnescape(JsonEscapeChar(c) + rest) == Prepend(c, JsonUnescape(rest))
  {
    var t := JsonEscapeChar(c) + rest;
    if c < ' ' && c != 8 as char && c != '\t' && c != '\n' && c != 12 as char && c != '\r' {
      var n := c as int;
      assert t[0] == '\\' && t[1] == 'u' && t[2] == '0' && t[3] == '0';
      assert HexValue(t[4]) == Some(n / 16) && HexValue(t[5]) == Some(n % 16);
      assert t[6..] == rest;
    } else if c == '"' || c == '\\' || c == 8 as char || c == '\t' || c == '\n' || c == 12 as char || c == '\r' {
      assert t[2..] == rest;
    } else {
      assert t[1..] == rest;
    }
  }

  /** No escaped character produces a control character. */
  lemma EscapeCharPrintable(c: char)
    ensures forall i :: 0 <= i < |JsonEscapeChar(c)| ==> JsonEscapeChar(c)[i] >= ' '
  {
  }

  /** The escaped text holds no control character, and reading it back gives the string: `JSON.parse` inverts `JSON.stringify`. */
  lemma {:induction false} JsonEscapeRoundTrip(s: string)
    ensures JsonUnescape(JsonEscape(s)) == Some(s)
    ensures forall i :: 0 <= i < |JsonEscape(s)| ==> JsonEscape(s)[i] >= ' '
    decreases |s|
  {
    if s != [] {
      var head, tail := JsonEscapeChar(s[0]), JsonEscape(s[1..]);
      JsonEscapeRoundTrip(s[1..]);
      UnescapeChar(s[0], tail);
      EscapeCharPrintable(s[0]);
      assert [s[0]] + s[1..] == s;
      assert JsonEscape(s) == head + tail;
      assert forall i :: 0 <= i < |head + tail| ==> (head + tail)[i] >= ' ' by {
        forall i | 0 <= i < |head + tail| ensures (head + tail)[i] >= ' ' {
          if i >= |head| { assert (head + tail)[i] == tail[i - |head|]; }
        }
      }
    }
  }

  /** The body `createSession` sends is the JSON object whose one key `title` reads back as the title used. */
  lemma CreateSessionBody(title: Option<string>)
    ensures var o := CreateSessionOptions(title);
      && o.verb == Some("POST") && o.headers.None? && o.body.Some? && o.body.value.JsonBody?
      && var text := o.body.value.text;
      && |text| >= 11 && text[..10] == "{\"title\":\"" && text[|text| - 2..] == "\"}"
      && JsonUnescape(text[10..|text| - 2]) == Some(NewSessionTitle(title))
  {
    var e := JsonEscape(NewSessionTitle(title));
    var pre, post := "{\"title\":\"", "\"}";
    assert "{\"title\":" + JsonQuote(NewSessionTitle(title)) + "}" == pre + e + post;
    SlicesOfConcat(pre, e, post);
    JsonEscapeRoundTrip(NewSessionTitle(title));
  }

  /** The parts of a text made of a prefix, a middle and a suffix are where they were put. */
  lemma SlicesOfConcat(pre: string, mid: string, post: string)
    ensures var t := pre + mid + post;
      && t[..|pre|] == pre && t[|pre|..|t| - |post|] == mid && t[|t| - |post|..] == post
  {
    var t := pre + mid + post;
    assert t[..|pre|] == pre;
    assert t[|pre|..|t| - |post|] == mid;
    assert t[|t| - |post|..] == post;
  }

  /**
   * The message thrown for a response that is not ok: the server's
   * `message` when the error body has a non-empty one, otherwise the
   * status line.
   */
  function FailureMessage(serverMessage: Option<string>, status: nat, statusText: string): (m: string)
    ensures serverMessage.Some? && serverMessage.value != "" ==> m == serverMessage.value
    ensures !(serverMessage.Some? && serverMessage.value != "") ==> m == "HTTP " + NatToString(status) + ": " + statusText
  {
    if serverMessage.Some? && serverMessage.value != "" then serverMessage.value
    else "HTTP " + NatToString(status) + ": " + statusText
  }

  /** A response: its status, the `message` of its JSON error body if it has one, its content type and its text. */
  datatype HttpResponse = HttpResponse(ok: bool, status: nat, statusText: string, errorMessage: Option<string>,
                                       contentType: Option<string>, text: string)

  /**
   * What `request` resolves to, or what it throws: the error built from a
   * response that is not ok, or the `SyntaxError` of `response.json()` on
   * a JSON body that does not parse, whose message the engine chooses.
   */
  datatype RequestResult<D> = Thrown(message: string) | BodyUnparsable | JsonResult(value: D) | TextResult(text: string)

  /** `contentType && contentType.includes('application/json')`. */
  predicate IsJsonType(contentType: Option<string>) {
    contentType.Some? && contentType.value != "" && Contains(contentType.value, "application/json")
  }

  /**
   * The part of `request` after `fetch`, given `JSON.parse`: failure
   * first, then the parsed body for a JSON content type and the text
   * otherwise. Both errors are rethrown by the `catch`.
   */
  function RequestOutcome<D>(response: HttpResponse, parse: string -> Option<D>): (r: RequestResult<D>)
    ensures r.Thrown? <==> !response.ok
    ensures r.Thrown? ==> r.message == FailureMessage(response.errorMessage, response.status, response.statusText)
    ensures r.BodyUnparsable? <==> response.ok && IsJsonType(response.contentType) && parse(response.text).None?
    ensures r.JsonResult? <==> response.ok && IsJsonType(response.contentType) && parse(response.text).Some?
    ensures r.JsonResult? ==> Some(r.value) == parse(response.text)
    ensures r.TextResult? <==> response.ok && !IsJsonType(response.contentType)
    ensures r.TextResult? ==> r.text == response.text
  {
    if !response.ok then Thrown(FailureMessage(response.errorMessage, response.status, response.statusText))
    else if IsJsonType(response.contentType) then
      var parsed := parse(response.text);
      if parsed.Some? then JsonResult(parsed.value) else BodyUnparsable
    else TextResult(response.text)
  }

  // ---------------------------------------------------------------------
  // The streaming fallback
  // ---------------------------------------------------------------------

  /** What `streamMessage` ends with: `onComplete`, or `onError` with the error's message. */
  datatype StreamEnd = Complete | Errored(message: string)

  /** What one line hands to `onChunk`: nothing for a blank line or one that does not parse. */
  function LineValue<D>(parse: string -> Option<D>): string -> Option<D> {
    line => if JsTrim(line) != "" then parse(line) else None
  }

  /** The values the lines yield, in order; `value` says what each line yields. */
  function LinesDelivered<D>(lines: seq<string>, value: string -> Option<D>): seq<D>
    decreases |lines|
  {
    if lines == [] then []
    else
      var v := value(lines[|lines| - 1]);
      LinesDelivered(lines[..|lines| - 1], value) + (if v.Some? then [v.value] else [])
  }

  /** Every chunk is split on '\n' on its own; a line is never joined with the rest of it in the next chunk. */
  function Delivered<D>(chunks: seq<string>, parse: string -> Option<D>): seq<D>
    decreases |chunks|
  {
    if chunks == [] then []
    else Delivered(chunks[..|chunks| - 1], parse) + ChunkDelivered(chunks[|chunks| - 1], parse)
  }

  /** What one chunk delivers: its '\n'-separated lines, handled in order. */
  function ChunkDelivered<D>(chunk: string, parse: string -> Option<D>): seq<D> {
    LinesDelivered(Split(chunk, '\n'), LineValue(parse))
  }

  /** The lines of two runs of lines are delivered one run after the other. */
  lemma {:induction false} LinesDeliveredAppend<D>(a: seq<string>, b: seq<string>, value: string -> Option<D>)
    ensures LinesDelivered(a + b, value) == LinesDelivered(a, value) + LinesDelivered(b, value)
    decreases |b|
  {
    if b == [] {
      assert a + b == a;
    } else {
      var init := b[..|b| - 1];
      LinesDeliveredAppend(a, init, value);
      assert (a + b)[..|a + b| - 1] == a + init;
      assert (a + b)[|a + b| - 1] == b[|b| - 1];
    }
  }

  /** A line that yields nothing can be dropped from a run without changing what the run delivers. */
  lemma DropSilentLine<D>(lines: seq<string>, skipped: string, more: seq<string>, value: string -> Option<D>)
    requires value(skipped).None?
    ensures LinesDelivered(lines + [skipped] + more, value) == LinesDelivered(lines + more, value)
  {
    LinesDeliveredAppend(lines, [skipped], value);
    LinesDeliveredAppend(lines + [skipped], more, value);
    LinesDeliveredAppend(lines, more, value);
    assert [skipped][..0] == [];
  }

  /** Whitespace-only lines and lines that do not parse are skipped; they do not stop the stream. */
  lemma SkippedLinesIgnored<D>(lines: seq<string>, skipped: string, more: seq<string>, parse: string -> Option<D>)
    requires JsTrim(skipped) == "" || parse(skipped).None?
    ensures LinesDelivered(lines + [skipped] + more, LineValue(parse)) == LinesDelivered(lines + more, LineValue(parse))
  {
    assert LineValue(parse)(skipped).None?;
    DropSilentLine(lines, skipped, more, LineValue(parse));
  }

  /**
   * A record split between two chunks is lost: each half is parsed alone,
   * and when neither half parses the record is never delivered.
   */
  lemma SplitRecordLost<D>(x: string, y: string, parse: string -> Option<D>)
    requires '\n' !in x && '\n' !in y
    requires parse(x).None? && parse(y).None?
    ensures Delivered([x, y], parse) == []
  {
    var value := LineValue(parse);
    SplitNoSeparator(x, '\n');
    SplitNoSeparator(y, '\n');
    assert value(x).None? && value(y).None?;
    assert LinesDelivered([x], value) == [] by {
      assert [x][..0] == [];
    }
    assert LinesDelivered([y], value) == [] by {
      assert [y][..0] == [];
    }
    assert [x, y][..1] == [x];
    assert [x][..0] == [];
    assert Delivered([x], parse) == Delivered([], parse) + ChunkDelivered(x, parse);
  }

  /** The body of the inner loop: a non-blank line is parsed, and what parses is delivered. */
  method HandleLine<D>(line: string, parse: string -> Option<D>) returns (data: seq<D>)
    ensures data == LinesDelivered([line], LineValue(parse))
    ensures |data| <= 1 && (JsTrim(line) == "" ==> data == [])
  {
    assert [line][..0] == [];
    data := [];
    if JsTrim(line) != "" {
      var parsed := parse(line);
      if parsed.Some? {
        data := [parsed.value];
      }
    }
  }

  /** The inner `for` loop over one chunk's lines. */
  method HandleLines<D>(lines: seq<string>, parse: string -> Option<D>) returns (data: seq<D>)
    ensures data == LinesDelivered(lines, LineValue(parse))
  {
    data := [];
    var j := 0;
    while j < |lines|
      invariant 0 <= j <= |lines|
      invariant data == LinesDelivered(lines[..j], LineValue(parse))
    {
      var line := lines[j];
      assert lines[..j + 1] == lines[..j] + [line];
      LinesDeliveredAppend(lines[..j], [line], LineValue(parse));
      var lineData := HandleLine(line, parse);
      data := data + lineData;
      j := j + 1;
    }
    assert lines[..j] == lines;
  }

  /** One decoded chunk: split on '\n', each line handled in order. */
  method HandleChunk<D>(chunk: string, parse: string -> Option<D>) returns (data: seq<D>)
    ensures data == ChunkDelivered(chunk, parse)
  {
    var lines := Split(chunk, '\n');
    data := HandleLines(lines, parse);
  }

  /** The `while (true)` read loop: every chunk up to the end of the body, in order. */
  method ReadBody<D>(chunks: seq<string>, parse: string -> Option<D>) returns (delivered: seq<D>)
    ensures delivered == Delivered(chunks, parse)
  {
    delivered := [];
    var i := 0;
    while i < |chunks|
      invariant 0 <= i <= |chunks|
      invariant delivered == Delivered(chunks[..i], parse)
    {
      var data := HandleChunk(chunks[i], parse);
      assert chunks[..i + 1][..i] == chunks[..i];
      delivered := delivered + data;
      i := i + 1;
    }
    assert chunks[..i] == chunks;
  }

  /**
   * `streamMessage` after `fetch`: a response that is not ok is an error
   * before anything is read; otherwise every chunk's lines are handled in
   * order and the end of the body completes the stream.
   */
  method StreamMessage<D>(response: HttpResponse, chunks: seq<string>, parse: string -> Option<D>)
    returns (delivered: seq<D>, end: StreamEnd)
    ensures !response.ok ==> delivered == [] && end == Errored("HTTP " + NatToString(response.status) + ": " + response.statusText)
    ensures response.ok ==> delivered == Delivered(chunks, parse) && end == Complete
  {
    if !response.ok {
      return [], Errored("HTTP " + NatToString(response.status) + ": " + response.statusText);
    }
    delivered := ReadBody(chunks, parse);
    end := Complete;
  }

  // ---------------------------------------------------------------------
  // Helpers
  // ---------------------------------------------------------------------

  /**
   * `formatDate`, given the milliseconds elapsed: whole minutes, hours and
   * days rounded down; `None` stands for the locale date shown for a week
   * or more, which is not modelled.
   */
  function FormatDate(diffMs: int): (r: Option<string>)
    ensures r.None? <==> diffMs >= 7 * 86400000
  {
    var diffMins, diffHours, diffDays := diffMs / 60000, diffMs / 3600000, diffMs / 86400000;
    if diffMins < 1 then Some("Just now")
    else if diffMins < 60 then Some(NatToString(diffMins) + "m ago")
    else if diffHours < 24 then Some(NatToString(diffHours) + "h ago")
    else if diffDays < 7 then Some(NatToString(diffDays) + "d ago")
    else None
  }

  /** Below a day, the two relative-time helpers of the page agree; from a day to a week this one counts days. */
  lemma FormatDateAgrees(diffMs: int)
    ensures diffMs < 86400000 ==> FormatDate(diffMs) == Ui.FormatTimestamp(diffMs)
    ensures 86400000 <= diffMs < 7 * 86400000 ==>
      FormatDate(diffMs) == Some(NatToString(diffMs / 86400000) + "d ago") && 1 <= diffMs / 86400000 < 7
  {
  }

  /** `validateFileType`: membership in the list. */
  predicate ValidateFileType(file: FileUpload.BrowserFile, allowedTypes: seq<string>) {
    file.mimeType in allowedTypes
  }

  /** `validateFileSize`: at most the limit, the limit included. */
  predicate ValidateFileSize(file: FileUpload.BrowserFile, maxSizeBytes: nat) {
    file.size <= maxSizeBytes
  }

  /** With their defaults, the two validators accept exactly the files the file picker accepts. */
  lemma ValidatorsMatchPicker(file: FileUpload.BrowserFile)
    ensures FileUpload.ValidateFile(FileUpload.AllowedTypes, FileUpload.MaxFileSize, file).Valid?
      <==> ValidateFileType(file, FileUpload.AllowedTypes) && ValidateFileSize(file, 10 * 1024 * 1024)
  {
  }

  /**
   * A thrown value as `handleError` sees it: an object with a `message`
   * (which may be missing), a string, or any other value that has
   * properties. `null` and `undefined` are not among them: reading
   * `error.message` on those throws a `TypeError` out of `handleError`.
   */
  datatype JsError = ErrorObject(message: Option<string>) | StringError(text: string) | OtherValue

  /** `handleError`'s message: the error's non-empty `message`, else a thrown string itself, else a fixed text. */
  function HandleError(error: JsError): (message: string)
    ensures error.ErrorObject? && error.message.Some? && error.message.value != "" ==> message == error.message.value
    ensures error.StringError? ==> message == error.text
    ensures error.OtherValue? || (error.ErrorObject? && !(error.message.Some? && error.message.value != ""))
      ==> message == "An unexpected error occurred"
  {
    match error
    case ErrorObject(m) => if m.Some? && m.value != "" then m.value else "An unexpected error occurred"
    case StringError(s) => s
    case OtherValue => "An unexpected error occurred"
  }
}
