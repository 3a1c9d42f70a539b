/**
 * The client of the Ollama generation endpoint: the request body it
 * builds, the gate on the HTTP status, and the parser that turns the
 * line-delimited response body into a stream of text chunks.
 *
 * The HTTP exchange is a parameter (a function from the request body to
 * the outcome of sending it) and JSON decoding is abstract: each line of
 * the body comes with the fields the parser reads, or with `None` when
 * it does not parse.
 */
module OllamaClient {
  import opened Common
  import opened Strings
  import opened Exceptions
  import opened Reactive
  import Base64

  /**
   * The fields of one decoded line that the parser looks at, each present
   * exactly when the JSON object has that field: `error` and `response`
   * as their `asText()` and `done` as its `asBoolean()`.
   */
  datatype Record = Record(error: Option<string>, response: Option<string>, done: Option<bool>)

  /** One line of the response body and its decoding; `None` when it is not valid JSON. */
  datatype Line = Line(text: string, decoded: Option<Record>)

  /** What the parser pushes into the sink: the chunks, and the error text of a line that reported one. */
  datatype Parsed = Parsed(chunks: seq<string>, error: Option<string>)

  /** A JSON value of the request body. Decimal numbers are kept as their literal text. */
  datatype Json =
    | JStr(s: string)
    | JBool(b: bool)
    | JInt(i: int)
    | JDecimal(text: string)
    | JArr(elems: seq<Json>)
    | JObj(fields: map<string, Json>)

  type RequestBody = map<string, Json>

  /** The result of sending a request: a response with its status and body lines, or the exception `send` threw. */
  datatype HttpOutcome =
    | Response(status: int, body: seq<Line>)
    | SendFailure(exception: Thrown)

  // ---------------------------------------------------------------------
  // Line parser
  // ---------------------------------------------------------------------

  /** Every character is at or below U+0020, which is when `line.trim().isEmpty()` holds (see `BlankIsTrimEmpty`). */
  predicate IsBlank(l: Line) {
    forall i :: 0 <= i < |l.text| ==> IsJavaSpace(l.text[i])
  }

  lemma BlankIsTrimEmpty(l: Line)
    ensures IsBlank(l) <==> JavaTrim(l.text) == []
  {
    TrimEmptyIff(l.text, IsJavaSpace);
  }

  /** A non-blank line that decodes and carries an `error` field. */
  predicate IsErrorLine(l: Line) {
    !IsBlank(l) && l.decoded.Some? && l.decoded.value.error.Some?
  }

  /** A non-blank, error-free line that decodes with `done` true. */
  predicate IsDoneLine(l: Line) {
    !IsBlank(l) && l.decoded.Some? && l.decoded.value.error.None? && l.decoded.value.done == Some(true)
  }

  /** A line after which the parser reads no more. */
  predicate Stops(l: Line) {
    IsErrorLine(l) || IsDoneLine(l)
  }

  /** The chunk a single line contributes: its `response`, if the line is read as content and that text is non-empty. */
  function Emitted(l: Line): (r: seq<string>)
    ensures |r| <= 1 && (r != [] ==> r[0] != [])
  {
    if IsBlank(l) then []
    else match l.decoded
      case None => []
      case Some(rec) =>
        if rec.error.Some? then []
        else if rec.response.Some? && rec.response.value != [] then [rec.response.value]
        else []
  }

  /** The chunks contributed by a run of lines, one line after the other. */
  function Chunks(lines: seq<Line>): seq<string>
    decreases |lines|
  {
    if lines == [] then [] else Emitted(lines[0]) + Chunks(lines[1..])
  }

  function Then(prefix: seq<string>, p: Parsed): Parsed {
    Parsed(prefix + p.chunks, p.error)
  }

  /**
   * What `parseStreamingResponse` pushes into the sink for the given body:
   * blank and malformed lines are skipped, an `error` field ends parsing
   * before that line's content is looked at, and `done` ends parsing
   * after it.
   */
  function Parse(lines: seq<Line>): Parsed
    decreases |lines|
  {
    if lines == [] then Parsed([], None)
    else
      var l := lines[0];
      if IsErrorLine(l) then Parsed([], l.decoded.value.error)
      else if IsDoneLine(l) then Parsed(Emitted(l), None)
      else Then(Emitted(l), Parse(lines[1..]))
  }

  lemma ThenEmpty(p: Parsed)
    ensures Then([], p) == p
  {
    assert [] + p.chunks == p.chunks;
  }

  /** One step of the parser at position `i`. */
  lemma ParseUnfold(lines: seq<Line>, i: nat)
    requires i < |lines|
    ensures Parse(lines[i..]) ==
      if IsErrorLine(lines[i]) then Parsed([], lines[i].decoded.value.error)
      else if IsDoneLine(lines[i]) then Parsed(Emitted(lines[i]), None)
      else Then(Emitted(lines[i]), Parse(lines[i + 1..]))
  {
    assert lines[i..][0] == lines[i];
    assert lines[i..][1..] == lines[i + 1..];
  }

  lemma ThenThen(a: seq<string>, b: seq<string>, p: Parsed)
    ensures Then(a, Then(b, p)) == Then(a + b, p)
  {
    assert a + (b + p.chunks) == (a + b) + p.chunks;
  }

  lemma ChunksAppend(a: seq<Line>, b: seq<Line>)
    ensures Chunks(a + b) == Chunks(a) + Chunks(b)
    decreases |a|
  {
    if a == [] {
      assert a + b == b;
    } else {
      ChunksAppend(a[1..], b);
      assert (a + b)[0] == a[0];
      assert (a + b)[1..] == a[1..] + b;
      assert Emitted(a[0]) + (Chunks(a[1..]) + Chunks(b)) == (Emitted(a[0]) + Chunks(a[1..])) + Chunks(b);
    }
  }

  /** A body in which no line reports an error or `done` completes with the chunks of all its lines. */
  lemma {:induction false} ParseWithoutStop(lines: seq<Line>)
    requires forall i :: 0 <= i < |lines| ==> !Stops(lines[i])
    ensures Parse(lines) == Parsed(Chunks(lines), None)
    decreases |lines|
  {
    if lines != [] {
      ParseWithoutStop(lines[1..]);
    }
  }

  /**
   * After a run of lines that do not stop the parser, an error line ends
   * the stream with its error text. Its own `response` is not emitted and
   * nothing after it is read.
   */
  lemma {:induction false} ParseErrorStops(before: seq<Line>, l: Line, after: seq<Line>)
    requires forall i :: 0 <= i < |before| ==> !Stops(before[i])
    requires IsErrorLine(l)
    ensures Parse(before + [l] + after) == Parsed(Chunks(before), l.decoded.value.error)
    decreases |before|
  {
    if before == [] {
      assert (before + [l] + after)[0] == l;
    } else {
      ParseErrorStops(before[1..], l, after);
      assert (before + [l] + after)[1..] == before[1..] + [l] + after;
    }
  }

  /**
   * After a run of lines that do not stop the parser, a `done` line adds
   * its own content and ends the stream normally; nothing after it is read.
   */
  lemma {:induction false} ParseDoneStops(before: seq<Line>, l: Line, after: seq<Line>)
    requires forall i :: 0 <= i < |before| ==> !Stops(before[i])
    requires IsDoneLine(l)
    ensures Parse(before + [l] + after) == Parsed(Chunks(before) + Emitted(l), None)
    decreases |before|
  {
    if before == [] {
      assert (before + [l] + after)[0] == l;
    } else {
      ParseDoneStops(before[1..], l, after);
      assert (before + [l] + after)[1..] == before[1..] + [l] + after;
      assert Emitted(before[0]) + (Chunks(before[1..]) + Emitted(l)) == Chunks(before) + Emitted(l);
    }
  }

  /** A blank or malformed line, wherever it stands, neither adds output nor stops parsing. */
  lemma {:induction false} ParseSkipsIgnoredLine(before: seq<Line>, l: Line, after: seq<Line>)
    requires IsBlank(l) || l.decoded.None?
    ensures Parse(before + [l] + after) == Parse(before + after)
    decreases |before|
  {
    if before == [] {
      assert before + [l] + after == [l] + after && before + after == after;
      assert ([l] + after)[1..] == after;
      assert Emitted(l) == [];
      assert Then([], Parse(after)) == Parse(after);
    } else {
      ParseSkipsIgnoredLine(before[1..], l, after);
      assert (before + [l] + after)[1..] == before[1..] + [l] + after;
      assert (before + after)[1..] == before[1..] + after;
    }
  }

  /** A chunk is never empty: an empty `response` emits nothing. */
  lemma {:induction false} ChunksNonEmpty(lines: seq<Line>)
    ensures forall i :: 0 <= i < |Parse(lines).chunks| ==> Parse(lines).chunks[i] != []
    decreases |lines|
  {
    if lines != [] && !Stops(lines[0]) {
      ChunksNonEmpty(lines[1..]);
    }
  }

  /** The error of an upstream line, as the parser raises it. */
  function UpstreamError(text: string): Thrown {
    Project(OllamaException, "OLLAMA error: " + text, None)
  }

  /**
   * The handling of one line inside the read loop of `parseStreamingResponse`:
   * skip it if blank or malformed, raise its error, or emit its content,
   * and report whether reading stops here.
   */
  method ReadLine(line: Line, sink: Sink<string>) returns (stop: bool)
    modifies sink
    ensures stop == Stops(line)
    ensures sink.items == old(sink.items) + (if old(sink.end).None? then Emitted(line) else [])
    ensures sink.end == if old(sink.end).None? && IsErrorLine(line)
                        then Some(Failed(UpstreamError(line.decoded.value.error.value)))
                        else old(sink.end)
  {
    BlankIsTrimEmpty(line);
    if JavaTrim(line.text) == [] {
      return false;
    }
    match line.decoded {
      case None =>
        // logged and skipped
        return false;
      case Some(record) =>
        if record.error.Some? {
          sink.Error(UpstreamError(record.error.value));
          return true;
        }
        if record.response.Some? {
          var content := record.response.value;
          if content != [] {
            sink.Next(content);
          }
        }
        return record.done.Some? && record.done.value;
    }
  }

  /**
   * `parseStreamingResponse`: reads the lines in order and pushes into the
   * sink what `Parse` describes; a sink that is already terminated ignores it.
   */
  method ParseStreamingResponse(lines: seq<Line>, sink: Sink<string>)
    modifies sink
    ensures old(sink.end).None? ==> sink.items == old(sink.items) + Parse(lines).chunks
    ensures old(sink.end).None? && Parse(lines).error.Some? ==> sink.end == Some(Failed(UpstreamError(Parse(lines).error.value)))
    ensures old(sink.end).None? && Parse(lines).error.None? ==> sink.end == None
    ensures old(sink.end).Some? ==> sink.items == old(sink.items) && sink.end == old(sink.end)
  {
    ghost var open := sink.end.None?;
    ghost var start := sink.items;
    ghost var emitted: seq<string> := [];
    var i := 0;
    while i < |lines|
      invariant 0 <= i <= |lines|
      invariant sink.end == old(sink.end)
      invariant open ==> sink.items == start + emitted
      invariant !open ==> sink.items == start
      invariant Then(emitted, Parse(lines[i..])) == Parse(lines)
    {
      var line := lines[i];
      ParseUnfold(lines, i);
      i := i + 1;
      var stop := ReadLine(line, sink);
      ThenThen(emitted, Emitted(line), Parse(lines[i..]));
      emitted := emitted + Emitted(line);
      if stop {
        break;
      }
    }
    if i == |lines| {
      assert Parse(lines[i..]) == Parsed([], None);
    }
  }

  // ---------------------------------------------------------------------
  // Request body
  // ---------------------------------------------------------------------

  /** `base64Image != null && !base64Image.isEmpty()`. */
  predicate HasImage(base64Image: Option<string>) {
    base64Image.Some? && base64Image.value != []
  }

  /** The generation options, the same for every request; the decimals are kept as literal text. */
  const GenerationOptions: Json :=
    JObj(map["temperature" := JDecimal("0.7"), "top_p" := JDecimal("0.9"), "max_tokens" := JInt(2048)])

  /** The body `createRequestBody` builds. */
  function RequestBodyOf(model: string, message: string, base64Image: Option<string>): RequestBody {
    var base := map["model" := JStr(model), "prompt" := JStr(message), "stream" := JBool(true)];
    var withImage := if HasImage(base64Image) then base["images" := JArr([JStr(base64Image.value)])] else base;
    withImage["options" := GenerationOptions]
  }

  /**
   * Every request streams, names the configured model and carries the
   * prompt and the options; it has an `images` field, holding the one
   * image, exactly when a non-empty image text was given.
   */
  lemma RequestBodyShape(model: string, message: string, base64Image: Option<string>)
    ensures var body := RequestBodyOf(model, message, base64Image);
      && body.Keys == {"model", "prompt", "stream", "options"} + (if HasImage(base64Image) then {"images"} else {})
      && body["model"] == JStr(model) && body["prompt"] == JStr(message)
      && body["stream"] == JBool(true) && body["options"] == GenerationOptions
      && ("images" in body <==> HasImage(base64Image))
      && ("images" in body ==> body["images"] == JArr([JStr(base64Image.value)]))
  {
  }

  /** `createRequestBody`: the fields are put into a fresh map one after the other. */
  method CreateRequestBody(model: string, message: string, base64Image: Option<string>) returns (body: RequestBody)
    ensures body == RequestBodyOf(model, message, base64Image)
  {
    body := map[];
    body := body["model" := JStr(model)];
    body := body["prompt" := JStr(message)];
    body := body["stream" := JBool(true)];
    if base64Image.Some? && base64Image.value != [] {
      body := body["images" := JArr([JStr(base64Image.value)])];
    }
    var options: map<string, Json> := map[];
    options := options["temperature" := JDecimal("0.7")];
    options := options["top_p" := JDecimal("0.9")];
    options := options["max_tokens" := JInt(2048)];
    body := body["options" := JObj(options)];
  }

  // ---------------------------------------------------------------------
  // Sending a request
  // ---------------------------------------------------------------------

  function StatusError(status: int): Thrown {
    Project(OllamaException, "OLLAMA returned error code: " + IntToString(status), None)
  }

  /** The wrapper around an exception thrown while sending; `"" + null` gives "null" for a missing message. */
  function SendError(e: Thrown): Thrown {
    Project(OllamaException, "Failed to send request to OLLAMA: " + JavaText(e.message), Some(e))
  }

  /**
   * What a subscriber to `sendMessage` receives for a given outcome of the
   * HTTP exchange: a send failure or a status other than 200 fails the
   * stream before any chunk; otherwise the parsed chunks follow, and the
   * stream ends with the parser's error or completes.
   */
  function Transfer(outcome: HttpOutcome): (r: Flux<string>)
    ensures !(outcome.Response? && outcome.status == 200) ==> r.items == [] && r.end.Failed?
    ensures outcome.Response? && outcome.status == 200 ==>
      r.items == Parse(outcome.body).chunks && (r.end.Completed? <==> Parse(outcome.body).error.None?)
    ensures r.end.Failed? ==> r.end.error.IsA(OllamaException)
  {
    match outcome
    case SendFailure(e) => Flux([], Failed(SendError(e)))
    case Response(status, body) =>
      if status != 200 then Flux([], Failed(StatusError(status)))
      else
        var p := Parse(body);
        Flux(p.chunks, if p.error.Some? then Failed(UpstreamError(p.error.value)) else Completed)
  }

  /** A status other than 200 fails the stream in the same way whatever the body holds: the body is not parsed. */
  lemma NonOkStatusIgnoresBody(status: int, body1: seq<Line>, body2: seq<Line>)
    requires status != 200
    ensures Transfer(Response(status, body1)) == Transfer(Response(status, body2))
    ensures Transfer(Response(status, body1)).end == Failed(StatusError(status))
  {
  }

  /**
   * `sendMessage`: builds the body, hands it to the exchange, gates on
   * the status and parses into a fresh sink, which is completed after
   * parsing. A parser error has already terminated the sink, so that
   * completion is ignored and the error stands.
   */
  method SendMessage(model: string, message: string, base64Image: Option<string>, exchange: RequestBody -> HttpOutcome)
    returns (request: RequestBody, out: Flux<string>)
    ensures request == RequestBodyOf(model, message, base64Image)
    ensures out == Transfer(exchange(request))
  {
    var sink := new Sink<string>();
    request := CreateRequestBody(model, message, base64Image);
    var outcome := exchange(request);
    match outcome {
      case SendFailure(e) =>
        sink.Error(SendError(e));
      case Response(status, body) =>
        if status != 200 {
          sink.Error(StatusError(status));
        } else {
          ParseStreamingResponse(body, sink);
          sink.Complete();
        }
    }
    out := sink.Emitted();
  }

  /** `sendTextMessage`: a request without an image. */
  method SendTextMessage(model: string, message: string, exchange: RequestBody -> HttpOutcome)
    returns (request: RequestBody, out: Flux<string>)
    ensures request == RequestBodyOf(model, message, None) && "images" !in request
    ensures out == Transfer(exchange(request))
  {
    request, out := SendMessage(model, message, None, exchange);
  }

  /** `sendMultimodalMessage`: the image bytes go Base64-encoded; an empty image sends no `images` field. */
  method SendMultimodalMessage(model: string, message: string, imageData: seq<byte>, exchange: RequestBody -> HttpOutcome)
    returns (request: RequestBody, out: Flux<string>)
    ensures request == RequestBodyOf(model, message, Some(Base64.Encode(imageData)))
    ensures "images" in request <==> imageData != []
    ensures "images" in request ==> request["images"] == JArr([JStr(Base64.Encode(imageData))])
    ensures out == Transfer(exchange(request))
  {
    var base64Image := Base64.Encode(imageData);
    request, out := SendMessage(model, message, Some(base64Image), exchange);
  }
}
