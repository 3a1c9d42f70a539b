/**
 * The event the server streams to the browser for each step of a model
 * response, with its constructors and the four factories that label it
 * `stream_start`, `stream_chunk`, `stream_end` or `error`.
 */
module StreamResponses {
  import opened Common

  /** The four kinds of event and the type names they carry on the wire. */
  datatype EventKind = StartEvent | ChunkEvent | EndEvent | ErrorEvent

  function KindName(k: EventKind): string {
    match k
    case StartEvent => "stream_start"
    case ChunkEvent => "stream_chunk"
    case EndEvent => "stream_end"
    case ErrorEvent => "error"
  }

  /** The kind a type name stands for, as the browser's dispatch reads it; `None` for any other name. */
  function KindOf(name: string): (k: Option<EventKind>)
    ensures k.Some? ==> KindName(k.value) == name
  {
    if name == "stream_start" then Some(StartEvent)
    else if name == "stream_chunk" then Some(ChunkEvent)
    else if name == "stream_end" then Some(EndEvent)
    else if name == "error" then Some(ErrorEvent)
    else None
  }

  /** Reading a kind's name back gives the kind, so the four names are pairwise different. */
  lemma KindNameRoundTrip(k: EventKind)
    ensures KindOf(KindName(k)) == Some(k)
  {
  }

  /** Metadata attached to an event. Its creation timestamp comes from the clock and is not modelled. */
  datatype StreamMetadata = StreamMetadata(tokenCount: Option<int>, processingTime: Option<int>)

  /** `new StreamMetadata()`: both counters are null. */
  const FreshMetadata := StreamMetadata(None, None)

  /** The event; the Java field `type` is `eventType` here. Every field may be null. */
  datatype StreamResponse = StreamResponse(
    eventType: Option<string>,
    sessionId: Option<Uuid>,
    messageId: Option<Uuid>,
    content: Option<string>,
    metadata: Option<StreamMetadata>)

  /** The kind of an event by its type name; `None` for a missing or unknown type. */
  function Kind(r: StreamResponse): Option<EventKind> {
    if r.eventType.Some? then KindOf(r.eventType.value) else None
  }

  /** The no-argument constructor: every field is null, metadata included. */
  function Blank(): (r: StreamResponse)
    ensures r.eventType.None? && r.sessionId.None? && r.messageId.None? && r.content.None?
    ensures r.metadata.None?
  {
    StreamResponse(None, None, None, None, None)
  }

  /** The four-argument constructor: the fields as given, and always a fresh metadata block. */
  function Make(eventType: Option<string>, sessionId: Option<Uuid>, messageId: Option<Uuid>, content: Option<string>): (r: StreamResponse)
    ensures (r.eventType, r.sessionId, r.messageId, r.content) == (eventType, sessionId, messageId, content)
    ensures r.metadata == Some(FreshMetadata)
  {
    StreamResponse(eventType, sessionId, messageId, content, Some(FreshMetadata))
  }

  /** `streamStart`: an event of kind start with empty content. */
  function StreamStart(sessionId: Uuid, messageId: Uuid): (r: StreamResponse)
    ensures Kind(r) == Some(StartEvent) && r.content == Some("")
    ensures r.sessionId == Some(sessionId) && r.messageId == Some(messageId) && r.metadata.Some?
  {
    Make(Some("stream_start"), Some(sessionId), Some(messageId), Some(""))
  }

  /** `streamChunk`: an event of kind chunk carrying the content unchanged. */
  function StreamChunk(sessionId: Uuid, messageId: Uuid, content: string): (r: StreamResponse)
    ensures Kind(r) == Some(ChunkEvent) && r.content == Some(content)
    ensures r.sessionId == Some(sessionId) && r.messageId == Some(messageId) && r.metadata.Some?
  {
    Make(Some("stream_chunk"), Some(sessionId), Some(messageId), Some(content))
  }

  /** `streamEnd`: an event of kind end with empty content. */
  function StreamEnd(sessionId: Uuid, messageId: Uuid): (r: StreamResponse)
    ensures Kind(r) == Some(EndEvent) && r.content == Some("")
    ensures r.sessionId == Some(sessionId) && r.messageId == Some(messageId) && r.metadata.Some?
  {
    Make(Some("stream_end"), Some(sessionId), Some(messageId), Some(""))
  }

  /** `error`: an event of kind error with no message id and the error text (possibly null) as content. */
  function Error(sessionId: Uuid, errorMessage: Option<string>): (r: StreamResponse)
    ensures Kind(r) == Some(ErrorEvent) && r.content == errorMessage
    ensures r.sessionId == Some(sessionId) && r.messageId.None? && r.metadata.Some?
  {
    Make(Some("error"), Some(sessionId), None, errorMessage)
  }

  /** A chunk event is told apart from start and end events by its type alone, whatever its content. */
  lemma ChunkNeverFraming(s: Uuid, m: Uuid, content: string)
    ensures StreamChunk(s, m, content) != StreamStart(s, m)
    ensures StreamChunk(s, m, content) != StreamEnd(s, m)
    ensures StreamStart(s, m) != StreamEnd(s, m)
  {
  }
}
