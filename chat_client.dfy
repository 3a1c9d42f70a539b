/**
 * The browser's chat manager: the map of sessions it lists, the current
 * session, and the buffer in which an assistant reply is reassembled
 * from the stream events the server sends back. The page itself is left
 * out; what the finalize step renders into the reply's bubble is kept as
 * a list of texts, one per finalized reply.
 */
module ChatClient {
  import opened Common
  import opened Strings

  /** A stream event as the client receives it: a JSON object whose `type` and `content` may be missing. */
  datatype StreamData = StreamData(kind: Option<string>, content: Option<string>, messageId: Option<string>)

  /** A session as listed in the sidebar. */
  datatype SessionSummary = SessionSummary(title: string, messageCount: nat, updatedAt: string)

  /** A string field used as a condition: missing and `''` are false. */
  predicate Truthy(x: Option<string>) {
    x.Some? && x.value != ""
  }

  const ErrorReply := "Error processing your request. Please try again."

  /** The streaming part of the manager's state, and the texts the finalize step has rendered. */
  datatype StreamState = StreamState(messageId: Option<string>, content: string, finalized: seq<string>)

  /** `handleStreamChunk`: a non-empty content is appended to the buffer. */
  function OnChunk(st: StreamState, data: StreamData): StreamState {
    if Truthy(data.content) then st.(content := st.content + data.content.value) else st
  }

  /**
   * `finalizeStreamingMessage`: renders the given text, or the buffer when
   * none is given, into the open reply's bubble, and resets the stream.
   * Without an open reply the selector looks for the id "null", which no
   * bubble has, so nothing is rendered.
   */
  function Finalize(st: StreamState, finalContent: Option<string>): StreamState {
    var shown := if Truthy(finalContent) then finalContent.value else st.content;
    StreamState(None, "", if st.messageId.Some? then st.finalized + [shown] else st.finalized)
  }

  /** `handleStreamingMessage`: the dispatch on the event's type; events without a type, and unknown types, change nothing. */
  function OnMessage(st: StreamState, data: Option<StreamData>): StreamState {
    if data.None? || !Truthy(data.value.kind) then st
    else
      var kind := data.value.kind.value;
      if kind == "stream_chunk" then OnChunk(st, data.value)
      else if kind == "stream_end" then Finalize(st, None)
      else if kind == "error" then Finalize(st, Some(ErrorReply))
      else st
  }

  /** The events handled one after the other. */
  function ApplyAll(st: StreamState, events: seq<StreamData>): StreamState
    decreases |events|
  {
    if events == [] then st
    else OnMessage(ApplyAll(st, events[..|events| - 1]), Some(events[|events| - 1]))
  }

  lemma {:induction false} ApplyAllAppend(st: StreamState, a: seq<StreamData>, b: seq<StreamData>)
    ensures ApplyAll(st, a + b) == ApplyAll(ApplyAll(st, a), b)
    decreases |b|
  {
    if b == [] {
      assert a + b == a;
    } else {
      ApplyAllAppend(st, a, b[..|b| - 1]);
      assert (a + b)[..|a + b| - 1] == a + b[..|b| - 1];
    }
  }

  predicate HasKind(d: StreamData, kind: string) {
    d.kind == Some(kind)
  }

  /** `streamData.find(chunk => chunk.type === kind)`. */
  function FindFirst(events: seq<StreamData>, kind: string): (r: Option<StreamData>)
    ensures r.Some? ==> HasKind(r.value, kind) && r.value in events
    ensures r.Some? ==> exists i :: 0 <= i < |events| && events[i] == r.value && NoneOfKindBefore(events, kind, i)
    ensures r.None? ==> forall i :: 0 <= i < |events| ==> !HasKind(events[i], kind)
    decreases |events|
  {
    if events == [] then None
    else if HasKind(events[0], kind) then
      assert NoneOfKindBefore(events, kind, 0);
      Some(events[0])
    else
      var r := FindFirst(events[1..], kind);
      if r.Some? then
        var i :| 0 <= i < |events[1..]| && events[1..][i] == r.value && NoneOfKindBefore(events[1..], kind, i);
        assert events[i + 1] == r.value && NoneOfKindBefore(events, kind, i + 1) by {
          forall j | 0 <= j < i + 1 ensures !HasKind(events[j], kind) {
            if j > 0 {
              assert events[j] == events[1..][j - 1];
            }
          }
        }
        r
      else r
  }

  /** No event before position `i` has the kind. */
  predicate NoneOfKindBefore(events: seq<StreamData>, kind: string, i: nat)
    requires i <= |events|
  {
    forall j :: 0 <= j < i ==> !HasKind(events[j], kind)
  }

  /** `streamData.filter(chunk => chunk.type === kind)`. */
  function FilterKind(events: seq<StreamData>, kind: string): (r: seq<StreamData>)
    ensures forall i :: 0 <= i < |r| ==> HasKind(r[i], kind) && r[i] in events
    ensures forall i :: 0 <= i < |events| && HasKind(events[i], kind) ==> events[i] in r
    ensures |r| <= |events|
    decreases |events|
  {
    if events == [] then []
    else
      var init := events[..|events| - 1];
      assert forall i :: 0 <= i < |init| ==> init[i] == events[i];
      FilterKind(init, kind) + (if HasKind(events[|events| - 1], kind) then [events[|events| - 1]] else [])
  }

  /** Filtering keeps the order of the events: the kept events of two runs are those of the first, then those of the second. */
  lemma {:induction false} FilterKindAppend(a: seq<StreamData>, b: seq<StreamData>, kind: string)
    ensures FilterKind(a + b, kind) == FilterKind(a, kind) + FilterKind(b, kind)
    decreases |b|
  {
    if b == [] {
      assert a + b == a;
    } else {
      FilterKindAppend(a, b[..|b| - 1], kind);
      assert (a + b)[..|a + b| - 1] == a + b[..|b| - 1];
    }
  }

  function AsList(x: Option<StreamData>): seq<StreamData> {
    if x.Some? then [x.value] else []
  }

  /**
   * The events `processStreamChunksWithDelay` hands on, in the order it
   * hands them on: the first `stream_start`, every `stream_chunk` in the
   * order received, then the first `stream_end`.
   */
  function Dispatched(events: seq<StreamData>): seq<StreamData> {
    AsList(FindFirst(events, "stream_start")) + FilterKind(events, "stream_chunk") + AsList(FindFirst(events, "stream_end"))
  }

  /** Only start, chunk and end events are handed on: an error event in the reply is never handled. */
  lemma DispatchedKinds(events: seq<StreamData>)
    ensures forall i :: 0 <= i < |Dispatched(events)| ==>
      && Dispatched(events)[i] in events
      && (HasKind(Dispatched(events)[i], "stream_start") || HasKind(Dispatched(events)[i], "stream_chunk")
          || HasKind(Dispatched(events)[i], "stream_end"))
    ensures forall i :: 0 <= i < |Dispatched(events)| ==> !HasKind(Dispatched(events)[i], "error")
  {
  }

  /** The text a chunk contributes to the buffer. */
  function ChunkText(d: StreamData): string {
    if Truthy(d.content) then d.content.value else ""
  }

  function ChunkTexts(events: seq<StreamData>): (r: seq<string>)
    ensures |r| == |events|
    ensures forall i :: 0 <= i < |events| ==> r[i] == ChunkText(events[i])
  {
    seq(|events|, i requires 0 <= i < |events| => ChunkText(events[i]))
  }

  /** Handling chunks appends their non-empty contents, in order, and changes nothing else. */
  lemma {:induction false} ChunksAccumulate(st: StreamState, chunks: seq<StreamData>)
    requires forall i :: 0 <= i < |chunks| ==> HasKind(chunks[i], "stream_chunk")
    ensures ApplyAll(st, chunks) == st.(content := st.content + Flatten(ChunkTexts(chunks)))
    decreases |chunks|
  {
    if chunks != [] {
      var init := chunks[..|chunks| - 1];
      ChunksAccumulate(st, init);
      assert ChunkTexts(chunks)[..|chunks| - 1] == ChunkTexts(init);
    }
  }

  /**
   * What a reply does to the stream: its chunks are appended to the
   * buffer; with a `stream_end` the buffer, with them, is rendered and
   * the stream reset, and without one the stream stays open.
   */
  lemma Reassembly(st: StreamState, events: seq<StreamData>)
    ensures var text := st.content + Flatten(ChunkTexts(FilterKind(events, "stream_chunk")));
      ApplyAll(st, Dispatched(events))
        == if FindFirst(events, "stream_end").Some? then
             StreamState(None, "", if st.messageId.Some? then st.finalized + [text] else st.finalized)
           else st.(content := text)
  {
    var start := AsList(FindFirst(events, "stream_start"));
    var chunks := FilterKind(events, "stream_chunk");
    var end := AsList(FindFirst(events, "stream_end"));
    ApplyAllAppend(st, start + chunks, end);
    ApplyAllAppend(st, start, chunks);
    assert ApplyAll(st, start) == st by {
      if start != [] {
        assert start[..0] == [];
      }
    }
    ChunksAccumulate(st, chunks);
    if end != [] {
      assert end[..0] == [];
    }
  }

  /** The pause after a chunk: 30 ms plus 2 ms per character (an empty content counts as one), at most 150 ms. */
  function ChunkDelay(d: StreamData): (ms: nat)
    ensures 32 <= ms <= 150
  {
    var len := if Truthy(d.content) then |d.content.value| else 1;
    if 30 + len * 2 < 150 then 30 + len * 2 else 150
  }

  /** The delay grows with the chunk until it reaches the cap. */
  lemma ChunkDelayGrows(d: StreamData, e: StreamData)
    requires Truthy(d.content) && Truthy(e.content) && |d.content.value| <= |e.content.value|
    ensures ChunkDelay(d) <= ChunkDelay(e)
    ensures |e.content.value| >= 60 ==> ChunkDelay(e) == 150
  {
  }

  /** `sendMessage`'s guard: the trimmed input, or nothing to send when the input is missing or blank. */
  function MessageToSend(input: Option<string>): (r: Option<string>)
    ensures r.Some? <==> input.Some? && JsTrim(input.value) != ""
    ensures r.Some? ==> r.value == JsTrim(input.value)
  {
    if input.None? then None
    else
      var content := JsTrim(input.value);
      if content == "" then None else Some(content)
  }

  /** A blank input is never sent. */
  lemma BlankNotSent(input: string)
    requires forall i :: 0 <= i < |input| ==> IsJsSpace(input[i])
    ensures MessageToSend(Some(input)).None?
  {
    TrimEmptyIff(input, IsJsSpace);
  }

  class ChatManager {
    var currentSessionId: Option<string>
    var sessions: map<string, SessionSummary>
    var streamingMessageId: Option<string>
    var streamingContent: string
    var finalized: seq<string>

    function Stream(): StreamState
      reads this
    {
      StreamState(streamingMessageId, streamingContent, finalized)
    }

    constructor ()
      ensures currentSessionId.None? && sessions == map[]
      ensures Stream() == StreamState(None, "", [])
    {
      currentSessionId := None;
      sessions := map[];
      streamingMessageId := None;
      streamingContent := "";
      finalized := [];
    }

    /** `prepareForStreaming`: a new reply id from the clock and an empty buffer. */
    method PrepareForStreaming(now: nat)
      modifies this
      ensures streamingMessageId == Some("streaming-" + NatToString(now)) && streamingContent == ""
      ensures finalized == old(finalized) && sessions == old(sessions) && currentSessionId == old(currentSessionId)
    {
      streamingMessageId := Some("streaming-" + NatToString(now));
      streamingContent := "";
    }

    /** `handleStreamChunk`. */
    method HandleStreamChunk(data: StreamData)
      modifies this
      ensures Stream() == OnChunk(old(Stream()), data)
      ensures sessions == old(sessions) && currentSessionId == old(currentSessionId)
    {
      if Truthy(data.content) {
        streamingContent := streamingContent + data.content.value;
      }
    }

    /** `finalizeStreamingMessage(finalContent)`. */
    method FinalizeStreamingMessage(finalContent: Option<string>)
      modifies this
      ensures Stream() == Finalize(old(Stream()), finalContent)
      ensures sessions == old(sessions) && currentSessionId == old(currentSessionId)
    {
      if streamingMessageId.Some? {
        var content := if Truthy(finalContent) then finalContent.value else streamingContent;
        finalized := finalized + [content];
      }
      streamingMessageId := None;
      streamingContent := "";
    }

    /** `handleStreamingMessage`. */
    method HandleStreamingMessage(data: Option<StreamData>)
      modifies this
      ensures Stream() == OnMessage(old(Stream()), data)
      ensures sessions == old(sessions) && currentSessionId == old(currentSessionId)
    {
      if data.None? || !Truthy(data.value.kind) {
        return;
      }
      var kind := data.value.kind.value;
      if kind == "stream_start" {
      } else if kind == "stream_chunk" {
        HandleStreamChunk(data.value);
      } else if kind == "stream_end" {
        FinalizeStreamingMessage(None);
      } else if kind == "error" {
        FinalizeStreamingMessage(Some(ErrorReply));
      }
    }

    /** The start or the end event, when the reply has one. */
    method HandleIfPresent(data: Option<StreamData>)
      modifies this
      ensures Stream() == ApplyAll(old(Stream()), AsList(data))
      ensures sessions == old(sessions) && currentSessionId == old(currentSessionId)
    {
      if data.Some? {
        HandleStreamingMessage(data);
        assert AsList(data)[..0] == [];
      }
    }

    /** The chunk loop, each chunk followed by its pause. */
    method HandleChunksWithDelay(contentChunks: seq<StreamData>) returns (delays: seq<nat>)
      modifies this
      ensures Stream() == ApplyAll(old(Stream()), contentChunks)
      ensures |delays| == |contentChunks| && forall i :: 0 <= i < |contentChunks| ==> delays[i] == ChunkDelay(contentChunks[i])
      ensures sessions == old(sessions) && currentSessionId == old(currentSessionId)
    {
      delays := [];
      for i := 0 to |contentChunks|
        invariant Stream() == ApplyAll(old(Stream()), contentChunks[..i])
        invariant |delays| == i && forall j :: 0 <= j < i ==> delays[j] == ChunkDelay(contentChunks[j])
        invariant sessions == old(sessions) && currentSessionId == old(currentSessionId)
      {
        var chunk := contentChunks[i];
        HandleStreamingMessage(Some(chunk));
        assert contentChunks[..i + 1][..i] == contentChunks[..i];
        delays := delays + [ChunkDelay(chunk)];
      }
      assert contentChunks[..|contentChunks|] == contentChunks;
    }

    /**
     * `processStreamChunksWithDelay`: hands on the reply's events in the
     * order `Dispatched` gives and returns the pause taken after each
     * chunk.
     */
    method ProcessStreamChunksWithDelay(streamData: seq<StreamData>) returns (delays: seq<nat>)
      modifies this
      ensures Stream() == ApplyAll(old(Stream()), Dispatched(streamData))
      ensures var chunks := FilterKind(streamData, "stream_chunk");
        |delays| == |chunks| && forall i :: 0 <= i < |chunks| ==> delays[i] == ChunkDelay(chunks[i])
      ensures sessions == old(sessions) && currentSessionId == old(currentSessionId)
    {
      ghost var st0 := Stream();
      var startChunk := FindFirst(streamData, "stream_start");
      var contentChunks := FilterKind(streamData, "stream_chunk");
      var endChunk := FindFirst(streamData, "stream_end");
      HandleIfPresent(startChunk);
      delays := HandleChunksWithDelay(contentChunks);
      ApplyAllAppend(st0, AsList(startChunk), contentChunks);
      HandleIfPresent(endChunk);
      ApplyAllAppend(st0, AsList(startChunk) + contentChunks, AsList(endChunk));
    }

    /**
     * `deleteSession` after the confirmation dialog: when the user
     * confirms and the server deletes it, the session leaves the list,
     * and the current session is cleared only if it was that one. A
     * refused dialog or a failed request changes nothing.
     */
    method DeleteSession(sessionId: string, confirmed: bool, serverDeleted: bool)
      modifies this
      ensures confirmed && serverDeleted ==>
        && sessions == old(sessions) - {sessionId}
        && currentSessionId == (if old(currentSessionId) == Some(sessionId) then None else old(currentSessionId))
      ensures !(confirmed && serverDeleted) ==> sessions == old(sessions) && currentSessionId == old(currentSessionId)
      ensures Stream() == old(Stream())
    {
      if !confirmed {
        return;
      }
      if serverDeleted {
        sessions := sessions - {sessionId};
        if currentSessionId == Some(sessionId) {
          currentSessionId := None;
        }
      }
    }
  }
}
