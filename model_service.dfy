/**
 * The model service: it frames the upstream text stream as events
 * (`stream_start`, one `stream_chunk` per upstream string, `stream_end`)
 * and builds the prompts sent upstream.
 *
 * The upstream stream is a parameter: it is what the client's
 * `sendTextMessage` or `sendMultimodalMessage` delivered for the prompt.
 */
module ModelService {
  import opened Common
  import opened Strings
  import opened Exceptions
  import opened Reactive
  import opened StreamResponses

  const TextFailure := "Failed to process text request"
  const MultimodalFailure := "Failed to process multimodal request"

  /** The upstream strings as chunk events; an upstream error becomes a model-service error caused by it. */
  function ChunkEvents(sessionId: Uuid, messageId: Uuid, upstream: Flux<string>, failure: string): Flux<StreamResponse> {
    MapError(
      Map(upstream, (content: string) => StreamChunk(sessionId, messageId, content)),
      (e: Thrown) => Project(ModelServiceException, failure, Some(e)))
  }

  /** `Flux.concat(just(start), chunks, just(end))`. */
  function Framed(sessionId: Uuid, messageId: Uuid, upstream: Flux<string>, failure: string): Flux<StreamResponse> {
    Concat(Just(StreamStart(sessionId, messageId)),
      Concat(ChunkEvents(sessionId, messageId, upstream, failure), Just(StreamEnd(sessionId, messageId))))
  }

  /** `processTextRequest`. */
  function ProcessTextRequest(sessionId: Uuid, messageId: Uuid, upstream: Flux<string>): Flux<StreamResponse> {
    Framed(sessionId, messageId, upstream, TextFailure)
  }

  /** `processMultimodalRequest`: the same framing, with its own failure message. */
  function ProcessMultimodalRequest(sessionId: Uuid, messageId: Uuid, upstream: Flux<string>): Flux<StreamResponse> {
    Framed(sessionId, messageId, upstream, MultimodalFailure)
  }

  /** The events of a framed response: the start, the chunks, and the end only when upstream completed. */
  lemma FramedItems(sessionId: Uuid, messageId: Uuid, upstream: Flux<string>, failure: string)
    ensures Framed(sessionId, messageId, upstream, failure).items
      == [StreamStart(sessionId, messageId)] + ChunkEvents(sessionId, messageId, upstream, failure).items
         + (if upstream.end.Completed? then [StreamEnd(sessionId, messageId)] else [])
  {
    var chunks := ChunkEvents(sessionId, messageId, upstream, failure);
    assert chunks.end.Completed? <==> upstream.end.Completed?;
    if !upstream.end.Completed? {
      assert [StreamStart(sessionId, messageId)] + chunks.items + [] == [StreamStart(sessionId, messageId)] + chunks.items;
    }
  }

  /**
   * The shape of a framed response: start first, then one chunk per
   * upstream string in upstream order; then either end last and normal
   * completion, or, when upstream failed, no end event and a model-service
   * error whose cause is the upstream error.
   */
  lemma FramedShape(sessionId: Uuid, messageId: Uuid, upstream: Flux<string>, failure: string)
    ensures var r := Framed(sessionId, messageId, upstream, failure);
      && |r.items| == |upstream.items| + (if upstream.end.Completed? then 2 else 1)
      && r.items[0] == StreamStart(sessionId, messageId)
      && (forall i :: 0 <= i < |upstream.items| ==> r.items[i + 1] == StreamChunk(sessionId, messageId, upstream.items[i]))
      && (upstream.end.Completed? ==> r.items[|r.items| - 1] == StreamEnd(sessionId, messageId) && r.end == Completed)
      && (upstream.end.Failed? ==>
            r.end == Failed(Project(ModelServiceException, failure, Some(upstream.end.error)))
            && forall i :: 0 <= i < |r.items| ==> r.items[i] != StreamEnd(sessionId, messageId))
  {
    var r := Framed(sessionId, messageId, upstream, failure);
    var chunks := ChunkEvents(sessionId, messageId, upstream, failure);
    if upstream.end.Completed? {
      assert r.items == [StreamStart(sessionId, messageId)] + chunks.items + [StreamEnd(sessionId, messageId)];
    } else {
      assert r.items == [StreamStart(sessionId, messageId)] + chunks.items;
      forall i | 0 <= i < |r.items| ensures r.items[i] != StreamEnd(sessionId, messageId) {
        if i > 0 {
          ChunkNeverFraming(sessionId, messageId, upstream.items[i - 1]);
        }
      }
    }
  }

  /** Every event of a request carries the request's session id and message id. */
  lemma FramedIds(sessionId: Uuid, messageId: Uuid, upstream: Flux<string>, failure: string)
    ensures var r := Framed(sessionId, messageId, upstream, failure);
      forall i :: 0 <= i < |r.items| ==> r.items[i].sessionId == Some(sessionId) && r.items[i].messageId == Some(messageId)
  {
    FramedShape(sessionId, messageId, upstream, failure);
  }

  /**
   * The two request kinds frame the same events in the same order; they
   * differ only in the message of the model-service error an upstream
   * failure becomes.
   */
  lemma ProcessRequestsFraming(sessionId: Uuid, messageId: Uuid, upstream: Flux<string>)
    ensures ProcessTextRequest(sessionId, messageId, upstream).items == ProcessMultimodalRequest(sessionId, messageId, upstream).items
    ensures var t := ProcessTextRequest(sessionId, messageId, upstream);
      && |t.items| == |upstream.items| + (if upstream.end.Completed? then 2 else 1)
      && t.items[0] == StreamStart(sessionId, messageId)
      && (upstream.end.Completed? ==> t.end == Completed)
      && (upstream.end.Failed? ==> t.end == Failed(Project(ModelServiceException, TextFailure, Some(upstream.end.error))))
    ensures var m := ProcessMultimodalRequest(sessionId, messageId, upstream);
      && (upstream.end.Completed? ==> m.end == Completed)
      && (upstream.end.Failed? ==> m.end == Failed(Project(ModelServiceException, MultimodalFailure, Some(upstream.end.error))))
  {
    FramedItems(sessionId, messageId, upstream, TextFailure);
    FramedItems(sessionId, messageId, upstream, MultimodalFailure);
    FramedShape(sessionId, messageId, upstream, TextFailure);
    FramedShape(sessionId, messageId, upstream, MultimodalFailure);
    var t := ChunkEvents(sessionId, messageId, upstream, TextFailure);
    var m := ChunkEvents(sessionId, messageId, upstream, MultimodalFailure);
    assert |t.items| == |m.items|;
    assert forall i :: 0 <= i < |t.items| ==> t.items[i] == m.items[i];
  }

  // ---------------------------------------------------------------------
  // Prompts
  // ---------------------------------------------------------------------

  const ContextHeader := "Previous conversation context:\n"
  const AssistantCue := "\n\nAssistant: "
  const MultimodalCue := "\n\nPlease analyze the image and respond to the user's message. Assistant: "

  /** `createEnhancedPrompt`: the context block only for a non-null, non-empty context. */
  function CreateEnhancedPrompt(userMessage: string, conversationContext: Option<string>): string {
    (if conversationContext.Some? && conversationContext.value != []
     then ContextHeader + conversationContext.value + "\n\n"
     else "")
    + "User: " + userMessage + AssistantCue
  }

  /** `createMultimodalPrompt`: the description block only for a non-null, non-empty description. */
  function CreateMultimodalPrompt(userMessage: string, imageDescription: Option<string>): string {
    (if imageDescription.Some? && imageDescription.value != []
     then "Image description: " + imageDescription.value + "\n\n"
     else "")
    + "User message: " + userMessage + MultimodalCue
  }

  /**
   * The enhanced prompt takes apart into its pieces: with a non-empty
   * context it is the header, the context, a blank line, then the user
   * turn; otherwise it is only the user turn. The user turn is "User: ",
   * the message, and the assistant cue.
   */
  lemma EnhancedPromptParts(userMessage: string, conversationContext: Option<string>)
    ensures var p := CreateEnhancedPrompt(userMessage, conversationContext);
      var turn := |"User: "| + |userMessage| + |AssistantCue|;
      && |p| >= turn
      && p[|p| - turn..] == "User: " + userMessage + AssistantCue
      && p[|p| - |AssistantCue| - |userMessage|..|p| - |AssistantCue|] == userMessage
      && (conversationContext.Some? && conversationContext.value != [] ==>
            var c := conversationContext.value;
            && |p| == |ContextHeader| + |c| + 2 + turn
            && p[..|ContextHeader|] == ContextHeader
            && p[|ContextHeader|..|ContextHeader| + |c|] == c)
      && (conversationContext.None? || conversationContext.value == [] ==> |p| == turn)
  {
    var p := CreateEnhancedPrompt(userMessage, conversationContext);
    var head := if conversationContext.Some? && conversationContext.value != []
                then ContextHeader + conversationContext.value + "\n\n" else "";
    var t := "User: " + userMessage + AssistantCue;
    assert p == head + t;
    assert p[|head|..] == t;
    assert t[|"User: "|..|"User: "| + |userMessage|] == userMessage;
    if conversationContext.Some? && conversationContext.value != [] {
      var c := conversationContext.value;
      assert head[..|ContextHeader|] == ContextHeader;
      assert head[|ContextHeader|..|ContextHeader| + |c|] == c;
    }
  }

  /** Two enhanced prompts with the same context are equal only for the same message. */
  lemma EnhancedPromptInjective(m1: string, m2: string, conversationContext: Option<string>)
    requires CreateEnhancedPrompt(m1, conversationContext) == CreateEnhancedPrompt(m2, conversationContext)
    ensures m1 == m2
  {
    EnhancedPromptParts(m1, conversationContext);
    EnhancedPromptParts(m2, conversationContext);
  }

  /**
   * The multimodal prompt ends with "User message: ", the message and the
   * fixed instruction; before that comes the description block when the
   * description is non-empty, and nothing otherwise.
   */
  lemma MultimodalPromptParts(userMessage: string, imageDescription: Option<string>)
    ensures var p := CreateMultimodalPrompt(userMessage, imageDescription);
      var turn := |"User message: "| + |userMessage| + |MultimodalCue|;
      && |p| >= turn
      && p[|p| - turn..] == "User message: " + userMessage + MultimodalCue
      && p[|p| - |MultimodalCue| - |userMessage|..|p| - |MultimodalCue|] == userMessage
      && (imageDescription.Some? && imageDescription.value != [] ==>
            p[..|p| - turn] == "Image description: " + imageDescription.value + "\n\n")
      && (imageDescription.None? || imageDescription.value == [] ==> |p| == turn)
  {
    var head := if imageDescription.Some? && imageDescription.value != []
                then "Image description: " + imageDescription.value + "\n\n" else "";
    assert CreateMultimodalPrompt(userMessage, imageDescription) == head + "User message: " + userMessage + MultimodalCue;
    TailParts(head, "User message: ", userMessage, MultimodalCue);
  }

  /** A text made of a head and three parts ends with the parts, the middle one just before the last. */
  lemma TailParts(head: string, a: string, m: string, c: string)
    ensures var p := head + a + m + c;
      var n := |a| + |m| + |c|;
      && |p| >= n && p[|p| - n..] == a + m + c && p[..|p| - n] == head
      && p[|p| - |c| - |m|..|p| - |c|] == m
  {
    var p := head + a + m + c;
    assert p == head + (a + m + c);
    assert p == (head + a) + m + c;
    assert p[|head + a|..|head + a| + |m|] == m;
  }
}
