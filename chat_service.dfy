/**
 * The chat service: sessions owned by a user, their message histories,
 * and the two kinds of turn. A turn saves the user's message and an empty
 * assistant placeholder, sends a prompt upstream, streams the framed
 * events back, and, only if the stream completes, fills the placeholder
 * with the concatenated chunks and touches the session's update time.
 * Any failure reaches the caller as a chat-service error caused by it.
 *
 * The clock readings (`now`, `completedAt`), the configured model name,
 * the random part of a stored file name and the HTTP exchange with the
 * model server are parameters.
 */
module ChatService {
  import opened Common
  import opened Strings
  import opened Exceptions
  import opened Reactive
  import opened Entities
  import opened Store
  import opened StreamResponses
  import opened ModelService
  import FileService
  import OllamaClient
  import Base64

  const AccessDeniedMessage := "Session not found or access denied"
  const TextTurnFailure := "Failed to process message"
  const MultimodalTurnFailure := "Failed to process multimodal message"
  const ImageDescription := "User uploaded an image"

  function ServiceError(message: string, cause: Option<Thrown>): Thrown {
    Project(ChatServiceException, message, cause)
  }

  datatype ChatSessionDto = ChatSessionDto(
    id: Uuid, title: string, userId: string, status: string, createdAt: Timestamp, updatedAt: Timestamp, messageCount: nat)

  /** `MessageDto` without its attachment list and its metadata (never set by the service). */
  datatype MessageDto = MessageDto(id: Uuid, sessionId: Uuid, content: string, messageType: string, createdAt: Timestamp)

  /** `status.name()`. */
  function StatusName(s: SessionStatus): string {
    match s
    case Active => "ACTIVE"
    case OtherStatus(name) => name
  }

  /** `type.name()`. */
  function TypeName(t: MessageType): string {
    match t
    case UserMessage => "USER"
    case AssistantMessage => "ASSISTANT"
    case OtherType(name) => name
  }

  /** `convertToSessionDto`: the row's fields and the number of messages in the session. */
  function SessionDtoOf(db: Database, id: Uuid): ChatSessionDto
    reads db
    requires db.Valid() && id in db.sessions
  {
    var row := db.sessions[id];
    ChatSessionDto(id, row.title, row.userId, StatusName(row.status), row.createdAt, row.updatedAt, db.CountBySessionId(id))
  }

  /** `convertToMessageDto`. */
  function MessageDtoOf(id: Uuid, row: MessageRow): MessageDto {
    MessageDto(id, row.sessionId, row.content, TypeName(row.kind), row.createdAt)
  }

  /** Every message in a session's history is stored and belongs to that session. */
  lemma HistoryStored(db: Database, sessionId: Uuid)
    requires db.Valid()
    ensures forall x :: x in db.MessagesOf(sessionId) ==> x in db.messages && db.messages[x].sessionId == sessionId
  {
  }

  // ---------------------------------------------------------------------
  // Sessions
  // ---------------------------------------------------------------------

  /** The stored title: the given one, or "New Chat - " and the time when it is null or blank; trimmed either way. */
  function SessionTitle(title: Option<string>, now: Timestamp): string {
    JavaTrim(if title.None? || JavaTrim(title.value) == [] then DefaultTitle(now) else title.value)
  }

  /** The title of a session created without one. */
  function DefaultTitle(now: Timestamp): string {
    "New Chat - " + now
  }

  /** A trimmed text that is not empty starts and ends with a character that is not blank. */
  lemma TrimmedEnds(s: string)
    requires JavaTrim(s) != []
    ensures var t := JavaTrim(s); !IsJavaSpace(t[0]) && !IsJavaSpace(t[|t| - 1])
  {
    var a := TrimStart(s, IsJavaSpace);
    var t := TrimEnd(a, IsJavaSpace);
    assert t == a[..|t|];
  }

  /**
   * A stored title is never empty and never starts or ends with a blank;
   * it is the trimmed given title when that is not blank, and otherwise
   * starts with "New Chat -".
   */
  lemma SessionTitleShape(title: Option<string>, now: Timestamp)
    ensures var t := SessionTitle(title, now);
      && t != [] && !IsJavaSpace(t[0]) && !IsJavaSpace(t[|t| - 1])
      && (title.Some? && JavaTrim(title.value) != [] ==> t == JavaTrim(title.value))
      && (title.None? || JavaTrim(title.value) == [] ==> StartsWith(t, "New Chat -"))
  {
    if title.None? || JavaTrim(title.value) == [] {
      assert SessionTitle(title, now) == JavaTrim(DefaultTitle(now));
      DefaultTitleShape(now);
    } else {
      assert SessionTitle(title, now) == JavaTrim(title.value);
      TrimmedEnds(title.value);
    }
  }

  /** The default title keeps its "New Chat -" start through trimming. */
  lemma DefaultTitleShape(now: Timestamp)
    ensures var t := JavaTrim(DefaultTitle(now));
      t != [] && !IsJavaSpace(t[0]) && !IsJavaSpace(t[|t| - 1]) && StartsWith(t, "New Chat -")
  {
    var x := DefaultTitle(now);
    assert x[0] == 'N' && x[9] == '-';
    assert TrimStart(x, IsJavaSpace) == x;
    var t := TrimEnd(x, IsJavaSpace);
    assert t == x[..|t|];
    assert t[..10] == x[..10] == "New Chat -";
    TrimmedEnds(x);
  }

  /** `createSession`: a new active session of the user, with no messages yet. */
  method CreateSession(db: Database, title: Option<string>, userId: string, now: Timestamp) returns (dto: ChatSessionDto)
    requires db.Valid()
    modifies db
    ensures db.Valid()
    ensures dto.id == old(db.nextId) && dto.id !in old(db.sessions)
    ensures db.sessions == old(db.sessions)[dto.id := SessionRow(SessionTitle(title, now), userId, Active, now, now)]
    ensures db.messages == old(db.messages) && db.histories == old(db.histories)[dto.id := []]
    ensures db.attachments == old(db.attachments)
    ensures dto == SessionDtoOf(db, dto.id) && dto.messageCount == 0 && dto.status == "ACTIVE"
  {
    var t := if title.None? || JavaTrim(title.value) == [] then DefaultTitle(now) else title.value;
    var id := db.SaveSession(SessionRow(JavaTrim(t), userId, Active, now, now));
    dto := SessionDtoOf(db, id);
  }

  /** `getSessionWithMessages`: the session's description when the user owns it, nothing otherwise. */
  function GetSessionWithMessages(db: Database, sessionId: Uuid, userId: string): (r: Option<ChatSessionDto>)
    reads db
    requires db.Valid()
    ensures r.Some? <==> db.OwnedBy(sessionId, userId)
    ensures r.Some? ==> r.value.id == sessionId && r.value.userId == userId
    ensures r.Some? ==> r.value.messageCount == |db.MessagesOf(sessionId)|
  {
    if db.OwnedBy(sessionId, userId) then Some(SessionDtoOf(db, sessionId)) else None
  }

  /**
   * `deleteSession`: only the owner deletes; the session goes with its
   * messages and their attachments, and every other history stays.
   */
  method DeleteSession(db: Database, sessionId: Uuid, userId: string) returns (deleted: bool)
    requires db.Valid()
    modifies db
    ensures db.Valid()
    ensures deleted == old(db.OwnedBy(sessionId, userId))
    ensures !deleted ==>
      db.sessions == old(db.sessions) && db.messages == old(db.messages) && db.histories == old(db.histories) && db.attachments == old(db.attachments)
    ensures deleted ==> db.sessions == old(db.sessions) - {sessionId}
    ensures deleted ==> forall s :: db.MessagesOf(s) == if s == sessionId then [] else old(db.MessagesOf(s))
    ensures deleted ==> forall a :: a in db.attachments ==> a in old(db.attachments) && db.attachments[a].messageId in db.messages
  {
    if !db.OwnedBy(sessionId, userId) {
      return false;
    }
    db.DeleteSession(sessionId);
    deleted := true;
  }

  /**
   * `getSessionMessages`: for the owner, the session's messages oldest
   * first; for anyone else, a chat-service error.
   */
  function GetSessionMessages(db: Database, sessionId: Uuid, userId: string): (r: Outcome<seq<MessageDto>>)
    reads db
    requires db.Valid()
    ensures r.Err? <==> !db.OwnedBy(sessionId, userId)
    ensures r.Err? ==> r.error == ServiceError(AccessDeniedMessage, None)
    ensures r.Ok? ==> |r.value| == db.CountBySessionId(sessionId)
    ensures r.Ok? ==> forall i :: 0 <= i < |r.value| ==>
      r.value[i].id == db.MessagesOf(sessionId)[i] && r.value[i].sessionId == sessionId
    ensures r.Ok? ==> forall i :: 0 <= i < |r.value| ==>
      var id := db.MessagesOf(sessionId)[i];
      && id in db.messages
      && r.value[i].content == db.messages[id].content
      && r.value[i].messageType == TypeName(db.messages[id].kind)
      && r.value[i].createdAt == db.messages[id].createdAt
  {
    if !db.OwnedBy(sessionId, userId) then Err(ServiceError(AccessDeniedMessage, None))
    else
      var ids := db.MessagesOf(sessionId);
      var rows := db.messages;
      HistoryStored(db, sessionId);
      Ok(seq(|ids|, i requires 0 <= i < |ids| && ids[i] in rows => MessageDtoOf(ids[i], rows[ids[i]])))
  }

  // ---------------------------------------------------------------------
  // Conversation context
  // ---------------------------------------------------------------------

  /** Every message not written by the user is labelled as the assistant's. */
  function Sender(kind: MessageType): string {
    if kind == UserMessage then "User" else "Assistant"
  }

  function ContextLine(row: MessageRow): string {
    Sender(row.kind) + ": " + row.content + "\n"
  }

  /** One line per message, oldest first. */
  function ContextText(rows: seq<MessageRow>): string
    decreases |rows|
  {
    if rows == [] then "" else ContextText(rows[..|rows| - 1]) + ContextLine(rows[|rows| - 1])
  }

  /** The stored rows of the given ids, in the same order. */
  function RowsOf(messages: map<Uuid, MessageRow>, ids: seq<Uuid>): (r: seq<MessageRow>)
    requires forall x :: x in ids ==> x in messages
    ensures |r| == |ids| && forall i :: 0 <= i < |ids| ==> r[i] == messages[ids[i]]
  {
    seq(|ids|, i requires 0 <= i < |ids| => messages[ids[i]])
  }

  /** The latest ten of a history, or all of it when it is shorter. */
  function Recent(ids: seq<Uuid>): (r: seq<Uuid>)
    ensures |r| == if |ids| < 10 then |ids| else 10
    ensures r == ids[|ids| - |r|..]
  {
    ids[if |ids| - 10 > 0 then |ids| - 10 else 0..]
  }

  /** The context of a session: its latest ten messages as lines. */
  function SessionContext(messages: map<Uuid, MessageRow>, history: seq<Uuid>): string
    requires forall x :: x in history ==> x in messages
  {
    ContextText(RowsOf(messages, Recent(history)))
  }

  /**
   * `buildConversationContext`: a `Sender: content` line for each of the
   * session's latest ten messages, oldest first.
   */
  method BuildConversationContext(db: Database, sessionId: Uuid) returns (context: string)
    requires db.Valid()
    ensures forall x :: x in db.MessagesOf(sessionId) ==> x in db.messages
    ensures context == SessionContext(db.messages, db.MessagesOf(sessionId))
  {
    var history := db.MessagesOf(sessionId);
    HistoryStored(db, sessionId);
    var startIndex := if |history| - 10 > 0 then |history| - 10 else 0;
    var recent := history[startIndex..];
    assert recent == Recent(history);
    context := FormatLines(db.messages, recent);
  }

  /** The loop of `buildConversationContext`: one line per listed message, in order. */
  method FormatLines(rows: map<Uuid, MessageRow>, recent: seq<Uuid>) returns (context: string)
    requires forall x :: x in recent ==> x in rows
    ensures context == ContextText(RowsOf(rows, recent))
  {
    ghost var lines := RowsOf(rows, recent);
    context := "";
    var i := 0;
    while i < |recent|
      invariant 0 <= i <= |recent|
      invariant context == ContextText(lines[..i])
    {
      var message := rows[recent[i]];
      var sender := if message.kind == UserMessage then "User" else "Assistant";
      var line := sender + ": " + message.content + "\n";
      assert lines[..i + 1][..i] == lines[..i];
      context := context + line;
      i := i + 1;
    }
    assert lines[..i] == lines;
  }

  /**
   * The context of a text turn is built after the turn's two messages are
   * saved, so it always ends with the user's new message and an empty
   * assistant line: the prompt carries the new message twice.
   */
  lemma ContextEndsWithTurn(rows: seq<MessageRow>, sessionId: Uuid, content: string, now: Timestamp)
    requires |rows| >= 2
    requires rows[|rows| - 2] == UserRow(sessionId, content, now)
    requires rows[|rows| - 1] == PlaceholderRow(sessionId, now)
    ensures var c := ContextText(rows);
      var tail := "User: " + content + "\n" + "Assistant: \n";
      |c| >= |tail| && c[|c| - |tail|..] == tail
  {
    var init := rows[..|rows| - 1];
    assert init[..|init| - 1] == rows[..|rows| - 2];
    var c0 := ContextText(rows[..|rows| - 2]);
    var tail := "User: " + content + "\n" + "Assistant: \n";
    TurnLines(sessionId, content, now);
    var c := ContextText(rows);
    assert ContextText(init) == c0 + ContextLine(rows[|rows| - 2]);
    assert c == ContextText(init) + ContextLine(rows[|rows| - 1]);
    assert c == c0 + tail;
    assert c[|c0|..] == tail;
  }

  /** The ten-message window of a history ending with the turn's two messages still ends with them. */
  lemma TurnContext(messages: map<Uuid, MessageRow>, history: seq<Uuid>, u: Uuid, a: Uuid, sessionId: Uuid, content: string, now: Timestamp)
    requires forall x :: x in history + [u] + [a] ==> x in messages
    requires messages[u] == UserRow(sessionId, content, now) && messages[a] == PlaceholderRow(sessionId, now)
    ensures var c := SessionContext(messages, history + [u] + [a]);
      var tail := "User: " + content + "\n" + "Assistant: \n";
      |c| >= |tail| && c[|c| - |tail|..] == tail
  {
    var recent := Recent(history + [u] + [a]);
    var rows := RowsOf(messages, recent);
    assert recent[|recent| - 2] == u && recent[|recent| - 1] == a;
    ContextEndsWithTurn(rows, sessionId, content, now);
  }

  lemma TurnLines(sessionId: Uuid, content: string, now: Timestamp)
    ensures ContextLine(UserRow(sessionId, content, now)) + ContextLine(PlaceholderRow(sessionId, now))
            == "User: " + content + "\n" + "Assistant: \n"
  {
  }

  // ---------------------------------------------------------------------
  // Collecting the reply
  // ---------------------------------------------------------------------

  predicate IsChunk(e: StreamResponse) {
    e.eventType == Some("stream_chunk")
  }

  /** What the turn's `StringBuilder` holds after the given events: the content of each chunk event, `"null"` for a null one. */
  function ChunkText(events: seq<StreamResponse>): string
    decreases |events|
  {
    if events == [] then ""
    else
      var e := events[|events| - 1];
      ChunkText(events[..|events| - 1]) + (if IsChunk(e) then JavaText(e.content) else "")
  }

  /** The `doOnNext` callback, applied to each event in turn. */
  method CollectChunks(events: seq<StreamResponse>) returns (text: string)
    ensures text == ChunkText(events)
  {
    text := "";
    var i := 0;
    while i < |events|
      invariant 0 <= i <= |events|
      invariant text == ChunkText(events[..i])
    {
      assert events[..i + 1][..i] == events[..i];
      if events[i].eventType == Some("stream_chunk") {
        text := text + JavaText(events[i].content);
      }
      i := i + 1;
    }
    assert events[..i] == events;
  }

  lemma {:induction false} ChunkTextAppend(a: seq<StreamResponse>, b: seq<StreamResponse>)
    ensures ChunkText(a + b) == ChunkText(a) + ChunkText(b)
    decreases |b|
  {
    if b == [] {
      assert a + b == a;
    } else {
      ChunkTextAppend(a, b[..|b| - 1]);
      assert (a + b)[..|a + b| - 1] == a + b[..|b| - 1];
    }
  }

  lemma {:induction false} ChunkTextOfChunks(events: seq<StreamResponse>, sessionId: Uuid, messageId: Uuid, items: seq<string>)
    requires |events| == |items|
    requires forall i :: 0 <= i < |items| ==> events[i] == StreamChunk(sessionId, messageId, items[i])
    ensures ChunkText(events) == Flatten(items)
    decreases |items|
  {
    if items != [] {
      ChunkTextOfChunks(events[..|events| - 1], sessionId, messageId, items[..|items| - 1]);
    }
  }

  /** An event that is not a chunk adds nothing. */
  lemma ChunkTextOther(e: StreamResponse)
    requires !IsChunk(e)
    ensures ChunkText([e]) == ""
  {
    assert [e][..0] == [];
  }

  /** The chunk events of a response collect to the upstream strings one after the other. */
  lemma ChunkEventsText(sessionId: Uuid, messageId: Uuid, upstream: Flux<string>, failure: string)
    ensures ChunkText(ChunkEvents(sessionId, messageId, upstream, failure).items) == Flatten(upstream.items)
  {
    var f := (content: string) => StreamChunk(sessionId, messageId, content);
    var mapped := Map(upstream, f);
    assert ChunkEvents(sessionId, messageId, upstream, failure).items == mapped.items;
    ChunkTextOfChunks(mapped.items, sessionId, messageId, upstream.items);
  }

  /** The collected text of a framed response is the upstream strings one after the other; start and end add nothing. */
  lemma FramedChunkText(sessionId: Uuid, messageId: Uuid, upstream: Flux<string>, failure: string)
    ensures ChunkText(Framed(sessionId, messageId, upstream, failure).items) == Flatten(upstream.items)
  {
    var chunks := ChunkEvents(sessionId, messageId, upstream, failure);
    var start := [StreamStart(sessionId, messageId)];
    var tail := if upstream.end.Completed? then [StreamEnd(sessionId, messageId)] else [];
    FramedItems(sessionId, messageId, upstream, failure);
    ChunkTextAppend(start + chunks.items, tail);
    ChunkTextAppend(start, chunks.items);
    ChunkEventsText(sessionId, messageId, upstream, failure);
    ChunkTextOther(StreamStart(sessionId, messageId));
    if upstream.end.Completed? {
      ChunkTextOther(StreamEnd(sessionId, messageId));
    }
  }

  // ---------------------------------------------------------------------
  // Turns
  // ---------------------------------------------------------------------

  function UserRow(sessionId: Uuid, content: string, now: Timestamp): MessageRow {
    MessageRow(sessionId, content, UserMessage, now)
  }

  function PlaceholderRow(sessionId: Uuid, now: Timestamp): MessageRow {
    MessageRow(sessionId, "", AssistantMessage, now)
  }

  /** The assistant message after the turn: the upstream text when the stream completed, still empty otherwise. */
  function ReplyRow(sessionId: Uuid, upstream: Flux<string>, now: Timestamp): MessageRow {
    MessageRow(sessionId, if upstream.end.Completed? then Flatten(upstream.items) else "", AssistantMessage, now)
  }

  /** The sessions after the turn: the turn's session touched at `completedAt` when the stream completed. */
  function Touched(sessions: map<Uuid, SessionRow>, sessionId: Uuid, upstream: Flux<string>, completedAt: Timestamp): map<Uuid, SessionRow>
    requires sessionId in sessions
  {
    if upstream.end.Completed? then sessions[sessionId := sessions[sessionId].(updatedAt := completedAt)] else sessions
  }

  /** `onErrorMap`: every failure becomes a chat-service error with the failure as its cause. */
  function Wrap(events: Flux<StreamResponse>, failure: string): Flux<StreamResponse> {
    MapError(events, (e: Thrown) => ServiceError(failure, Some(e)))
  }

  /**
   * The turn's reading of its own framed stream: whether it completed,
   * and the text of its chunks, which is the upstream text.
   */
  method CollectReply(sessionId: Uuid, assistantId: Uuid, upstream: Flux<string>, failure: string)
    returns (completed: bool, text: string)
    ensures completed == upstream.end.Completed?
    ensures text == Flatten(upstream.items)
  {
    var events := Framed(sessionId, assistantId, upstream, failure);
    text := CollectChunks(events.items);
    FramedShape(sessionId, assistantId, upstream, failure);
    FramedChunkText(sessionId, assistantId, upstream, failure);
    completed := events.end.Completed?;
  }

  /**
   * The `doOnNext` and `doOnComplete` callbacks of a turn, run over the
   * finished stream: the chunks are collected, and on completion the
   * placeholder gets the text and the session its update time.
   */
  method FinishTurn(db: Database, sessionId: Uuid, assistantId: Uuid, upstream: Flux<string>, failure: string,
                    now: Timestamp, completedAt: Timestamp)
    requires db.Valid() && sessionId in db.sessions
    requires assistantId in db.messages && db.messages[assistantId] == PlaceholderRow(sessionId, now)
    modifies db
    ensures db.Valid()
    ensures db.messages == old(db.messages)[assistantId := ReplyRow(sessionId, upstream, now)]
    ensures db.sessions == Touched(old(db.sessions), sessionId, upstream, completedAt)
    ensures db.histories == old(db.histories) && db.attachments == old(db.attachments) && db.nextId == old(db.nextId)
  {
    var completed, text := CollectReply(sessionId, assistantId, upstream, failure);
    assert !upstream.end.Completed? ==> old(db.messages)[assistantId := ReplyRow(sessionId, upstream, now)] == old(db.messages);
    if completed {
      db.UpdateMessage(assistantId, MessageRow(sessionId, text, AssistantMessage, now));
      var session := db.sessions[sessionId];
      db.UpdateSession(sessionId, session.(updatedAt := completedAt));
    }
  }

  /**
   * The first half of `processTextMessage`: the user's message and the
   * empty placeholder are saved at the end of the history, and the
   * context is built from the history with both.
   */
  method StartTextTurn(db: Database, sessionId: Uuid, content: string, now: Timestamp)
    returns (u: Uuid, a: Uuid, conversationContext: string)
    requires db.Valid() && sessionId in db.sessions
    modifies db
    ensures db.Valid()
    ensures u == old(db.nextId) && a == u + 1 && db.nextId == a + 1
    ensures db.messages == old(db.messages)[u := UserRow(sessionId, content, now)][a := PlaceholderRow(sessionId, now)]
    ensures db.histories == old(db.histories)[sessionId := old(db.MessagesOf(sessionId)) + [u] + [a]]
    ensures db.sessions == old(db.sessions) && db.attachments == old(db.attachments)
    ensures forall x :: x in old(db.MessagesOf(sessionId)) + [u] + [a] ==> x in db.messages
    ensures conversationContext == SessionContext(db.messages, old(db.MessagesOf(sessionId)) + [u] + [a])
  {
    ghost var h0 := db.histories;
    u := db.SaveMessage(UserRow(sessionId, content, now));
    a := db.SaveMessage(PlaceholderRow(sessionId, now));
    UpdateTwice(h0, sessionId, h0[sessionId] + [u], h0[sessionId] + [u] + [a]);
    conversationContext := BuildConversationContext(db, sessionId);
  }

  /** The request of a text turn: the enhanced prompt over the given context, without an image. */
  function TextRequest(model: string, content: string, context: string): OllamaClient.RequestBody {
    OllamaClient.RequestBodyOf(model, CreateEnhancedPrompt(content, Some(context)), None)
  }

  /** The request of a multimodal turn: a prompt that depends only on the message, and the image in Base64. */
  function MultimodalRequest(model: string, content: string, imageData: seq<byte>): OllamaClient.RequestBody {
    OllamaClient.RequestBodyOf(model, CreateMultimodalPrompt(content, Some(ImageDescription)), Some(Base64.Encode(imageData)))
  }

  /**
   * The second half of `processTextMessage`: the prompt over the context
   * goes upstream and the reply is framed, returned with its failures
   * wrapped, and collected into the placeholder.
   */
  method SendTextTurn(db: Database, model: string, sessionId: Uuid, a: Uuid, content: string, conversationContext: string,
                      now: Timestamp, completedAt: Timestamp, exchange: OllamaClient.RequestBody -> OllamaClient.HttpOutcome)
    returns (request: OllamaClient.RequestBody, out: Flux<StreamResponse>)
    requires db.Valid() && sessionId in db.sessions
    requires a in db.messages && db.messages[a] == PlaceholderRow(sessionId, now)
    modifies db
    ensures db.Valid()
    ensures request == TextRequest(model, content, conversationContext)
    ensures var upstream := OllamaClient.Transfer(exchange(request));
      && out == Wrap(ProcessTextRequest(sessionId, a, upstream), TextTurnFailure)
      && db.messages == old(db.messages)[a := ReplyRow(sessionId, upstream, now)]
      && db.sessions == Touched(old(db.sessions), sessionId, upstream, completedAt)
      && db.histories == old(db.histories) && db.attachments == old(db.attachments)
  {
    var enhancedPrompt := CreateEnhancedPrompt(content, Some(conversationContext));
    var upstream;
    request, upstream := OllamaClient.SendTextMessage(model, enhancedPrompt, exchange);
    out := Wrap(ProcessTextRequest(sessionId, a, upstream), TextTurnFailure);
    FinishTurn(db, sessionId, a, upstream, ModelService.TextFailure, now, completedAt);
  }

  /**
   * `processTextMessage`. A user who does not own the session gets an
   * error and nothing changes. Otherwise the user's message and an empty
   * placeholder are appended to the history, the prompt is built from
   * the latest ten messages (those two included) and sent without an
   * image, and the framed reply is returned with failures wrapped; the
   * placeholder holds the whole reply and the session is touched only if
   * the stream completed.
   */
  method ProcessTextMessage(db: Database, model: string, sessionId: Uuid, content: string, userId: string,
                            now: Timestamp, completedAt: Timestamp, exchange: OllamaClient.RequestBody -> OllamaClient.HttpOutcome)
    returns (request: Option<OllamaClient.RequestBody>, out: Flux<StreamResponse>, ghost u: Uuid, ghost a: Uuid)
    requires db.Valid()
    modifies db
    ensures db.Valid()
    ensures !old(db.OwnedBy(sessionId, userId)) ==>
      && request.None? && out == Flux([], Failed(ServiceError(AccessDeniedMessage, None)))
      && db.sessions == old(db.sessions) && db.messages == old(db.messages)
      && db.histories == old(db.histories) && db.attachments == old(db.attachments)
    ensures old(db.OwnedBy(sessionId, userId)) ==>
      && u == old(db.nextId) && a == u + 1
      && var saved := old(db.messages)[u := UserRow(sessionId, content, now)][a := PlaceholderRow(sessionId, now)];
      var history := old(db.MessagesOf(sessionId)) + [u] + [a];
      && (forall x :: x in history ==> x in saved)
      && request == Some(TextRequest(model, content, SessionContext(saved, history)))
      && var upstream := OllamaClient.Transfer(exchange(request.value));
      && out == Wrap(ProcessTextRequest(sessionId, a, upstream), TextTurnFailure)
      && db.histories == old(db.histories)[sessionId := old(db.MessagesOf(sessionId)) + [u] + [a]]
      && db.messages == saved[a := ReplyRow(sessionId, upstream, now)]
      && db.sessions == Touched(old(db.sessions), sessionId, upstream, completedAt)
      && db.attachments == old(db.attachments)
  {
    if !db.OwnedBy(sessionId, userId) {
      return None, Flux([], Failed(ServiceError(AccessDeniedMessage, None))), 0, 0;
    }
    var userMessageId, assistantId, conversationContext := StartTextTurn(db, sessionId, content, now);
    u, a := userMessageId, assistantId;
    var sent;
    sent, out := SendTextTurn(db, model, sessionId, assistantId, content, conversationContext, now, completedAt, exchange);
    request := Some(sent);
  }

  /**
   * The first half of `processMultimodalMessage`: the user's message is
   * saved at the end of the history and the file is stored as its
   * attachment, unless the file service refuses it.
   */
  method StartMultimodalTurn(db: Database, config: FileService.FileConfig, sessionId: Uuid, content: string,
                             file: FileService.Upload, token: string, now: Timestamp)
    returns (u: Uuid, fileAttachment: Outcome<FileService.FileAttachmentDto>)
    requires db.Valid() && sessionId in db.sessions
    modifies db
    ensures db.Valid()
    ensures u == old(db.nextId) && db.messages == old(db.messages)[u := UserRow(sessionId, content, now)]
    ensures db.histories == old(db.histories)[sessionId := old(db.MessagesOf(sessionId)) + [u]]
    ensures db.sessions == old(db.sessions)
    ensures fileAttachment.Err? <==> FileService.ValidateFile(config, file).Some?
    ensures fileAttachment.Err? ==>
      fileAttachment.error == FileService.ValidateFile(config, file).value && db.attachments == old(db.attachments)
    ensures fileAttachment.Ok? ==>
      && fileAttachment.value.id == u + 1 && db.nextId == u + 2
      && db.attachments == old(db.attachments)[fileAttachment.value.id := FileService.AttachmentRowOf(config, file, u, token, now)]
      && db.attachments[fileAttachment.value.id].stored == file.bytes
  {
    u := db.SaveMessage(UserRow(sessionId, content, now));
    fileAttachment := FileService.UploadFile(config, db, file, u, token, now);
  }

  /**
   * The second half of `processMultimodalMessage`: the stored file is
   * read back, the placeholder is saved, and the prompt goes upstream
   * with the file's bytes; the reply is handled as in a text turn.
   */
  method SendMultimodalTurn(db: Database, model: string, sessionId: Uuid, content: string, fileId: Uuid,
                            now: Timestamp, completedAt: Timestamp, exchange: OllamaClient.RequestBody -> OllamaClient.HttpOutcome)
    returns (request: OllamaClient.RequestBody, out: Flux<StreamResponse>, a: Uuid)
    requires db.Valid() && sessionId in db.sessions && fileId in db.attachments
    modifies db
    ensures db.Valid()
    ensures a == old(db.nextId) && db.histories == old(db.histories)[sessionId := old(db.MessagesOf(sessionId)) + [a]]
    ensures request == MultimodalRequest(model, content, old(db.attachments[fileId].stored))
    ensures var upstream := OllamaClient.Transfer(exchange(request));
      && out == Wrap(ProcessMultimodalRequest(sessionId, a, upstream), MultimodalTurnFailure)
      && db.messages == old(db.messages)[a := ReplyRow(sessionId, upstream, now)]
      && db.sessions == Touched(old(db.sessions), sessionId, upstream, completedAt)
      && db.attachments == old(db.attachments)
  {
    var imageData := FileService.GetFileContent(db, fileId);
    ghost var m0 := db.messages;
    a := db.SaveMessage(PlaceholderRow(sessionId, now));
    // The context is built as in a text turn, and then not used.
    var conversationContext := BuildConversationContext(db, sessionId);
    var enhancedPrompt := CreateMultimodalPrompt(content, Some(ImageDescription));
    var upstream;
    request, upstream := OllamaClient.SendMultimodalMessage(model, enhancedPrompt, imageData.value, exchange);
    out := Wrap(ProcessMultimodalRequest(sessionId, a, upstream), MultimodalTurnFailure);
    FinishTurn(db, sessionId, a, upstream, ModelService.MultimodalFailure, now, completedAt);
    UpdateTwice(m0, a, PlaceholderRow(sessionId, now), ReplyRow(sessionId, upstream, now));
  }

  /**
   * `processMultimodalMessage`. A user who does not own the session gets
   * an error and nothing changes. Otherwise the user's message is saved
   * first; a file the file service refuses ends the turn there with a
   * chat-service error caused by the refusal, and that message stays.
   * An accepted file is stored as the message's attachment, a
   * placeholder is saved, and the prompt, which depends only on the
   * message and not on the history, is sent with the file's bytes in
   * Base64; the reply is then handled as in a text turn.
   */
  method ProcessMultimodalMessage(db: Database, config: FileService.FileConfig, model: string, sessionId: Uuid, content: string,
                                  file: FileService.Upload, userId: string, token: string, now: Timestamp, completedAt: Timestamp,
                                  exchange: OllamaClient.RequestBody -> OllamaClient.HttpOutcome)
    returns (request: Option<OllamaClient.RequestBody>, out: Flux<StreamResponse>, ghost u: Uuid, ghost f: Uuid, ghost a: Uuid)
    requires db.Valid()
    modifies db
    ensures db.Valid()
    ensures !old(db.OwnedBy(sessionId, userId)) ==>
      && request.None? && out == Flux([], Failed(ServiceError(AccessDeniedMessage, None)))
      && db.sessions == old(db.sessions) && db.messages == old(db.messages)
      && db.histories == old(db.histories) && db.attachments == old(db.attachments)
    ensures old(db.OwnedBy(sessionId, userId)) && FileService.ValidateFile(config, file).Some? ==>
      && u == old(db.nextId) && request.None?
      && out == Flux([], Failed(ServiceError(MultimodalTurnFailure, Some(FileService.ValidateFile(config, file).value))))
      && db.histories == old(db.histories)[sessionId := old(db.MessagesOf(sessionId)) + [u]]
      && db.messages == old(db.messages)[u := UserRow(sessionId, content, now)]
      && db.sessions == old(db.sessions) && db.attachments == old(db.attachments)
    ensures old(db.OwnedBy(sessionId, userId)) && FileService.ValidateFile(config, file).None? ==>
      && u == old(db.nextId) && f == u + 1 && a == u + 2
      && request == Some(MultimodalRequest(model, content, file.bytes))
      && var upstream := OllamaClient.Transfer(exchange(request.value));
      && out == Wrap(ProcessMultimodalRequest(sessionId, a, upstream), MultimodalTurnFailure)
      && db.histories == old(db.histories)[sessionId := old(db.MessagesOf(sessionId)) + [u] + [a]]
      && db.messages == old(db.messages)[u := UserRow(sessionId, content, now)][a := ReplyRow(sessionId, upstream, now)]
      && db.attachments == old(db.attachments)[f := FileService.AttachmentRowOf(config, file, u, token, now)]
      && db.sessions == Touched(old(db.sessions), sessionId, upstream, completedAt)
  {
    if !db.OwnedBy(sessionId, userId) {
      return None, Flux([], Failed(ServiceError(AccessDeniedMessage, None))), 0, 0, 0;
    }
    ghost var h0 := db.histories;
    var userMessageId, fileAttachment := StartMultimodalTurn(db, config, sessionId, content, file, token, now);
    u := userMessageId;
    if fileAttachment.Err? {
      return None, Flux([], Failed(ServiceError(MultimodalTurnFailure, Some(fileAttachment.error)))), u, 0, 0;
    }
    f := fileAttachment.value.id;
    var sent, events, assistantId := SendMultimodalTurn(db, model, sessionId, content, fileAttachment.value.id, now, completedAt, exchange);
    request, out, a := Some(sent), events, assistantId;
    UpdateTwice(h0, sessionId, h0[sessionId] + [u], h0[sessionId] + [u] + [a]);
  }
}
