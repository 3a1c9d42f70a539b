/**
 * The three JPA repositories (sessions, messages, file attachments) as one
 * database object. Rows hold values; a message points at its session and
 * an attachment at its message by id. `histories` lists, per session, its
 * messages in the order they were first saved. The repository's
 * `...OrderByCreatedAtAsc` query returns that order when every save gets a
 * later `createdAt` than the one before; two saves in the same clock tick
 * tie, and the database may then return them either way. Ids come from a counter standing in for
 * the generated UUIDs, so a fresh id is never one already in use.
 *
 * An attachment row also holds the bytes stored on disk under its path:
 * the file system is folded into the attachment table.
 */
module Store {
  import opened Common
  import opened Entities

  datatype SessionRow = SessionRow(title: string, userId: string, status: SessionStatus, createdAt: Timestamp, updatedAt: Timestamp)

  datatype MessageRow = MessageRow(sessionId: Uuid, content: string, kind: MessageType, createdAt: Timestamp)

  datatype AttachmentRow = AttachmentRow(
    messageId: Uuid,
    fileName: string,
    fileType: string,
    filePath: string,
    fileSize: nat,
    uploadedAt: Timestamp,
    stored: seq<byte>)

  predicate Distinct(ids: seq<Uuid>) {
    forall i, j :: 0 <= i < j < |ids| ==> ids[i] != ids[j]
  }

  function Members(ids: seq<Uuid>): set<Uuid> {
    set x | x in ids
  }

  /** A list without repeats has as many members as elements. */
  lemma {:induction false} DistinctCard(ids: seq<Uuid>)
    requires Distinct(ids)
    ensures |Members(ids)| == |ids|
    decreases |ids|
  {
    if ids != [] {
      var init := ids[..|ids| - 1];
      var last := ids[|ids| - 1];
      DistinctCard(init);
      var before := Members(init);
      assert last !in before;
      assert Members(ids) == before + {last};
      assert |before + {last}| == |before| + 1;
    }
  }

  /** The ids of the messages of one session. */
  function SessionMessageIds(messages: map<Uuid, MessageRow>, sessionId: Uuid): set<Uuid> {
    set m | m in messages && messages[m].sessionId == sessionId
  }

  /** Every id is below the counter. */
  predicate IdsBelow<T>(rows: map<Uuid, T>, nextId: nat) {
    forall id :: id in rows ==> id < nextId
  }

  /** Every message belongs to a stored session (a foreign key). */
  predicate MessagesLinked(messages: map<Uuid, MessageRow>, sessions: map<Uuid, SessionRow>) {
    forall id :: id in messages ==> messages[id].sessionId in sessions
  }

  /** Every attachment belongs to a stored message (a foreign key). */
  predicate AttachmentsLinked(attachments: map<Uuid, AttachmentRow>, messages: map<Uuid, MessageRow>) {
    forall id :: id in attachments ==> attachments[id].messageId in messages
  }

  /** A history lists messages of its session, each once, and all of them. */
  predicate HistoryLists(h: seq<Uuid>, messages: map<Uuid, MessageRow>, sessionId: Uuid) {
    && Distinct(h)
    && (forall x :: x in h ==> x in messages && messages[x].sessionId == sessionId)
  }

  /** Every stored session has a history listing its messages, and every message is in its session's history. */
  predicate HistoriesList(histories: map<Uuid, seq<Uuid>>, sessions: map<Uuid, SessionRow>, messages: map<Uuid, MessageRow>) {
    && histories.Keys == sessions.Keys
    && (forall s :: s in histories ==> HistoryLists(histories[s], messages, s))
    && (forall id :: id in messages && messages[id].sessionId in histories ==> id in histories[messages[id].sessionId])
  }

  /**
   * Every id is below the counter, every message belongs to a stored
   * session and every attachment to a stored message (the foreign keys),
   * and each stored session's history lists its messages, each once.
   */
  predicate Consistent(sessions: map<Uuid, SessionRow>, messages: map<Uuid, MessageRow>, histories: map<Uuid, seq<Uuid>>,
                       attachments: map<Uuid, AttachmentRow>, nextId: nat)
  {
    && IdsBelow(sessions, nextId) && IdsBelow(messages, nextId) && IdsBelow(attachments, nextId)
    && MessagesLinked(messages, sessions)
    && AttachmentsLinked(attachments, messages)
    && HistoriesList(histories, sessions, messages)
  }

  /** A session's history, empty for a session that is not stored. */
  function HistoryOf(histories: map<Uuid, seq<Uuid>>, sessionId: Uuid): seq<Uuid> {
    if sessionId in histories then histories[sessionId] else []
  }

  /** `countBySessionId` counts the rows, and the history lists each of them once. */
  lemma CountIsHistoryLength(sessions: map<Uuid, SessionRow>, messages: map<Uuid, MessageRow>, histories: map<Uuid, seq<Uuid>>,
                             attachments: map<Uuid, AttachmentRow>, nextId: nat, sessionId: Uuid)
    requires Consistent(sessions, messages, histories, attachments, nextId)
    ensures |SessionMessageIds(messages, sessionId)| == |HistoryOf(histories, sessionId)|
  {
    var h := HistoryOf(histories, sessionId);
    if sessionId in histories {
      DistinctCard(h);
    }
    assert SessionMessageIds(messages, sessionId) == Members(h);
  }

  /** A second update of the same key overrides the first. */
  lemma UpdateTwice<K, V>(m: map<K, V>, k: K, v1: V, v2: V)
    ensures m[k := v1][k := v2] == m[k := v2]
  {
  }

  /** Saving a new message of a stored session under the counter's id, last in its history, keeps the database consistent. */
  lemma AppendConsistent(sessions: map<Uuid, SessionRow>, messages: map<Uuid, MessageRow>, histories: map<Uuid, seq<Uuid>>,
                         attachments: map<Uuid, AttachmentRow>, nextId: nat, row: MessageRow)
    requires Consistent(sessions, messages, histories, attachments, nextId) && row.sessionId in sessions
    ensures nextId !in messages
    ensures Consistent(sessions, messages[nextId := row], histories[row.sessionId := histories[row.sessionId] + [nextId]],
                       attachments, nextId + 1)
  {
    var h := histories[row.sessionId];
    assert nextId !in messages;
    assert forall x :: x in h ==> x in messages;
    assert HistoryLists(h + [nextId], messages[nextId := row], row.sessionId);
  }

  /** The rows that survive deleting a session. */
  function SurvivingMessages(messages: map<Uuid, MessageRow>, sessionId: Uuid): map<Uuid, MessageRow> {
    map m | m in messages && messages[m].sessionId != sessionId :: messages[m]
  }

  function SurvivingAttachments(attachments: map<Uuid, AttachmentRow>, messages: map<Uuid, MessageRow>): map<Uuid, AttachmentRow> {
    map a | a in attachments && attachments[a].messageId in messages :: attachments[a]
  }

  /** Deleting a session with its messages and their attachments leaves a consistent database. */
  lemma CascadeConsistent(sessions: map<Uuid, SessionRow>, messages: map<Uuid, MessageRow>, histories: map<Uuid, seq<Uuid>>,
                          attachments: map<Uuid, AttachmentRow>, nextId: nat, sessionId: Uuid)
    requires Consistent(sessions, messages, histories, attachments, nextId)
    ensures var ms := SurvivingMessages(messages, sessionId);
      Consistent(sessions - {sessionId}, ms, histories - {sessionId}, SurvivingAttachments(attachments, ms), nextId)
  {
  }

  class Database {
    var sessions: map<Uuid, SessionRow>
    var messages: map<Uuid, MessageRow>
    var histories: map<Uuid, seq<Uuid>>
    var attachments: map<Uuid, AttachmentRow>
    var nextId: nat

    /**
     * Every id is below the counter, every message belongs to a stored
     * session and every attachment to a stored message (the foreign
     * keys), and each session's history lists its messages once.
     */
    predicate Valid()
      reads this
    {
      Consistent(sessions, messages, histories, attachments, nextId)
    }

    /** An empty database. */
    constructor ()
      ensures Valid()
      ensures sessions == map[] && messages == map[] && histories == map[] && attachments == map[]
    {
      sessions := map[];
      messages := map[];
      histories := map[];
      attachments := map[];
      nextId := 0;
    }

    /** `chatSessionRepository.existsByIdAndUserId`. */
    predicate OwnedBy(sessionId: Uuid, userId: string)
      reads this
    {
      sessionId in sessions && sessions[sessionId].userId == userId
    }

    /** `messageRepository.findBySessionIdOrderByCreatedAtAsc`: the session's messages, oldest first. */
    function MessagesOf(sessionId: Uuid): seq<Uuid>
      reads this
    {
      HistoryOf(histories, sessionId)
    }

    /** `messageRepository.countBySessionId`: the number of the session's rows; it is the length of its history. */
    function CountBySessionId(sessionId: Uuid): (n: nat)
      reads this
      requires Valid()
      ensures n == |MessagesOf(sessionId)|
    {
      CountIsHistoryLength(sessions, messages, histories, attachments, nextId, sessionId);
      |SessionMessageIds(messages, sessionId)|
    }

    /** `chatSessionRepository.save` of a new session: its history starts empty. */
    method SaveSession(row: SessionRow) returns (id: Uuid)
      requires Valid()
      modifies this
      ensures Valid()
      ensures id == old(nextId) && id !in old(sessions) && nextId == old(nextId) + 1
      ensures sessions == old(sessions)[id := row] && histories == old(histories)[id := []]
      ensures messages == old(messages) && attachments == old(attachments)
    {
      id := nextId;
      sessions := sessions[id := row];
      histories := histories[id := []];
      nextId := nextId + 1;
    }

    /** `chatSessionRepository.save` of a stored session. */
    method UpdateSession(id: Uuid, row: SessionRow)
      requires Valid() && id in sessions
      modifies this
      ensures Valid()
      ensures sessions == old(sessions)[id := row] && nextId == old(nextId)
      ensures messages == old(messages) && histories == old(histories) && attachments == old(attachments)
    {
      sessions := sessions[id := row];
    }

    /** `messageRepository.save` of a new message of a stored session: it goes last in the session's history. */
    method SaveMessage(row: MessageRow) returns (id: Uuid)
      requires Valid() && row.sessionId in sessions
      modifies this
      ensures Valid()
      ensures id == old(nextId) && id !in old(messages) && nextId == old(nextId) + 1
      ensures messages == old(messages)[id := row]
      ensures histories == old(histories)[row.sessionId := old(histories)[row.sessionId] + [id]]
      ensures sessions == old(sessions) && attachments == old(attachments)
    {
      id := nextId;
      AppendConsistent(sessions, messages, histories, attachments, nextId, row);
      messages := messages[id := row];
      histories := histories[row.sessionId := histories[row.sessionId] + [id]];
      nextId := nextId + 1;
    }

    /** `messageRepository.save` of a stored message of the same session; its place in the history stays. */
    method UpdateMessage(id: Uuid, row: MessageRow)
      requires Valid() && id in messages && row.sessionId == messages[id].sessionId
      modifies this
      ensures Valid()
      ensures messages == old(messages)[id := row] && nextId == old(nextId)
      ensures sessions == old(sessions) && histories == old(histories) && attachments == old(attachments)
    {
      messages := messages[id := row];
    }

    /** `fileAttachmentRepository.save` of a new attachment of a stored message. */
    method SaveAttachment(row: AttachmentRow) returns (id: Uuid)
      requires Valid() && row.messageId in messages
      modifies this
      ensures Valid()
      ensures id == old(nextId) && id !in old(attachments) && nextId == old(nextId) + 1
      ensures attachments == old(attachments)[id := row]
      ensures sessions == old(sessions) && messages == old(messages) && histories == old(histories)
    {
      id := nextId;
      attachments := attachments[id := row];
      nextId := nextId + 1;
    }

    /** `fileAttachmentRepository.delete`. */
    method DeleteAttachment(id: Uuid)
      requires Valid()
      modifies this
      ensures Valid()
      ensures attachments == old(attachments) - {id} && nextId == old(nextId)
      ensures sessions == old(sessions) && messages == old(messages) && histories == old(histories)
    {
      attachments := attachments - {id};
    }

    /**
     * `chatSessionRepository.delete`: the session goes, and with it (the
     * `CascadeType.ALL` mappings) its messages and their attachments.
     * Every other row and every other history stays.
     */
    method DeleteSession(id: Uuid)
      requires Valid()
      modifies this
      ensures Valid()
      ensures sessions == old(sessions) - {id} && nextId == old(nextId)
      ensures messages == SurvivingMessages(old(messages), id)
      ensures histories == old(histories) - {id}
      ensures attachments == SurvivingAttachments(old(attachments), messages)
    {
      CascadeConsistent(sessions, messages, histories, attachments, nextId, id);
      var ms := SurvivingMessages(messages, id);
      histories := histories - {id};
      attachments := SurvivingAttachments(attachments, ms);
      messages := ms;
      sessions := sessions - {id};
    }
  }
}
