/**
 * The persistent entities as Java objects: a chat session owns a list of
 * messages, a message owns a list of file attachments, and each child
 * points back at its parent. The helper methods keep both sides of a
 * link in step by updating the list in place and the back-reference.
 */
module Entities {
  import opened Common
  import opened Lists

  /** The session states. Only `ACTIVE` appears in the modelled code; the others are kept by name. */
  datatype SessionStatus = Active | OtherStatus(name: string)

  /** The author of a message. Only `USER` and `ASSISTANT` appear in the modelled code. */
  datatype MessageType = UserMessage | AssistantMessage | OtherType(name: string)

  class ChatSession {
    var id: Option<Uuid>
    var title: Option<string>
    var userId: Option<string>
    var status: SessionStatus
    var createdAt: Option<Timestamp>
    var updatedAt: Option<Timestamp>
    var messages: seq<Message>

    /** `new ChatSession(title, userId)`: status starts `ACTIVE` and the message list empty. */
    constructor (title: Option<string>, userId: Option<string>)
      ensures this.title == title && this.userId == userId
      ensures status == Active && messages == []
      ensures id.None? && createdAt.None? && updatedAt.None?
    {
      id := None;
      this.title := title;
      this.userId := userId;
      status := Active;
      createdAt := None;
      updatedAt := None;
      messages := [];
    }

    /** `addMessage`: appends the message and points it at this session. */
    method AddMessage(message: Message)
      modifies this, message
      ensures messages == old(messages) + [message]
      ensures message.session == this
      ensures message.content == old(message.content) && message.attachments == old(message.attachments)
      ensures id == old(id) && title == old(title) && userId == old(userId) && status == old(status)
      ensures createdAt == old(createdAt) && updatedAt == old(updatedAt)
      ensures message.id == old(message.id) && message.kind == old(message.kind)
      ensures message.createdAt == old(message.createdAt) && message.metadata == old(message.metadata)
    {
      messages := messages + [message];
      message.session := this;
    }

    /**
     * `removeMessage`: removes the first occurrence of this very object
     * and clears its session, even when it was not in the list.
     */
    method RemoveMessage(message: Message)
      modifies this, message
      ensures messages == RemoveFirst(old(messages), message)
      ensures message.session == null
      ensures message.content == old(message.content) && message.attachments == old(message.attachments)
      ensures id == old(id) && title == old(title) && userId == old(userId) && status == old(status)
      ensures createdAt == old(createdAt) && updatedAt == old(updatedAt)
      ensures message.id == old(message.id) && message.kind == old(message.kind)
      ensures message.createdAt == old(message.createdAt) && message.metadata == old(message.metadata)
    {
      var i := 0;
      while i < |messages| && messages[i] != message
        invariant 0 <= i <= |messages|
        invariant forall j :: 0 <= j < i ==> messages[j] != message
      {
        i := i + 1;
      }
      RemoveFirstCutsFirst(messages, message);
      assert i == FirstIndex(messages, message) by {
        FirstIndexUnique(messages, message, i);
      }
      if i < |messages| {
        messages := messages[..i] + messages[i + 1..];
      }
      message.session := null;
    }
  }

  class Message {
    var id: Option<Uuid>
    var session: ChatSession?
    var content: Option<string>
    var kind: Option<MessageType>
    var createdAt: Option<Timestamp>
    var metadata: Option<string>
    var attachments: seq<FileAttachment>

    /** `new Message(content, type, session)`: attachments start empty. */
    constructor (content: Option<string>, kind: Option<MessageType>, session: ChatSession?)
      ensures this.content == content && this.kind == kind && this.session == session
      ensures attachments == [] && id.None? && metadata.None? && createdAt.None?
    {
      id := None;
      this.session := session;
      this.content := content;
      this.kind := kind;
      createdAt := None;
      metadata := None;
      attachments := [];
    }

    /** `setContent`: replaces the content and nothing else. */
    method SetContent(content: Option<string>)
      modifies this
      ensures this.content == content
      ensures id == old(id) && session == old(session) && kind == old(kind)
      ensures createdAt == old(createdAt) && metadata == old(metadata) && attachments == old(attachments)
    {
      this.content := content;
    }

    /** `addAttachment`: appends the attachment and points it at this message. */
    method AddAttachment(attachment: FileAttachment)
      modifies this, attachment
      ensures attachments == old(attachments) + [attachment]
      ensures attachment.message == this
      ensures content == old(content) && session == old(session) && kind == old(kind)
      ensures id == old(id) && createdAt == old(createdAt) && metadata == old(metadata)
      ensures attachment.fileName == old(attachment.fileName) && attachment.fileSize == old(attachment.fileSize)
      ensures attachment.id == old(attachment.id) && attachment.fileType == old(attachment.fileType)
      ensures attachment.filePath == old(attachment.filePath) && attachment.uploadedAt == old(attachment.uploadedAt)
    {
      attachments := attachments + [attachment];
      attachment.message := this;
    }

    /** `removeAttachment`: removes the first occurrence and clears the back-reference, even when absent. */
    method RemoveAttachment(attachment: FileAttachment)
      modifies this, attachment
      ensures attachments == RemoveFirst(old(attachments), attachment)
      ensures attachment.message == null
      ensures content == old(content) && session == old(session) && kind == old(kind)
      ensures id == old(id) && createdAt == old(createdAt) && metadata == old(metadata)
      ensures attachment.fileName == old(attachment.fileName) && attachment.fileSize == old(attachment.fileSize)
      ensures attachment.id == old(attachment.id) && attachment.fileType == old(attachment.fileType)
      ensures attachment.filePath == old(attachment.filePath) && attachment.uploadedAt == old(attachment.uploadedAt)
    {
      var i := 0;
      while i < |attachments| && attachments[i] != attachment
        invariant 0 <= i <= |attachments|
        invariant forall j :: 0 <= j < i ==> attachments[j] != attachment
      {
        i := i + 1;
      }
      RemoveFirstCutsFirst(attachments, attachment);
      assert i == FirstIndex(attachments, attachment) by {
        FirstIndexUnique(attachments, attachment, i);
      }
      if i < |attachments| {
        attachments := attachments[..i] + attachments[i + 1..];
      }
      attachment.message := null;
    }
  }

  class FileAttachment {
    var id: Option<Uuid>
    var message: Message?
    var fileName: Option<string>
    var fileType: Option<string>
    var filePath: Option<string>
    var fileSize: Option<int>
    var uploadedAt: Option<Timestamp>

    /** `new FileAttachment(fileName, fileType, filePath, fileSize, message)`. */
    constructor (fileName: Option<string>, fileType: Option<string>, filePath: Option<string>, fileSize: Option<int>, message: Message?)
      ensures this.fileName == fileName && this.fileType == fileType && this.filePath == filePath
      ensures this.fileSize == fileSize && this.message == message
      ensures id.None? && uploadedAt.None?
    {
      id := None;
      this.message := message;
      this.fileName := fileName;
      this.fileType := fileType;
      this.filePath := filePath;
      this.fileSize := fileSize;
      uploadedAt := None;
    }
  }
}
