# Foundation chat relay, modelled in Dafny

The system is a chat relay. A Spring backend keeps chat sessions, their messages and the images attached to them. It forwards each user message to a local Ollama model and streams the model's reply back to the browser. The browser side is plain JavaScript: a chat client, a page helper, a file picker, a REST client and a small HTML sanitizer for the rendered markdown.

This project models the core of both halves, one Dafny module per source file:

- `Common` and `Strings`: Option/Result and the string operations the sources rely on. They cover Java's and JavaScript's `trim`, decimal formatting, `split`/`join` (Java's variant drops trailing empty pieces), `lastIndexOf`, JavaScript's clamping `substring`, global `replace` and ASCII lower-casing.
- `Exceptions` and `ExceptionHandler`: the backend's exception types and the global handler that maps each one to an HTTP status and an error body.
- `StreamResponses`: the streaming response record and its factories.
- `Reactive`: a Flux is a finite sequence of items followed by a terminal signal, completion or an error.
- `Lists`: small sequence helpers.
- `Entities`: sessions, messages and attachments, with the helper methods that keep both ends of a parent-child link in step.
- `Store`: the JPA repositories, as one in-memory database class. Ids come from a counter, and deleting a session cascades to its messages and their attachments.
- `Base64`: a real encoder, RFC 4648 section 4 with padding, used for the images sent to the model.
- `OllamaClient`: the request body, and the decoding of the model's newline-delimited reply stream.
- `ModelService`: the framing of the upstream text as stream events, and the prompts.
- `FileService`: upload validation, stored names and paths, reading, describing and deleting stored files.
- `ChatService`: session creation, title fallback, ownership checks, text and multimodal turns, and the conversation context.
- `ChatClient`, `Ui` and `FileUpload`: the state kept by `chat.js`, `ui.js` and `file-upload.js`.
- `ApiClient`: the request and streaming logic of `api.js`.
- `SimplePurify`: `simple-purify.js`, working on an already parsed tree.

Imperative code stays imperative:

- Objects whose fields change are classes with `modifies` clauses.
- Loops are `while` or `for` loops, proved equal to specification functions.
- Everything else is datatypes, functions and lemmas.

Where the system talks to the outside world, the model takes the outcome as a parameter. This covers the HTTP exchange, the clock, UUID generation, `JSON.parse` and the decoded Ollama lines.

## Model

| member | source | states |
|---|---|---|
| ExceptionHandler.ClosestHandled | src/main/java/com/aichat/foundation/exception/GlobalExceptionHandler.java:20-118 | the handler chosen is the first class of the exception's lineage, most specific first, that has an `@ExceptionHandler`; no earlier class has one |
| ExceptionHandler.Handle | src/main/java/com/aichat/foundation/exception/GlobalExceptionHandler.java:20-118 | an exception gets a reply exactly when some class of its lineage is handled |
| ExceptionHandler.HandleClosest | src/main/java/com/aichat/foundation/exception/GlobalExceptionHandler.java:20-118 | the reply is the one built by the handler of the closest handled class |
| ExceptionHandler.ProjectExceptionReplies | src/main/java/com/aichat/foundation/exception/GlobalExceptionHandler.java:20-58 | the four project exceptions keep their message: chat service and file storage answer 400 with their own codes, Ollama 503, model service 500 |
| ExceptionHandler.RuntimeReplies | src/main/java/com/aichat/foundation/exception/GlobalExceptionHandler.java:90-108 | an IllegalArgumentException answers 400 INVALID_ARGUMENT with its message; any other runtime exception answers 500 INTERNAL_ERROR with "An unexpected error occurred: " and its message ("null" when missing) |
| ExceptionHandler.CheckedExceptionHidden | src/main/java/com/aichat/foundation/exception/GlobalExceptionHandler.java:110-118 | an unhandled checked exception answers 500 UNKNOWN_ERROR with a fixed message that hides its own |
| ExceptionHandler.UploadLimitReplies | src/main/java/com/aichat/foundation/exception/GlobalExceptionHandler.java:80-88 | an exceeded upload limit answers 413 FILE_SIZE_EXCEEDED with a fixed message, ahead of its runtime superclass |
| ExceptionHandler.ValidationReplies | src/main/java/com/aichat/foundation/exception/GlobalExceptionHandler.java:60-78 | a validation failure answers 400 VALIDATION_ERROR, "Request validation failed", with a map keyed by exactly the rejected fields |
| ExceptionHandler.FieldErrorKeys | src/main/java/com/aichat/foundation/exception/GlobalExceptionHandler.java:62-68 | the error map's keys are exactly the field names of the binding errors |
| ExceptionHandler.FieldErrorLastWins | src/main/java/com/aichat/foundation/exception/GlobalExceptionHandler.java:64-68 | for a field reported several times, the map keeps the message of the last report |
| ExceptionHandler.CollectFieldErrors | src/main/java/com/aichat/foundation/exception/GlobalExceptionHandler.java:62-68 | the forEach loop of puts builds the same map as the field-error fold |
| ExceptionHandler.HandleValidationException | src/main/java/com/aichat/foundation/exception/GlobalExceptionHandler.java:60-78 | the reply is 400 with a ValidationErrorResponse coded VALIDATION_ERROR holding the collected map |
| StreamResponses.KindOf | src/main/java/com/aichat/foundation/dto/StreamResponse.java:8 | a recognised type name is the name of the kind it is read as |
| StreamResponses.KindNameRoundTrip | src/main/java/com/aichat/foundation/dto/StreamResponse.java:67-81 | reading back the type name of each kind gives that kind, so the four names differ |
| StreamResponses.Blank | src/main/java/com/aichat/foundation/dto/StreamResponse.java:15 | the no-argument constructor leaves every field null, metadata included |
| StreamResponses.Make | src/main/java/com/aichat/foundation/dto/StreamResponse.java:17-23 | the four-argument constructor stores its arguments and a fresh metadata block |
| StreamResponses.StreamStart | src/main/java/com/aichat/foundation/dto/StreamResponse.java:67-69 | a start event carries both ids and empty content |
| StreamResponses.StreamChunk | src/main/java/com/aichat/foundation/dto/StreamResponse.java:71-73 | a chunk event carries both ids and the content unchanged |
| StreamResponses.StreamEnd | src/main/java/com/aichat/foundation/dto/StreamResponse.java:75-77 | an end event carries both ids and empty content |
| StreamResponses.Error | src/main/java/com/aichat/foundation/dto/StreamResponse.java:79-81 | an error event carries the session id, no message id, and the error text as content |
| StreamResponses.ChunkNeverFraming | src/main/java/com/aichat/foundation/dto/StreamResponse.java:67-77 | a chunk event is never equal to a start or end event, and start differs from end |
| Entities.ChatSession.constructor | src/main/java/com/aichat/foundation/entity/ChatSession.java:35-53 | a new session is ACTIVE with the given title and user id and no messages |
| Entities.ChatSession.AddMessage | src/main/java/com/aichat/foundation/entity/ChatSession.java:114-117 | the message is appended and points back at this session; every other field of the session and of the message is unchanged |
| Entities.ChatSession.RemoveMessage | src/main/java/com/aichat/foundation/entity/ChatSession.java:119-122 | the first occurrence of the message is removed and the message's session is cleared, even when it was not in the list; every other field of both is unchanged |
| Entities.Message.constructor | src/main/java/com/aichat/foundation/entity/Message.java:47-51 | a new message has the given content, type and session and no attachments |
| Entities.Message.SetContent | src/main/java/com/aichat/foundation/entity/Message.java:74-76 | only the content changes |
| Entities.Message.AddAttachment | src/main/java/com/aichat/foundation/entity/Message.java:111-114 | the attachment is appended and points back at this message; every other field of both is unchanged |
| Entities.Message.RemoveAttachment | src/main/java/com/aichat/foundation/entity/Message.java:116-119 | the first occurrence is removed and the attachment's message is cleared, even when it was not in the list; every other field of both is unchanged |
| Entities.FileAttachment.constructor | src/main/java/com/aichat/foundation/entity/FileAttachment.java:50-56 | a new attachment holds the given name, type, path, size and message |
| Lists.FirstIndex | src/main/java/com/aichat/foundation/entity/ChatSession.java:120 | the index found holds the element and no earlier index does, as `List.remove(Object)` searches |
| Lists.RemoveFirstCutsFirst | src/main/java/com/aichat/foundation/entity/ChatSession.java:120 | removal cuts out exactly the first occurrence and keeps the rest in order |
| Lists.RemoveFirstAbsent | src/main/java/com/aichat/foundation/entity/Message.java:117 | removing an absent element leaves the list unchanged |
| Lists.RemoveFirstMultiset | src/main/java/com/aichat/foundation/entity/Message.java:117 | removal takes one copy of the element out of the list's contents when it has one |
| Lists.FirstIndexUnique | src/main/java/com/aichat/foundation/entity/ChatSession.java:120 | a scan that stops at the first match lands on that index |
| Reactive.Concat | src/main/java/com/aichat/foundation/service/ModelService.java:24-35 | `Flux.concat` emits the second stream only after the first completed; a failure of the first ends the whole stream |
| Reactive.Map | src/main/java/com/aichat/foundation/service/ModelService.java:30 | `map` transforms every item, keeping count, order and the terminal signal |
| Reactive.MapError | src/main/java/com/aichat/foundation/service/ModelService.java:31 | `onErrorMap` keeps the items and completion and replaces an error by its mapped error |
| Reactive.ConcatAssociative | src/main/java/com/aichat/foundation/service/ModelService.java:24-35 | a three-part concatenation reads the same either way |
| Reactive.Sink.constructor | src/main/java/com/aichat/foundation/client/OllamaClient.java:70 | a new emitter has emitted nothing and is open |
| Reactive.Sink.Next | src/main/java/com/aichat/foundation/client/OllamaClient.java:148 | an item is delivered only while the emitter is open |
| Reactive.Sink.Error | src/main/java/com/aichat/foundation/client/OllamaClient.java:86-95 | an error terminates an open emitter and is ignored once terminated |
| Reactive.Sink.Complete | src/main/java/com/aichat/foundation/client/OllamaClient.java:92 | completion terminates an open emitter and is ignored once terminated |
| ModelService.FramedItems | src/main/java/com/aichat/foundation/service/ModelService.java:24-35 | the events are the start, the chunk events, and the end only when upstream completed |
| ModelService.FramedShape | src/main/java/com/aichat/foundation/service/ModelService.java:23-54 | start first, one chunk per upstream string in order, then end and completion; when upstream failed there is no end and the error is a ModelServiceException with the request's message caused by the upstream error |
| ModelService.ProcessRequestsFraming | src/main/java/com/aichat/foundation/service/ModelService.java:23-54 | of `ProcessTextRequest`, `ProcessMultimodalRequest`: the two frame the same events; an upstream failure becomes a ModelServiceException with "Failed to process text request" or "Failed to process multimodal request" respectively |
| ModelService.FramedIds | src/main/java/com/aichat/foundation/service/ModelService.java:23-54 | every event carries the request's session and message ids |
| ModelService.EnhancedPromptParts | src/main/java/com/aichat/foundation/service/ModelService.java:66-79 | of `CreateEnhancedPrompt`: the prompt is the context block (only for a non-null, non-empty context) followed by "User: ", the message and the assistant cue, and each piece can be read back |
| ModelService.EnhancedPromptInjective | src/main/java/com/aichat/foundation/service/ModelService.java:66-79 | of `CreateEnhancedPrompt`: under the same context, different messages give different prompts |
| ModelService.MultimodalPromptParts | src/main/java/com/aichat/foundation/service/ModelService.java:84-95 | of `CreateMultimodalPrompt`: the prompt is the description block (only for a non-empty description) followed by "User message: ", the message and the analysis instruction |
| OllamaClient.BlankIsTrimEmpty | src/main/java/com/aichat/foundation/client/OllamaClient.java:131 | a line is skipped as blank exactly when `line.trim().isEmpty()`: every character is at or below U+0020 |
| OllamaClient.Emitted | src/main/java/com/aichat/foundation/client/OllamaClient.java:145-150 | one line contributes at most one chunk, and never an empty one |
| OllamaClient.ParseWithoutStop | src/main/java/com/aichat/foundation/client/OllamaClient.java:130-161 | of `Parse`: a body where no line reports an error or done yields the chunks of all its lines and no error |
| OllamaClient.ParseErrorStops | src/main/java/com/aichat/foundation/client/OllamaClient.java:139-142 | of `Parse`: an error line ends parsing with its error text; its own response and every later line are ignored |
| OllamaClient.ParseDoneStops | src/main/java/com/aichat/foundation/client/OllamaClient.java:145-155 | of `Parse`: a done line still emits its own content, then ends parsing normally; later lines are not read |
| OllamaClient.ParseSkipsIgnoredLine | src/main/java/com/aichat/foundation/client/OllamaClient.java:129-160 | of `Parse`: a blank or malformed line anywhere neither emits nor stops, so the result is as if it were absent |
| OllamaClient.ChunksNonEmpty | src/main/java/com/aichat/foundation/client/OllamaClient.java:146-149 | no emitted chunk is empty |
| OllamaClient.ChunksAppend | src/main/java/com/aichat/foundation/client/OllamaClient.java:130-161 | the chunks of two runs of lines are the chunks of each in turn |
| OllamaClient.ReadLine | src/main/java/com/aichat/foundation/client/OllamaClient.java:131-155 | one pass of the read loop: skips blank and malformed lines, fails the sink on an error field, emits non-empty content, and stops exactly on error or done |
| OllamaClient.ParseStreamingResponse | src/main/java/com/aichat/foundation/client/OllamaClient.java:127-165 | the read loop pushes into an open sink exactly the parsed chunks, terminates it with the upstream error when a line reported one, leaves it open otherwise, and leaves a terminated sink untouched |
| OllamaClient.RequestBodyShape | src/main/java/com/aichat/foundation/client/OllamaClient.java:103-122 | the body has model, prompt, stream true and the fixed options, and an images field holding the one image exactly when a non-empty image was given |
| OllamaClient.CreateRequestBody | src/main/java/com/aichat/foundation/client/OllamaClient.java:103-122 | the body built by the successive puts is the one described by RequestBodyOf |
| OllamaClient.Transfer | src/main/java/com/aichat/foundation/client/OllamaClient.java:69-97 | a send failure or a status other than 200 fails the stream with an OllamaException before any chunk; a 200 yields the parsed chunks and completes unless a line reported an error |
| OllamaClient.NonOkStatusIgnoresBody | src/main/java/com/aichat/foundation/client/OllamaClient.java:85-88 | for a non-200 status the body is never read: the stream fails the same way whatever it holds |
| OllamaClient.SendMessage | src/main/java/com/aichat/foundation/client/OllamaClient.java:69-97 | the request is the body for the message and image, and the stream received is Transfer of the exchange's outcome, the completion after a parser error being ignored |
| OllamaClient.SendTextMessage | src/main/java/com/aichat/foundation/client/OllamaClient.java:54-56 | a text request has no images field |
| OllamaClient.SendMultimodalMessage | src/main/java/com/aichat/foundation/client/OllamaClient.java:61-64 | the image goes Base64-encoded, and an empty image sends no images field |
| Base64.CharValue | src/main/java/com/aichat/foundation/client/OllamaClient.java:62 | each 6-bit value has its own alphabet character, read back to the value |
| Base64.Encode | src/main/java/com/aichat/foundation/client/OllamaClient.java:62 | the encoding is empty exactly when the data is |
| Base64.EncodeLength | src/main/java/com/aichat/foundation/client/OllamaClient.java:62 | four characters for every started group of three bytes |
| Base64.EncodeAlphabet | src/main/java/com/aichat/foundation/client/OllamaClient.java:62 | every character of an encoding is in the Base64 alphabet or is the '=' pad |
| Base64.DecodeEncode | src/main/java/com/aichat/foundation/client/OllamaClient.java:62 | decoding undoes encoding for every byte string |
| Base64.DecodeEncodeShort | src/main/java/com/aichat/foundation/client/OllamaClient.java:62 | a final group of one or two bytes, padded, decodes back |
| Base64.EncodeInjective | src/main/java/com/aichat/foundation/client/OllamaClient.java:62 | different images have different encodings |
| FileService.AllowedTypesAsList | src/main/java/com/aichat/foundation/service/FileService.java:152-155 | of `IsAllowedContentType`: with the configured list written as types joined by commas, a content type is allowed exactly when its trimmed form is one of the types |
| FileService.ValidateFileAccepts | src/main/java/com/aichat/foundation/service/FileService.java:129-147 | of `ValidateFile`: a file passes exactly when it is non-empty, at most the limit (the limit itself passes), of a listed type after trimming, and named without ".."; every rejection is a FileStorageException |
| FileService.EmptyFileFirst | src/main/java/com/aichat/foundation/service/FileService.java:130-132 | an empty file is refused as empty whatever its type and name |
| FileService.TestTypesJoined | src/test/java/com/aichat/foundation/service/FileServiceTest.java:61 | the tests' type list is the four image types joined by commas |
| FileService.JpegAllowed | src/test/java/com/aichat/foundation/service/FileServiceTest.java:61 | under the tests' configuration a JPEG passes, even with blanks around its content type |
| FileService.TextRefused | src/test/java/com/aichat/foundation/service/FileServiceTest.java:104-120 | under the tests' configuration a text/plain file is refused |
| FileService.SpacedListJoined | src/main/java/com/aichat/foundation/service/FileService.java:153 | a list written with a blank after the comma splits into a piece that starts with that blank |
| FileService.UntrimmedListPiece | src/main/java/com/aichat/foundation/service/FileService.java:153-154 | the list's pieces are not trimmed, so with a blank after the comma image/png is refused |
| FileService.GetFileExtension | src/main/java/com/aichat/foundation/service/FileService.java:160-165 | the extension is "" for a null name or one without '.', and otherwise the suffix from the last '.' inclusive, with no further '.' in it |
| FileService.ResolvePath | src/main/java/com/aichat/foundation/service/FileService.java:58-65 | the stored path ends with the stored name |
| FileService.AttachmentRowKeepsUpload | src/main/java/com/aichat/foundation/service/FileService.java:53-68 | the saved row keeps the upload's name, type, size and bytes, and its path ends with the token followed by the original extension |
| FileService.UploadFile | src/main/java/com/aichat/foundation/service/FileService.java:42-79 | a rejected file throws its validation error and saves nothing; an accepted one is saved under a fresh id and its content and its description read back as uploaded |
| FileService.GetFileContent | src/main/java/com/aichat/foundation/service/FileService.java:84-94 | the stored bytes for a known id; "File not found with id: …" for an unknown one |
| FileService.GetFileInfo | src/main/java/com/aichat/foundation/service/FileService.java:192-197 | a known file is described with its stored id, message, name, type, path, size and upload time; an unknown id gets the same not-found error as getFileContent |
| FileService.DeleteFile | src/main/java/com/aichat/foundation/service/FileService.java:99-114 | an unknown id throws not-found and deletes nothing; a known one is removed and nothing else changes |
| Store.DistinctCard | src/main/java/com/aichat/foundation/repository/MessageRepository.java:36 | a history without repeats has as many members as entries |
| Store.CountIsHistoryLength | src/main/java/com/aichat/foundation/repository/MessageRepository.java:20-36 | in a consistent store the count of a session's message rows equals the length of its ordered history |
| Store.AppendConsistent | src/main/java/com/aichat/foundation/repository/MessageRepository.java:15 | saving a new message of a stored session, last in its history, keeps every foreign key and history consistent |
| Store.CascadeConsistent | src/main/java/com/aichat/foundation/entity/ChatSession.java:45 | deleting a session with its messages and their attachments keeps the store consistent |
| Store.Database.constructor | src/main/java/com/aichat/foundation/repository/ChatSessionRepository.java:16 | an empty store is consistent |
| Store.Database.CountBySessionId | src/main/java/com/aichat/foundation/repository/MessageRepository.java:36 | the count is the number of the session's messages listed oldest first |
| Store.Database.SaveSession | src/main/java/com/aichat/foundation/repository/ChatSessionRepository.java:16 | a new session gets a fresh id and an empty history; nothing else changes |
| Store.Database.UpdateSession | src/main/java/com/aichat/foundation/repository/ChatSessionRepository.java:16 | only the stored session's row changes |
| Store.Database.SaveMessage | src/main/java/com/aichat/foundation/repository/MessageRepository.java:15-20 | a new message gets a fresh id and goes last in its session's history |
| Store.Database.UpdateMessage | src/main/java/com/aichat/foundation/repository/MessageRepository.java:15 | only the message's row changes; its place in the history stays |
| Store.Database.SaveAttachment | src/main/java/com/aichat/foundation/repository/FileAttachmentRepository.java:15 | a new attachment of a stored message gets a fresh id; nothing else changes |
| Store.Database.DeleteAttachment | src/main/java/com/aichat/foundation/repository/FileAttachmentRepository.java:15 | only that attachment row goes |
| Store.Database.DeleteSession | src/main/java/com/aichat/foundation/entity/ChatSession.java:45 | the session goes together with its messages, their attachments and its history, as CascadeType.ALL removes them |
| ChatService.HistoryStored | src/main/java/com/aichat/foundation/service/ChatService.java:210-221 | every message listed for a session is stored and belongs to that session |
| ChatService.TrimmedEnds | src/main/java/com/aichat/foundation/service/ChatService.java:46 | a trimmed, non-empty title starts and ends with a non-blank character |
| ChatService.SessionTitleShape | src/main/java/com/aichat/foundation/service/ChatService.java:41-46 | of `SessionTitle`: the stored title is the trimmed given title when that is not blank, and otherwise starts with "New Chat -"; it is never empty and never starts or ends with a blank |
| ChatService.DefaultTitleShape | src/main/java/com/aichat/foundation/service/ChatService.java:42-46 | of `DefaultTitle`: the default title keeps its "New Chat -" start through trimming |
| ChatService.CreateSession | src/main/java/com/aichat/foundation/service/ChatService.java:41-50 | a new ACTIVE session of the user with the stored title and no messages is saved under a fresh id; its description counts zero messages |
| ChatService.GetSessionWithMessages | src/main/java/com/aichat/foundation/service/ChatService.java:67-81 | a description exactly when the user owns the session, with its id, owner and message count |
| ChatService.DeleteSession | src/main/java/com/aichat/foundation/service/ChatService.java:86-95 | true exactly when the user owns the session; then it goes with its messages and their attachments and every other history stays; otherwise nothing changes |
| ChatService.GetSessionMessages | src/main/java/com/aichat/foundation/service/ChatService.java:204-215 | an access-denied ChatServiceException for a non-owner; for the owner, one description per message, oldest first, each with the message's id, session, content, type name and creation time |
| ChatService.Recent | src/main/java/com/aichat/foundation/service/ChatService.java:224-225 | the last min(10, n) entries of the history |
| ChatService.BuildConversationContext | src/main/java/com/aichat/foundation/service/ChatService.java:220-234 | the context is one "User: c" or "Assistant: c" line per message of the session's latest ten, oldest first |
| ChatService.FormatLines | src/main/java/com/aichat/foundation/service/ChatService.java:227-233 | the loop appends one sender line per listed message, in order |
| ChatService.ContextEndsWithTurn | src/main/java/com/aichat/foundation/service/ChatService.java:110-118 | a context built after the turn's two saves ends with the user's new message and an empty assistant line |
| ChatService.TurnContext | src/main/java/com/aichat/foundation/service/ChatService.java:220-225 | the ten-message window of a history ending with the turn's two messages still ends with their lines |
| ChatService.TurnLines | src/main/java/com/aichat/foundation/service/ChatService.java:229-230 | the user's message and the empty placeholder give "User: c" and "Assistant: " lines |
| ChatService.CollectChunks | src/main/java/com/aichat/foundation/service/ChatService.java:125-129 | the doOnNext callback appends the content of each chunk event, in order |
| ChatService.ChunkTextAppend | src/main/java/com/aichat/foundation/service/ChatService.java:125-129 | the text collected from two runs of events is the text of each in turn |
| ChatService.ChunkTextOfChunks | src/main/java/com/aichat/foundation/service/ChatService.java:126-127 | chunk events collect to their contents one after the other |
| ChatService.ChunkTextOther | src/main/java/com/aichat/foundation/service/ChatService.java:126 | a start, end or error event adds nothing to the text |
| ChatService.ChunkEventsText | src/main/java/com/aichat/foundation/service/ChatService.java:124-129 | the chunk events of a reply collect to the upstream strings one after the other |
| ChatService.FramedChunkText | src/main/java/com/aichat/foundation/service/ChatService.java:124-129 | the text collected from a framed reply is the upstream text; start and end add nothing |
| ChatService.CollectReply | src/main/java/com/aichat/foundation/service/ChatService.java:124-138 | the turn reads whether its stream completed, and the text is the upstream text |
| ChatService.FinishTurn | src/main/java/com/aichat/foundation/service/ChatService.java:130-138 | on completion the placeholder gets the whole reply and the session its update time; on failure both stay as they were |
| ChatService.StartTextTurn | src/main/java/com/aichat/foundation/service/ChatService.java:106-118 | the user's message and the empty placeholder are saved last in the history, and the context is built from the history with both |
| ChatService.SendTextTurn | src/main/java/com/aichat/foundation/service/ChatService.java:119-139 | the enhanced prompt over the context goes upstream without an image, and the framed reply comes back with failures wrapped as "Failed to process message" |
| ChatService.ProcessTextMessage | src/main/java/com/aichat/foundation/service/ChatService.java:100-140 | a non-owner gets "Session not found or access denied" and nothing is saved; otherwise the user's message then the placeholder are saved, the prompt is built after both, and the placeholder holds the whole reply and the session is touched only if the stream completed |
| ChatService.StartMultimodalTurn | src/main/java/com/aichat/foundation/service/ChatService.java:152-161 | the user's message is saved first; the file is stored as its attachment unless the file service refuses it |
| ChatService.SendMultimodalTurn | src/main/java/com/aichat/foundation/service/ChatService.java:164-193 | the stored bytes go upstream with a prompt that ignores the built context, and the reply is handled as in a text turn |
| ChatService.ProcessMultimodalMessage | src/main/java/com/aichat/foundation/service/ChatService.java:145-198 | a non-owner gets an error and nothing changes; a refused file ends the turn with a wrapped error after the user's message was saved; otherwise the attachment and placeholder are saved and the reply is handled as in a text turn |
| ChatClient.ApplyAllAppend | target/classes/static/js/chat.js:350-384 | handling two runs of events is handling the first, then the second |
| ChatClient.FindFirst | target/classes/static/js/chat.js:352-354 | `find` returns the first event of the kind (none before it has the kind), and none only when no event has that kind |
| ChatClient.FilterKind | target/classes/static/js/chat.js:353 | `filter` keeps exactly the events of the kind: every kept event has it, and every event that has it is kept |
| ChatClient.FilterKindAppend | target/classes/static/js/chat.js:353 | filtering keeps the reply's order: the kept events of two runs are those of the first, then those of the second |
| ChatClient.DispatchedKinds | target/classes/static/js/chat.js:350-384 | only start, chunk and end events of the reply are handed on; an error event never is |
| ChatClient.ChunksAccumulate | target/classes/static/js/chat.js:455-460 | handling chunk events appends their non-empty contents in order and changes nothing else |
| ChatClient.Reassembly | target/classes/static/js/chat.js:350-384 | after a reply the buffer holds the chunk contents in order; with a stream_end the stream is reset and that text is rendered when a reply was open, otherwise the stream stays open |
| ChatClient.ChunkDelay | target/classes/static/js/chat.js:372-375 | the pause is min(30 + 2·len, 150) with len 1 for an empty content, so it lies in [32, 150] |
| ChatClient.ChunkDelayGrows | target/classes/static/js/chat.js:372-375 | the pause grows with the chunk and is 150 from 60 characters on |
| ChatClient.MessageToSend | target/classes/static/js/chat.js:228-235 | a message is sent exactly when the trimmed input is non-empty, and it is the trimmed input |
| ChatClient.BlankNotSent | target/classes/static/js/chat.js:230-235 | an input of blanks only is never sent |
| ChatClient.ChatManager.constructor | target/classes/static/js/chat.js:3-8 | no current session, an empty session map, no stream and an empty buffer |
| ChatClient.ChatManager.PrepareForStreaming | target/classes/static/js/chat.js:403-406 | the buffer is emptied and a new "streaming-" id is taken from the clock |
| ChatClient.ChatManager.HandleStreamChunk | target/classes/static/js/chat.js:455-460 | a non-empty content is appended to the buffer; otherwise nothing changes |
| ChatClient.ChatManager.FinalizeStreamingMessage | target/classes/static/js/chat.js:499-518 | the given text, or the buffer when none is given, is rendered only when a reply is open; then the id is cleared and the buffer emptied |
| ChatClient.ChatManager.HandleStreamingMessage | target/classes/static/js/chat.js:427-449 | data without a type and unknown types change nothing; chunk appends, end finalizes with the buffer, error finalizes with the fixed error reply; with no open reply nothing is rendered |
| ChatClient.ChatManager.HandleIfPresent | target/classes/static/js/chat.js:357-384 | a start or end event is handled when the reply has one |
| ChatClient.ChatManager.HandleChunksWithDelay | target/classes/static/js/chat.js:363-378 | the loop handles every chunk in order and takes the pause ChunkDelay after each |
| ChatClient.ChatManager.ProcessStreamChunksWithDelay | target/classes/static/js/chat.js:350-385 | the state after the reply is that of handling the first start, every chunk in order, then the first end, and one pause per chunk |
| ChatClient.ChatManager.DeleteSession | target/classes/static/js/chat.js:525-546 | after a confirmed and successful delete the id leaves the map and the current session is cleared only if it was that id; otherwise nothing changes |
| FileUpload.ValidateFile | target/classes/static/js/file-upload.js:111-129 | a file is valid exactly when its type is listed and its size is at most the limit |
| FileUpload.AllowedTypesListed | target/classes/static/js/file-upload.js:116 | the type error lists the four image types joined by ", " |
| FileUpload.TypeCheckedFirst | target/classes/static/js/file-upload.js:113-118 | a type outside the list is refused for its type whatever the size |
| FileUpload.SizeLimitInclusive | target/classes/static/js/file-upload.js:120-128 | an image of exactly 10 MiB passes and one byte more is refused for its size with "10 MB" |
| FileUpload.TruncateFilename | target/classes/static/js/file-upload.js:228-231 | a name within the limit is returned unchanged |
| FileUpload.DottedParts | target/classes/static/js/file-upload.js:233-234 | with a '.', the extension is what follows the last one and the name part is what precedes it |
| FileUpload.TruncateDotted | target/classes/static/js/file-upload.js:233-237 | a long name with a '.' becomes the start of its name part, "...", and the whole extension, and fits the limit when the extension leaves room |
| FileUpload.DotlessParts | target/classes/static/js/file-upload.js:233-234 | without a '.', the extension is the whole name and the name part is empty, as `substring(0, -1)` is "" |
| FileUpload.TruncateDotless | target/classes/static/js/file-upload.js:233-237 | a long name without a '.' comes out as "..." and the whole name, longer than it was |
| FileUpload.TruncateLengthens | target/classes/static/js/file-upload.js:228-237 | a 31-character name without a '.' is lengthened to 34 characters under the default limit of 30 |
| FileUpload.TruncateFilenameFixed | target/classes/static/js/file-upload.js:228-237 | a name within the limit is returned unchanged |
| FileUpload.TruncateFixedFits | target/classes/static/js/file-upload.js:228-237 | the corrected shortening fits the limit whenever the extension leaves room, and agrees with the original for every name with a '.' |
| FileUpload.FileUploadManager.constructor | target/classes/static/js/file-upload.js:3-6 | no file is selected, with the 10 MiB limit and the four image types |
| FileUpload.FileUploadManager.SelectFile | target/classes/static/js/file-upload.js:98-109 | a valid file replaces the selection; an invalid one keeps the previous selection and yields the validation error |
| FileUpload.FileUploadManager.ClearSelection | target/classes/static/js/file-upload.js:190-215 | afterwards no file is selected and hasSelectedFile() is false |
| Ui.TruncateText | target/classes/static/js/ui.js:279-282 | a text within the limit is unchanged; a longer one is its first maxLength characters and "...", maxLength + 3 long |
| Ui.FormatTimestamp | target/classes/static/js/ui.js:257-267 | "Just now" exactly below a minute; a locale date (not modelled) exactly from a day on |
| Ui.FormatTimestampBuckets | target/classes/static/js/ui.js:263-264 | from a minute to an hour it shows the whole minutes elapsed (1 to 59) and "m ago"; from an hour to a day the whole hours (1 to 23) and "h ago" |
| Ui.FormatTimestampMinutesDistinct | target/classes/static/js/ui.js:263 | different minute counts are shown differently |
| Ui.ValidLang | target/classes/static/js/ui.js:298 | a non-empty language made only of characters of [a-zA-Z0-9_+-] is kept; anything else becomes '', so what comes out only holds those characters |
| Ui.EscapeAngles | target/classes/static/js/ui.js:299 | the escaped code holds no '<' and no '>' |
| Ui.EscapeAnglesEach | target/classes/static/js/ui.js:299 | the two global replacements escape character by character: '<' and '>' become entities and everything else, '&' included, stays |
| Ui.EscapeAnglesKeeps | target/classes/static/js/ui.js:299 | code without angle brackets is shown as it is |
| Ui.RenderedCodeInert | target/classes/static/js/ui.js:297-301 | of `RenderCode`: the code inside a rendered block is the escaped code and holds no angle bracket |
| Ui.RenderedCodespanInert | target/classes/static/js/ui.js:304-307 | of `RenderCodespan`: the code inside a rendered inline span is the escaped code and holds no angle bracket |
| Ui.RenderLinkOpening | target/classes/static/js/ui.js:310-313 | of `RenderLink`: a rendered link opens with '#' or the given http(s) address, and always opens in a new tab without a referrer |
| Ui.RenderLinkTitle | target/classes/static/js/ui.js:312-313 | of `RenderLink`: after the opening comes a title attribute only for a non-empty title, with no quote inside it, then the text |
| Ui.SafeHref | target/classes/static/js/ui.js:311 | the href is kept exactly when it starts with http:// or https://, and is '#' otherwise |
| Ui.TitleAttrQuoted | target/classes/static/js/ui.js:312 | of `TitleAttr`: a non-empty title sits between the one pair of quotes and holds no quote of its own |
| Ui.ScriptLinkNeutral | target/classes/static/js/ui.js:311 | a javascript: link, or one with an upper-case scheme, is sent to '#' |
| Ui.UIManager.constructor | target/classes/static/js/ui.js:3-5 | no active session and the sidebar shown |
| Ui.UIManager.ToggleSidebar | target/classes/static/js/ui.js:129-134 | the sidebar flips and the active session stays |
| Ui.UIManager.HandleResize | target/classes/static/js/ui.js:136-144 | a width of at most 768 hides the sidebar; a wider one leaves it as it was |
| Ui.UIManager.SetActiveSession | target/classes/static/js/ui.js:238-239 | the active session becomes the given one |
| ApiClient.RequestUrl | src/main/resources/static/js/api.js:4-11 | the URL starts with "/api" and the rest of it is exactly the endpoint |
| ApiClient.HeadersReplaced | src/main/resources/static/js/api.js:12-15 | given headers replace the defaults wholesale (an empty object drops Content-Type); absent headers leave the defaults; method and body pass through |
| ApiClient.FormRequestsHaveNoContentType | src/main/resources/static/js/api.js:84-100 | the form-data POSTs of sendMultimodalMessage and uploadFile, with `headers: {}`, carry no Content-Type; createSession keeps the JSON default |
| ApiClient.JsonEscapeRoundTrip | src/main/resources/static/js/api.js:42 | `JSON.stringify`'s escaping leaves no control character, and a JSON string reader gives the escaped text back exactly as the original |
| ApiClient.CreateSessionBody | src/main/resources/static/js/api.js:39-44 | of `CreateSessionOptions`: createSession sends a POST with the default headers and the JSON object whose `title` reads back as the title used |
| ApiClient.NewSessionTitle | src/main/resources/static/js/api.js:42 | the title is never empty and is the given title whenever that is non-empty |
| ApiClient.FailureMessage | src/main/resources/static/js/api.js:20-22 | the server's non-empty message when there is one, otherwise "HTTP status: statusText" |
| ApiClient.RequestOutcome | src/main/resources/static/js/api.js:17-31 | a non-ok response throws the failure message; an ok JSON-typed response yields its parsed body, or throws when the body does not parse; any other ok response yields its text |
| ApiClient.LinesDeliveredAppend | src/main/resources/static/js/api.js:157-166 | the values of two runs of lines are those of the first followed by those of the second |
| ApiClient.DropSilentLine | src/main/resources/static/js/api.js:158-164 | a line that yields nothing can be removed without changing what is delivered |
| ApiClient.SkippedLinesIgnored | src/main/resources/static/js/api.js:158-164 | a whitespace-only or unparseable line changes nothing in what the surrounding lines deliver |
| ApiClient.SplitRecordLost | src/main/resources/static/js/api.js:154-155 | a record split across two chunks whose halves do not parse is never delivered |
| ApiClient.HandleLine | src/main/resources/static/js/api.js:158-165 | one line delivers at most one value, none when it is blank, exactly what the line specification says |
| ApiClient.HandleLines | src/main/resources/static/js/api.js:157-166 | the inner loop delivers the values of the lines in order |
| ApiClient.HandleChunk | src/main/resources/static/js/api.js:154-166 | a chunk delivers the values of its '\n'-separated lines |
| ApiClient.ReadBody | src/main/resources/static/js/api.js:146-167 | the read loop delivers every chunk's values, chunk after chunk, in order |
| ApiClient.StreamMessage | src/main/resources/static/js/api.js:127-172 | a non-ok response errors with "HTTP status: statusText" and delivers nothing; an ok one delivers all chunks' values and completes |
| ApiClient.FormatDate | src/main/resources/static/js/api.js:212-226 | a locale date (not modelled) exactly from a week on |
| ApiClient.FormatDateAgrees | src/main/resources/static/js/api.js:212-226 | below a day it shows what the page's formatTimestamp shows; from a day to a week it shows the whole days (1 to 6) and "d ago" |
| ApiClient.ValidatorsMatchPicker | src/main/resources/static/js/api.js:229-235 | with their defaults the two validators accept exactly the files the file picker accepts |
| ApiClient.HandleError | src/main/resources/static/js/api.js:187-201 | the error's non-empty message, else a thrown string itself, else "An unexpected error occurred" |
| SimplePurify.GetSet | src/main/resources/static/lib/simple-purify.js:41-44 | after setting an attribute, reading it gives the new value and every other attribute reads as before |
| SimplePurify.SetUnchanged | src/main/resources/static/lib/simple-purify.js:41-44 | setting an attribute to the value it has changes nothing |
| SimplePurify.SetNames | src/main/resources/static/lib/simple-purify.js:41-44 | setting adds no attribute other than the one set |
| SimplePurify.FilterMembers | src/main/resources/static/lib/simple-purify.js:30-35 | of `FilterAttrs`: an attribute survives exactly when it was there and its lower-cased name is allowed |
| SimplePurify.FilterKeepsAllowed | src/main/resources/static/lib/simple-purify.js:30-35 | an allowed attribute reads the same after filtering |
| SimplePurify.FilterAllAllowed | src/main/resources/static/lib/simple-purify.js:30-35 | filtering attributes that are all allowed changes nothing |
| SimplePurify.FixLinkReads | src/main/resources/static/lib/simple-purify.js:38-45 | of `FixLink`: a link's href is the given http(s) address or '#', its target "_blank" and its rel "noopener noreferrer"; other attributes read as before |
| SimplePurify.FixLinkIdempotent | src/main/resources/static/lib/simple-purify.js:38-45 | fixing a fixed link changes nothing |
| SimplePurify.FixLinkNames | src/main/resources/static/lib/simple-purify.js:38-45 | fixing a link adds only href, target and rel |
| SimplePurify.CleanedAttrsStable | src/main/resources/static/lib/simple-purify.js:29-45 | of `CleanedAttrs`: when the link attributes are allowed, cleaning cleaned attributes changes nothing |
| SimplePurify.Sanitized | src/main/resources/static/lib/simple-purify.js:52-56 | there is one cleaned node per top-level node |
| SimplePurify.CleanSafe | src/main/resources/static/lib/simple-purify.js:20-50 | of `Clean`: whatever the tree, the cleaned tree has only allowed tags, only allowed attributes (plus a link's three) and only safe links |
| SimplePurify.CleanReplaces | src/main/resources/static/lib/simple-purify.js:20-50 | of `Clean`: text stays, a disallowed element becomes its text content, an allowed one keeps its tag, its filtered attributes and its children cleaned in order |
| SimplePurify.CleanKeepsAllowedAttr | src/main/resources/static/lib/simple-purify.js:29-35 | an allowed attribute of an allowed element (other than a link's three) keeps its value |
| SimplePurify.CleanIdempotent | src/main/resources/static/lib/simple-purify.js:20-50 | of `Clean`: with the link attributes allowed, sanitizing a sanitized tree changes nothing |
| SimplePurify.SanitizeDefaults | src/main/resources/static/lib/simple-purify.js:9-17 | missing lists mean the defaults; a given empty tag list turns every top-level element into its text |
| SimplePurify.DefaultLists | src/main/resources/static/lib/simple-purify.js:9-17 | by default script is not allowed, a is, and so are href, target and rel |
| SimplePurify.DefaultScriptBecomesText | src/main/resources/static/lib/simple-purify.js:9-27 | by default a SCRIPT element becomes a text node of its text |
| SimplePurify.DefaultScriptLinkNeutral | src/main/resources/static/lib/simple-purify.js:38-42 | by default a javascript: link gets href '#' |
| SimplePurify.CleanAttributes | src/main/resources/static/lib/simple-purify.js:30-35 | the attribute loop keeps exactly the filtered attributes, in order |
| SimplePurify.CleanElement | src/main/resources/static/lib/simple-purify.js:20-50 | the recursive walk produces the cleaned node |
| SimplePurify.Sanitize | src/main/resources/static/lib/simple-purify.js:52-56 | the top-level loop produces the sanitized nodes |
| Strings.TrimEmptyIff | src/main/java/com/aichat/foundation/client/OllamaClient.java:131 | a string trims to empty exactly when all its characters are whitespace |
| Strings.TrimIsSlice | src/main/java/com/aichat/foundation/service/ChatService.java:46 | the trimmed string is a contiguous piece of the original with only whitespace around it |
| Strings.NatToStringRoundTrip | src/main/resources/static/js/api.js:221-223 | the decimal text of a number reads back as the number |
| Strings.NatToStringInjective | src/main/resources/static/js/api.js:221-223 | different numbers have different decimal texts |
| Strings.LastIndexOf | src/main/java/com/aichat/foundation/service/FileService.java:161-165 | -1 exactly when the character is absent, otherwise the position of its last occurrence |
| Strings.SplitLast | target/classes/static/js/file-upload.js:233 | the last piece of a split is what follows the last separator |
| Strings.JoinSplit | src/main/resources/static/js/api.js:155 | joining the pieces of a split gives back the string |
| Strings.SplitJoin | src/main/resources/static/js/api.js:155 | splitting joined separator-free pieces gives back the pieces |
| Strings.JavaSplitJoin | src/main/java/com/aichat/foundation/service/FileService.java:153 | Java's split inverts a join whose last piece is non-empty |
| Strings.ReplaceAllRemoves | target/classes/static/js/ui.js:299 | after replacing a character by text without it, the character is gone |
| Strings.ReplaceAllKeeps | target/classes/static/js/ui.js:299 | a character that is neither the replaced one nor in the replacement occurs afterwards exactly when, and exactly as often as, it occurred before |
| Strings.ReplaceAllKeepsOrder | target/classes/static/js/ui.js:299 | with the replaced character and the replacement's characters set aside, the text reads the same before and after, so the other characters keep their order |
| Strings.AsciiLower | src/main/resources/static/lib/simple-purify.js:22 | the lower-cased text has the same length, character by character lower-cased |

## Left out

- HTTP, WebSocket and threading: `fetch`, WebClient, the servlet layer and Reactor scheduling are not modelled. Responses and streams are given as values, and a Flux is a finite item sequence with a terminal signal.
- The connectivity probes `testConnection`, `getAvailableModels` and `isHealthy` in OllamaClient.java, and `isServiceAvailable` in ModelService.java: each is a network call whose answer would only be a parameter.
- Jackson: each Ollama reply line comes already decoded, as text plus an optional record. JSON request bodies are built as text only where the model needs their content.
- The floating-point generation options (temperature, top_p) are kept as literal text, because floating point is not modelled.
- Clocks and UUIDs: timestamps are parameters, and ids come from a counter in `Store.Database` in place of random UUIDs.
- The filesystem: a file on disk is the bytes held in its attachment row, so the IOException paths of FileService.java are not modelled.
- `getUserSessions`, `getFileAttachmentsByMessageId`, `getTotalFileSizeBySessionId` and `cleanupOldFiles`: queries and maintenance that no modelled operation depends on.
- The repository JPQL queries that no modelled operation uses.
- The attachment list and metadata of MessageDto are not modelled.
- The DOM, `marked`, `escapeHtml` and toasts. Of `formatFileSize`, only the "10 MB" text of the size limit is modelled; the other sizes use floating point.
- `websocket.js`, `app.js`, the REST and WebSocket controllers, and `FileMigrationRunner`.
- The network parts of `chat.js`.
- `toLocaleDateString` is shown as `None` in `Ui.FormatTimestamp` and `ApiClient.FormatDate`.
- The REST wrappers of `api.js` other than `createSession` (getSessions, getSession, deleteSession, sendMessage, uploadFile and the others) and `handleResponse`. Each only picks an endpoint and options for `request`, which is modelled. The two form-data calls are covered by `ApiClient.FormRequestsHaveNoContentType`.
- `ApiClient.ReadBody`: chunks are given as decoded text, and a read error in the middle of the stream is not modelled.
- ExceptionHandler: the ClassCastException that the validation handler would raise for a non-field error is not modelled.
- ExceptionHandler: Spring picks the closest handler by exception depth; the model reads the closest handler off the exception type's lineage.
- SimplePurify: HTML parsing and serialisation are left out, and the tree is given parsed. The in-place DOM edit is modelled as returning the new node.
- CreateSession: the bean-validation limits of ChatSession.java:23-30 are not modelled. A trimmed title longer than 255 characters, or a user id null or longer than 100, makes the save throw a `ConstraintViolationException`, which the runtime handler answers with 500. The model saves the session whatever the lengths.
- UploadFile: the bean-validation limits of FileAttachment.java:24-36 are not modelled. A file name that is null, blank or longer than 255 characters, a content type longer than 50, or a stored path longer than 500 makes the save throw a `ConstraintViolationException`, after the bytes were already written to disk (FileService.java:59). The model stores the row and returns Ok, and so does `ChatService.StartMultimodalTurn` through it.
- Store: a session's history is kept in save order. The `findBySessionIdOrderByCreatedAtAsc` query returns that order only when each save gets a later `@CreationTimestamp` than the one before. Two saves in the same clock tick (the user message and the placeholder of one turn, ChatService.java:110-114) tie, and the database may return them either way. So `ChatService.ContextEndsWithTurn` and `ChatService.TurnContext` assume a clock that ticks between saves.
- TruncateFilename: lengths and `substring` positions count Unicode code points, while JavaScript's `.length` and `substring` count UTF-16 code units. The two agree on text in the Basic Multilingual Plane. A name with characters outside it (emoji, say) counts longer in the source, and its cut can split a surrogate pair, which the model cannot represent.
- TruncateText: the same code-point counting, against ui.js's `.length` and `substring` on UTF-16 units.
- ChunkDelay: the same code-point counting, against chat.js's `chunk.content.length` on UTF-16 units, so a chunk outside the Basic Multilingual Plane gets a shorter pause in the model than in the source.
- HandleError: a thrown `null` or `undefined` is not modelled; reading `error.message` on it makes `handleError` itself throw a `TypeError`.
- RequestOutcome: a `fetch` that rejects (a network failure) is not modelled, and the message of the `SyntaxError` thrown for an unparsable JSON body is the engine's, so it is modelled only as `BodyUnparsable`.
- `ApiClient.JsonUnescape` reads `\u` escapes only below the surrogate range, and does not join surrogate pairs. `JSON.stringify` writes no such escape for the strings modelled here, whose characters are Unicode scalar values.
- `Strings.AsciiLower`: does not model Unicode case folding. `toLowerCase` is modelled on ASCII letters only, which is all that tag and attribute names need.

## Findings

| source | as written | input that shows it | evidently intended | confidence | as-written member | corrected member |
|---|---|---|---|---|---|---|
| target/classes/static/js/file-upload.js:233-237 | a long name without a '.' becomes "..." followed by the whole name, because `substring(0, -1)` is empty and `split('.').pop()` is the whole name | a 31-character name without a '.' under the default limit of 30 comes out 34 characters long | a name without a '.' is cut to `maxLength - 3` characters and followed by "...", so it fits the limit | not executed | FileUpload.TruncateLengthens | FileUpload.TruncateFixedFits |
