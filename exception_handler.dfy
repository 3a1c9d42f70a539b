/**
 * The controller advice that turns an exception escaping a request into an
 * HTTP status and an error body. Spring picks, among the handlers whose
 * exception class the thrown exception is an instance of, the one whose
 * class is closest to the exception's own class; here that is the first
 * class of the exception's lineage that has a handler.
 */
module ExceptionHandler {
  import opened Common
  import opened Strings
  import opened Exceptions

  /** The statuses the handlers answer with. */
  const BadRequest := 400
  const PayloadTooLarge := 413
  const InternalServerError := 500
  const ServiceUnavailable := 503

  /** The field errors of a validation failure, by field name; a message may be null. */
  type FieldErrors = map<string, Option<string>>

  /** `ErrorResponse`, and `ValidationErrorResponse` with its field errors. */
  datatype ErrorBody =
    | ErrorResponse(code: string, message: Option<string>, timestamp: Timestamp)
    | ValidationErrorResponse(code: string, message: Option<string>, timestamp: Timestamp, fieldErrors: FieldErrors)

  datatype Reply = Reply(status: nat, body: ErrorBody)

  /** The classes that have a handler, each handled by one `handle*` method. */
  predicate Handled(c: ExClass) {
    c.ChatServiceException? || c.FileStorageException? || c.OllamaException? || c.ModelServiceException?
    || c.MethodArgumentNotValidException? || c.MaxUploadSizeExceededException? || c.IllegalArgumentException?
    || c.RuntimeException? || c.Exception?
  }

  /** The position in the lineage of the closest handled class, or `|lineage|` when there is none. */
  function ClosestHandled(lineage: seq<ExClass>): (k: nat)
    ensures k <= |lineage|
    ensures k < |lineage| ==> Handled(lineage[k])
    ensures forall i :: 0 <= i < k ==> !Handled(lineage[i])
    decreases |lineage|
  {
    if lineage == [] then 0
    else if Handled(lineage[0]) then 0
    else 1 + ClosestHandled(lineage[1..])
  }

  /**
   * `handleValidationException`'s `forEach`: each field error is put into
   * a hash map in the order the binder reports them.
   */
  function FieldErrorMap(errors: seq<FieldError>): FieldErrors
    decreases |errors|
  {
    if errors == [] then map[]
    else
      var last := errors[|errors| - 1];
      FieldErrorMap(errors[..|errors| - 1])[last.field := last.defaultMessage]
  }

  /** The reply of the handler for class `c`. */
  function HandlerFor(c: ExClass, ex: Thrown, now: Timestamp): Reply
    requires Handled(c)
  {
    match c
    case ChatServiceException => Reply(BadRequest, ErrorResponse("CHAT_SERVICE_ERROR", ex.message, now))
    case FileStorageException => Reply(BadRequest, ErrorResponse("FILE_STORAGE_ERROR", ex.message, now))
    case OllamaException => Reply(ServiceUnavailable, ErrorResponse("OLLAMA_SERVICE_ERROR", ex.message, now))
    case ModelServiceException => Reply(InternalServerError, ErrorResponse("MODEL_SERVICE_ERROR", ex.message, now))
    case MethodArgumentNotValidException =>
      Reply(BadRequest, ValidationErrorResponse("VALIDATION_ERROR", Some("Request validation failed"), now, FieldErrorMap(ex.fieldErrors)))
    case MaxUploadSizeExceededException =>
      Reply(PayloadTooLarge, ErrorResponse("FILE_SIZE_EXCEEDED", Some("File size exceeds the maximum allowed limit"), now))
    case IllegalArgumentException => Reply(BadRequest, ErrorResponse("INVALID_ARGUMENT", ex.message, now))
    case RuntimeException =>
      Reply(InternalServerError, ErrorResponse("INTERNAL_ERROR", Some("An unexpected error occurred: " + JavaText(ex.message)), now))
    case Exception => Reply(InternalServerError, ErrorResponse("UNKNOWN_ERROR", Some("An unknown error occurred"), now))
  }

  /** The reply to an exception, or `None` when no handler applies to it. */
  function Handle(ex: Thrown, now: Timestamp): (r: Option<Reply>)
    ensures r.Some? <==> exists i :: 0 <= i < |ex.lineage| && Handled(ex.lineage[i])
  {
    var k := ClosestHandled(ex.lineage);
    if k < |ex.lineage| then Some(HandlerFor(ex.lineage[k], ex, now)) else None
  }

  /**
   * The handler used is that of a handled class of the exception, and no
   * class closer to the exception's own class has a handler.
   */
  lemma HandleClosest(ex: Thrown, now: Timestamp, k: nat)
    requires k < |ex.lineage| && Handled(ex.lineage[k])
    requires forall i :: 0 <= i < k ==> !Handled(ex.lineage[i])
    ensures Handle(ex, now) == Some(HandlerFor(ex.lineage[k], ex, now))
  {
  }

  /** The project's own exceptions keep their message and get their own code, never the generic runtime one. */
  lemma ProjectExceptionReplies(c: ExClass, message: string, cause: Option<Thrown>, now: Timestamp)
    requires c.ChatServiceException? || c.FileStorageException? || c.OllamaException? || c.ModelServiceException?
    ensures var r := Handle(Project(c, message, cause), now);
      && r.Some? && r.value.body.ErrorResponse? && r.value.body.message == Some(message)
      && (c.ChatServiceException? ==> r.value.status == BadRequest && r.value.body.code == "CHAT_SERVICE_ERROR")
      && (c.FileStorageException? ==> r.value.status == BadRequest && r.value.body.code == "FILE_STORAGE_ERROR")
      && (c.OllamaException? ==> r.value.status == ServiceUnavailable && r.value.body.code == "OLLAMA_SERVICE_ERROR")
      && (c.ModelServiceException? ==> r.value.status == InternalServerError && r.value.body.code == "MODEL_SERVICE_ERROR")
  {
    HandleClosest(Project(c, message, cause), now, 0);
  }

  /** An `IllegalArgumentException` keeps its message; any other runtime exception is reported with its message behind a fixed prefix. */
  lemma RuntimeReplies(message: Option<string>, name: string, now: Timestamp)
    ensures Handle(Thrown([IllegalArgumentException, RuntimeException, Exception], message, None, []), now)
      == Some(Reply(BadRequest, ErrorResponse("INVALID_ARGUMENT", message, now)))
    ensures Handle(Thrown([OtherClass(name), RuntimeException, Exception], message, None, []), now)
      == Some(Reply(InternalServerError, ErrorResponse("INTERNAL_ERROR", Some("An unexpected error occurred: " + JavaText(message)), now)))
  {
    HandleClosest(Thrown([IllegalArgumentException, RuntimeException, Exception], message, None, []), now, 0);
    HandleClosest(Thrown([OtherClass(name), RuntimeException, Exception], message, None, []), now, 1);
  }

  /** A checked exception of no handled class gets a fixed message that hides its own. */
  lemma CheckedExceptionHidden(message: Option<string>, name: string, now: Timestamp)
    ensures Handle(Thrown([OtherClass(name), Exception], message, None, []), now)
      == Some(Reply(InternalServerError, ErrorResponse("UNKNOWN_ERROR", Some("An unknown error occurred"), now)))
  {
    HandleClosest(Thrown([OtherClass(name), Exception], message, None, []), now, 1);
  }

  /** The upload limit is reported as 413 with a fixed message, whatever the exception says. */
  lemma UploadLimitReplies(message: Option<string>, now: Timestamp)
    ensures Handle(Thrown([MaxUploadSizeExceededException, OtherClass("MultipartException"), RuntimeException, Exception], message, None, []), now)
      == Some(Reply(PayloadTooLarge, ErrorResponse("FILE_SIZE_EXCEEDED", Some("File size exceeds the maximum allowed limit"), now)))
  {
    HandleClosest(Thrown([MaxUploadSizeExceededException, OtherClass("MultipartException"), RuntimeException, Exception], message, None, []), now, 0);
  }

  /** A validation failure reports every field that has an error, with a fixed message. */
  lemma ValidationReplies(ex: Thrown, now: Timestamp)
    requires |ex.lineage| > 0 && ex.lineage[0] == MethodArgumentNotValidException
    ensures Handle(ex, now) == Some(Reply(BadRequest,
      ValidationErrorResponse("VALIDATION_ERROR", Some("Request validation failed"), now, FieldErrorMap(ex.fieldErrors))))
    ensures FieldErrorMap(ex.fieldErrors).Keys == set i | 0 <= i < |ex.fieldErrors| :: ex.fieldErrors[i].field
  {
    HandleClosest(ex, now, 0);
    FieldErrorKeys(ex.fieldErrors);
  }

  /** The map has a key for every field that has an error, and no other. */
  lemma {:induction false} FieldErrorKeys(errors: seq<FieldError>)
    ensures FieldErrorMap(errors).Keys == set i | 0 <= i < |errors| :: errors[i].field
    decreases |errors|
  {
    if errors != [] {
      var init := errors[..|errors| - 1];
      FieldErrorKeys(init);
      assert forall i :: 0 <= i < |init| ==> init[i] == errors[i];
      assert (set i | 0 <= i < |errors| :: errors[i].field)
        == (set i | 0 <= i < |init| :: init[i].field) + {errors[|errors| - 1].field};
    }
  }

  /** When a field has several errors, the last one reported wins. */
  lemma {:induction false} FieldErrorLastWins(errors: seq<FieldError>, i: nat)
    requires i < |errors|
    requires forall j :: i < j < |errors| ==> errors[j].field != errors[i].field
    ensures errors[i].field in FieldErrorMap(errors)
    ensures FieldErrorMap(errors)[errors[i].field] == errors[i].defaultMessage
    decreases |errors|
  {
    if i < |errors| - 1 {
      var init := errors[..|errors| - 1];
      FieldErrorLastWins(init, i);
    }
  }

  /**
   * The `forEach` that fills the map, as a loop over the reported
   * errors; the map it builds is `FieldErrorMap`.
   */
  method CollectFieldErrors(fieldErrors: seq<FieldError>) returns (errors: FieldErrors)
    ensures errors == FieldErrorMap(fieldErrors)
  {
    errors := map[];
    var i := 0;
    while i < |fieldErrors|
      invariant 0 <= i <= |fieldErrors|
      invariant errors == FieldErrorMap(fieldErrors[..i])
    {
      assert fieldErrors[..i + 1][..i] == fieldErrors[..i];
      errors := errors[fieldErrors[i].field := fieldErrors[i].defaultMessage];
      i := i + 1;
    }
    assert fieldErrors[..i] == fieldErrors;
  }

  /** `handleValidationException`: the map built by the loop in the validation reply. */
  method HandleValidationException(ex: Thrown, now: Timestamp) returns (r: Reply)
    ensures r == HandlerFor(MethodArgumentNotValidException, ex, now)
    ensures r.status == BadRequest && r.body.ValidationErrorResponse? && r.body.code == "VALIDATION_ERROR"
  {
    var errors := CollectFieldErrors(ex.fieldErrors);
    r := Reply(BadRequest, ValidationErrorResponse("VALIDATION_ERROR", Some("Request validation failed"), now, errors));
  }
}
