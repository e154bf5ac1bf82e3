/**
 * `GlobalExceptionHandler`: which HTTP status each exception is answered
 * with, the error body, and the field-error map of a failed request
 * validation.
 */
module ExceptionHandler {
  import opened Wrappers
  import opened Exceptions

  const BadRequest: int := 400
  const UnprocessableEntity: int := 422
  const InternalServerError: int := 500

  /** `LocalDateTime.now()`, supplied by the caller. */
  type Timestamp = int

  datatype ErrorResponseDto = ErrorResponseDto(
    apiPath: string, httpStatusCode: int, errorMessage: string, errorTimestamp: Timestamp)

  datatype ValidationErrorResponseDto = ValidationErrorResponseDto(
    apiPath: string, httpStatusCode: int, errorMessage: string, errorTimestamp: Timestamp,
    errors: map<string, string>)

  /** `ResponseEntity<T>`: a body and the response's status code. */
  datatype ResponseEntity<T> = ResponseEntity(body: T, status: int)

  /**
   * The status of the `@ExceptionHandler` Spring selects: the handler for
   * the most specific declared exception type, and the `Exception` handler
   * for every other exception of this model.
   */
  function HandlerStatus(e: Exception): (status: int)
    ensures status == UnprocessableEntity <==> e.CsvProcessingException?
    ensures status == BadRequest <==> e.InvalidFileException?
    ensures status == InternalServerError <==> !e.CsvProcessingException? && !e.InvalidFileException?
  {
    match e
    case CsvProcessingException(_) => UnprocessableEntity
    case FileProcessingException(_) => InternalServerError
    case InvalidFileException(_) => BadRequest
    case _ => InternalServerError
  }

  /** `createErrorResponse`: the body repeats the response status and carries the exception's message. */
  function CreateErrorResponse(e: Exception, apiPath: string, now: Timestamp, status: int)
    : (r: ResponseEntity<ErrorResponseDto>)
    ensures r.status == status && r.body.httpStatusCode == r.status
    ensures r.body.errorMessage == e.Message()
    ensures r.body.apiPath == apiPath && r.body.errorTimestamp == now
  {
    ResponseEntity(ErrorResponseDto(apiPath, status, e.Message(), now), status)
  }

  /** The four `handle...Exception` methods, dispatched by exception type. */
  function HandleException(e: Exception, apiPath: string, now: Timestamp): (r: ResponseEntity<ErrorResponseDto>)
    ensures r.status == HandlerStatus(e) && r.body.httpStatusCode == r.status
    ensures r.body.errorMessage == e.Message()
  {
    CreateErrorResponse(e, apiPath, now, HandlerStatus(e))
  }

  /** The status table, exception by exception. */
  lemma StatusTable(detail: string, others: Exception)
    requires !others.CsvProcessingException? && !others.FileProcessingException? && !others.InvalidFileException?
    ensures HandleException(CsvProcessingException(detail), "", 0).status == 422
    ensures HandleException(FileProcessingException(detail), "", 0).status == 500
    ensures HandleException(InvalidFileException(detail), "", 0).status == 400
    ensures HandleException(others, "", 0).status == 500
  {
  }

  // ---------------------------------------------------------------------
  // Request-body validation failures
  // ---------------------------------------------------------------------

  /** A `FieldError`: the field's name and its default message, which may be null. */
  datatype FieldError = FieldError(field: string, defaultMessage: Option<string>)

  /**
   * The stream pipeline: drop errors whose message is null, then
   * `Collectors.toMap` in encounter order, where a key already present keeps
   * its value (`(existing, replacement) -> existing`).
   */
  function CollectInto(acc: map<string, string>, errors: seq<FieldError>): map<string, string>
    decreases |errors|
  {
    if errors == [] then acc
    else
      var e := errors[0];
      var next :=
        if e.defaultMessage.None? then acc
        else if e.field in acc then acc
        else acc[e.field := e.defaultMessage.value];
      CollectInto(next, errors[1..])
  }

  /** The map the stream pipeline builds: each field with its first non-null message. */
  function FieldErrorMap(errors: seq<FieldError>): (r: map<string, string>)
    ensures forall f :: f in r <==> FirstMessage(errors, f).Some?
    ensures forall f :: f in r ==> r[f] == FirstMessage(errors, f).value
  {
    CollectIntoKeepsFirstAll(errors);
    CollectInto(map[], errors)
  }

  lemma CollectIntoKeepsFirstAll(errors: seq<FieldError>)
    ensures forall f :: f in CollectInto(map[], errors) <==> FirstMessage(errors, f).Some?
    ensures forall f :: f in CollectInto(map[], errors) ==> CollectInto(map[], errors)[f] == FirstMessage(errors, f).value
  {
    forall f {
      CollectIntoKeepsFirst(map[], errors, f);
    }
  }

  /** Reference definition: the first non-null message reported for `field`, if any. */
  function FirstMessage(errors: seq<FieldError>, field: string): Option<string>
    decreases |errors|
  {
    if errors == [] then None
    else if errors[0].field == field && errors[0].defaultMessage.Some? then errors[0].defaultMessage
    else FirstMessage(errors[1..], field)
  }

  lemma {:induction false} CollectIntoKeepsFirst(acc: map<string, string>, errors: seq<FieldError>, f: string)
    ensures f in CollectInto(acc, errors) <==> f in acc || FirstMessage(errors, f).Some?
    ensures f in CollectInto(acc, errors) ==>
      CollectInto(acc, errors)[f] == if f in acc then acc[f] else FirstMessage(errors, f).value
    decreases |errors|
  {
    if errors != [] {
      var e := errors[0];
      var next :=
        if e.defaultMessage.None? then acc
        else if e.field in acc then acc
        else acc[e.field := e.defaultMessage.value];
      CollectIntoKeepsFirst(next, errors[1..], f);
    }
  }

  lemma {:induction false} FirstMessageAt(errors: seq<FieldError>, i: nat)
    requires i < |errors| && errors[i].defaultMessage.Some?
    requires forall j :: 0 <= j < i && errors[j].field == errors[i].field ==> errors[j].defaultMessage.None?
    ensures FirstMessage(errors, errors[i].field) == errors[i].defaultMessage
    decreases i
  {
    if i > 0 {
      assert forall j :: 0 <= j < i - 1 ==> errors[1..][j] == errors[j + 1];
      FirstMessageAt(errors[1..], i - 1);
    }
  }

  /** `FirstMessage` finds a message exactly when some error for the field carries one. */
  lemma {:induction false} FirstMessageExists(errors: seq<FieldError>, f: string)
    ensures FirstMessage(errors, f).Some? <==>
      exists i :: 0 <= i < |errors| && errors[i].field == f && errors[i].defaultMessage.Some?
    decreases |errors|
  {
    if errors != [] {
      FirstMessageExists(errors[1..], f);
      assert forall i :: 1 <= i < |errors| ==> errors[i] == errors[1..][i - 1];
      if exists i :: 0 <= i < |errors[1..]| && errors[1..][i].field == f && errors[1..][i].defaultMessage.Some? {
        var i :| 0 <= i < |errors[1..]| && errors[1..][i].field == f && errors[1..][i].defaultMessage.Some?;
        assert errors[i + 1] == errors[1..][i];
      }
    }
  }

  /** A field is in the map exactly when some error for it has a non-null message. */
  lemma FieldErrorMapKeys(errors: seq<FieldError>, f: string)
    ensures f in FieldErrorMap(errors) <==>
      exists i :: 0 <= i < |errors| && errors[i].field == f && errors[i].defaultMessage.Some?
  {
    FirstMessageExists(errors, f);
  }

  /** The message kept for a field is the first non-null one reported for it. */
  lemma FieldErrorMapFirstWins(errors: seq<FieldError>, i: nat)
    requires i < |errors| && errors[i].defaultMessage.Some?
    requires forall j :: 0 <= j < i && errors[j].field == errors[i].field ==> errors[j].defaultMessage.None?
    ensures errors[i].field in FieldErrorMap(errors)
    ensures FieldErrorMap(errors)[errors[i].field] == errors[i].defaultMessage.value
  {
    FirstMessageAt(errors, i);
  }

  /** `handleMethodArgumentNotValid`: the incoming status, "Validation failed", and the field map. */
  function HandleMethodArgumentNotValid(errors: seq<FieldError>, status: int, apiPath: string, now: Timestamp)
    : (r: ResponseEntity<ValidationErrorResponseDto>)
    ensures r.status == status && r.body.httpStatusCode == status
    ensures r.body.errorMessage == "Validation failed"
    ensures r.body.errors == FieldErrorMap(errors)
  {
    ResponseEntity(ValidationErrorResponseDto(apiPath, status, "Validation failed", now, FieldErrorMap(errors)), status)
  }
}
