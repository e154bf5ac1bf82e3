/**
 * The upload path end to end: the exception `CsvService.uploadMultipartFile`
 * ends with, and the status `GlobalExceptionHandler` answers it with.
 */
module UploadResponses {
  import opened Wrappers
  import opened Exceptions
  import opened RowMapping
  import opened FileValidator
  import opened ExceptionHandler
  import opened Service

  /** The status of the response to a failed upload. */
  function UploadFailureStatus(file: MultipartFile): int
    requires UploadResult(file).Failure?
  {
    HandleException(UploadResult(file).error, "", 0).status
  }

  /** An invalid upload is rejected before its content is looked at: the content makes no difference. */
  lemma ValidationPrecedesReading(file: MultipartFile, other: ReadAll)
    requires ValidateFile(file).Fail?
    ensures UploadResult(file) == UploadResult(file.(content := other))
    ensures UploadResult(file) == Failure(ValidateFile(file).error)
  {
  }

  /**
   * Failed uploads by cause: invalid file 400, unreadable stream 500,
   * malformed CSV 422, and a bad row 500, because the `NumberFormatException`
   * or index exception is not wrapped and reaches the catch-all handler.
   */
  lemma UploadFailureStatuses(file: MultipartFile)
    requires UploadResult(file).Failure?
    ensures ValidateFile(file).Fail? ==> UploadFailureStatus(file) == BadRequest
    ensures ValidateFile(file).Pass? && file.content.IoFailure? ==> UploadFailureStatus(file) == InternalServerError
    ensures ValidateFile(file).Pass? && file.content.CsvFailure? ==> UploadFailureStatus(file) == UnprocessableEntity
    ensures ValidateFile(file).Pass? && file.content.Parsed? ==> UploadFailureStatus(file) == InternalServerError
  {
  }

  /** A header and a row with age "x": the upload is answered with 500, not 422. */
  lemma NonNumericAgeUploadIs500(size: nat)
    requires size > 0
    ensures var file := MultipartFile(size, Some("text/csv"), Parsed([["name", "age", "email"], ["a", "x", "e1"]]));
      UploadResult(file) == Failure(NumberFormatException("x")) &&
      HandleException(UploadResult(file).error, "", 0).status == InternalServerError &&
      HandleException(UploadResult(file).error, "", 0).body.errorMessage == "For input string: \"x\""
  {
    NonNumericAgeFailsIngest();
    var file := MultipartFile(size, Some("text/csv"), Parsed([["name", "age", "email"], ["a", "x", "e1"]]));
    AcceptedContentTypes(file);
  }
}
