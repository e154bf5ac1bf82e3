# csv-service core, modelled in Dafny

The system reads CSV files of users (`name,age,email`, with one header row) and saves them. Files arrive by two paths:

- **Upload.** `CsvService.uploadMultipartFile` validates the multipart file, reads its rows and saves them in one batch. Failures are turned into HTTP responses by `GlobalExceptionHandler`.
- **Scheduled re-ingestion.** A timer calls `CsvService.processFileFromLocation` every 10 seconds. A tick does nothing while the scheduler is disabled or while `fileLock` is held. Otherwise it takes the lock and reads the bundled file. A missing file adds one to `consecutiveFailures`, and at three the scheduler is switched off for good. A run that saves the file, or that fails with a caught `IOException`/`CsvException`, resets the counter. The lock is released on every path.

The model follows the Java classes one by one:

| module (file) | models |
|---|---|
| `JavaLang` (java_lang.dfy) | the JDK behaviour the core relies on: 32-bit `int` wrap-around of `AtomicInteger.incrementAndGet`, `Integer.parseInt`, `Integer.toString` (only as the partner of `parseInt`), `String.equalsIgnoreCase` |
| `Exceptions` (exceptions.dfy) | the exceptions that cross the core and their `getMessage()` |
| `RowMapping` (row_mapping.dfy) | header removal, the positional row → `User` mapping, the mapping loop (a method proved against the reference function `MapRows`), and `Ingest`: what one read-and-persist call does |
| `Persistence` (persistence.dfy) | `UserRepository.saveAll`, as a log of saved batches |
| `FileProcessor` (file_processor.dfy) | class `CsvFileProcessor` and its `processFile` |
| `FileValidator` (file_validator.dfy) | `CsvFileValidator.validateFile`. `CsvService.validateFile` (CsvService.java:155-163) is the same check and is modelled by the same function. |
| `SchedulerHealth` (scheduler_health.dfy) | the enabled flag and failure counter with their two updates, stated once for both classes that keep them |
| `SchedulerManager` (scheduler_manager.dfy) | class `CsvSchedulerManager`. In the source it is a separate copy of the same logic, and `CsvService` does not use it. |
| `SchedulerGate` (scheduler_gate.dfy) | one scheduled tick as a pure state machine (`Step`), histories of ticks (`Run`), and the trace lemmas |
| `Service` (csv_service.dfy) | class `CsvService`: the lock, both paths and the private helpers. Each method is proved against the functions above. |
| `ExceptionHandler` (exception_handler.dfy) | `GlobalExceptionHandler`: the status table, the error bodies, and the keep-first field-error map |
| `UploadResponses` (upload_responses.dfy) | the upload path end to end: which status each kind of failure gets |

Inputs the program takes from its surroundings are parameters:

- the rows `CSVReader.readAll` yields, or the `IOException`/`CsvException` it throws (`ReadAll`);
- whether `getResourceAsStream` found the file (`Option<ReadAll>`);
- the upload's size and content type;
- the request description;
- the time.

The scheduled path catches only `IOException | CsvException` (CsvService.java:119). A non-numeric age (`NumberFormatException`) or a short row (`ArrayIndexOutOfBoundsException`) thrown at line 83 is not a caught error: it leaves the tick without resetting the counter, and `finally` still releases the lock. Three missing-file ticks separated only by such runs therefore disable the scheduler (`SchedulerGate.EscapedErrorKeepsCount`).

The upload path does not wrap these two exceptions either (lines 55-59). They reach the catch-all handler and are answered with 500, not 422 (`UploadResponses.UploadFailureStatuses`).

Java evaluates `new User(i[0], Integer.parseInt(i[1]), i[2])` left to right. So:

- a row of fewer than two fields fails on its own length;
- a two-field row with a bad age reports the `NumberFormatException`;
- a two-field row with a good age fails on index 2.

`RowMapping.MapRow` keeps this order.

`equalsIgnoreCase` compares character by character: equal, or equal upper cases, or equal lower cases of the upper cases. Besides every upper/lower-case spelling of `text/csv`, it therefore also accepts U+017F (long s) in place of the `s`, because the upper case of U+017F is `S` (`FileValidator.AcceptedContentTypes`).

As in `CsvService`, the upload path does not take `fileLock`.

## Model

| member | source | states |
|---|---|---|
| `JavaLang.Increment` | src/main/java/com/example/demo/service/CsvService.java:128 | `incrementAndGet` on a 32-bit counter: the result is the one 32-bit value congruent to x + 1 modulo 2^32, which is x + 1 itself below the largest value |
| `JavaLang.ParseInt` | src/main/java/com/example/demo/service/CsvService.java:83 | `Integer.parseInt`: empty input fails; a success means an optional sign, then one or more digits, whose signed value is the result and fits in 32 bits |
| `JavaLang.ParseFormatRoundTrip` | src/main/java/com/example/demo/service/CsvService.java:83 | every 32-bit value, written in decimal, parses back to itself |
| `JavaLang.EqualsIgnoreCase` | src/main/java/com/example/demo/service/filevalidator/CsvFileValidator.java:17 | `equalsIgnoreCase`: a null argument never matches, a string always matches itself, and a match has the same length |
| `JavaLang.EqualsIgnoreCaseSymmetric` | src/main/java/com/example/demo/service/CsvService.java:160 | the comparison gives the same answer with its two strings swapped |
| `JavaLang.EqualsIgnoreCaseUpper` | src/main/java/com/example/demo/service/CsvService.java:160 | a string matches its own upper-cased spelling |
| `Exceptions.Exception.Message` | src/main/java/com/example/demo/exception/GlobalExceptionHandler.java:91 | `getMessage()`: a `NumberFormatException` quotes its input as `For input string: "…"`; an index exception starts with `Index ` and the index; every other exception gives the detail it was created with |
| `Exceptions.NumberFormatMessageNamesInput` | src/main/java/com/example/demo/exception/GlobalExceptionHandler.java:91 | two `NumberFormatException` messages are equal iff they quote the same input |
| `JavaLang.ParseIntRejectsNonDigit` | src/main/java/com/example/demo/service/CsvService.java:83 | a character other than a digit after the optional sign makes the parse fail |
| `RowMapping.MapRow` | src/main/java/com/example/demo/service/CsvService.java:83 | a row gives a user iff it has at least 3 fields and field 1 parses, and the user is (field 0, parsed field 1, field 2). A bad age with at least 2 fields reports `NumberFormatException`. Otherwise a short row reports an index exception at its own length. |
| `RowMapping.DropHeader` | src/main/java/com/example/demo/service/CsvService.java:75-77 | the first row is removed only when there is one; the rest keep their order |
| `RowMapping.MapRowsToUsers` | src/main/java/com/example/demo/service/fileprocessor/CsvFileProcessor.java:39-43 | the append loop yields exactly the reference mapping `MapRows`: every row in order, or the first row's exception |
| `RowMapping.MapRowsSucceeds` | src/main/java/com/example/demo/service/CsvService.java:81-85 | when every row maps, the list has one user per row, and user k comes from row k |
| `RowMapping.MapRowsFailsAtFirstBadRow` | src/main/java/com/example/demo/service/CsvService.java:81-85 | when some row fails, the result is the exception of the first failing row, and no list is produced |
| `RowMapping.Ingest` | src/main/java/com/example/demo/service/CsvService.java:69-91 | an I/O or CSV error from reading becomes the matching checked exception. A success only comes from a parsed file. A failure of a parsed file is never checked: it is a `NumberFormatException` or an index exception. |
| `RowMapping.RowErrorsAreUnchecked` | src/main/java/com/example/demo/service/CsvService.java:81-85 | row mapping fails only with `NumberFormatException` or an index exception, never with a checked exception |
| `RowMapping.IngestHeaderOnly` | src/main/java/com/example/demo/service/fileprocessor/CsvFileProcessor.java:33-46 | an empty file, or a header-only file, saves an empty batch without error |
| `RowMapping.IngestSavesEveryRowAfterHeader` | src/main/java/com/example/demo/service/CsvService.java:73-88 | a header plus N readable rows saves exactly N users in row order; user k-1 is built from fields 0, 1 and 2 of row k, and further fields are ignored |
| `RowMapping.IngestFailsOnFirstBadRow` | src/main/java/com/example/demo/service/CsvService.java:81-88 | a bad row after the header fails the whole call with that row's exception, so `saveAll` is not reached |
| `RowMapping.NonNumericAgeFailsIngest` | src/main/java/com/example/demo/service/CsvService.java:83 | a header and the row (a, x, e1) give `NumberFormatException` for "x" |
| `Persistence.UserRepository.SaveAll` | src/main/java/com/example/demo/service/CsvService.java:88 | the whole list is stored as one batch |
| `FileProcessor.CsvFileProcessor.constructor` | src/main/java/com/example/demo/service/fileprocessor/CsvFileProcessor.java:22-24 | the processor keeps the repository it is given |
| `FileProcessor.CsvFileProcessor.ProcessFile` | src/main/java/com/example/demo/service/fileprocessor/CsvFileProcessor.java:27-49 | it throws exactly when `Ingest` fails, and then with that exception and nothing saved; on success exactly one batch (the mapped users) is saved |
| `FileValidator.ValidateFile` | src/main/java/com/example/demo/service/filevalidator/CsvFileValidator.java:12-20 | an empty file gets "File is empty". A non-empty file passes iff its content type equals text/csv ignoring case, and otherwise gets the invalid-type message. |
| `FileValidator.CharMatches` | src/main/java/com/example/demo/service/filevalidator/CsvFileValidator.java:17 | exactly which characters the case-insensitive comparison matches with each character of text/csv |
| `FileValidator.AcceptedContentTypes` | src/main/java/com/example/demo/service/filevalidator/CsvFileValidator.java:9-19 | a non-empty upload passes iff its content type is present and spells text/csv with each letter in either case (U+017F also counts as s) |
| `FileValidator.EmptyCheckComesFirst` | src/main/java/com/example/demo/service/filevalidator/CsvFileValidator.java:13-19 | an empty file is reported as empty whatever its content type, application/json included |
| `FileValidator.ContentTypeExamples` | src/main/java/com/example/demo/service/filevalidator/CsvFileValidator.java:17-18 | "text/csv; charset=utf-8" and application/json are rejected, TEXT/CSV is accepted, and a null type gets the invalid-type message |
| `SchedulerHealth.OnMissingFile` | src/main/java/com/example/demo/service/schedulermanager/CsvSchedulerManager.java:18-26 | the counter is incremented; afterwards the scheduler is enabled iff it was enabled and the new count is below 3 |
| `SchedulerHealth.OnReset` | src/main/java/com/example/demo/service/schedulermanager/CsvSchedulerManager.java:29-37 | the counter becomes 0 and the flag is unchanged |
| `SchedulerHealth.DisabledIsAbsorbing` | src/main/java/com/example/demo/service/schedulermanager/CsvSchedulerManager.java:15-37 | after any sequence of operations, a disabled scheduler is still disabled |
| `SchedulerHealth.HealthyAlways` | src/main/java/com/example/demo/service/schedulermanager/CsvSchedulerManager.java:19-37 | every sequence of operations keeps "enabled implies 0 <= failures < 3" |
| `SchedulerHealth.ThreeMissesDisable` | src/main/java/com/example/demo/service/schedulermanager/CsvSchedulerManager.java:19-25 | from the initial state, three misses give a disabled scheduler with count 3 |
| `SchedulerManager.CsvSchedulerManager.constructor` | src/main/java/com/example/demo/service/schedulermanager/CsvSchedulerManager.java:14-15 | starts enabled with zero failures |
| `SchedulerManager.CsvSchedulerManager.HandleMissingFile` | src/main/java/com/example/demo/service/schedulermanager/CsvSchedulerManager.java:18-26 | the new state is `OnMissingFile` of the old one, and the invariant is kept |
| `SchedulerManager.CsvSchedulerManager.ResetFailureCounter` | src/main/java/com/example/demo/service/schedulermanager/CsvSchedulerManager.java:29-32 | the counter becomes 0 and the flag is unchanged |
| `SchedulerManager.CsvSchedulerManager.HandleProcessingError` | src/main/java/com/example/demo/service/schedulermanager/CsvSchedulerManager.java:35-38 | the counter becomes 0 and the flag is unchanged |
| `SchedulerManager.CsvSchedulerManager.IsSchedulerEnabled` | src/main/java/com/example/demo/service/schedulermanager/CsvSchedulerManager.java:41-43 | returns the flag and changes nothing |
| `SchedulerGate.AttemptOn` | src/main/java/com/example/demo/service/CsvService.java:110-120 | a missing resource is a miss; a run that read and saved is a success; an `IOException`/`CsvException` is caught; anything else escapes, carrying the exception `Ingest` gives |
| `SchedulerGate.Decide` | src/main/java/com/example/demo/service/CsvService.java:99-107 | a disabled scheduler skips first; then a held lock skips; only otherwise does the run take place |
| `SchedulerGate.Step` | src/main/java/com/example/demo/service/CsvService.java:98-124 | a tick leaves the lock as it found it. A skipped tick changes nothing. A tick never re-enables the scheduler. |
| `SchedulerGate.StepKeepsGateHealthy` | src/main/java/com/example/demo/service/CsvService.java:127-151 | each tick keeps the invariant: enabled with fewer than 3 failures, or disabled with exactly 3 |
| `SchedulerGate.DisabledIsTerminal` | src/main/java/com/example/demo/service/CsvService.java:99-102 | once disabled, any further ticks leave the whole state unchanged |
| `SchedulerGate.RunFromStart` | src/main/java/com/example/demo/service/CsvService.java:98-151 | from start-up, the lock is free between ticks. The scheduler is enabled iff no prefix of the history reached 3 misses since the last success or caught error. While enabled, the counter equals that count. |
| `SchedulerGate.ThreeMissingTicksDisable` | src/main/java/com/example/demo/service/CsvService.java:127-135 | three missing-file ticks disable the scheduler with count 3, and a fourth tick changes nothing |
| `SchedulerGate.SuccessRestartsCount` | src/main/java/com/example/demo/service/CsvService.java:116-117 | the sequence missing, success, missing leaves the count at 1 |
| `SchedulerGate.CaughtErrorRestartsCount` | src/main/java/com/example/demo/service/CsvService.java:119-120 | the sequence missing, caught CSV error, missing leaves the count at 1 |
| `SchedulerGate.EscapedErrorKeepsCount` | src/main/java/com/example/demo/service/CsvService.java:119 | the sequence missing, non-numeric age, missing leaves the count at 2; one more miss disables the scheduler |
| `Service.FileLock.TryLock` | src/main/java/com/example/demo/service/CsvService.java:104 | succeeds iff the lock was free; afterwards it is held |
| `Service.FileLock.Unlock` | src/main/java/com/example/demo/service/CsvService.java:122 | the lock is free afterwards |
| `Service.WrapUploadException` | src/main/java/com/example/demo/service/CsvService.java:55-59 | `IOException` becomes `FileProcessingException` and `CsvException` becomes `CsvProcessingException`, each with its prefix and the original message; every other exception passes unchanged |
| `Service.UploadResult` | src/main/java/com/example/demo/service/CsvService.java:50-60 | an invalid file fails with the validator's exception. A valid file succeeds iff `Ingest` does, with the same batch. An I/O error on a valid file becomes `FileProcessingException("Error processing uploaded file: " + message)` and a CSV error becomes `CsvProcessingException("Error processing CSV file: " + message)`. No checked exception leaves the upload path. A bad row's exception passes through unchanged. |
| `Service.CsvService.constructor` | src/main/java/com/example/demo/service/CsvService.java:36-42 | starts enabled with zero failures and a free lock |
| `Service.CsvService.UploadMultipartFile` | src/main/java/com/example/demo/service/CsvService.java:50-60 | it throws exactly the exception `UploadResult` gives, with nothing saved then; otherwise it saves the mapped batch once |
| `Service.CsvService.ReadAndPersistData` | src/main/java/com/example/demo/service/CsvService.java:69-91 | it throws exactly when `Ingest` fails, and then nothing is saved; otherwise it saves exactly one batch, the mapped users |
| `Service.CsvService.ProcessFileFromLocation` | src/main/java/com/example/demo/service/CsvService.java:98-124 | the new health and lock state is `Step` of the old one, and the invariant is kept. The outcome is `Decide`. A batch is saved only on a successful run. |
| `Service.CsvService.HandleMissingFile` | src/main/java/com/example/demo/service/CsvService.java:127-136 | the new state is `OnMissingFile` of the old one |
| `Service.CsvService.ResetFailureCounter` | src/main/java/com/example/demo/service/CsvService.java:139-142 | the counter becomes 0 and the flag is unchanged |
| `Service.CsvService.HandleProcessingError` | src/main/java/com/example/demo/service/CsvService.java:149-152 | the counter becomes 0 and the flag is unchanged |
| `ExceptionHandler.HandlerStatus` | src/main/java/com/example/demo/exception/GlobalExceptionHandler.java:23-53 | among the exceptions this model names, 422 iff a `CsvProcessingException`, 400 iff an `InvalidFileException`, and 500 for every other one |
| `ExceptionHandler.CreateErrorResponse` | src/main/java/com/example/demo/exception/GlobalExceptionHandler.java:83-96 | the body's `httpStatusCode` equals the response status; its message is the exception's message; its path and time are the ones given |
| `ExceptionHandler.HandleException` | src/main/java/com/example/demo/exception/GlobalExceptionHandler.java:23-53 | the response status is the handler's status, repeated in the body along with the exception's message |
| `ExceptionHandler.StatusTable` | src/main/java/com/example/demo/exception/GlobalExceptionHandler.java:23-53 | `CsvProcessingException` gives 422, `FileProcessingException` 500, `InvalidFileException` 400, and any other exception of the model (the row errors included) 500 |
| `ExceptionHandler.FieldErrorMap` | src/main/java/com/example/demo/exception/GlobalExceptionHandler.java:62-70 | a field is a key iff the reference `FirstMessage` finds a non-null message for it, and its value is that first message |
| `ExceptionHandler.CollectIntoKeepsFirst` | src/main/java/com/example/demo/exception/GlobalExceptionHandler.java:62-70 | the collected map contains the keys already present plus every field that has a non-null message; an existing key keeps its value, and a new key gets its first non-null message |
| `ExceptionHandler.FieldErrorMapKeys` | src/main/java/com/example/demo/exception/GlobalExceptionHandler.java:65 | a field is in the map iff some error for it has a non-null message |
| `ExceptionHandler.FieldErrorMapFirstWins` | src/main/java/com/example/demo/exception/GlobalExceptionHandler.java:66-70 | a field reported more than once keeps its first non-null message |
| `ExceptionHandler.HandleMethodArgumentNotValid` | src/main/java/com/example/demo/exception/GlobalExceptionHandler.java:56-81 | the response uses the incoming status in both places, carries "Validation failed", and carries the keep-first field map |
| `UploadResponses.ValidationPrecedesReading` | src/main/java/com/example/demo/service/CsvService.java:50-54 | an invalid upload fails with the validator's exception, whatever its content, so nothing is read or saved |
| `UploadResponses.UploadFailureStatuses` | src/main/java/com/example/demo/service/CsvService.java:50-60 | a failed upload gets 400 if invalid, 500 for an I/O error, 422 for malformed CSV, and 500 for a bad row |
| `UploadResponses.NonNumericAgeUploadIs500` | src/main/java/com/example/demo/service/CsvService.java:55-59 | a valid upload with the row (a, x, e1) fails with `NumberFormatException`; the response is 500 with the message `For input string: "x"` |

## Left out

- Concurrency: `@Async`/`@Scheduled` timing and the thread pool are not modelled. Neither are the memory semantics of `volatile` and `AtomicInteger`, nor `ReentrantLock` reentrancy. Ticks are sequential calls, and a run still in progress is represented by the lock flag already being set. No thread-safety property is claimed.
- CSV tokenising by OpenCSV (`CSVReader.readAll`): it is a foreign library. Its output, or its exception, is an input (`ReadAll`).
- Stream handling: `getResourceAsStream`, `getInputStream` and the try-with-resources `close()` are not modelled, and neither are their failures. On the upload path, an `IOException` from `close()` after `saveAll` would be wrapped and would roll back the `@Transactional` batch. The model does not capture that case.
- Persistence: the `@Transactional` semantics, entity ids and the database are not modelled. `UserRepository` is a log of saved batches. The `User` entity and the `UserRepository` interface are not part of this model.
- Logging and `LocalDateTime.now()`: log lines are dropped, and the timestamp is a parameter.
- `JavaLang.ParseInt`: the JDK also accepts non-ASCII Unicode decimal digits (via `Character.digit`); this parser takes only ASCII digits.
- `JavaLang.EqualsIgnoreCase`: its case mapping covers only the ASCII letters and U+017F. That decides every comparison against text/csv, but not comparisons between arbitrary strings.
- Exception messages: a `null` message (Java prints it as "null" when concatenated) is not distinguished from a string. The messages of `NumberFormatException` and `ArrayIndexOutOfBoundsException` follow the JDK's wording.
- `InvalidFileException.java` is not part of this model; it is taken to be an unchecked exception like the other two.
- The standard Spring MVC exceptions handled by the inherited `ResponseEntityExceptionHandler` (GlobalExceptionHandler.java:22) are not modelled. Examples are a missing request part (400), an unsupported media type (415) and `MethodArgumentNotValidException`, whose overridden handler is modelled separately by `ExceptionHandler.HandleMethodArgumentNotValid`. `ExceptionHandler.HandlerStatus` covers only the exceptions the core itself throws.
- The web layer: Spring's choice among `@ExceptionHandler` methods is modelled by exception kind, and `HttpHeaders` are ignored. `src/main/java/com/example/demo/controller/CsvController.java` is not part of this model: it only passes the call through and re-wraps checked exceptions the service never throws. The 200 success response is not modelled either.
