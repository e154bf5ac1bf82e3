/**
 * `CsvService`: the upload path and the scheduled re-ingestion tick, over
 * the service's own lock, failure counter and enabled flag.
 */
module Service {
  import opened Wrappers
  import opened JavaLang
  import opened Exceptions
  import opened RowMapping
  import opened Persistence
  import opened FileValidator
  import opened SchedulerHealth
  import opened SchedulerGate

  /**
   * `fileLock`, used only through `tryLock` and `unlock`: a flag that says
   * whether some run holds it. A run of another tick that is still in
   * progress is modelled by the flag already being set.
   */
  class FileLock {
    var held: bool

    constructor ()
      ensures !held
    {
      held := false;
    }

    /** Non-blocking acquire: succeeds exactly when the lock is free. */
    method TryLock() returns (acquired: bool)
      modifies this
      ensures acquired == !old(held)
      ensures held
    {
      acquired := !held;
      held := true;
    }

    method Unlock()
      requires held
      modifies this
      ensures !held
    {
      held := false;
    }
  }

  /** The exception the upload path throws for one that `readAndPersistData` threw. */
  function WrapUploadException(e: Exception): (r: Exception)
    ensures e.IOException? ==> r == FileProcessingException("Error processing uploaded file: " + e.Message())
    ensures e.CsvException? ==> r == CsvProcessingException("Error processing CSV file: " + e.Message())
    ensures !e.IsChecked() ==> r == e
  {
    match e
    case IOException(_) => FileProcessingException("Error processing uploaded file: " + e.Message())
    case CsvException(_) => CsvProcessingException("Error processing CSV file: " + e.Message())
    case _ => e
  }

  /**
   * What an upload does: the batch saved, or the exception it ends with.
   * Nothing is read from an invalid file, and no checked exception leaves
   * the upload path.
   */
  function UploadResult(file: MultipartFile): (r: Result<seq<User>, Exception>)
    ensures ValidateFile(file).Fail? ==> r == Failure(ValidateFile(file).error)
    ensures ValidateFile(file).Pass? ==> (r.Success? <==> Ingest(file.content).Success?)
    ensures r.Success? ==> r.value == Ingest(file.content).value
    ensures r.Failure? ==> !r.error.IsChecked()
    ensures ValidateFile(file).Pass? && file.content.IoFailure? ==>
      r == Failure(FileProcessingException("Error processing uploaded file: " + file.content.detail))
    ensures ValidateFile(file).Pass? && file.content.CsvFailure? ==>
      r == Failure(CsvProcessingException("Error processing CSV file: " + file.content.detail))
    ensures ValidateFile(file).Pass? && r.Failure? && file.content.Parsed? ==> r.error == Ingest(file.content).error
  {
    match ValidateFile(file)
    case Fail(e) => Failure(e)
    case Pass =>
      match Ingest(file.content)
      case Success(users) => Success(users)
      case Failure(e) => Failure(WrapUploadException(e))
  }

  class CsvService {
    const userRepository: UserRepository
    const fileLock: FileLock
    /** `consecutiveFailures`, an AtomicInteger. */
    var consecutiveFailures: int32
    /** `schedulerEnabled`. */
    var schedulerEnabled: bool

    ghost function State(): Health
      reads this
    {
      Health(schedulerEnabled, consecutiveFailures)
    }

    /** The state the tick reads and writes: health and lock. */
    ghost function GateState(): Gate
      reads this, fileLock
    {
      Gate(State(), fileLock.held)
    }

    ghost predicate Valid()
      reads this
    {
      GateHealthy(State())
    }

    constructor (userRepository: UserRepository)
      ensures Valid() && GateState() == Start
      ensures this.userRepository == userRepository && fresh(fileLock)
    {
      this.userRepository := userRepository;
      fileLock := new FileLock();
      consecutiveFailures := 0;
      schedulerEnabled := true;
    }

    // -------------------------------------------------------------------
    // Upload path
    // -------------------------------------------------------------------

    /**
     * `uploadMultipartFile`: validate first (nothing is read from an
     * invalid file), then read and save; an `IOException` becomes a
     * `FileProcessingException`, a `CsvException` a `CsvProcessingException`,
     * and every other exception leaves unchanged.
     */
    method UploadMultipartFile(file: MultipartFile) returns (thrown: Option<Exception>)
      modifies userRepository
      ensures thrown.None? <==> UploadResult(file).Success?
      ensures thrown.Some? ==> thrown.value == UploadResult(file).error
      ensures userRepository.batches ==
        old(userRepository.batches) + if UploadResult(file).Success? then [UploadResult(file).value] else []
    {
      var validation := ValidateFile(file);
      if validation.Fail? {
        return Some(validation.error);
      }
      var e := ReadAndPersistData(file.content);
      thrown := if e.Some? then Some(WrapUploadException(e.value)) else None;
    }

    /**
     * `readAndPersistData`: read every row, drop the header, map the rest
     * and save them with one `saveAll` call, or throw before saving.
     */
    method ReadAndPersistData(read: ReadAll) returns (thrown: Option<Exception>)
      modifies userRepository
      ensures thrown.None? <==> Ingest(read).Success?
      ensures thrown.Some? ==> thrown.value == Ingest(read).error
      ensures userRepository.batches ==
        old(userRepository.batches) + if Ingest(read).Success? then [Ingest(read).value] else []
    {
      var items: seq<Row>;
      match read {
        case IoFailure(d) => return Some(IOException(d));
        case CsvFailure(d) => return Some(CsvException(d));
        case Parsed(rows) => items := rows;
      }
      if items != [] {
        items := items[1..];
      }
      var users := MapRowsToUsers(items);
      if users.Failure? {
        return Some(users.error);
      }
      userRepository.SaveAll(users.value);
      thrown := None;
    }

    // -------------------------------------------------------------------
    // Scheduled path
    // -------------------------------------------------------------------

    /**
     * `processFileFromLocation`, one timer tick. `resource` is what
     * `getResourceAsStream` finds: `None` for a missing file. The result
     * says which way the tick went; `Ran(Escaped(e))` is the exception the
     * Java method lets escape after its `finally` released the lock.
     */
    method ProcessFileFromLocation(resource: Option<ReadAll>) returns (outcome: TickOutcome)
      requires Valid()
      modifies this, fileLock, userRepository
      ensures Valid()
      ensures outcome == Decide(old(GateState()), AttemptOn(resource))
      ensures GateState() == Step(old(GateState()), AttemptOn(resource))
      ensures userRepository.batches ==
        old(userRepository.batches) + if outcome == Ran(Ingested) then [Ingest(resource.value).value] else []
    {
      if !schedulerEnabled {
        return SchedulerDisabled;
      }
      var acquired := fileLock.TryLock();
      if !acquired {
        return AlreadyRunning;
      }
      var attempt: Attempt;
      if resource.None? {
        HandleMissingFile();
        attempt := FileMissing;
      } else {
        var thrown := ReadAndPersistData(resource.value);
        if thrown.None? {
          ResetFailureCounter();
          attempt := Ingested;
        } else if thrown.value.IsChecked() {
          HandleProcessingError(thrown.value);
          attempt := ProcessingError(thrown.value);
        } else {
          attempt := Escaped(thrown.value);
        }
      }
      fileLock.Unlock();
      outcome := Ran(attempt);
    }

    /** `handleMissingFile`: one more miss; at three the scheduler is switched off. */
    method HandleMissingFile()
      modifies this
      ensures State() == OnMissingFile(old(State()))
    {
      var failures := Increment(consecutiveFailures);
      consecutiveFailures := failures;
      if failures >= MaxConsecutiveFailures {
        schedulerEnabled := false;
      }
    }

    /** `resetFailureCounter`: the counter back to zero, the flag untouched. */
    method ResetFailureCounter()
      modifies this
      ensures State() == OnReset(old(State()))
    {
      consecutiveFailures := 0;
    }

    /** `handleProcessingError`: a caught error is logged and the counter set to zero. */
    method HandleProcessingError(e: Exception)
      modifies this
      ensures State() == OnReset(old(State()))
    {
      consecutiveFailures := 0;
    }
  }
}
