/**
 * The scheduled re-ingestion gate of `CsvService.processFileFromLocation`,
 * as a state machine over the health state and the lock. One tick:
 * skip when the scheduler is disabled; skip when the lock is held; else,
 * holding the lock, either count a missing file or read and save the file,
 * then release the lock.
 */
module SchedulerGate {
  import opened Wrappers
  import opened Exceptions
  import opened RowMapping
  import opened SchedulerHealth

  /** How a run that got the lock ended. */
  datatype Attempt =
      /** `getResourceAsStream` returned null; `readAndPersistData` is not reached. */
    | FileMissing
      /** `readAndPersistData` returned normally: the batch was saved. */
    | Ingested
      /** An `IOException` or `CsvException`, caught by the tick. */
    | ProcessingError(e: Exception)
      /** Any other exception: not caught, it leaves the tick once the lock is released. */
    | Escaped(e: Exception)

  /**
   * The attempt a run makes on the configured resource: `None` when the
   * resource does not exist, otherwise what the CSV reader gives.
   */
  function AttemptOn(resource: Option<ReadAll>): (a: Attempt)
    ensures a == FileMissing <==> resource.None?
    ensures a == Ingested <==> resource.Some? && Ingest(resource.value).Success?
    ensures a.ProcessingError? <==>
      resource.Some? && Ingest(resource.value).Failure? && Ingest(resource.value).error.IsChecked()
    ensures a.ProcessingError? || a.Escaped? ==> a.e == Ingest(resource.value).error
  {
    match resource
    case None => FileMissing
    case Some(read) =>
      match Ingest(read)
      case Success(_) => Ingested
      case Failure(e) => if e.IsChecked() then ProcessingError(e) else Escaped(e)
  }

  /** What one timer tick did. */
  datatype TickOutcome = SchedulerDisabled | AlreadyRunning | Ran(attempt: Attempt)

  /** The health state and whether `fileLock` is held. */
  datatype Gate = Gate(health: Health, locked: bool)

  /** The state at start-up: enabled, no failures, lock free. */
  const Start: Gate := Gate(Initial, false)

  /** The two early returns, in their order, then the run. */
  function Decide(g: Gate, a: Attempt): (r: TickOutcome)
    ensures r == SchedulerDisabled <==> !g.health.enabled
    ensures r == AlreadyRunning <==> g.health.enabled && g.locked
    ensures r.Ran? ==> r.attempt == a
  {
    if !g.health.enabled then SchedulerDisabled
    else if g.locked then AlreadyRunning
    else Ran(a)
  }

  /** The state after one tick whose run, if any, ends as `a`. */
  function Step(g: Gate, a: Attempt): (r: Gate)
    ensures r.locked == g.locked
    ensures !g.health.enabled || g.locked ==> r == g
    ensures r.health.enabled ==> g.health.enabled
  {
    match Decide(g, a)
    case SchedulerDisabled => g
    case AlreadyRunning => g
    case Ran(FileMissing) => g.(health := OnMissingFile(g.health))
    case Ran(Ingested) => g.(health := OnReset(g.health))
    case Ran(ProcessingError(_)) => g.(health := OnReset(g.health))
    case Ran(Escaped(_)) => g
  }

  /**
   * What holds of the gate's health at every tick boundary: enabled with
   * fewer than three counted misses, or disabled with exactly three.
   */
  predicate GateHealthy(h: Health) {
    (h.enabled && 0 <= h.failures < MaxConsecutiveFailures) ||
    (!h.enabled && h.failures == MaxConsecutiveFailures)
  }

  lemma StepKeepsGateHealthy(g: Gate, a: Attempt)
    requires GateHealthy(g.health)
    ensures GateHealthy(Step(g, a).health)
  {
  }

  /** The state after ticks whose runs end as `attempts`, first to last. */
  function Run(g: Gate, attempts: seq<Attempt>): Gate
    decreases |attempts|
  {
    if attempts == [] then g
    else Step(Run(g, attempts[..|attempts| - 1]), attempts[|attempts| - 1])
  }

  /**
   * Reference count: the missing-file runs since the last run that ended
   * normally or with a caught error. An escaped exception neither counts
   * nor resets.
   */
  function MissesSinceReset(attempts: seq<Attempt>): nat
    decreases |attempts|
  {
    if attempts == [] then 0
    else
      var before := MissesSinceReset(attempts[..|attempts| - 1]);
      match attempts[|attempts| - 1]
      case FileMissing => before + 1
      case Ingested => 0
      case ProcessingError(_) => 0
      case Escaped(_) => before
  }

  /** Once disabled, every later tick leaves the whole state as it is. */
  lemma {:induction false} DisabledIsTerminal(g: Gate, attempts: seq<Attempt>)
    requires !g.health.enabled
    ensures Run(g, attempts) == g
    decreases |attempts|
  {
    if attempts != [] {
      DisabledIsTerminal(g, attempts[..|attempts| - 1]);
    }
  }

  /** No prefix of the history reached three misses since a reset. */
  predicate BelowThreshold(attempts: seq<Attempt>) {
    forall k :: 0 <= k <= |attempts| ==> MissesSinceReset(attempts[..k]) < 3
  }

  lemma BelowThresholdSnoc(prior: seq<Attempt>, a: Attempt)
    ensures BelowThreshold(prior + [a]) <==>
      BelowThreshold(prior) && MissesSinceReset(prior + [a]) < 3
  {
    var t := prior + [a];
    assert forall k :: 0 <= k <= |prior| ==> t[..k] == prior[..k];
    assert t[..|t|] == t;
  }

  /** Running one more tick after a history. */
  lemma RunSnoc(g: Gate, attempts: seq<Attempt>, a: Attempt)
    ensures Run(g, attempts + [a]) == Step(Run(g, attempts), a)
    ensures MissesSinceReset(attempts + [a]) == match a
      case FileMissing => MissesSinceReset(attempts) + 1
      case Escaped(_) => MissesSinceReset(attempts)
      case _ => 0
  {
    assert (attempts + [a])[..|attempts|] == attempts;
  }

  /**
   * From start-up, the lock is free between ticks; the scheduler is enabled
   * exactly when no prefix of the history reached three misses since a
   * reset; while enabled the counter equals that reference count, and once
   * disabled it stays at three.
   */
  lemma {:induction false} RunFromStart(attempts: seq<Attempt>)
    ensures !Run(Start, attempts).locked
    ensures GateHealthy(Run(Start, attempts).health)
    ensures Run(Start, attempts).health.enabled <==> BelowThreshold(attempts)
    ensures Run(Start, attempts).health.enabled ==>
      Run(Start, attempts).health.failures as int == MissesSinceReset(attempts)
    decreases |attempts|
  {
    if attempts == [] {
      assert attempts[..0] == [];
    } else {
      var prior, a := attempts[..|attempts| - 1], attempts[|attempts| - 1];
      assert attempts == prior + [a];
      RunFromStart(prior);
      RunSnoc(Start, prior, a);
      BelowThresholdSnoc(prior, a);
    }
  }

  // ---------------------------------------------------------------------
  // Traces
  // ---------------------------------------------------------------------

  /** Three missing files disable the scheduler; a fourth tick changes nothing. */
  lemma ThreeMissingTicksDisable(a: Attempt)
    ensures Run(Start, [FileMissing, FileMissing, FileMissing]) == Gate(Health(false, 3), false)
    ensures Step(Run(Start, [FileMissing, FileMissing, FileMissing]), a)
         == Run(Start, [FileMissing, FileMissing, FileMissing])
  {
    RunSnoc(Start, [], FileMissing);
    assert Run(Start, [FileMissing]) == Gate(Health(true, 1), false);
    RunSnoc(Start, [FileMissing], FileMissing);
    assert [FileMissing] + [FileMissing] == [FileMissing, FileMissing];
    assert Run(Start, [FileMissing, FileMissing]) == Gate(Health(true, 2), false);
    RunSnoc(Start, [FileMissing, FileMissing], FileMissing);
    assert [FileMissing, FileMissing] + [FileMissing] == [FileMissing, FileMissing, FileMissing];
  }

  /** missing, success, missing: the success resets, so the count is 1, not 2. */
  lemma SuccessRestartsCount()
    ensures Run(Start, [FileMissing, Ingested, FileMissing]).health == Health(true, 1)
  {
    RunSnoc(Start, [], FileMissing);
    assert Run(Start, [FileMissing]) == Gate(Health(true, 1), false);
    RunSnoc(Start, [FileMissing], Ingested);
    assert [FileMissing] + [Ingested] == [FileMissing, Ingested];
    assert Run(Start, [FileMissing, Ingested]) == Gate(Health(true, 0), false);
    RunSnoc(Start, [FileMissing, Ingested], FileMissing);
    assert [FileMissing, Ingested] + [FileMissing] == [FileMissing, Ingested, FileMissing];
  }

  /** missing, caught CSV error, missing: the caught error resets, so the count is 1. */
  lemma CaughtErrorRestartsCount(detail: string)
    ensures Run(Start, [FileMissing, ProcessingError(CsvException(detail)), FileMissing]).health
         == Health(true, 1)
  {
    var error := ProcessingError(CsvException(detail));
    RunSnoc(Start, [], FileMissing);
    assert Run(Start, [FileMissing]) == Gate(Health(true, 1), false);
    RunSnoc(Start, [FileMissing], error);
    assert [FileMissing] + [error] == [FileMissing, error];
    assert Run(Start, [FileMissing, error]) == Gate(Health(true, 0), false);
    RunSnoc(Start, [FileMissing, error], FileMissing);
    assert [FileMissing, error] + [FileMissing] == [FileMissing, error, FileMissing];
  }

  /**
   * missing, non-numeric age, missing: the `NumberFormatException` is not
   * caught and does not reset the counter, so the count is 2; a third miss
   * then disables the scheduler.
   */
  lemma EscapedErrorKeepsCount(input: string)
    ensures Run(Start, [FileMissing, Escaped(NumberFormatException(input)), FileMissing]).health
         == Health(true, 2)
    ensures Run(Start, [FileMissing, Escaped(NumberFormatException(input)), FileMissing, FileMissing]).health
         == Health(false, 3)
  {
    var escaped := Escaped(NumberFormatException(input));
    var t1, t2, t3 := [FileMissing], [FileMissing, escaped], [FileMissing, escaped, FileMissing];
    RunSnoc(Start, [], FileMissing);
    assert Run(Start, t1) == Gate(Health(true, 1), false);
    RunSnoc(Start, t1, escaped);
    assert t1 + [escaped] == t2;
    assert Run(Start, t2) == Gate(Health(true, 1), false);
    RunSnoc(Start, t2, FileMissing);
    assert t2 + [FileMissing] == t3;
    assert Run(Start, t3) == Gate(Health(true, 2), false);
    RunSnoc(Start, t3, FileMissing);
    assert t3 + [FileMissing] == [FileMissing, escaped, FileMissing, FileMissing];
  }
}
