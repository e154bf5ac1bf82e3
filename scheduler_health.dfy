/**
 * The scheduler's health: the `schedulerEnabled` flag and the
 * `consecutiveFailures` counter, with the three updates made to them. Both
 * `CsvService` and `CsvSchedulerManager` keep this state and update it the
 * same way; this module states those updates once.
 */
module SchedulerHealth {
  import opened JavaLang

  /** `MAX_CONSECUTIVE_FAILURES`. */
  const MaxConsecutiveFailures: int32 := 3

  /** `schedulerEnabled` and the value of the `consecutiveFailures` AtomicInteger. */
  datatype Health = Health(enabled: bool, failures: int32)

  /** `schedulerEnabled = true`, `new AtomicInteger(0)`. */
  const Initial: Health := Health(true, 0)

  /**
   * `handleMissingFile`: `incrementAndGet` on the counter, then the
   * scheduler is switched off when the new count is at least the threshold.
   */
  function OnMissingFile(h: Health): (r: Health)
    ensures r.failures == Increment(h.failures)
    ensures r.enabled <==> h.enabled && r.failures < MaxConsecutiveFailures
  {
    var failures := Increment(h.failures);
    if failures >= MaxConsecutiveFailures then Health(false, failures) else Health(h.enabled, failures)
  }

  /** `resetFailureCounter` and `handleProcessingError`: `consecutiveFailures.set(0)`. */
  function OnReset(h: Health): (r: Health)
    ensures r.failures == 0 && r.enabled == h.enabled
  {
    h.(failures := 0)
  }

  /** While the scheduler is enabled, fewer than three misses have been counted, and never a negative number. */
  predicate Healthy(h: Health) {
    h.enabled ==> 0 <= h.failures < MaxConsecutiveFailures
  }

  /** The operations of the health state, for reasoning about sequences of calls. */
  datatype HealthOp = MissingFile | Reset

  function Apply(h: Health, op: HealthOp): Health {
    match op
    case MissingFile => OnMissingFile(h)
    case Reset => OnReset(h)
  }

  /** The health after a sequence of operations, applied first to last. */
  function ApplyAll(h: Health, ops: seq<HealthOp>): Health
    decreases |ops|
  {
    if ops == [] then h else Apply(ApplyAll(h, ops[..|ops| - 1]), ops[|ops| - 1])
  }

  /** No operation sets `schedulerEnabled` back to true: once off, always off. */
  lemma {:induction false} DisabledIsAbsorbing(h: Health, ops: seq<HealthOp>)
    requires !h.enabled
    ensures !ApplyAll(h, ops).enabled
    decreases |ops|
  {
    if ops != [] {
      DisabledIsAbsorbing(h, ops[..|ops| - 1]);
    }
  }

  /** Every sequence of operations keeps `enabled ==> 0 <= failures < 3`. */
  lemma {:induction false} HealthyAlways(h: Health, ops: seq<HealthOp>)
    requires Healthy(h)
    ensures Healthy(ApplyAll(h, ops))
    decreases |ops|
  {
    if ops != [] {
      HealthyAlways(h, ops[..|ops| - 1]);
    }
  }

  /** Three misses in a row from the initial state switch the scheduler off. */
  lemma ThreeMissesDisable()
    ensures ApplyAll(Initial, [MissingFile, MissingFile, MissingFile]) == Health(false, 3)
  {
    var ops := [MissingFile, MissingFile, MissingFile];
    assert ops[..1][..0] == [];
    assert ApplyAll(Initial, ops[..1]) == Health(true, 1);
    assert ops[..2][..1] == ops[..1];
    assert ApplyAll(Initial, ops[..2]) == Health(true, 2);
    assert ops[..2] == ops[..|ops| - 1];
  }
}
