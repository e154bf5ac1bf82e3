/** `CsvSchedulerManager`: the failure counter and enabled flag as a service of their own. */
module SchedulerManager {
  import opened JavaLang
  import opened Exceptions
  import opened SchedulerHealth

  class CsvSchedulerManager {
    /** `consecutiveFailures`, an AtomicInteger. */
    var consecutiveFailures: int32
    /** `schedulerEnabled`. */
    var schedulerEnabled: bool

    ghost function State(): Health
      reads this
    {
      Health(schedulerEnabled, consecutiveFailures)
    }

    ghost predicate Valid()
      reads this
    {
      Healthy(State())
    }

    constructor ()
      ensures Valid() && State() == Initial
    {
      consecutiveFailures := 0;
      schedulerEnabled := true;
    }

    /** Counts one more missing file; at three or more the scheduler is switched off. */
    method HandleMissingFile()
      requires Valid()
      modifies this
      ensures Valid()
      ensures State() == OnMissingFile(old(State()))
    {
      var failures := Increment(consecutiveFailures);
      consecutiveFailures := failures;
      if failures >= MaxConsecutiveFailures {
        schedulerEnabled := false;
      }
    }

    /** Sets the counter to zero; the enabled flag is untouched. */
    method ResetFailureCounter()
      requires Valid()
      modifies this
      ensures Valid()
      ensures State() == OnReset(old(State()))
    {
      consecutiveFailures := 0;
    }

    /** A transient error: logged, and the counter set to zero; the enabled flag is untouched. */
    method HandleProcessingError(e: Exception)
      requires Valid()
      modifies this
      ensures Valid()
      ensures State() == OnReset(old(State()))
    {
      consecutiveFailures := 0;
    }

    /** Reads the flag and changes nothing. */
    method IsSchedulerEnabled() returns (enabled: bool)
      ensures enabled == schedulerEnabled
    {
      enabled := schedulerEnabled;
    }
  }
}
