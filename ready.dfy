/** The readiness probe (`GET`/`HEAD /api/ready`): a report that starts ready and is marked not
    ready by a memory check above 95% or a failed allocation test. */
module Ready {
  import opened Common
  import opened Text

  datatype ReadyStatus = IsReady | NotReady

  datatype Check = Check(status: ReadyStatus, message: string)

  /** The `readinessChecks` object (its timestamp is not modelled). */
  datatype ReadinessReport = ReadinessReport(ready: bool, server: Check, memory: Check)

  /** What `GET` answers: the report, or the fixed body of the outer `catch`. */
  datatype ReadyResponse = Report(report: ReadinessReport) | Failure(error: string)

  const ServerRunning := Check(IsReady, "Server is running")
  const MemoryWithinLimits := Check(IsReady, "Memory usage within acceptable limits")
  const CannotAllocate := Check(NotReady, "Cannot allocate memory for basic operations")

  function MemoryTooHigh(percent: nat): Check {
    Check(NotReady, "Memory usage too high: " + Decimal(percent) + "%")
  }

  /** The response is ready only when it carries a report that says so. */
  predicate IsReadyResponse(r: ReadyResponse) {
    r.Report? && r.report.ready
  }

  /** `GET /api/ready`. `memoryPercent` is the rounded heap percentage or what reading it threw;
      `allocationSucceeds` says whether the test allocation of 1000 elements went through. */
  method Get(memoryPercent: Attempt<nat>, allocationSucceeds: bool) returns (response: ReadyResponse, httpStatus: int)
    ensures memoryPercent.Threw? ==> response == Failure(ErrorText(memoryPercent.error)) && httpStatus == 503
    ensures memoryPercent.Returned? ==> response.Report?
    ensures response.Report? ==>
      var p := memoryPercent.value;
      && response.report.ready == (p <= 95 && allocationSucceeds)
      && response.report.memory == (if p > 95 then MemoryTooHigh(p) else MemoryWithinLimits)
      && response.report.server == (if allocationSucceeds then ServerRunning else CannotAllocate)
    ensures httpStatus == 200 <==> IsReadyResponse(response)
    ensures httpStatus == 503 <==> !IsReadyResponse(response)
  {
    var checks := ReadinessReport(true, ServerRunning, MemoryWithinLimits);

    match memoryPercent {
      case Threw(e) =>
        // the measurement is outside the inner try: the outer catch answers
        response := Failure(ErrorText(e));
        httpStatus := 503;
        return;
      case Returned(percent) =>
        if percent > 95 {
          checks := checks.(ready := false);
          checks := checks.(memory := MemoryTooHigh(percent));
        }
    }

    if !allocationSucceeds {
      checks := checks.(ready := false);
      checks := checks.(server := CannotAllocate);
    }

    httpStatus := if checks.ready then 200 else 503;
    response := Report(checks);
  }

  /** The message of a memory check that failed names the measured percentage. */
  lemma MemoryMessageNamesPercent(percent: nat)
    ensures Contains(MemoryTooHigh(percent).message, Decimal(percent))
  {
    var prefix := "Memory usage too high: ";
    assert MemoryTooHigh(percent).message[|prefix|..|prefix| + |Decimal(percent)|] == Decimal(percent);
    assert OccursAt(MemoryTooHigh(percent).message, Decimal(percent), |prefix|);
  }

  /** `HEAD /api/ready`: 503 when the heap is above 95% or cannot be measured, else 200. */
  function Head(memoryPercent: Attempt<nat>): (httpStatus: int)
    ensures httpStatus == 503 <==> memoryPercent.Threw? || memoryPercent.value > 95
    ensures httpStatus == 200 <==> memoryPercent.Returned? && memoryPercent.value <= 95
  {
    match memoryPercent
    case Threw(_) => 503
    case Returned(percent) => if percent > 95 then 503 else 200
  }
}
