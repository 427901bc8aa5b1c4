/** DiagnosticsFilterHelper.IsAllowed: which operations have their
    diagnostics collected. Latency is a TimeSpan in ticks of 100 ns and the
    request charge an exact number of request units. */
module DiagnosticsFilter {

  const TicksPerMillisecond: int := 10_000
  const LatencyThresholdInMs: int := 100
  const RequestChargeThresholdInRu: real := 100.0

  /** TimeSpan.FromMilliseconds(latencyThresholdInMs), in ticks. */
  const LatencyThresholdTicks: int := LatencyThresholdInMs * TicksPerMillisecond

  /** HttpStatusCode, a numeric status code. */
  type HttpStatusCode = int

  /** IsAllowed: slower than the latency threshold, costlier than the charge
      threshold, or not a success. `isSuccess` stands for the status-code
      extension IsSuccess(). */
  function IsAllowed(latencyTicks: int, requestCharge: real, statusCode: HttpStatusCode, isSuccess: HttpStatusCode -> bool): (allowed: bool)
    ensures latencyTicks > LatencyThresholdTicks ==> allowed
    ensures requestCharge > RequestChargeThresholdInRu ==> allowed
    ensures !isSuccess(statusCode) ==> allowed
    ensures !allowed <==>
      latencyTicks <= LatencyThresholdTicks && requestCharge <= RequestChargeThresholdInRu && isSuccess(statusCode)
  {
    latencyTicks > LatencyThresholdTicks || requestCharge > RequestChargeThresholdInRu || !isSuccess(statusCode)
  }

  /** A successful operation exactly at both thresholds is filtered out:
      both comparisons are strict. */
  lemma BoundaryIsFiltered(statusCode: HttpStatusCode, isSuccess: HttpStatusCode -> bool)
    requires isSuccess(statusCode)
    ensures !IsAllowed(100 * TicksPerMillisecond, 100.0, statusCode, isSuccess)
  {
  }
}
