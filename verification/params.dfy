/**
 * The parameter set of one virtual sensor and the checks `create_sensor`
 * performs on it before the generator starts.
 */
module SensorParams {
  import opened Results

  /** `[low, high, interval, fraction, decimal]`: output limits, publish period in
      seconds (0 means triggered), weight of the previous value, decimal places. */
  datatype Params = Params(low: int, high: int, interval: int, fraction: real, decimal: int)

  /** One error per rejected invariant, in the order the checks are made. */
  datatype ParamError = LowAboveHigh | NegativeInterval | FractionAboveOne

  /** The documented invariants: limits in order, non-negative period, fraction at most 1.
      There is no lower bound on the fraction. */
  predicate WellFormed(p: Params) {
    p.low <= p.high && p.interval >= 0 && p.fraction <= 1.0
  }

  /** Periodic sensors publish on every pass; the others wait for their trigger code. */
  predicate Periodic(p: Params) {
    p.interval != 0
  }

  /** The three checks at the head of `create_sensor`, first failure wins. */
  function Validate(p: Params): (r: Result<Params, ParamError>)
    ensures r.Success? <==> WellFormed(p)
    ensures r.Success? ==> r.value == p
    ensures p.low > p.high ==> r == Failure(LowAboveHigh)
    ensures p.low <= p.high && p.interval < 0 ==> r == Failure(NegativeInterval)
    ensures p.low <= p.high && p.interval >= 0 && p.fraction > 1.0 ==> r == Failure(FractionAboveOne)
  {
    if p.low > p.high then Failure(LowAboveHigh)
    else if p.interval < 0 then Failure(NegativeInterval)
    else if p.fraction > 1.0 then Failure(FractionAboveOne)
    else Success(p)
  }
}
