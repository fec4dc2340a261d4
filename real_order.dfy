/** Order facts about scaling a real by a positive step, used by the range
    computations. */
module RealOrder {

  /** Scaling by a positive step keeps a non-strict order. */
  lemma ScaleMonotone(a: real, b: real, step: real)
    requires a <= b && step > 0.0
    ensures a * step <= b * step
  {
  }

  /** Scaling by a positive step keeps a strict order. */
  lemma ScaleStrict(a: real, b: real, step: real)
    requires a < b && step > 0.0
    ensures a * step < b * step
  {
  }

  /** Scaling by a positive step and shifting by the same amount keeps a
      strict order. */
  lemma ShiftScaleStrict(start: real, a: real, b: real, step: real)
    requires a < b && step > 0.0
    ensures start + a * step < start + b * step
  {
    ScaleStrict(a, b, step);
  }
}
