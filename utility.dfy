/** The range generators of src/utility.rs: loops that push evenly spaced
    values into a vector. Values are `real`; f32 rounding is not modelled. */
module Utility {
  import opened Wrappers
  import opened RealOrder

  /** The `assert!` failures of `generate_range`, in the order they are checked. */
  datatype RangeError = EndNotAfterStart | StepNotPositive

  /** The least integer not below `x` (`f32::ceil`). */
  function Ceil(x: real): (c: int)
    ensures x <= c as real < x + 1.0
  {
    -((-x).Floor)
  }

  /** The `count` values `start`, `start + step`, `start + 2*step`, ... */
  function Progression(start: real, step: real, count: nat): (r: seq<real>)
    ensures |r| == count
  {
    seq(count, i requires 0 <= i < count => start + i as real * step)
  }

  /** How many steps of size `step` it takes to reach `end` from `start`,
      rounded up. */
  function StepCount(start: real, end: real, step: real): (n: nat)
    requires end > start && step > 0.0
    ensures (n - 1) as real * step < end - start <= n as real * step
  {
    var q := (end - start) / step;
    assert q * step == end - start;
    var c := Ceil(q);
    assert q <= c as real < q + 1.0;
    ScaleMonotone(q, c as real, step);
    ScaleStrict((c - 1) as real, q, step);
    c
  }

  /** What `generate_range` returns: `StepCount + 1` values from `start` in
      steps of `step`, or the assertion that fails first. */
  function Range(start: real, end: real, step: real): (r: Result<seq<real>, RangeError>)
    ensures r.Ok? <==> end > start && step > 0.0
    ensures r == Err(EndNotAfterStart) <==> !(end > start)
  {
    if !(end > start) then Err(EndNotAfterStart)
    else if !(step > 0.0) then Err(StepNotPositive)
    else Ok(Progression(start, step, StepCount(start, end, step) + 1))
  }

  /** One more value extends a progression by `start + count*step`. */
  lemma ProgressionPush(start: real, step: real, count: nat)
    ensures Progression(start, step, count + 1) == Progression(start, step, count) + [start + count as real * step]
  {
    var longer := Progression(start, step, count + 1);
    var pushed := Progression(start, step, count) + [start + count as real * step];
    forall k | 0 <= k < count + 1
      ensures longer[k] == pushed[k]
    {
      if k < count {
        assert pushed[k] == Progression(start, step, count)[k];
      }
    }
  }

  /** `generate_range`: checks `end > start`, then `step > 0`, then pushes
      `start + i*step` for `i` from 0 through the rounded-up step count. */
  method GenerateRange(start: real, end: real, step: real) returns (r: Result<seq<real>, RangeError>)
    ensures r == Range(start, end, step)
  {
    if !(end > start) {
      return Err(EndNotAfterStart);
    }
    if !(step > 0.0) {
      return Err(StepNotPositive);
    }
    var steps := StepCount(start, end, step);
    var values: seq<real> := [];
    for i := 0 to steps + 1
      invariant values == Progression(start, step, i)
    {
      ProgressionPush(start, step, i);
      values := values + [start + i as real * step];
    }
    r := Ok(values);
  }

  /** `generate_range_from_input`: pushes `0 + i*step` for each `i` below
      `inputLen`. */
  method GenerateRangeFromInput(inputLen: nat, step: real) returns (values: seq<real>)
    ensures values == Progression(0.0, step, inputLen)
  {
    values := [];
    for i := 0 to inputLen
      invariant values == Progression(0.0, step, i)
    {
      ProgressionPush(0.0, step, i);
      values := values + [0.0 + i as real * step];
    }
  }

  /** Value `i` of a progression is `start + i*step`; the first is `start`. */
  lemma ProgressionValues(start: real, step: real, count: nat)
    ensures forall i :: 0 <= i < count ==> Progression(start, step, count)[i] == start + i as real * step
    ensures count > 0 ==> Progression(start, step, count)[0] == start
  {
  }

  /** With a positive step, a progression is strictly increasing. */
  lemma ProgressionIncreasing(start: real, step: real, count: nat)
    requires step > 0.0
    ensures forall i, j :: 0 <= i < j < count ==> Progression(start, step, count)[i] < Progression(start, step, count)[j]
  {
    forall i, j | 0 <= i < j < count
      ensures Progression(start, step, count)[i] < Progression(start, step, count)[j]
    {
      ProgressionPairIncreasing(start, step, count, i, j);
    }
  }

  /** Two values of a progression with a positive step, in index order. */
  lemma ProgressionPairIncreasing(start: real, step: real, count: nat, i: nat, j: nat)
    requires step > 0.0 && i < j < count
    ensures Progression(start, step, count)[i] < Progression(start, step, count)[j]
  {
    ShiftScaleStrict(start, i as real, j as real, step);
  }

  /** A generated range starts at `start`, is strictly increasing, reaches
      `end` with its last value, and its last value overshoots `end` by less
      than one step; the value before the last is still below `end`. */
  lemma RangeCovers(start: real, end: real, step: real)
    requires end > start && step > 0.0
    ensures var values := Range(start, end, step).value;
      && |values| >= 2
      && values[0] == start
      && (forall i, j :: 0 <= i < j < |values| ==> values[i] < values[j])
      && end <= values[|values| - 1] < end + step
      && values[|values| - 2] < end
  {
    var n := StepCount(start, end, step);
    var values := Range(start, end, step).value;
    assert values == Progression(start, step, n + 1);
    ProgressionIncreasing(start, step, n + 1);
    assert values[n] == start + n as real * step;
    assert values[n - 1] == start + (n - 1) as real * step;
  }

  /** `generate_range_from_input(n, step)` gives the same values as
      `generate_range(0, (n-1)*step, step)` whenever the latter does not
      panic, that is for at least two values and a positive step. */
  lemma FromInputIsRange(inputLen: nat, step: real)
    requires inputLen >= 2 && step > 0.0
    ensures Range(0.0, (inputLen - 1) as real * step, step) == Ok(Progression(0.0, step, inputLen))
  {
    var end := (inputLen - 1) as real * step;
    ScaleStrict(0.0, (inputLen - 1) as real, step);
    var n := StepCount(0.0, end, step);
    if n < inputLen - 1 {
      ScaleMonotone(n as real, (inputLen - 2) as real, step);
    } else if n > inputLen - 1 {
      ScaleMonotone((inputLen - 1) as real, (n - 1) as real, step);
    }
  }
}
