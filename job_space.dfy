/**
 * The job space a submitter fans out over: the range of job IDs (each ID seeds one job's
 * random-number generator) and the mass points produced by `frange`.
 */
module JobSpace {
  import opened Wrappers
  import opened Text

  /** The pair of tokens that seeds the generator of job `ind`. */
  function SeedPair(ind: int): seq<string> { ["--seed", IntToString(ind)] }

  /**
   * The job-ID range check, shared by every submitter: the first ID must be at least 1 and
   * the last must not be below the first; the first failing test decides the message.
   */
  function CheckJobIdRange(first: int, last: int): (r: Result<()>)
    ensures r.Ok? <==> 1 <= first <= last
    ensures first < 1 ==> r == Err(RuntimeError("The first jobIdRange argument must be >= 1."))
    ensures 1 <= first && last < first ==> r == Err(RuntimeError("The second jobIdRange argument must be >= the first."))
  {
    if first < 1 then Err(RuntimeError("The first jobIdRange argument must be >= 1."))
    else if last < first then Err(RuntimeError("The second jobIdRange argument must be >= the first."))
    else Ok(())
  }

  /** The IDs `xrange(first, last + 1)` that a DAG writer loops over. */
  function JobIds(first: int, last: int): (ids: seq<int>)
    ensures |ids| == if last < first then 0 else last - first + 1
    ensures forall k :: 0 <= k < |ids| ==> ids[k] == first + k
    decreases last - first
  {
    if last < first then [] else [first] + JobIds(first + 1, last)
  }

  /**
   * The `--massRange start end step` check: every value must be positive (so the step is
   * too) and the end must not be below the start.
   */
  function CheckMassRange(start: real, end: real, step: real): (r: Result<()>)
    ensures r.Ok? <==> start > 0.0 && end > 0.0 && step > 0.0 && start <= end
    ensures (start <= 0.0 || end <= 0.0 || step <= 0.0) ==> r == Err(RuntimeError("You cannot have a mass <= 0"))
  {
    if start <= 0.0 || end <= 0.0 || step <= 0.0 then Err(RuntimeError("You cannot have a mass <= 0"))
    else if end < start then Err(RuntimeError("You cannot have endMass < startMass"))
    else Ok(())
  }

  /** Each step lowers the number of remaining steps by one. */
  lemma {:induction false} StepMeasure(i: real, stop: real, step: real)
    requires step > 0.0
    ensures ((stop - (i + step)) / step).Floor == ((stop - i) / step).Floor - 1
  {
    var q := (stop - i) / step;
    var d := (stop - (i + step)) / step;
    assert q * step == stop - i;
    assert d * step == stop - (i + step);
    var x := d - (q - 1.0);
    assert x * step == 0.0;
    assert x > 0.0 ==> x * step > 0.0;
    assert x < 0.0 ==> (-x) * step > 0.0;
    assert d == q - 1.0;
  }

  /** The values the `frange(i, stop, step)` generator yields, over exact reals. */
  function FrangeValues(i: real, stop: real, step: real): seq<real>
    requires step > 0.0
    decreases if i <= stop then ((stop - i) / step).Floor + 1 else 0
  {
    if i <= stop then StepMeasure(i, stop, step); [i] + FrangeValues(i + step, stop, step) else []
  }

  /** `frange`: a loop that yields `i` and advances it by `step` while `i <= stop`. */
  method Frange(start: real, stop: real, step: real) returns (out: seq<real>)
    requires step > 0.0
    ensures out == FrangeValues(start, stop, step)
  {
    out := [];
    var i := start;
    while i <= stop
      invariant out + FrangeValues(i, stop, step) == FrangeValues(start, stop, step)
      decreases ((stop - i) / step).Floor + 1
    {
      StepMeasure(i, stop, step);
      out := out + [i];
      i := i + step;
    }
  }

  /** The k-th value is `start + k * step`, every value is within `[start, stop]`, and the next would pass `stop`. */
  lemma {:induction false} FrangeShape(start: real, stop: real, step: real)
    requires step > 0.0
    ensures var v := FrangeValues(start, stop, step);
      (forall k :: 0 <= k < |v| ==> v[k] == start + k as real * step && start <= v[k] <= stop) &&
      start + |v| as real * step > stop
    decreases if start <= stop then ((stop - start) / step).Floor + 1 else 0
  {
    var v := FrangeValues(start, stop, step);
    if start <= stop {
      var w := FrangeValues(start + step, stop, step);
      StepMeasure(start, stop, step);
      FrangeShape(start + step, stop, step);
      assert v == [start] + w;
      forall k | 0 <= k < |v|
        ensures v[k] == start + k as real * step
      {
        if k > 0 {
          assert v[k] == w[k - 1];
        }
      }
    }
  }

  /** The generator yields `start` first exactly when `start <= stop`. */
  lemma {:induction false} FrangeFirst(start: real, stop: real, step: real)
    requires step > 0.0
    ensures |FrangeValues(start, stop, step)| > 0 <==> start <= stop
    ensures start <= stop ==> FrangeValues(start, stop, step)[0] == start
  {
  }

  /** Consecutive values differ by exactly `step`. */
  lemma {:induction false} FrangeConstantStep(start: real, stop: real, step: real)
    requires step > 0.0
    ensures var v := FrangeValues(start, stop, step);
      forall k :: 0 <= k < |v| - 1 ==> v[k + 1] == v[k] + step
  {
    FrangeShape(start, stop, step);
    var v := FrangeValues(start, stop, step);
    forall k | 0 <= k < |v| - 1
      ensures v[k + 1] == v[k] + step
    {
      assert (k + 1) as real * step == k as real * step + step;
    }
  }

  /** A range passing the mass check yields at least its start. */
  lemma {:induction false} CheckedMassRangeNonEmpty(start: real, end: real, step: real)
    requires CheckMassRange(start, end, step).Ok?
    ensures step > 0.0 && |FrangeValues(start, end, step)| > 0 && FrangeValues(start, end, step)[0] == start
  {
  }
}
