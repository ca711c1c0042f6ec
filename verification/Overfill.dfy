/** Sensor filter and fill latch in one loop: how far above its limit the tank can be while filling. */
module Overfill {
  import E = Ema
  import S = Sensor
  import F = FillFlag
  import opened Controller

  /** `level` is what a scan cached after the first n block averages, or the value from boot. */
  predicate CachedFrom(p: Plant, level: real, inputs: seq<real>, n: nat) {
    n <= |inputs| &&
    ((n == 0 && level == 0.0) || level == S.Round2(S.Level(p.cal, E.Fold(0.0, inputs[..n]))))
  }

  /** The pipeline on any run: voltage, cached level and last sample are those of known prefixes of the inputs. */
  predicate PipelineSound(p: Plant, s: State) {
    var h := s.hist;
    && s.readings.latest == E.Fold(0.0, h.inputs)
    && h.sampled <= h.scanned <= |h.inputs|
    && CachedFrom(p, s.readings.level, h.inputs, h.scanned)
    && (h.samples != [] ==> CachedFrom(p, h.samples[|h.samples| - 1], h.inputs, h.sampled))
  }

  lemma CachedStays(p: Plant, level: real, inputs: seq<real>, x: real, n: nat)
    requires CachedFrom(p, level, inputs, n)
    ensures CachedFrom(p, level, inputs + [x], n)
  {
    assert (inputs + [x])[..n] == inputs[..n];
  }

  lemma BlockKeepsPipeline(p: Plant, s: State, samples: S.Block)
    requires PipelineSound(p, s)
    ensures PipelineSound(p, Step(p, s, AdcUpdate(samples)))
  {
    var h, average := s.hist, S.Average(samples);
    E.FoldSnoc(0.0, h.inputs, average);
    CachedStays(p, s.readings.level, h.inputs, average, h.scanned);
    if h.samples != [] {
      CachedStays(p, h.samples[|h.samples| - 1], h.inputs, average, h.sampled);
    }
  }

  lemma ScanKeepsPipeline(p: Plant, s: State, t: real)
    requires PipelineSound(p, s)
    ensures PipelineSound(p, Scanned(p, s, t))
  {
    assert s.hist.inputs[..|s.hist.inputs|] == s.hist.inputs;
  }

  lemma StepKeepsPipeline(p: Plant, s: State, e: Event)
    requires PipelineSound(p, s)
    ensures PipelineSound(p, Step(p, s, e))
  {
    match e {
      case AdcUpdate(samples) => BlockKeepsPipeline(p, s, samples);
      case PollScan(t) => ScanKeepsPipeline(p, s, t);
      case _ =>
    }
  }

  lemma {:induction false} PipelineStaysSound(p: Plant, es: seq<Event>)
    ensures PipelineSound(p, Run(p, BOOT, es))
  {
    if es != [] {
      PipelineStaysSound(p, es[..|es| - 1]);
      StepKeepsPipeline(p, Run(p, BOOT, es[..|es| - 1]), es[|es| - 1]);
    }
  }

  /** A cached level below a maximum of at most 100 bounds the filtered percentage behind it. */
  lemma CachedBelowMax(p: Plant, v: real, maxL: real)
    requires maxL <= 100.0 && S.Round2(S.Level(p.cal, v)) < maxL
    ensures S.Percent(p.cal, v) < maxL + 0.005
  {
    S.Round2Near(S.Level(p.cal, v));
    assert S.Round2(100.0) == 100.0;
  }

  /** k steps of at most d each: k d in all, see RiseIsProduct. */
  function Rise(k: nat, d: real): real {
    if k == 0 then 0.0 else Rise(k - 1, d) + d
  }

  lemma {:induction false} RiseIsProduct(k: nat, d: real)
    ensures Rise(k, d) == k as real * d
  {
    if k > 0 {
      RiseIsProduct(k - 1, d);
      assert k as real == (k - 1) as real + 1.0;
      assert ((k - 1) as real + 1.0) * d == (k - 1) as real * d + d;
    }
  }

  lemma {:induction false} RiseMonotone(j: nat, k: nat, d: real)
    requires j <= k && d >= 0.0
    ensures Rise(j, d) <= Rise(k, d)
    decreases k
  {
    if j < k {
      RiseMonotone(j, k - 1, d);
    }
  }

  lemma {:induction false} RiseSince(x0: real, xs: seq<real>, d: real, n: nat)
    requires E.RisesAtMost(x0, xs, d) && n <= |xs|
    ensures E.RisesAtMost(x0, xs[..n], d)
    ensures E.LastOf(x0, xs) <= E.LastOf(x0, xs[..n]) + Rise(|xs| - n, d)
  {
    if n == |xs| {
      assert xs[..n] == xs;
    } else {
      var m := |xs| - 1;
      RiseSince(x0, xs[..m], d, n);
      assert xs[..m][..n] == xs[..n];
      assert Rise(|xs| - n, d) == Rise(|xs[..m]| - n, d) + d;
    }
  }

  /** The input levels, in percent, that the filter has been fed. */
  function InputLevels(p: Plant, s: State): seq<real> {
    S.Percents(p.cal, s.hist.inputs)
  }

  /** The head start of x0 over the filter, which boots at 0 V with a cached level of 0. */
  function HeadStart(p: Plant, x0: real): real {
    x0 - (if S.Percent(p.cal, 0.0) < 0.0 then S.Percent(p.cal, 0.0) else 0.0)
  }

  /** How high the input can have been when the sample derived from it was still below the maximum. */
  lemma SampledInputBound(p: Plant, sample: real, inputs: seq<real>, n: nat, x0: real, d: real)
    requires p.auto.maxL <= 100.0 && d >= 0.0
    requires CachedFrom(p, sample, inputs, n) && sample < p.auto.maxL
    requires E.RisesAtMost(x0, S.Percents(p.cal, inputs), d)
    ensures E.LastOf(x0, S.Percents(p.cal, inputs)[..n]) <
            p.auto.maxL + 0.005 + E.Lead(n, HeadStart(p, x0), d)
  {
    var xs := S.Percents(p.cal, inputs);
    var start := S.Percent(p.cal, 0.0);
    RiseSince(x0, xs, d, n);
    if n == 0 && sample == 0.0 {
      assert xs[..0] == [];
    } else {
      CachedBelowMax(p, E.Fold(0.0, inputs[..n]), p.auto.maxL);
      S.PercentOfFold(p.cal, 0.0, inputs[..n]);
      assert S.Percents(p.cal, inputs[..n]) == xs[..n];
      E.TracksRise(x0, start, xs[..n], d);
      E.LeadMonotone(n, x0 - start, HeadStart(p, x0), d);
    }
  }

  lemma FillingSampledBelowMax(p: Plant, es: seq<Event>)
    requires Run(p, BOOT, es).auto.fillM
    ensures var xs := Run(p, BOOT, es).hist.samples;
            xs != [] && xs[|xs| - 1] < p.auto.maxL
  {
    F.FillFlagIsLatch(p, es);
  }

  /** The limit for the input level: n updates are reflected in the level last sampled, m came after them. */
  function InputLimit(p: Plant, n: nat, m: nat, x0: real, d: real): real {
    p.auto.maxL + 0.005 + E.Lead(n, HeadStart(p, x0), d) + Rise(m, d)
  }

  lemma InputBound(p: Plant, sample: real, inputs: seq<real>, n: nat, x0: real, d: real)
    requires p.auto.maxL <= 100.0 && d >= 0.0
    requires CachedFrom(p, sample, inputs, n) && sample < p.auto.maxL
    requires E.RisesAtMost(x0, S.Percents(p.cal, inputs), d)
    ensures E.LastOf(x0, S.Percents(p.cal, inputs)) < InputLimit(p, n, |inputs| - n, x0, d)
  {
    SampledInputBound(p, sample, inputs, n, x0, d);
    RiseSince(x0, S.Percents(p.cal, inputs), d, n);
  }

  /**
   * Whenever the fill flag is on, on any run: if the input level has risen at most d points per sensor
   * update from x0, it now lies below
   *   maxL + 0.005 + 0.7^n e0 + (7/3) d (1 - 0.7^n) + m d,
   * where e0 is the head start of x0.
   */
  lemma OverfillBound(p: Plant, es: seq<Event>, x0: real, d: real)
    requires p.auto.maxL <= 100.0 && d >= 0.0
    requires E.RisesAtMost(x0, InputLevels(p, Run(p, BOOT, es)), d)
    requires Run(p, BOOT, es).auto.fillM
    ensures var s := Run(p, BOOT, es);
            && s.hist.sampled <= |s.hist.inputs|
            && E.LastOf(x0, InputLevels(p, s)) < InputLimit(p, s.hist.sampled, |s.hist.inputs| - s.hist.sampled, x0, d)
  {
    FillingSampledBelowMax(p, es);
    PipelineStaysSound(p, es);
    var h := Run(p, BOOT, es).hist;
    InputBound(p, h.samples[|h.samples| - 1], h.inputs, h.sampled, x0, d);
  }
}
