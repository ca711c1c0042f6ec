/** The overfill limit and its guard: what becomes of it for a maximum above 100 percent. */
module OverfillGuard {
  import A = Automation
  import E = Ema
  import F = FillFlag
  import O = Overfill
  import S = Sensor
  import opened Controller

  /** Nothing ever cached or sampled exceeds 100 percent. */
  predicate AtMostFull(s: State) {
    s.readings.level <= 100.0 && forall i :: 0 <= i < |s.hist.samples| ==> s.hist.samples[i] <= 100.0
  }

  lemma StepKeepsAtMostFull(p: Plant, s: State, e: Event)
    requires AtMostFull(s)
    ensures AtMostFull(Step(p, s, e))
  {
    if e.PollScan? {
      S.CachedLevelInRange(p.cal, s.readings, e.temperature);
    }
  }

  lemma {:induction false} RunAtMostFull(p: Plant, es: seq<Event>)
    ensures AtMostFull(Run(p, BOOT, es))
  {
    if es != [] {
      RunAtMostFull(p, es[..|es| - 1]);
      StepKeepsAtMostFull(p, Run(p, BOOT, es[..|es| - 1]), es[|es| - 1]);
    }
  }

  /** With a maximum above 100 percent an automated fill never ends: no sample of any run stops it. */
  lemma {:induction false} FillNeverEnds(p: Plant, es: seq<Event>, fs: seq<Event>)
    requires p.auto.maxL > 100.0 && Run(p, BOOT, es).auto.fillM
    ensures Run(p, BOOT, es + fs).auto.fillM
  {
    RunSplits(p, BOOT, es, fs);
    if fs == [] {
      assert es + fs == es;
    } else {
      var n := |fs| - 1;
      var t := Run(p, BOOT, es + fs[..n]);
      FillNeverEnds(p, es, fs[..n]);
      RunSplits(p, BOOT, es, fs[..n]);
      RunAtMostFull(p, es + fs[..n]);
      F.FillFlagIsLatch(p, es + fs[..n]);
      StepKeepsFilling(p, t, fs[n]);
    }
  }

  lemma StepKeepsFilling(p: Plant, s: State, e: Event)
    requires p.auto.maxL > 100.0 && Filling(p) && s.auto.fillM && s.readings.level <= 100.0
    ensures Step(p, s, e).auto.fillM
  {}

  // ---------- exactly for which maxima the limit holds ----------

  /** If the input rises at most d per update from x0 and the device is filling, the input is below the limit. */
  predicate LimitHolds(p: Plant, es: seq<Event>, x0: real, d: real) {
    var s := Run(p, BOOT, es);
    d >= 0.0 && E.RisesAtMost(x0, O.InputLevels(p, s), d) && s.auto.fillM ==>
      && s.hist.sampled <= |s.hist.inputs|
      && E.LastOf(x0, O.InputLevels(p, s)) < O.InputLimit(p, s.hist.sampled, |s.hist.inputs| - s.hist.sampled, x0, d)
  }

  /** The highest average a block can have: readings of 2^32 - 1 mV. */
  const TOP_VOLTS: real := 4294967.295

  /** The highest level the filter can be fed; with the calibration from boot that is 178956970.625 percent. */
  function Top(cal: S.Calibration): real {
    S.Percent(cal, TOP_VOLTS)
  }

  lemma AverageAtMostTop(xs: S.Block)
    ensures 0.0 <= S.Average(xs) <= TOP_VOLTS
  {
    QuotientShrinks(S.SumWords(xs) as real, |xs| as real);
  }

  lemma QuotientShrinks(x: real, n: real)
    requires x >= 0.0 && n >= 1.0
    ensures 0.0 <= x / n <= x
  {
    var q := x / n;
    assert x == q * n;
    assert q >= 0.0;
    assert q * n >= q * 1.0;
  }

  lemma {:induction false} InputsAtMostTop(p: Plant, es: seq<Event>)
    ensures forall i :: 0 <= i < |Run(p, BOOT, es).hist.inputs| ==> Run(p, BOOT, es).hist.inputs[i] <= TOP_VOLTS
  {
    if es != [] {
      var n := |es| - 1;
      InputsAtMostTop(p, es[..n]);
      if es[n].AdcUpdate? {
        AverageAtMostTop(es[n].samples);
      }
    }
  }

  lemma {:induction false} FoldBelow(v0: real, xs: seq<real>, top: real)
    requires v0 < top && forall i :: 0 <= i < |xs| ==> xs[i] <= top
    ensures E.Fold(v0, xs) < top
  {
    if xs != [] {
      FoldBelow(v0, xs[..|xs| - 1], top);
    }
  }

  lemma LevelAtMost(cal: S.Calibration, v: real, w: real)
    requires cal.minV < cal.maxV && v <= w
    ensures S.Percent(cal, v) <= S.Percent(cal, w)
  {
    if v < w {
      S.PercentMonotone(cal, v, w);
    }
  }

  /** No filtered level reaches what a block can measure at most. */
  lemma FilteredBelowTop(p: Plant, es: seq<Event>, n: nat)
    requires p.cal.minV < p.cal.maxV && n <= |Run(p, BOOT, es).hist.inputs|
    ensures E.Fold(S.Percent(p.cal, 0.0), O.InputLevels(p, Run(p, BOOT, es))[..n]) < Top(p.cal)
  {
    var xs := O.InputLevels(p, Run(p, BOOT, es))[..n];
    InputsAtMostTop(p, es);
    forall i | 0 <= i < |xs|
      ensures xs[i] <= Top(p.cal)
    {
      LevelAtMost(p.cal, Run(p, BOOT, es).hist.inputs[i], TOP_VOLTS);
    }
    S.PercentMonotone(p.cal, 0.0, TOP_VOLTS);
    FoldBelow(S.Percent(p.cal, 0.0), xs, Top(p.cal));
  }

  /** An input that rises slowly is below the limit if the filtered level behind the sample is below maxL + 0.005. */
  lemma FilteredBelowLimit(p: Plant, xs: seq<real>, n: nat, x0: real, d: real)
    requires d >= 0.0 && E.RisesAtMost(x0, xs, d) && n <= |xs|
    requires E.Fold(S.Percent(p.cal, 0.0), xs[..n]) < p.auto.maxL + 0.005
    ensures E.LastOf(x0, xs) < O.InputLimit(p, n, |xs| - n, x0, d)
  {
    var start := S.Percent(p.cal, 0.0);
    O.RiseSince(x0, xs, d, n);
    E.TracksRise(x0, start, xs[..n], d);
    E.LeadMonotone(n, x0 - start, O.HeadStart(p, x0), d);
  }

  /** Above what a block can measure the limit holds, because no filtered level gets there. */
  lemma HoldsAboveTop(p: Plant, es: seq<Event>, x0: real, d: real)
    requires p.cal.minV < p.cal.maxV && p.auto.maxL + 0.005 >= Top(p.cal)
    ensures LimitHolds(p, es, x0, d)
  {
    var s := Run(p, BOOT, es);
    if d >= 0.0 && E.RisesAtMost(x0, O.InputLevels(p, s), d) {
      O.PipelineStaysSound(p, es);
      FilteredBelowTop(p, es, s.hist.sampled);
      FilteredBelowLimit(p, O.InputLevels(p, s), s.hist.sampled, x0, d);
    }
  }

  // ---------- a run that breaks it ----------

  const STARTED: seq<Event> := [] + [Advance(1000)] + [PollAuto]

  function Blocks(n: nat): seq<Event> {
    if n == 0 then [] else Blocks(n - 1) + [AdcUpdate([4294967295])]
  }

  function Tops(n: nat): seq<real> {
    if n == 0 then [] else Tops(n - 1) + [TOP_VOLTS]
  }

  lemma RunSnoc(p: Plant, s: State, es: seq<Event>, e: Event)
    ensures Run(p, s, es + [e]) == Step(p, Run(p, s, es), e)
  {
    assert (es + [e])[..|es|] == es;
  }

  predicate Startable(p: Plant) {
    Filling(p) && p.auto.maxL > 100.0 && p.auto.fillL >= 0.0
  }

  lemma FillStarted(p: Plant)
    requires Startable(p)
    ensures var s := Run(p, BOOT, STARTED);
            s.auto.fillM && s.auto.millis == 1000 == s.clock && s.scanMillis == 0 && s.hist.inputs == []
  {
    RunSnoc(p, BOOT, [], Advance(1000));
    RunSnoc(p, BOOT, [] + [Advance(1000)], PollAuto);
  }

  lemma TopBlock()
    ensures S.Average([4294967295]) == TOP_VOLTS
  {
    assert [4294967295][..0] == [] && S.SumWords([4294967295]) == 4294967295;
  }

  lemma {:induction false} BlocksRun(p: Plant, s: State, n: nat)
    requires s.hist.inputs == []
    ensures var t := Run(p, s, Blocks(n));
            && t.hist.inputs == Tops(n) && t.auto == s.auto
            && t.clock == s.clock && t.scanMillis == s.scanMillis
  {
    if n > 0 {
      BlocksRun(p, s, n - 1);
      TopBlock();
      RunSnoc(p, s, Blocks(n - 1), AdcUpdate([4294967295]));
    }
  }

  function Breaking(n: nat): seq<Event> {
    Blocks(n) + [PollScan(0.0)] + [Advance(1000)] + [PollAuto]
  }

  lemma ScanSees(p: Plant, s: State)
    requires s.scanMillis == 0 && s.clock == 1000
    ensures var t := Step(p, s, PollScan(0.0));
            t.auto == s.auto && t.clock == s.clock && t.hist.inputs == s.hist.inputs && t.hist.scanned == |s.hist.inputs|
  {}

  lemma TickSees(p: Plant, s: State)
    requires Startable(p) && s.auto.millis == 1000 == s.clock
    ensures var t := Step(p, Step(p, s, Advance(1000)), PollAuto);
            t.hist.inputs == s.hist.inputs && t.hist.sampled == s.hist.scanned
  {}

  lemma BreakingRun(p: Plant, n: nat)
    requires Startable(p)
    ensures var s := Run(p, BOOT, STARTED + Breaking(n));
            s.auto.fillM && s.hist.inputs == Tops(n) && s.hist.sampled == |Tops(n)|
  {
    var s0 := Run(p, BOOT, STARTED);
    FillStarted(p);
    BlocksRun(p, s0, n);
    RunSnoc(p, s0, Blocks(n), PollScan(0.0));
    RunSnoc(p, s0, Blocks(n) + [PollScan(0.0)], Advance(1000));
    RunSnoc(p, s0, Blocks(n) + [PollScan(0.0)] + [Advance(1000)], PollAuto);
    ScanSees(p, Run(p, s0, Blocks(n)));
    TickSees(p, Run(p, s0, Blocks(n) + [PollScan(0.0)]));
    RunSplits(p, BOOT, STARTED, Breaking(n));
    FillNeverEnds(p, STARTED, Breaking(n));
  }

  lemma {:induction false} TopsAreTop(n: nat)
    ensures |Tops(n)| == n && forall i :: 0 <= i < n ==> Tops(n)[i] == TOP_VOLTS
  {
    if n > 0 {
      TopsAreTop(n - 1);
    }
  }

  lemma {:induction false} SteadyInput(x: real, xs: seq<real>)
    requires forall i :: 0 <= i < |xs| ==> xs[i] == x
    ensures E.RisesAtMost(x, xs, 0.0) && E.LastOf(x, xs) == x
  {
    if xs != [] {
      SteadyInput(x, xs[..|xs| - 1]);
    }
  }

  /** The weight of the start falls below every positive bound. */
  lemma {:induction false} PowBelow(n: nat)
    ensures E.Pow(n) * (1.0 + 0.3 * n as real) <= 1.0
  {
    if n > 0 {
      PowBelow(n - 1);
      PowBelowStep(E.Pow(n - 1), (n - 1) as real);
      assert n as real == (n - 1) as real + 1.0;
    }
  }

  lemma PowBelowStep(t: real, x: real)
    requires 0.0 <= t && x >= 0.0 && t * (1.0 + 0.3 * x) <= 1.0
    ensures 0.7 * t * (1.0 + 0.3 * (x + 1.0)) <= 1.0
  {
    assert 0.7 * t * (1.0 + 0.3 * (x + 1.0)) == 0.91 * t + 0.21 * (t * x);
    assert t * (1.0 + 0.3 * x) == t + 0.3 * (t * x);
    E.ScaleMonotone(t, 0.0, x);
  }

  lemma SmallPow(a: real, delta: real) returns (n: nat)
    requires a > 0.0 && delta > 0.0
    ensures E.Pow(n) * a < delta
  {
    var q := a / delta / 0.3;
    QuotientOf(a, delta);
    n := q.Floor + 1;
    PowBelow(n);
    SmallProduct(E.Pow(n), n as real, a, delta);
  }

  lemma QuotientOf(a: real, delta: real)
    requires a > 0.0 && delta > 0.0
    ensures a / delta / 0.3 >= 0.0 && a == 0.3 * (a / delta / 0.3) * delta
  {
    var q := a / delta;
    assert a == q * delta;
    assert q >= 0.0;
  }

  lemma SmallProduct(t: real, x: real, a: real, delta: real)
    requires 0.0 < t && t * (1.0 + 0.3 * x) <= 1.0 && delta > 0.0 && a > 0.0
    requires x > a / delta / 0.3
    ensures t * a < delta
  {
    QuotientOf(a, delta);
    var q := a / delta / 0.3;
    assert 0.3 * q * delta <= 0.3 * x * delta by {
      E.ScaleMonotone(0.3 * delta, q, x);
    }
    E.ScaleMonotone(t, a, 0.3 * x * delta);
    E.ScaleMonotone(delta, t * (1.0 + 0.3 * x), 1.0);
    assert delta * (t * (1.0 + 0.3 * x)) == t * (0.3 * x * delta) + delta * t;
    assert delta * t > 0.0;
  }

  lemma SteadyLead(n: nat, e: real)
    ensures E.Lead(n, e, 0.0) == E.Pow(n) * e
  {}

  lemma BreakingLimit(p: Plant, n: nat, x0: real)
    requires E.Pow(n) * O.HeadStart(p, x0) < x0 - p.auto.maxL - 0.005
    ensures O.InputLimit(p, n, 0, x0, 0.0) < x0
  {
    SteadyLead(n, O.HeadStart(p, x0));
    assert O.Rise(0, 0.0) == 0.0;
  }

  /** A steady input at the top, for as many blocks as it takes, breaks the limit. */
  lemma SteadyTopBreaks(p: Plant, n: nat)
    requires Startable(p) && E.Pow(n) * O.HeadStart(p, Top(p.cal)) < Top(p.cal) - p.auto.maxL - 0.005
    ensures !LimitHolds(p, STARTED + Breaking(n), Top(p.cal), 0.0)
  {
    var s := Run(p, BOOT, STARTED + Breaking(n));
    BreakingRun(p, n);
    TopsAreTop(n);
    SteadyInput(Top(p.cal), O.InputLevels(p, s));
    BreakingLimit(p, n, Top(p.cal));
    assert |s.hist.inputs| - s.hist.sampled == 0;
  }

  /** For every maximum above 100 that a block can still exceed, some run breaks the limit while filling. */
  lemma FailsBetween(p: Plant)
    requires Startable(p) && p.auto.maxL + 0.005 < Top(p.cal)
    ensures exists es, x0, d :: !LimitHolds(p, es, x0, d)
  {
    var n := SmallPow(O.HeadStart(p, Top(p.cal)), Top(p.cal) - p.auto.maxL - 0.005);
    SteadyTopBreaks(p, n);
  }

  /**
   * For every calibration with minV below maxV, every maximum, and every fill level an empty tank can start from: the limit
   * holds on all runs if and only if the maximum is at most 100, or so high that no block of readings can exceed it.
   */
  lemma GuardIsExact(p: Plant)
    requires p.cal.minV < p.cal.maxV && Filling(p) && p.auto.fillL >= 0.0
    ensures (forall es, x0, d :: LimitHolds(p, es, x0, d)) <==> p.auto.maxL <= 100.0 || p.auto.maxL + 0.005 >= Top(p.cal)
  {
    if p.auto.maxL <= 100.0 || p.auto.maxL + 0.005 >= Top(p.cal) {
      forall es, x0, d
        ensures LimitHolds(p, es, x0, d)
      {
        if p.auto.maxL + 0.005 >= Top(p.cal) {
          HoldsAboveTop(p, es, x0, d);
        } else {
          HoldsBelowFull(p, es, x0, d);
        }
      }
    } else {
      FailsBetween(p);
    }
  }

  lemma HoldsBelowFull(p: Plant, es: seq<Event>, x0: real, d: real)
    requires p.auto.maxL <= 100.0
    ensures LimitHolds(p, es, x0, d)
  {
    var s := Run(p, BOOT, es);
    if d >= 0.0 && E.RisesAtMost(x0, O.InputLevels(p, s), d) && s.auto.fillM {
      O.OverfillBound(p, es, x0, d);
    }
  }
}
