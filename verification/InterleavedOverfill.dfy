/**
 * The closed loop with the ADC tasks taken apart: scans, tasks and the automation interleave freely, and
 * updates may be lost. How far above its limit can the tank be while the firmware is filling?
 */
module InterleavedOverfill {
  import opened Words
  import E = Ema
  import S = Sensor
  import R = Relays
  import A = Automation
  import T = AdcTasks
  import O = Overfill
  import C = Controller

  /** The tasks and the scan, the automation, and the level it last sampled with the store count of its voltage. */
  datatype State = State(adc: T.State, auto: A.Auto, sample: real, sampleAt: nat)

  const BOOT := State(T.BOOT, A.BOOT, 0.0, 0)

  /** `Others`: the API or a timer leaves the relays in some state. */
  datatype Event = Adc(e: T.Event) | PollAuto(now: word) | Others(relays: R.Bank)

  function Step(p: C.Plant, s: State, e: Event): State {
    match e
    case Adc(e) => s.(adc := T.Step(p.cal, s.adc, e))
    case PollAuto(now) =>
      if A.Ticks(p.auto, s.auto, now)
      then s.(auto := A.Loop(p.auto, s.auto, s.adc.level, now), sample := s.adc.level, sampleAt := s.adc.levelAt)
      else s
    case Others(relays) => s.(auto := s.auto.(relays := relays))
  }

  function Run(p: C.Plant, es: seq<Event>): State {
    if es == [] then BOOT else Step(p, Run(p, es[..|es| - 1]), es[|es| - 1])
  }

  function AdcEvents(es: seq<Event>): seq<T.Event> {
    if es == [] then []
    else
      var front, e := AdcEvents(es[..|es| - 1]), es[|es| - 1];
      if e.Adc? then front + [e.e] else front
  }

  lemma {:induction false} AdcRun(p: C.Plant, es: seq<Event>)
    ensures Run(p, es).adc == T.Run(p.cal, AdcEvents(es))
  {
    if es != [] {
      var n := |es| - 1;
      AdcRun(p, es[..n]);
      if es[n].Adc? {
        assert AdcEvents(es)[..|AdcEvents(es)| - 1] == AdcEvents(es[..n]);
      }
    }
  }

  // ---------- where a sample comes from ----------

  /** The level is what a scan cached from the voltage after k stores, or the value from boot. */
  predicate LevelAfter(p: C.Plant, adc: T.State, level: real, k: nat) {
    k < |adc.voltages| && ((k == 0 && level == 0.0) || level == S.Round2(S.Level(p.cal, adc.voltages[k])))
  }

  /** While filling, the last sample was below the maximum. */
  predicate LoopSound(p: C.Plant, s: State) {
    && |s.adc.voltages| == |s.adc.stored| + 1 && s.adc.latest == s.adc.voltages[|s.adc.stored|]
    && LevelAfter(p, s.adc, s.adc.level, s.adc.levelAt)
    && LevelAfter(p, s.adc, s.sample, s.sampleAt)
    && (s.auto.fillM ==> s.sample < p.auto.maxL)
  }

  lemma AdcKeepsLoop(p: C.Plant, s: State, e: T.Event)
    requires LoopSound(p, s)
    ensures LoopSound(p, Step(p, s, Adc(e)))
  {
    var adc' := T.Step(p.cal, s.adc, e);
    assert forall k :: 0 <= k < |s.adc.voltages| ==> adc'.voltages[k] == s.adc.voltages[k];
  }

  lemma FillingBelowMax(cfg: A.Config, a: A.Auto, level: real)
    requires A.Tick(cfg, a, level).fillM
    ensures level < cfg.maxL
  {
    if cfg.mode == 1 || cfg.mode == 2 {
      A.TickIsLatchStep(cfg, a, level);
    }
  }

  lemma {:induction false} LoopStaysSound(p: C.Plant, es: seq<Event>)
    ensures LoopSound(p, Run(p, es))
  {
    if es != [] {
      var s, e := Run(p, es[..|es| - 1]), es[|es| - 1];
      LoopStaysSound(p, es[..|es| - 1]);
      match e {
        case Adc(e) => AdcKeepsLoop(p, s, e);
        case PollAuto(now) =>
          if A.Ticks(p.auto, s.auto, now) && Run(p, es).auto.fillM {
            FillingBelowMax(p.auto, s.auto.(millis := now), s.adc.level);
          }
        case Others(_) =>
      }
    }
  }

  // ---------- the levels behind a voltage ----------

  /** The input levels of the tasks `ids`, in percent. */
  function Levels(p: C.Plant, adc: T.State, ids: seq<nat>): (xs: seq<real>)
    ensures |xs| == |ids|
  {
    S.Percents(p.cal, T.Averages(adc.tasks, ids))
  }

  /** The input level each store was given, in store order. */
  function InputLevels(p: C.Plant, adc: T.State): seq<real> {
    Levels(p, adc, adc.stored)
  }

  lemma LevelsSnoc(p: C.Plant, adc: T.State, ids: seq<nat>, m: nat)
    requires m < |adc.stored|
    ensures Levels(p, adc, ids + [adc.stored[m]]) == Levels(p, adc, ids) + [InputLevels(p, adc)[m]]
  {}

  lemma RisesSnoc(x0: real, ys: seq<real>, x: real, d: real)
    requires E.RisesAtMost(x0, ys, d) && x - E.LastOf(x0, ys) <= d
    ensures E.RisesAtMost(x0, ys + [x], d)
  {
    assert (ys + [x])[..|ys|] == ys;
  }

  /**
   * The levels retained behind the voltage after m stores end on the same input as all of the first m,
   * and rise k + 1 times as steeply at most.
   */
  lemma {:induction false} RetainedRise(p: C.Plant, adc: T.State, k: nat, m: nat, x0: real, d: real)
    requires T.Linked(adc, k) && m <= |adc.stored| && d >= 0.0
    requires E.RisesAtMost(x0, InputLevels(p, adc), d)
    ensures var xs, ys := InputLevels(p, adc), Levels(p, adc, adc.chains[m]);
            E.RisesAtMost(x0, ys, O.Rise(k + 1, d)) && E.LastOf(x0, ys) == E.LastOf(x0, xs[..m])
  {
    if m > 0 {
      assert T.LinkedAt(adc, m, k);
      var at: nat :| m - 1 - k <= at < m && adc.chains[m] == adc.chains[at] + [adc.stored[m - 1]];
      RetainedRise(p, adc, k, at, x0, d);
      LevelsSnoc(p, adc, adc.chains[at], m - 1);
      RetainedStep(x0, InputLevels(p, adc), Levels(p, adc, adc.chains[at]), d, at, m, k);
    }
  }

  /** One more retained level, at most k + 1 stores after the one before it. */
  lemma RetainedStep(x0: real, xs: seq<real>, ys: seq<real>, d: real, at: nat, m: nat, k: nat)
    requires at < m <= |xs| && m - at <= k + 1 && d >= 0.0 && E.RisesAtMost(x0, xs, d)
    requires E.RisesAtMost(x0, ys, O.Rise(k + 1, d)) && E.LastOf(x0, ys) == E.LastOf(x0, xs[..at])
    ensures E.RisesAtMost(x0, ys + [xs[m - 1]], O.Rise(k + 1, d))
    ensures E.LastOf(x0, ys + [xs[m - 1]]) == E.LastOf(x0, xs[..m])
  {
    RiseBetween(x0, xs, d, at, m);
    O.RiseMonotone(m - at, k + 1, d);
    RisesSnoc(x0, ys, xs[m - 1], O.Rise(k + 1, d));
  }

  lemma RiseBetween(x0: real, xs: seq<real>, d: real, at: nat, m: nat)
    requires E.RisesAtMost(x0, xs, d) && at <= m <= |xs|
    ensures E.LastOf(x0, xs[..m]) <= E.LastOf(x0, xs[..at]) + O.Rise(m - at, d)
  {
    O.RiseSince(x0, xs, d, m);
    O.RiseSince(x0, xs[..m], d, at);
    assert xs[..m][..at] == xs[..at];
  }

  // ---------- the bound ----------

  /** A sample below the maximum bounds the input at the store its voltage ends on. */
  lemma SampledStoreBound(p: C.Plant, adc: T.State, sample: real, at: nat, k: nat, x0: real, d: real)
    requires p.auto.maxL <= 100.0 && d >= 0.0 && T.Provenance(adc) && T.Linked(adc, k)
    requires LevelAfter(p, adc, sample, at) && sample < p.auto.maxL
    requires E.RisesAtMost(x0, InputLevels(p, adc), d)
    ensures E.LastOf(x0, InputLevels(p, adc)[..at]) <
            p.auto.maxL + 0.005 + E.Lead(|adc.chains[at]|, O.HeadStart(p, x0), O.Rise(k + 1, d))
  {
    var ids := adc.chains[at];
    var inputs := T.Averages(adc.tasks, ids);
    assert T.BuiltFrom(adc.tasks, adc.stored[..at], adc.voltages[at], ids);
    assert inputs[..|ids|] == inputs && Levels(p, adc, ids)[..|ids|] == Levels(p, adc, ids);
    RetainedRise(p, adc, k, at, x0, d);
    O.RiseMonotone(0, k + 1, d);
    O.SampledInputBound(p, sample, inputs, |ids|, x0, O.Rise(k + 1, d));
  }

  /** The limit: n updates are retained in the voltage last sampled, and m stores came after it. */
  function Limit(p: C.Plant, n: nat, m: nat, k: nat, x0: real, d: real): real {
    p.auto.maxL + 0.005 + E.Lead(n, O.HeadStart(p, x0), O.Rise(k + 1, d)) + O.Rise(m, d)
  }

  lemma InputBound(p: C.Plant, adc: T.State, sample: real, at: nat, k: nat, x0: real, d: real)
    requires p.auto.maxL <= 100.0 && d >= 0.0 && T.Provenance(adc) && T.Linked(adc, k)
    requires LevelAfter(p, adc, sample, at) && sample < p.auto.maxL
    requires E.RisesAtMost(x0, InputLevels(p, adc), d)
    ensures E.LastOf(x0, InputLevels(p, adc)) < Limit(p, |T.ChainAt(adc, at)|, |adc.stored| - at, k, x0, d)
  {
    SampledStoreBound(p, adc, sample, at, k, x0, d);
    O.RiseSince(x0, InputLevels(p, adc), d, at);
    assert O.Rise(|adc.stored| - at, d) == O.Rise(|InputLevels(p, adc)| - at, d);
  }

  lemma LoopFacts(p: C.Plant, es: seq<Event>, k: nat)
    requires T.OvertakenBy(p.cal, AdcEvents(es), k)
    ensures var s := Run(p, es); LoopSound(p, s) && T.Provenance(s.adc) && T.Linked(s.adc, k)
  {
    AdcRun(p, es);
    T.VoltageIsFilterOfSomeTasks(p.cal, AdcEvents(es));
    T.RunIsLinked(p.cal, AdcEvents(es), k);
    LoopStaysSound(p, es);
  }

  /** The input is below the limit, for what the sample retains and what came after it. */
  predicate BelowLimit(p: C.Plant, s: State, k: nat, x0: real, d: real) {
    && s.sampleAt <= |s.adc.stored|
    && E.LastOf(x0, InputLevels(p, s.adc)) <
       Limit(p, |T.ChainAt(s.adc, s.sampleAt)|, |s.adc.stored| - s.sampleAt, k, x0, d)
  }

  lemma BelowLimitFromFacts(p: C.Plant, s: State, k: nat, x0: real, d: real)
    requires p.auto.maxL <= 100.0 && d >= 0.0
    requires LoopSound(p, s) && T.Provenance(s.adc) && T.Linked(s.adc, k)
    requires E.RisesAtMost(x0, InputLevels(p, s.adc), d)
    requires s.auto.fillM
    ensures BelowLimit(p, s, k, x0, d)
  {
    InputBound(p, s.adc, s.sample, s.sampleAt, k, x0, d);
  }

  /**
   * On every interleaving in which no task is overtaken by more than k others between its load and its
   * store, whenever the fill flag is on: if the input level rises at most d points per store from x0, it
   * now lies below
   *   maxL + 0.005 + 0.7^n e0 + (7/3) (k + 1) d (1 - 0.7^n) + m d,
   * where n stores are retained in the voltage last sampled, m came after it, and e0 is the head start of x0.
   */
  lemma InterleavedOverfillBound(p: C.Plant, es: seq<Event>, k: nat, x0: real, d: real)
    requires p.auto.maxL <= 100.0 && d >= 0.0
    requires T.OvertakenBy(p.cal, AdcEvents(es), k)
    requires E.RisesAtMost(x0, InputLevels(p, Run(p, es).adc), d)
    requires Run(p, es).auto.fillM
    ensures BelowLimit(p, Run(p, es), k, x0, d)
  {
    LoopFacts(p, es, k);
    BelowLimitFromFacts(p, Run(p, es), k, x0, d);
  }

  /** On those interleavings at least every (k + 1)-th of the stores up to the voltage last sampled is retained in it. */
  lemma SampleRetainsEnough(p: C.Plant, es: seq<Event>, k: nat)
    requires T.OvertakenBy(p.cal, AdcEvents(es), k)
    ensures var s := Run(p, es); s.sampleAt <= |T.ChainAt(s.adc, s.sampleAt)| * (k + 1)
  {
    LoopFacts(p, es, k);
    T.RetainedUpdates(Run(p, es).adc, k, Run(p, es).sampleAt);
  }
}
