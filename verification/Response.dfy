/**
 * What the firmware does in time. The voltage is the filter over all blocks of the run; with scan and
 * automation polled less than L ms apart, what they decide on was the filtered level a bounded time ago.
 */
module Response {
  import opened Words
  import A = Automation
  import E = Ema
  import F = FillFlag
  import G = Gate
  import O = Override
  import S = Sensor
  import Latch
  import opened Controller

  // ---------- what a run consists of ----------

  function Elapsed(es: seq<Event>): nat {
    if es == [] then 0
    else
      var e := es[|es| - 1];
      Elapsed(es[..|es| - 1]) + (if e.Advance? then e.ms else 0)
  }

  /** The averages of the blocks the converter delivered. */
  function BlockAverages(es: seq<Event>): seq<real> {
    if es == [] then []
    else
      var front, e := BlockAverages(es[..|es| - 1]), es[|es| - 1];
      if e.AdcUpdate? then front + [S.Average(e.samples)] else front
  }

  /** On every run the clock counts the time passed, and the voltage is the filter over every block delivered, none left out. */
  lemma {:induction false} VoltageFiltersAllBlocks(p: Plant, es: seq<Event>)
    ensures var s := Run(p, BOOT, es);
            && s.clock == Elapsed(es)
            && s.hist.inputs == BlockAverages(es)
            && s.readings.latest == E.Fold(0.0, BlockAverages(es))
  {
    if es != [] {
      var n := |es| - 1;
      VoltageFiltersAllBlocks(p, es[..n]);
      if es[n].AdcUpdate? {
        E.FoldSnoc(0.0, BlockAverages(es[..n]), S.Average(es[n].samples));
      }
    }
  }

  // ---------- the cached level is recent ----------

  /** What a scan after the first i events of the run would have cached. */
  function LevelThen(p: Plant, es: seq<Event>, i: nat): real
    requires i <= |es|
  {
    S.Round2(S.Level(p.cal, E.Fold(0.0, BlockAverages(es[..i]))))
  }

  /** That level was current at time t of the run, or it is the value from boot and t is 0. */
  ghost predicate CurrentAt(p: Plant, es: seq<Event>, level: real, t: nat) {
    || (t == 0 && level == 0.0)
    || exists i :: 0 <= i <= |es| && Elapsed(es[..i]) == t && level == LevelThen(p, es, i)
  }

  lemma CurrentStays(p: Plant, es: seq<Event>, e: Event, level: real, t: nat)
    requires CurrentAt(p, es, level, t)
    ensures CurrentAt(p, es + [e], level, t)
  {
    if !(t == 0 && level == 0.0) {
      var i :| 0 <= i <= |es| && Elapsed(es[..i]) == t && level == LevelThen(p, es, i);
      assert (es + [e])[..i] == es[..i];
      assert Elapsed((es + [e])[..i]) == t && level == LevelThen(p, es + [e], i);
    }
  }

  lemma CurrentNow(p: Plant, es: seq<Event>, e: Event)
    ensures CurrentAt(p, es + [e], LevelThen(p, es, |es|), Elapsed(es))
  {
    assert (es + [e])[..|es|] == es && es[..|es|] == es;
    assert Elapsed((es + [e])[..|es|]) == Elapsed(es) && LevelThen(p, es, |es|) == LevelThen(p, es + [e], |es|);
  }

  /** At every point of the run scan and automation were last polled less than L ms ago. */
  predicate PolledEvery(p: Plant, es: seq<Event>, L: nat) {
    && (es == [] || PolledEvery(p, es[..|es| - 1], L))
    && Run(p, BOOT, es).clock - Run(p, BOOT, es).hist.scanPolled < L
    && Run(p, BOOT, es).clock - Run(p, BOOT, es).hist.autoPolled < L
  }

  predicate ScanGateSound(s: State) {
    && s.scanMillis == Wrap(s.hist.scanFired)
    && s.hist.scanFired <= s.hist.scanPolled <= s.clock
    && s.hist.scanPolled - s.hist.scanFired < S.SCAN_INTERVAL
  }

  /** The level was current at time t, less than SCAN_INTERVAL + L before `fired`. */
  ghost predicate CurrentBefore(p: Plant, es: seq<Event>, level: real, fired: nat, L: nat, t: nat) {
    t <= fired < t + S.SCAN_INTERVAL + L && CurrentAt(p, es, level, t)
  }

  function Last(xs: seq<real>): real
    requires xs != []
  {
    xs[|xs| - 1]
  }

  /** The last sample was current not long before the automation last ticked. */
  ghost predicate SampleRecent(p: Plant, es: seq<Event>, h: History, L: nat) {
    if h.samples == [] then h.autoFired == 0
    else exists t: nat :: CurrentBefore(p, es, Last(h.samples), h.autoFired, L, t)
  }

  /** The cached level was current when the scan last fired. */
  ghost predicate Recent(p: Plant, es: seq<Event>, L: nat) {
    var s := Run(p, BOOT, es);
    ScanGateSound(s) && CurrentAt(p, es, s.readings.level, s.hist.scanFired) && SampleRecent(p, es, s.hist, L)
  }

  lemma StepKeepsScanGate(p: Plant, s: State, e: Event, L: nat)
    requires ScanGateSound(s) && s.clock - s.hist.scanPolled < L && L + S.SCAN_INTERVAL <= WORD
    ensures ScanGateSound(Step(p, s, e))
  {
    if e.PollScan? {
      G.DueIsExact(s.hist.scanFired, s.clock, S.SCAN_INTERVAL);
    }
  }

  lemma ScanCaches(p: Plant, es: seq<Event>, e: Event)
    requires e.PollScan?
    ensures var s, s' := Run(p, BOOT, es), Step(p, Run(p, BOOT, es), e);
            s'.readings.level == (if s'.scanMillis == s.scanMillis && !G.Due(s.scanMillis, Millis(s), S.SCAN_INTERVAL)
                                  then s.readings.level else LevelThen(p, es, |es|))
  {
    VoltageFiltersAllBlocks(p, es);
    assert es[..|es|] == es;
  }

  lemma StepKeepsLevelCurrent(p: Plant, es: seq<Event>, e: Event)
    requires CurrentAt(p, es, Run(p, BOOT, es).readings.level, Run(p, BOOT, es).hist.scanFired)
    ensures var s' := Step(p, Run(p, BOOT, es), e);
            CurrentAt(p, es + [e], s'.readings.level, s'.hist.scanFired)
  {
    var s := Run(p, BOOT, es);
    if e.PollScan? && G.Due(s.scanMillis, Millis(s), S.SCAN_INTERVAL) {
      VoltageFiltersAllBlocks(p, es);
      ScanCaches(p, es, e);
      CurrentNow(p, es, e);
    } else {
      CurrentStays(p, es, e, s.readings.level, s.hist.scanFired);
    }
  }

  lemma TickSamples(p: Plant, s: State)
    ensures var h, h' := s.hist, Automated(p, s).hist;
            if A.Ticks(p.auto, s.auto, Millis(s))
            then h'.samples == h.samples + [s.readings.level] && h'.autoFired == s.clock
            else h'.samples == h.samples && h'.autoFired == h.autoFired
  {}

  lemma SampleCarries(p: Plant, es: seq<Event>, e: Event, h: History, h': History, L: nat)
    requires SampleRecent(p, es, h, L) && h'.samples == h.samples && h'.autoFired == h.autoFired
    ensures SampleRecent(p, es + [e], h', L)
  {
    if h.samples != [] {
      var x := Last(h.samples);
      var t: nat :| CurrentBefore(p, es, x, h.autoFired, L, t);
      CurrentStays(p, es, e, x, t);
      assert CurrentBefore(p, es + [e], Last(h'.samples), h'.autoFired, L, t);
    }
  }

  lemma NewSampleRecent(p: Plant, es: seq<Event>, e: Event, h: History, h': History, level: real, L: nat)
    requires CurrentAt(p, es, level, h.scanFired)
    requires h'.samples == h.samples + [level] && h.scanFired <= h'.autoFired < h.scanFired + S.SCAN_INTERVAL + L
    ensures SampleRecent(p, es + [e], h', L)
  {
    CurrentStays(p, es, e, level, h.scanFired);
    assert CurrentBefore(p, es + [e], Last(h'.samples), h'.autoFired, L, h.scanFired);
  }

  lemma OtherStepsKeepSamples(p: Plant, s: State, e: Event)
    requires !e.PollAuto?
    ensures Step(p, s, e).hist.samples == s.hist.samples && Step(p, s, e).hist.autoFired == s.hist.autoFired
  {}

  lemma StepKeepsSampleRecent(p: Plant, es: seq<Event>, e: Event, L: nat)
    requires Recent(p, es, L)
    requires Run(p, BOOT, es).clock - Run(p, BOOT, es).hist.scanPolled < L
    ensures SampleRecent(p, es + [e], Step(p, Run(p, BOOT, es), e).hist, L)
  {
    var s := Run(p, BOOT, es);
    var h' := Step(p, s, e).hist;
    if !e.PollAuto? {
      OtherStepsKeepSamples(p, s, e);
      SampleCarries(p, es, e, s.hist, h', L);
    } else {
      TickSamples(p, s);
      if A.Ticks(p.auto, s.auto, Millis(s)) {
        NewSampleRecent(p, es, e, s.hist, h', s.readings.level, L);
      } else {
        SampleCarries(p, es, e, s.hist, h', L);
      }
    }
  }

  lemma {:induction false} StaysRecent(p: Plant, es: seq<Event>, L: nat)
    requires PolledEvery(p, es, L) && L + S.SCAN_INTERVAL <= WORD
    ensures Recent(p, es, L)
  {
    if es != [] {
      var front, e := es[..|es| - 1], es[|es| - 1];
      StaysRecent(p, front, L);
      StepKeepsScanGate(p, Run(p, BOOT, front), e, L);
      StepKeepsLevelCurrent(p, front, e);
      StepKeepsSampleRecent(p, front, e, L);
      assert front + [e] == es;
    }
  }

  /** With scan polls less than L apart, the cached level is that of the filtered voltage less than SCAN_INTERVAL + L ms ago, or from boot. */
  lemma CachedLevelIsRecent(p: Plant, es: seq<Event>, L: nat)
    requires PolledEvery(p, es, L) && L + S.SCAN_INTERVAL <= WORD
    ensures exists t: nat :: CurrentBefore(p, es, Run(p, BOOT, es).readings.level, Elapsed(es), L, t)
  {
    StaysRecent(p, es, L);
    VoltageFiltersAllBlocks(p, es);
    assert CurrentBefore(p, es, Run(p, BOOT, es).readings.level, Elapsed(es), L, Run(p, BOOT, es).hist.scanFired);
  }

  // ---------- and so are the decisions ----------

  /** How long ago the level behind a decision can have been current: two intervals of 1000 ms, and two polls. */
  function Delay(L: nat): nat {
    2000 + 2 * L
  }

  /** Less than Delay(L) ms of the run came after its first i events. */
  predicate Lately(es: seq<Event>, i: nat, L: nat) {
    i <= |es| && Elapsed(es) < Elapsed(es[..i]) + Delay(L)
  }

  lemma {:induction false} AutoGate(p: Plant, es: seq<Event>, L: nat)
    requires PolledEvery(p, es, L)
    ensures O.PolledEvery(p, BOOT, es, L)
  {
    if es != [] {
      AutoGate(p, es[..|es| - 1], L);
    }
  }

  /** In every mode but 0: once Delay(L) ms have passed, the level last sampled was current less than that long ago. */
  lemma SampleIsRecent(p: Plant, es: seq<Event>, L: nat)
    requires p.auto.mode != 0 && PolledEvery(p, es, L) && L + S.SCAN_INTERVAL <= WORD && L + A.AUTO_INTERVAL <= WORD
    requires Elapsed(es) >= Delay(L)
    ensures var xs := Run(p, BOOT, es).hist.samples;
            xs != [] &&
            exists i: nat :: Lately(es, i, L) && Last(xs) == LevelThen(p, es, i)
  {
    var s := Run(p, BOOT, es);
    var xs := s.hist.samples;
    StaysRecent(p, es, L);
    VoltageFiltersAllBlocks(p, es);
    AutoGate(p, es, L);
    O.GateStaysSound(p, es, L);
    var t: nat :| CurrentBefore(p, es, Last(xs), s.hist.autoFired, L, t);
    var i :| 0 <= i <= |es| && Elapsed(es[..i]) == t && Last(xs) == LevelThen(p, es, i);
    assert Lately(es, i, L);
  }

  /** All levels of the last Delay(L) ms lie between lo and hi. */
  ghost predicate LatelyWithin(p: Plant, es: seq<Event>, L: nat, lo: real, hi: real) {
    forall i: nat :: Lately(es, i, L) ==> lo <= LevelThen(p, es, i) <= hi
  }

  /** The sample lies between bounds that all recent levels keep. */
  lemma SampleWithin(p: Plant, es: seq<Event>, L: nat, lo: real, hi: real)
    requires p.auto.mode != 0 && PolledEvery(p, es, L) && L + S.SCAN_INTERVAL <= WORD && L + A.AUTO_INTERVAL <= WORD
    requires Elapsed(es) >= Delay(L) && LatelyWithin(p, es, L, lo, hi)
    ensures var xs := Run(p, BOOT, es).hist.samples; xs != [] && lo <= Last(xs) <= hi
  {
    SampleIsRecent(p, es, L);
    var xs := Run(p, BOOT, es).hist.samples;
    var i: nat :| Lately(es, i, L) && Last(xs) == LevelThen(p, es, i);
  }

  /** A tank measured full for Delay(L) ms has its fill stopped. */
  lemma FillStopsInTime(p: Plant, es: seq<Event>, L: nat)
    requires Filling(p) && PolledEvery(p, es, L) && L + S.SCAN_INTERVAL <= WORD && L + A.AUTO_INTERVAL <= WORD
    requires Elapsed(es) >= Delay(L) && LatelyWithin(p, es, L, p.auto.maxL, 100.0)
    ensures !Run(p, BOOT, es).auto.fillM
  {
    SampleWithin(p, es, L, p.auto.maxL, 100.0);
    F.FillFlagIsLatch(p, es);
  }

  /** A tank measured at or below the fill level, and below the maximum, for Delay(L) ms is being filled. */
  lemma FillStartsInTime(p: Plant, es: seq<Event>, L: nat)
    requires Filling(p) && PolledEvery(p, es, L) && L + S.SCAN_INTERVAL <= WORD && L + A.AUTO_INTERVAL <= WORD
    requires p.auto.fillL < p.auto.maxL && Elapsed(es) >= Delay(L) && LatelyWithin(p, es, L, 0.0, p.auto.fillL)
    ensures Run(p, BOOT, es).auto.fillM
  {
    SampleWithin(p, es, L, 0.0, p.auto.fillL);
    F.FillFlagIsLatch(p, es);
  }

  /** In mode 1 the pump flag answers whether some level of the last Delay(L) ms was above the minimum. */
  lemma PumpFollowsLevel(p: Plant, es: seq<Event>, L: nat)
    requires p.auto.mode == 1 && PolledEvery(p, es, L) && L + S.SCAN_INTERVAL <= WORD && L + A.AUTO_INTERVAL <= WORD
    requires Elapsed(es) >= Delay(L)
    ensures exists i: nat :: Lately(es, i, L) && (Run(p, BOOT, es).auto.pumpM <==> LevelThen(p, es, i) > p.auto.minL)
  {
    SampleIsRecent(p, es, L);
    O.PumpFlagIsLastSample(p, es);
    var xs := Run(p, BOOT, es).hist.samples;
    var i: nat :| Lately(es, i, L) && Last(xs) == LevelThen(p, es, i);
  }
}
