/** The automation's fill flag on whole runs of the firmware. */
module FillFlag {
  import opened Words
  import R = Relays
  import A = Automation
  import L = Latch
  import opened Controller

  /** In the filling modes `fillM` is the latch machine over the sampled levels; in all others it stays off. */
  lemma {:induction false} FillFlagIsLatch(p: Plant, es: seq<Event>)
    ensures var s := Run(p, BOOT, es);
            s.auto.fillM == (Filling(p) && L.Latched(A.Limits(p.auto), s.hist.samples))
    ensures !Filling(p) ==> !Run(p, BOOT, es).auto.pumpM
  {
    if es != [] {
      var n := |es| - 1;
      FillFlagIsLatch(p, es[..n]);
      var s, s' := Run(p, BOOT, es[..n]), Run(p, BOOT, es);
      if es[n].PollAuto? && A.Ticks(p.auto, s.auto, Millis(s)) {
        assert s'.hist.samples[..|s'.hist.samples| - 1] == s.hist.samples;
        if Filling(p) {
          A.TickIsLatchStep(p.auto, s.auto.(millis := Millis(s)), s.readings.level);
        }
      }
    }
  }

  /** On every run: filling means that the last decisive sample was a start, whatever the thresholds. */
  lemma FillingMeansStartedAndNotStopped(p: Plant, es: seq<Event>)
    requires Filling(p)
    ensures var s := Run(p, BOOT, es);
            s.auto.fillM <==> L.StartedAndNotStopped(A.Limits(p.auto), s.hist.samples)
  {
    FillFlagIsLatch(p, es);
    L.LatchedIff(A.Limits(p.auto), Run(p, BOOT, es).hist.samples);
  }

  /** In a mode other than 1 and 2 the automation never writes a relay, on any run. */
  lemma {:induction false} OtherModesNeverWrite(p: Plant, es: seq<Event>)
    requires !Filling(p)
    ensures forall w :: w in Run(p, BOOT, es).auto.relays.log ==> w.writer != R.Automation
  {
    if es != [] {
      var n := |es| - 1;
      OtherModesNeverWrite(p, es[..n]);
      FillFlagIsLatch(p, es[..n]);
    }
  }

  /** The automation has written relay 1 only. */
  predicate SparesRelay2(log: seq<R.Write>) {
    forall w :: w in log && w.writer == R.Automation ==> w.channel == 1
  }

  lemma WriteSpares(r: R.Bank, c: int, state: bool, writer: R.Writer)
    requires (c == 1 || c == 2) && SparesRelay2(r.log) && (writer == R.Automation ==> c == 1)
    ensures SparesRelay2(R.SetRelais(r, c, state, writer).log)
  {}

  lemma FillModeStep(p: Plant, s: State, e: Event)
    requires p.auto.mode == 2 && !s.auto.pumpM && SparesRelay2(s.auto.relays.log)
    ensures !Step(p, s, e).auto.pumpM && SparesRelay2(Step(p, s, e).auto.relays.log)
  {
    var r := s.auto.relays;
    match e {
      case Api(channel, state, _) => WriteSpares(r, Int8(channel), state, R.Api);
      case PollRelais =>
        WriteSpares(r, 1, false, R.Timer);
        WriteSpares(R.ExpireChannel(r, 1, Millis(s)), 2, false, R.Timer);
      case PollAuto => WriteSpares(r, 1, s.readings.level < p.auto.maxL, R.Automation);
      case _ =>
    }
  }

  /** In fill mode the automation never touches the drain pump: its flag stays off and all its writes are to relay 1. */
  lemma {:induction false} FillModeSparesDrainPump(p: Plant, es: seq<Event>)
    requires p.auto.mode == 2
    ensures !Run(p, BOOT, es).auto.pumpM
    ensures SparesRelay2(Run(p, BOOT, es).auto.relays.log)
  {
    if es != [] {
      FillModeSparesDrainPump(p, es[..|es| - 1]);
      FillModeStep(p, Run(p, BOOT, es[..|es| - 1]), es[|es| - 1]);
    }
  }

  /** Mode 0 does nothing at all, whatever the flags, the level and the time. */
  lemma OffModeDoesNothing(cfg: A.Config, a: A.Auto, level: real, now: word)
    requires cfg.mode == 0
    ensures A.Loop(cfg, a, level, now) == a
  {}

  /** Any other mode but 0 switches off what the automation had switched on, and nothing else. */
  lemma OtherModesSwitchOff(cfg: A.Config, a: A.Auto, level: real)
    requires cfg.mode != 1 && cfg.mode != 2
    ensures var b := A.Tick(cfg, a, level);
            && !b.fillM && !b.pumpM
            && (if a.fillM || a.pumpM then b.relays.c1 == b.relays.c2 == R.Channel(NO_TIMER, false, false) else b == a)
  {}

  /** The levels sampled after state s. */
  function NewSamples(s: State, s': State): seq<real>
    requires |s.hist.samples| <= |s'.hist.samples|
  {
    s'.hist.samples[|s.hist.samples|..]
  }

  ghost predicate Restarted(p: Plant, xs: seq<real>) {
    exists i, j :: 0 <= i < j < |xs| && L.IsStop(A.Limits(p.auto), xs[i]) && L.IsStart(A.Limits(p.auto), xs[j])
  }

  /**
   * A fill stopped by hand (or by a timer) while the automation believes it is filling stays
   * stopped until a sample has reached the maximum and a later one has restarted the latch,
   * unless someone switches the relay on through the API.
   */
  lemma {:induction false} ManualStopHolds(p: Plant, s: State, es: seq<Event>)
    requires Filling(p) && s.auto.fillM && !s.auto.relays.c1.relay
    requires forall k :: 0 <= k < |es| ==> !(Targets(es[k], 1) && es[k].state)
    ensures var s' := Run(p, s, es);
            && |s.hist.samples| <= |s'.hist.samples|
            && (s'.auto.relays.c1.relay ==> Restarted(p, NewSamples(s, s')))
            && (!s'.auto.fillM ==> exists i :: 0 <= i < |NewSamples(s, s')| && L.IsStop(A.Limits(p.auto), NewSamples(s, s')[i]))
  {
    if es != [] {
      var n := |es| - 1;
      ManualStopHolds(p, s, es[..n]);
      var t, s' := Run(p, s, es[..n]), Run(p, s, es);
      var xs, xs' := NewSamples(s, t), NewSamples(s, s');
      if es[n].PollAuto? && A.Ticks(p.auto, t.auto, Millis(t)) {
        assert xs' == xs + [t.readings.level];
        assert forall i :: 0 <= i < |xs| ==> xs'[i] == xs[i];
        A.TickIsLatchStep(p.auto, t.auto.(millis := Millis(t)), t.readings.level);
        assert L.IsStop(A.Limits(p.auto), t.readings.level) ==> L.IsStop(A.Limits(p.auto), xs'[|xs|]);
        assert L.IsStart(A.Limits(p.auto), t.readings.level) ==> L.IsStart(A.Limits(p.auto), xs'[|xs|]);
      } else {
        assert xs' == xs;
        assert Targets(es[n], 1) || es[n].PollRelais? || s'.auto.relays.c1 == t.auto.relays.c1;
      }
    }
  }

  /** On how many steps of the run the fill flag goes on. */
  function Starts(p: Plant, es: seq<Event>): nat {
    if es == [] then 0
    else
      var front := es[..|es| - 1];
      Starts(p, front) + (if !Run(p, BOOT, front).auto.fillM && Run(p, BOOT, es).auto.fillM then 1 else 0)
  }

  lemma StepStarts(p: Plant, s: State, e: Event)
    requires Filling(p) && s.auto.fillM == L.Latched(A.Limits(p.auto), s.hist.samples)
    ensures var s' := Step(p, s, e);
            L.Switches(A.Limits(p.auto), s'.hist.samples) ==
            L.Switches(A.Limits(p.auto), s.hist.samples) + (if !s.auto.fillM && s'.auto.fillM then 1 else 0)
  {
    if e.PollAuto? && A.Ticks(p.auto, s.auto, Millis(s)) {
      A.TickIsLatchStep(p.auto, s.auto.(millis := Millis(s)), s.readings.level);
      L.SwitchesSnoc(A.Limits(p.auto), s.hist.samples, s.readings.level);
    }
  }

  lemma {:induction false} StartsAreSwitches(p: Plant, es: seq<Event>)
    requires Filling(p)
    ensures Starts(p, es) == L.Switches(A.Limits(p.auto), Run(p, BOOT, es).hist.samples)
  {
    if es != [] {
      var n := |es| - 1;
      StartsAreSwitches(p, es[..n]);
      FillFlagIsLatch(p, es[..n]);
      StepStarts(p, Run(p, BOOT, es[..n]), es[n]);
    }
  }

  /** Filling started k times on a run costs the sampled levels 2 (k - 1) (maxL - fillL) of movement. */
  lemma FillingDoesNotChatter(p: Plant, es: seq<Event>)
    requires Filling(p) && p.auto.fillL < p.auto.maxL && Starts(p, es) >= 1
    ensures L.Cycles(A.Limits(p.auto), Starts(p, es)) <= L.Variation(Run(p, BOOT, es).hist.samples)
  {
    StartsAreSwitches(p, es);
    L.ChatterBound(A.Limits(p.auto), Run(p, BOOT, es).hist.samples);
  }
}
