/** In mode 1 the automation owns relay 2: nothing else lasts on it. */
module Override {
  import opened Words
  import R = Relays
  import A = Automation
  import G = Gate
  import opened Controller

  /** At every point of the run the last automation poll is less than L ms ago. */
  predicate PolledEvery(p: Plant, s: State, es: seq<Event>, L: nat) {
    (es == [] || PolledEvery(p, s, es[..|es| - 1], L)) &&
    Run(p, s, es).clock - Run(p, s, es).hist.autoPolled < L
  }

  /** The gate's 32-bit timestamp stands for the unbounded time of the last tick, and no poll since was due. */
  predicate GateSound(s: State) {
    && s.auto.millis == Wrap(s.hist.autoFired)
    && s.hist.autoFired <= s.hist.autoPolled <= s.clock
    && s.hist.autoPolled - s.hist.autoFired < A.AUTO_INTERVAL
  }

  lemma StepKeepsGateSound(p: Plant, s: State, e: Event, L: nat)
    requires p.auto.mode != 0 && GateSound(s)
    requires s.clock - s.hist.autoPolled < L && L + A.AUTO_INTERVAL <= WORD
    ensures GateSound(Step(p, s, e))
  {
    if e.PollAuto? {
      G.DueIsExact(s.hist.autoFired, s.clock, A.AUTO_INTERVAL);
    }
  }

  /** The automation's gate keeps unbounded time over every rollover, on every run that polls it often enough. */
  lemma {:induction false} GateStaysSound(p: Plant, es: seq<Event>, L: nat)
    requires p.auto.mode != 0 && PolledEvery(p, BOOT, es, L) && L + A.AUTO_INTERVAL <= WORD
    ensures GateSound(Run(p, BOOT, es))
  {
    if es != [] {
      GateStaysSound(p, es[..|es| - 1], L);
      StepKeepsGateSound(p, Run(p, BOOT, es[..|es| - 1]), es[|es| - 1], L);
    }
  }

  predicate TicksCounted(s: State) {
    s.auto.millis == Wrap(s.hist.autoFired) && s.hist.autoFired <= s.clock && 1000 * |s.hist.samples| <= s.hist.autoFired
  }

  lemma StepKeepsTicksCounted(p: Plant, s: State, e: Event)
    requires TicksCounted(s)
    ensures TicksCounted(Step(p, s, e))
  {
    if e.PollAuto? {
      G.DueIsExact(s.hist.autoFired, s.clock, A.AUTO_INTERVAL);
    }
  }

  /** On every run, however it is polled and over any rollovers, the automation has ticked at most once per second. */
  lemma {:induction false} TicksAreSpaced(p: Plant, es: seq<Event>)
    ensures TicksCounted(Run(p, BOOT, es))
    ensures 1000 * |Run(p, BOOT, es).hist.samples| <= Run(p, BOOT, es).clock
  {
    if es != [] {
      TicksAreSpaced(p, es[..|es| - 1]);
      StepKeepsTicksCounted(p, Run(p, BOOT, es[..|es| - 1]), es[|es| - 1]);
    }
  }

  /** In mode 1, on every run, the pump flag says whether the last sampled level was above the minimum. */
  lemma {:induction false} PumpFlagIsLastSample(p: Plant, es: seq<Event>)
    requires p.auto.mode == 1
    ensures var s := Run(p, BOOT, es);
            var xs := s.hist.samples;
            s.auto.pumpM <==> xs != [] && xs[|xs| - 1] > p.auto.minL
  {
    if es != [] {
      PumpFlagIsLastSample(p, es[..|es| - 1]);
    }
  }

  /** The same device with anything at all on channel 2. */
  function Disturbed(s: State, channel: R.Channel, pumpM: bool, log: seq<R.Write>): State {
    s.(auto := s.auto.(pumpM := pumpM, relays := s.auto.relays.(c2 := channel, log := log)))
  }

  predicate SameButChannel2(s: State, t: State) {
    t == Disturbed(s, t.auto.relays.c2, t.auto.pumpM, t.auto.relays.log)
  }

  /** Two such devices go on differing at most there, and no longer once the automation has ticked. */
  predicate Healed(s: State, t: State, since: nat) {
    && SameButChannel2(s, t)
    && s.hist.autoFired <= s.clock && since <= s.clock
    && (s.hist.autoFired > since ==> s.auto.relays.c2 == t.auto.relays.c2 && s.auto.pumpM == t.auto.pumpM)
  }

  /** Neither half of a tick of mode 1 reads channel 2, and the second overwrites it. */
  lemma TickHeals(cfg: A.Config, a: A.Auto, b: A.Auto, level: real)
    requires cfg.mode == 1
    requires b == a.(pumpM := b.pumpM, relays := a.relays.(c2 := b.relays.c2, log := b.relays.log))
    ensures var a', b' := A.Tick(cfg, a, level), A.Tick(cfg, b, level);
            b' == a'.(relays := a'.relays.(log := b'.relays.log))
  {
    var a', b' := A.HandleFill(cfg, a, level), A.HandleFill(cfg, b, level);
    assert b' == a'.(pumpM := b'.pumpM, relays := a'.relays.(c2 := b'.relays.c2, log := b'.relays.log));
  }

  lemma PollAutoKeepsHealed(p: Plant, s: State, t: State, since: nat)
    requires p.auto.mode == 1 && Healed(s, t, since)
    ensures Healed(Automated(p, s), Automated(p, t), since)
  {
    TickHeals(p.auto, s.auto.(millis := Millis(s)), t.auto.(millis := Millis(s)), s.readings.level);
  }

  /** Both relays' timers act on their own channel. */
  lemma TimersKeepHealed(p: Plant, s: State, t: State, since: nat)
    requires Healed(s, t, since)
    ensures Healed(Step(p, s, PollRelais), Step(p, t, PollRelais), since)
  {
    var now := Millis(s);
    var r, q := R.ExpireChannel(s.auto.relays, 1, now), R.ExpireChannel(t.auto.relays, 1, now);
    assert q.c1 == r.c1 && r.c2 == s.auto.relays.c2 && q.c2 == t.auto.relays.c2;
  }

  lemma ApiKeepsHealed(p: Plant, s: State, t: State, e: Event, since: nat)
    requires e.Api? && Healed(s, t, since)
    ensures Healed(Step(p, s, e), Step(p, t, e), since)
  {
    var r, q := R.SetRelais(s.auto.relays, Int8(e.channel), e.state, R.Api),
                R.SetRelais(t.auto.relays, Int8(e.channel), e.state, R.Api);
    assert q.c1 == r.c1;
  }

  lemma StepKeepsHealed(p: Plant, s: State, t: State, e: Event, since: nat)
    requires p.auto.mode == 1 && Healed(s, t, since)
    ensures Healed(Step(p, s, e), Step(p, t, e), since)
  {
    match e {
      case PollAuto => PollAutoKeepsHealed(p, s, t, since);
      case PollRelais => TimersKeepHealed(p, s, t, since);
      case Api(_, _, _) => ApiKeepsHealed(p, s, t, e, since);
      case _ =>
    }
  }

  lemma {:induction false} RunHeals(p: Plant, s: State, t: State, es: seq<Event>)
    requires p.auto.mode == 1 && SameButChannel2(s, t) && s.hist.autoFired <= s.clock
    ensures Healed(Run(p, s, es), Run(p, t, es), s.clock)
  {
    if es != [] {
      var n := |es| - 1;
      RunHeals(p, s, t, es[..n]);
      StepKeepsHealed(p, Run(p, s, es[..n]), Run(p, t, es[..n]), es[n], s.clock);
    }
  }

  lemma {:induction false} BootPrefix(p: Plant, before: seq<Event>, es: seq<Event>, L: nat)
    requires PolledEvery(p, BOOT, before + es, L)
    ensures PolledEvery(p, BOOT, before, L)
  {
    if es == [] {
      assert before + es == before;
    } else {
      assert (before + es)[..|before + es| - 1] == before + es[..|es| - 1];
      BootPrefix(p, before, es[..|es| - 1], L);
    }
  }

  /**
   * Mode 1, automation polled less than L ms apart: whatever an API command, a timer or anything else
   * left on channel 2 at some moment, after AUTO_INTERVAL + L ms the channel and the pump flag are
   * what they would have been without it.
   */
  lemma OverrideIsForgotten(p: Plant, before: seq<Event>, es: seq<Event>, L: nat,
                            channel: R.Channel, pumpM: bool, log: seq<R.Write>)
    requires p.auto.mode == 1 && L + A.AUTO_INTERVAL <= WORD
    requires PolledEvery(p, BOOT, before + es, L)
    requires var s := Run(p, BOOT, before); Run(p, s, es).clock >= s.clock + A.AUTO_INTERVAL + L
    ensures var s := Run(p, BOOT, before);
            var s', t' := Run(p, s, es), Run(p, Disturbed(s, channel, pumpM, log), es);
            s'.auto.relays.c2 == t'.auto.relays.c2 && s'.auto.pumpM == t'.auto.pumpM
  {
    var s := Run(p, BOOT, before);
    RunSplits(p, BOOT, before, es);
    GateStaysSound(p, before + es, L);
    BootPrefix(p, before, es, L);
    GateStaysSound(p, before, L);
    RunHeals(p, s, Disturbed(s, channel, pumpM, log), es);
  }
}
