/** What happens on one relay channel does not depend on the other. */
module Independence {
  import opened Words
  import R = Relays
  import A = Automation
  import S = Sensor
  import opened Controller

  /** What one channel and its environment show: everything except the other channel and its flag. */
  datatype View = View(clock: nat, readings: S.Readings, scanMillis: word, hist: History, millis: word,
                       channel: R.Channel, flag: bool)

  function ViewOf(s: State, c: int): View {
    View(s.clock, s.readings, s.scanMillis, s.hist, s.auto.millis, R.Get(s.auto.relays, c),
         if c == 1 then s.auto.fillM else s.auto.pumpM)
  }

  /** The events without the API commands for the other channel. */
  function Erase(es: seq<Event>, c: int): seq<Event> {
    if es == [] then []
    else
      var front, e := Erase(es[..|es| - 1], c), es[|es| - 1];
      if e.Api? && !Targets(e, c) then front else front + [e]
  }

  /** The default branch of the automation couples the channels, but only while a flag is on. */
  predicate Uncoupled(p: Plant, s: State) {
    Filling(p) || (!s.auto.fillM && !s.auto.pumpM)
  }

  lemma StepKeepsUncoupled(p: Plant, s: State, e: Event)
    requires Uncoupled(p, s)
    ensures Uncoupled(p, Step(p, s, e))
  {}

  lemma {:induction false} RunKeepsUncoupled(p: Plant, s: State, es: seq<Event>)
    requires Uncoupled(p, s)
    ensures Uncoupled(p, Run(p, s, es))
  {
    if es != [] {
      RunKeepsUncoupled(p, s, es[..|es| - 1]);
      StepKeepsUncoupled(p, Run(p, s, es[..|es| - 1]), es[|es| - 1]);
    }
  }

  lemma StepIgnoresOtherCommands(p: Plant, s: State, e: Event, c: int)
    requires (c == 1 || c == 2) && e.Api? && !Targets(e, c)
    ensures ViewOf(Step(p, s, e), c) == ViewOf(s, c)
  {}

  /** What the automation sees of one channel: its timestamp, the channel and the channel's flag. */
  predicate SameChannel(a: A.Auto, b: A.Auto, c: int) {
    && a.millis == b.millis && R.Get(a.relays, c) == R.Get(b.relays, c)
    && (if c == 1 then a.fillM == b.fillM else a.pumpM == b.pumpM)
  }

  lemma TickRespectsChannel(cfg: A.Config, a: A.Auto, b: A.Auto, level: real, c: int)
    requires (c == 1 || c == 2) && SameChannel(a, b, c)
    requires cfg.mode == 1 || cfg.mode == 2 || (!a.fillM && !a.pumpM && !b.fillM && !b.pumpM)
    ensures SameChannel(A.Tick(cfg, a, level), A.Tick(cfg, b, level), c)
  {
    if cfg.mode == 1 || cfg.mode == 2 {
      assert SameChannel(A.HandleFill(cfg, a, level), A.HandleFill(cfg, b, level), c);
    }
  }

  lemma TimersRespectChannel(r: R.Bank, q: R.Bank, now: word, c: int)
    requires (c == 1 || c == 2) && R.Get(r, c) == R.Get(q, c)
    ensures R.Get(R.HandleRelais(r, now), c) == R.Get(R.HandleRelais(q, now), c)
  {}

  lemma CommandRespectsChannel(r: R.Bank, q: R.Bank, e: Event, now: word, c: int)
    requires (c == 1 || c == 2) && R.Get(r, c) == R.Get(q, c) && e.Api?
    ensures R.Get(R.ApiRelais(r, e.channel, e.state, e.duration, now), c) ==
            R.Get(R.ApiRelais(q, e.channel, e.state, e.duration, now), c)
  {}

  /** An automation poll leaves clock, readings and scan gate alone and treats the rest as one channel's environment. */
  lemma PollAutoRespectsView(p: Plant, s: State, t: State, c: int)
    requires (c == 1 || c == 2) && Uncoupled(p, s) && Uncoupled(p, t)
    requires ViewOf(s, c) == ViewOf(t, c)
    ensures ViewOf(Automated(p, s), c) == ViewOf(Automated(p, t), c)
  {
    var a, b := s.auto.(millis := Millis(s)), t.auto.(millis := Millis(s));
    TickRespectsChannel(p.auto, a, b, s.readings.level, c);
    assert SameChannel(s.auto, t.auto, c);
  }

  lemma StepRespectsView(p: Plant, s: State, t: State, e: Event, c: int)
    requires (c == 1 || c == 2) && Uncoupled(p, s) && Uncoupled(p, t)
    requires ViewOf(s, c) == ViewOf(t, c)
    ensures ViewOf(Step(p, s, e), c) == ViewOf(Step(p, t, e), c)
  {
    match e {
      case PollRelais => TimersRespectChannel(s.auto.relays, t.auto.relays, Millis(s), c);
      case PollAuto => PollAutoRespectsView(p, s, t, c);
      case Api(_, _, _) => CommandRespectsChannel(s.auto.relays, t.auto.relays, e, Millis(s), c);
      case _ =>
    }
  }

  /** Erasing the other channel's commands changes nothing this channel shows. */
  lemma {:induction false} ErasureInvisible(p: Plant, s: State, t: State, es: seq<Event>, c: int)
    requires (c == 1 || c == 2) && Uncoupled(p, s) && Uncoupled(p, t)
    requires ViewOf(s, c) == ViewOf(t, c)
    ensures ViewOf(Run(p, s, es), c) == ViewOf(Run(p, t, Erase(es, c)), c)
  {
    if es != [] {
      var n := |es| - 1;
      ErasureInvisible(p, s, t, es[..n], c);
      var front := Erase(es[..n], c);
      RunKeepsUncoupled(p, s, es[..n]);
      RunKeepsUncoupled(p, t, front);
      if es[n].Api? && !Targets(es[n], c) {
        StepIgnoresOtherCommands(p, Run(p, s, es[..n]), es[n], c);
      } else {
        assert (front + [es[n]])[..|front|] == front;
        StepRespectsView(p, Run(p, s, es[..n]), Run(p, t, front), es[n], c);
      }
    }
  }

  /**
   * Two devices that agree on what channel c shows and then see the same events, up to commands for the
   * other channel, agree on channel c's relay, pin, deadline and automation flag ever after.
   */
  lemma ChannelsAreIndependent(p: Plant, s: State, t: State, es: seq<Event>, fs: seq<Event>, c: int)
    requires (c == 1 || c == 2) && Uncoupled(p, s) && Uncoupled(p, t)
    requires ViewOf(s, c) == ViewOf(t, c) && Erase(es, c) == Erase(fs, c)
    ensures ViewOf(Run(p, s, es), c) == ViewOf(Run(p, t, fs), c)
  {
    ErasureInvisible(p, s, t, es, c);
    ErasureInvisible(p, t, t, fs, c);
  }

  /** Every state reached from boot is uncoupled, so the claim above covers every pair of reachable states. */
  lemma ReachableIsUncoupled(p: Plant, es: seq<Event>)
    ensures Uncoupled(p, Run(p, BOOT, es))
  {
    RunKeepsUncoupled(p, BOOT, es);
  }
}
