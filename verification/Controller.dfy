/**
 * The whole firmware as a machine over events. Each handler is one atomic step that reads `millis()`
 * once, as the low 32 bits of a clock that never rolls over.
 */
module Controller {
  import opened Options
  import opened Words
  import R = Relays
  import A = Automation
  import S = Sensor
  import E = Ema
  import G = Gate

  /** A configured device. */
  datatype Plant = Plant(auto: A.Config, cal: S.Calibration)

  datatype Event =
    | Advance(ms: nat)
    | Api(channel: R.ApiChannel, state: bool, duration: Option<int32>)
    | PollRelais
    | AdcUpdate(samples: S.Block)
    | PollScan(temperature: real)
    | PollAuto

  /**
   * What an observer remembers: the block averages filtered so far, how many of them the cached
   * level reflects, how many the last sampled level reflects, the levels the automation sampled,
   * and when (on the unbounded clock) automation and scan last fired and the three polls last happened.
   */
  datatype History = History(
    inputs: seq<real>,
    scanned: nat,
    sampled: nat,
    samples: seq<real>,
    autoFired: nat,
    autoPolled: nat,
    relaisPolled: nat,
    scanFired: nat,
    scanPolled: nat)

  datatype State = State(clock: nat, auto: A.Auto, readings: S.Readings, scanMillis: word, hist: History)

  const BOOT := State(0, A.BOOT, S.BOOT, 0, History([], 0, 0, [], 0, 0, 0, 0, 0))

  function Millis(s: State): word {
    Wrap(s.clock)
  }

  function WithRelays(s: State, r: R.Bank): State {
    s.(auto := s.auto.(relays := r))
  }

  function Scanned(p: Plant, s: State, temperature: real): State {
    var h := s.hist.(scanPolled := s.clock);
    if G.Due(s.scanMillis, Millis(s), S.SCAN_INTERVAL)
    then s.(scanMillis := Millis(s), readings := S.Scan(p.cal, s.readings, temperature),
            hist := h.(scanFired := s.clock, scanned := |h.inputs|))
    else s.(hist := h)
  }

  function Automated(p: Plant, s: State): State {
    var h := s.hist.(autoPolled := s.clock);
    s.(auto := A.Loop(p.auto, s.auto, s.readings.level, Millis(s)),
       hist := if A.Ticks(p.auto, s.auto, Millis(s))
               then h.(autoFired := s.clock, sampled := h.scanned, samples := h.samples + [s.readings.level])
               else h)
  }

  function Step(p: Plant, s: State, e: Event): State {
    match e
    case Advance(ms) => s.(clock := s.clock + ms)
    case Api(channel, state, duration) =>
      WithRelays(s, R.ApiRelais(s.auto.relays, channel, state, duration, Millis(s)))
    case PollRelais =>
      WithRelays(s, R.HandleRelais(s.auto.relays, Millis(s))).(hist := s.hist.(relaisPolled := s.clock))
    case AdcUpdate(samples) =>
      s.(readings := s.readings.(latest := E.Ema(s.readings.latest, S.Average(samples))),
         hist := s.hist.(inputs := s.hist.inputs + [S.Average(samples)]))
    case PollScan(temperature) => Scanned(p, s, temperature)
    case PollAuto => Automated(p, s)
  }

  function Run(p: Plant, s: State, es: seq<Event>): State {
    if es == [] then s else Step(p, Run(p, s, es[..|es| - 1]), es[|es| - 1])
  }

  lemma {:induction false} RunSplits(p: Plant, s: State, es: seq<Event>, fs: seq<Event>)
    ensures Run(p, s, es + fs) == Run(p, Run(p, s, es), fs)
  {
    if fs == [] {
      assert es + fs == es;
    } else {
      var n := |fs| - 1;
      RunSplits(p, s, es, fs[..n]);
      assert (es + fs)[..|es + fs| - 1] == es + fs[..n];
    }
  }

  predicate Filling(p: Plant) {
    p.auto.mode == 1 || p.auto.mode == 2
  }

  /** Is the relay number of an API event c? */
  predicate Targets(e: Event, c: int) {
    e.Api? && Int8(e.channel) == c
  }
}
