/** "Switch relay c on for s seconds", followed over every run. */
module TimedRelay {
  import opened Options
  import opened Words
  import R = Relays
  import A = Automation
  import F = FillFlag
  import opened Controller

  /** Some relay poll of the run came at or after time `due`. */
  predicate PolledFrom(p: Plant, s: State, es: seq<Event>, due: nat) {
    es != [] &&
    (var front := es[..|es| - 1];
     PolledFrom(p, s, front, due) || (es[|es| - 1].PollRelais? && Run(p, s, front).clock >= due))
  }

  /** How many writes of channel c in the log come from the API or the automation. */
  function OtherWrites(log: seq<R.Write>, c: int): nat {
    if log == [] then 0
    else
      var w := log[|log| - 1];
      OtherWrites(log[..|log| - 1], c) + (if w.channel == c && w.writer != R.Timer then 1 else 0)
  }

  /** From s to s', nobody but its timer writes channel c. */
  predicate OnlyTimer(s: State, s': State, c: int) {
    OtherWrites(s'.auto.relays.log, c) == OtherWrites(s.auto.relays.log, c)
  }

  /** The state after the API command "switch relay c on for `duration` seconds". */
  function Command(p: Plant, s: State, c: int, duration: int32): State
    requires c == 1 || c == 2
  {
    Step(p, s, Api(c, true, Some(duration)))
  }

  lemma {:induction false} ClockAdvances(p: Plant, s: State, es: seq<Event>)
    ensures s.clock <= Run(p, s, es).clock
  {
    if es != [] {
      ClockAdvances(p, s, es[..|es| - 1]);
    }
  }

  lemma SetRelaisCounted(r: R.Bank, d: int, state: bool, writer: R.Writer, c: int)
    requires (c == 1 || c == 2) && (d == 1 || d == 2)
    ensures var r' := R.SetRelais(r, d, state, writer);
            && OtherWrites(r'.log, c) == OtherWrites(r.log, c) + (if d == c && writer != R.Timer then 1 else 0)
            && (d != c ==> R.Get(r', c) == R.Get(r, c))
  {
    var log := r.log + [R.Write(d, state, writer)];
    assert log[..|log| - 1] == r.log;
  }

  /** Channel c is written by others on the way from r to r', or it is the same. */
  predicate Counted(r: R.Bank, r': R.Bank, c: int) {
    || OtherWrites(r'.log, c) > OtherWrites(r.log, c)
    || (OtherWrites(r'.log, c) == OtherWrites(r.log, c) && R.Get(r', c) == R.Get(r, c))
  }

  lemma SetRelaisIsCounted(r: R.Bank, d: int, state: bool, writer: R.Writer, c: int)
    requires (c == 1 || c == 2) && (d == 1 || d == 2) && writer != R.Timer
    ensures Counted(r, R.SetRelais(r, d, state, writer), c)
  {
    SetRelaisCounted(r, d, state, writer, c);
  }

  lemma FillCounted(cfg: A.Config, a: A.Auto, level: real, c: int)
    requires c == 1 || c == 2
    ensures Counted(a.relays, A.HandleFill(cfg, a, level).relays, c)
  {
    SetRelaisIsCounted(a.relays, 1, level < cfg.maxL, R.Automation, c);
  }

  lemma PumpCounted(cfg: A.Config, a: A.Auto, level: real, c: int)
    requires c == 1 || c == 2
    ensures Counted(a.relays, A.HandlePump(cfg, a, level).relays, c)
  {
    SetRelaisIsCounted(a.relays, 2, level > cfg.minL, R.Automation, c);
  }

  lemma OffCounted(a: A.Auto, c: int)
    requires c == 1 || c == 2
    ensures Counted(a.relays, A.SetFill(A.SetPump(a, false), false).relays, c)
  {
    SetRelaisIsCounted(a.relays, 2, false, R.Automation, c);
    SetRelaisIsCounted(A.SetPump(a, false).relays, 1, false, R.Automation, c);
  }

  /** The automation changes a channel only by writing it. */
  lemma TickCounted(cfg: A.Config, a: A.Auto, level: real, c: int)
    requires c == 1 || c == 2
    ensures Counted(a.relays, A.Tick(cfg, a, level).relays, c)
  {
    if cfg.mode == 1 {
      FillCounted(cfg, a, level, c);
      PumpCounted(cfg, A.HandleFill(cfg, a, level), level, c);
    } else if cfg.mode == 2 {
      FillCounted(cfg, a, level, c);
    } else {
      OffCounted(a, c);
    }
  }

  lemma TimersCounted(r: R.Bank, now: word, c: int)
    requires c == 1 || c == 2
    ensures var r' := R.HandleRelais(r, now);
            && OtherWrites(r'.log, c) == OtherWrites(r.log, c)
            && R.Get(r', c) == if R.Expired(R.Get(r, c).deadline, now) then R.Channel(NO_TIMER, false, false) else R.Get(r, c)
  {
    SetRelaisCounted(r, 1, false, R.Timer, c);
    SetRelaisCounted(R.ExpireChannel(r, 1, now), 2, false, R.Timer, c);
  }

  lemma ApiCounted(r: R.Bank, channel: R.ApiChannel, state: bool, duration: Option<int32>, now: word, c: int)
    requires c == 1 || c == 2
    ensures Counted(r, R.ApiRelais(r, channel, state, duration, now), c)
  {
    SetRelaisCounted(r, Int8(channel), state, R.Api, c);
  }

  /** A step other than a relay poll writes the channel, and is counted, or leaves it alone; a poll is never counted. */
  lemma StepCounted(p: Plant, s: State, e: Event, c: int)
    requires c == 1 || c == 2
    ensures !e.PollRelais? ==> Counted(s.auto.relays, Step(p, s, e).auto.relays, c)
    ensures e.PollRelais? ==> OnlyTimer(s, Step(p, s, e), c)
  {
    match e {
      case Api(channel, state, duration) => ApiCounted(s.auto.relays, channel, state, duration, Millis(s), c);
      case PollRelais => TimersCounted(s.auto.relays, Millis(s), c);
      case PollAuto => TickCounted(p.auto, s.auto.(millis := Millis(s)), s.readings.level, c);
      case _ =>
    }
  }

  lemma {:induction false} RunCounted(p: Plant, s: State, es: seq<Event>, c: int)
    requires c == 1 || c == 2
    ensures OtherWrites(Run(p, s, es).auto.relays.log, c) >= OtherWrites(s.auto.relays.log, c)
  {
    if es != [] {
      RunCounted(p, s, es[..|es| - 1], c);
      StepCounted(p, Run(p, s, es[..|es| - 1]), es[|es| - 1], c);
    }
  }

  // ---------- what a command's deadline word does, on every run ----------

  /** Some relay poll of the run saw the deadline word reached. */
  predicate PolledExpired(p: Plant, s: State, es: seq<Event>, deadline: word) {
    es != [] &&
    (var front := es[..|es| - 1];
     || PolledExpired(p, s, front, deadline)
     || (es[|es| - 1].PollRelais? && R.Expired(deadline, Millis(Run(p, s, front)))))
  }

  /** One step under a deadline word: only a relay poll that sees it reached changes the channel. */
  lemma WordStep(p: Plant, s: State, e: Event, c: int)
    requires c == 1 || c == 2
    requires OnlyTimer(s, Step(p, s, e), c)
    ensures var ch, ch' := R.Get(s.auto.relays, c), R.Get(Step(p, s, e).auto.relays, c);
            ch' == if e.PollRelais? && R.Expired(ch.deadline, Millis(s)) then R.Channel(NO_TIMER, false, false) else ch
  {
    StepCounted(p, s, e, c);
    if e.PollRelais? {
      TimersCounted(s.auto.relays, Millis(s), c);
    }
  }

  /** While only its timer writes it, a channel stays as it is until a relay poll sees its deadline word reached, and is off and disarmed from then on. */
  lemma {:induction false} ChannelRun(p: Plant, s: State, c: int, es: seq<Event>)
    requires c == 1 || c == 2
    requires OnlyTimer(s, Run(p, s, es), c)
    ensures var ch := R.Get(s.auto.relays, c);
            R.Get(Run(p, s, es).auto.relays, c) ==
            if PolledExpired(p, s, es, ch.deadline) then R.Channel(NO_TIMER, false, false) else ch
  {
    if es != [] {
      var n := |es| - 1;
      var t := Run(p, s, es[..n]);
      RunCounted(p, s, es[..n], c);
      StepCounted(p, t, es[n], c);
      ChannelRun(p, s, c, es[..n]);
      WordStep(p, t, es[n], c);
    }
  }

  lemma {:induction false} MarkNeverExpires(p: Plant, s: State, es: seq<Event>)
    ensures !PolledExpired(p, s, es, NO_TIMER)
  {
    if es != [] {
      MarkNeverExpires(p, s, es[..|es| - 1]);
    }
  }

  /**
   * An API command without a duration switches the relay on or off for good: on every run, over any number of rollovers,
   * the channel stays as commanded while only its timer could write it. The other channel is as before the command.
   */
  lemma UntimedRun(p: Plant, s: State, channel: R.ApiChannel, state: bool, es: seq<Event>)
    requires var s0 := Step(p, s, Api(channel, state, None)); OnlyTimer(s0, Run(p, s0, es), Int8(channel))
    ensures var s0, c := Step(p, s, Api(channel, state, None)), Int8(channel);
            && R.Get(Run(p, s0, es).auto.relays, c) == R.Channel(NO_TIMER, state, state)
            && R.Get(s0.auto.relays, 3 - c) == R.Get(s.auto.relays, 3 - c)
  {
    var s0 := Step(p, s, Api(channel, state, None));
    R.UntimedCommand(s.auto.relays, channel, state, Millis(s));
    ChannelRun(p, s0, Int8(channel), es);
    MarkNeverExpires(p, s0, es);
  }

  lemma CommandChannel(p: Plant, s: State, c: int, duration: int32)
    requires c == 1 || c == 2
    ensures R.Get(Command(p, s, c, duration).auto.relays, c) == R.Channel(R.Deadline(Millis(s), duration), true, true)
  {}

  /**
   * For every clock and every duration, negative ones included, on every run over any number of rollovers in
   * which only the timer writes the channel: the relay is on with its deadline word, until the first
   * relay poll whose `millis()` has reached that word and the word is not the mark, and then off and disarmed.
   */
  lemma TimedRunOnWords(p: Plant, s: State, c: int, duration: int32, es: seq<Event>)
    requires c == 1 || c == 2
    requires OnlyTimer(Command(p, s, c, duration), Run(p, Command(p, s, c, duration), es), c)
    ensures var s0, deadline := Command(p, s, c, duration), R.Deadline(Millis(s), duration);
            R.Get(Run(p, s0, es).auto.relays, c) ==
            if PolledExpired(p, s0, es, deadline) then R.Channel(NO_TIMER, false, false) else R.Channel(deadline, true, true)
  {
    CommandChannel(p, s, c, duration);
    ChannelRun(p, Command(p, s, c, duration), c, es);
  }

  // ---------- the same in unbounded time, until the rollover ----------

  lemma SameEpoch(a: nat, b: nat, c: nat)
    requires a <= b <= c && a / WORD == c / WORD
    ensures b / WORD == a / WORD
  {}

  lemma ExpiredInEpoch(clock: nat, due: nat)
    requires clock / WORD == due / WORD && Wrap(due) != NO_TIMER
    ensures R.Expired(Wrap(due), Wrap(clock)) <==> clock >= due
  {
    R.SameEpochOrder(due, clock);
  }

  lemma {:induction false} ExpiryInEpoch(p: Plant, s: State, es: seq<Event>, due: nat)
    requires Run(p, s, es).clock / WORD == s.clock / WORD == due / WORD && Wrap(due) != NO_TIMER
    ensures PolledExpired(p, s, es, Wrap(due)) <==> PolledFrom(p, s, es, due)
  {
    if es != [] {
      var n := |es| - 1;
      var t := Run(p, s, es[..n]);
      ClockAdvances(p, s, es[..n]);
      SameEpoch(s.clock, t.clock, Run(p, s, es).clock);
      ExpiryInEpoch(p, s, es[..n], due);
      ExpiredInEpoch(t.clock, due);
    }
  }

  /** The time in the present clock epoch at which `millis()` reads this word. */
  function TimeOf(clock: nat, w: word): (t: nat)
    ensures Wrap(t) == w && t / WORD == clock / WORD
  {
    var q := clock / WORD;
    WordsOfEpoch(q, w);
    q * WORD + w
  }

  lemma WordsOfEpoch(q: nat, w: word)
    ensures Wrap(q * WORD + w) == w && (q * WORD + w) / WORD == q
  {}

  /** Every duration with a deadline off the mark: the switching time is the deadline word read in the present epoch. */
  lemma TimedRunInEpoch(p: Plant, s: State, c: int, duration: int32, es: seq<Event>)
    requires (c == 1 || c == 2) && R.Deadline(Millis(s), duration) != NO_TIMER
    requires var s' := Run(p, Command(p, s, c, duration), es);
             s'.clock / WORD == s.clock / WORD && OnlyTimer(Command(p, s, c, duration), s', c)
    ensures var s0, deadline := Command(p, s, c, duration), R.Deadline(Millis(s), duration);
            R.Get(Run(p, s0, es).auto.relays, c) ==
            if PolledFrom(p, s0, es, TimeOf(s.clock, deadline)) then R.Channel(NO_TIMER, false, false)
            else R.Channel(deadline, true, true)
  {
    TimedRunOnWords(p, s, c, duration, es);
    ExpiryInEpoch(p, Command(p, s, c, duration), es, TimeOf(s.clock, R.Deadline(Millis(s), duration)));
  }

  /** When the deadline word does not wrap, it stands for the mathematical due time. */
  lemma DueInEpoch(clock: nat, duration: int32)
    requires 0 <= Wrap(clock) + 1000 * duration < WORD - 1
    ensures clock + 1000 * duration >= 0
    ensures R.Deadline(Wrap(clock), duration) != NO_TIMER
    ensures TimeOf(clock, R.Deadline(Wrap(clock), duration)) == clock + 1000 * duration
    ensures R.Deadline(Wrap(clock), duration) == Wrap(clock + 1000 * duration)
    ensures (clock + 1000 * duration) / WORD == clock / WORD
  {
    assert clock == clock / WORD * WORD + Wrap(clock);
  }

  /**
   * After the command the relay is on, its deadline armed, until the first relay poll at or after the
   * due time; from that poll on it is off and disarmed. This holds on every run that stays before
   * the next clock rollover and in which only the timer writes the channel, if the deadline does not wrap.
   */
  lemma TimedRun(p: Plant, s: State, c: int, duration: int32, es: seq<Event>)
    requires c == 1 || c == 2
    requires 0 <= Wrap(s.clock) + 1000 * duration < WORD - 1
    requires var s' := Run(p, Command(p, s, c, duration), es);
             s'.clock / WORD == s.clock / WORD && OnlyTimer(Command(p, s, c, duration), s', c)
    ensures s.clock + 1000 * duration >= 0
    ensures var due := s.clock + 1000 * duration;
            R.Get(Run(p, Command(p, s, c, duration), es).auto.relays, c) ==
            if PolledFrom(p, Command(p, s, c, duration), es, due) then R.Channel(NO_TIMER, false, false)
            else R.Channel(Wrap(due), true, true)
  {
    DueInEpoch(s.clock, duration);
    TimedRunInEpoch(p, s, c, duration, es);
  }

  lemma {:induction false} LatePollShows(p: Plant, s: State, es: seq<Event>, due: nat)
    requires Run(p, s, es).hist.relaisPolled >= due
    ensures PolledFrom(p, s, es, due) || Run(p, s, es).hist.relaisPolled == s.hist.relaisPolled
  {
    if es != [] {
      var n := |es| - 1;
      if !es[n].PollRelais? {
        LatePollShows(p, s, es[..n], due);
      }
    }
  }

  lemma {:induction false} NoPollBeforeDue(p: Plant, s: State, es: seq<Event>, due: nat)
    requires Run(p, s, es).clock < due
    ensures !PolledFrom(p, s, es, due)
  {
    if es != [] {
      var n := |es| - 1;
      ClockAdvances(p, Run(p, s, es[..n]), [es[n]]);
      assert [es[n]][..0] == [];
      NoPollBeforeDue(p, s, es[..n], due);
    }
  }

  lemma {:induction false} PollsAreInThePast(p: Plant, es: seq<Event>)
    ensures Run(p, BOOT, es).hist.relaisPolled <= Run(p, BOOT, es).clock
  {
    if es != [] {
      PollsAreInThePast(p, es[..|es| - 1]);
    }
  }

  lemma OnUntilDue(p: Plant, s: State, c: int, duration: int32, es: seq<Event>)
    requires c == 1 || c == 2
    requires 0 <= Wrap(s.clock) + 1000 * duration < WORD - 1
    requires var s' := Run(p, Command(p, s, c, duration), es);
             s'.clock / WORD == s.clock / WORD && OnlyTimer(Command(p, s, c, duration), s', c)
             && s'.clock < s.clock + 1000 * duration
    ensures R.Get(Run(p, Command(p, s, c, duration), es).auto.relays, c).relay
  {
    TimedRun(p, s, c, duration, es);
    ClockAdvances(p, Command(p, s, c, duration), es);
    NoPollBeforeDue(p, Command(p, s, c, duration), es, s.clock + 1000 * duration);
  }

  lemma OffAfterLatePoll(p: Plant, s: State, c: int, duration: int32, es: seq<Event>)
    requires c == 1 || c == 2
    requires 0 <= Wrap(s.clock) + 1000 * duration < WORD - 1
    requires var s' := Run(p, Command(p, s, c, duration), es);
             s'.clock / WORD == s.clock / WORD && OnlyTimer(Command(p, s, c, duration), s', c)
             && s.hist.relaisPolled <= s.clock < s'.hist.relaisPolled
             && s.clock + 1000 * duration <= s'.hist.relaisPolled
    ensures R.Get(Run(p, Command(p, s, c, duration), es).auto.relays, c) == R.Channel(NO_TIMER, false, false)
  {
    TimedRun(p, s, c, duration, es);
    LatePollShows(p, Command(p, s, c, duration), es, s.clock + 1000 * duration);
  }

  function Later(a: int, b: int): int {
    if a < b then b else a
  }

  /** The run after the command stays before the rollover, only the timer writes the channel, and the last relay poll is less than L ms ago. */
  predicate PolledCommand(p: Plant, s: State, c: int, duration: int32, es: seq<Event>, L: nat)
    requires c == 1 || c == 2
  {
    var s' := Run(p, Command(p, s, c, duration), es);
    && s'.clock / WORD == s.clock / WORD && OnlyTimer(Command(p, s, c, duration), s', c)
    && s'.clock - s'.hist.relaisPolled < L
  }

  /** On before the due time, off from L ms after it or after the command. */
  predicate OnAsCommanded(p: Plant, s: State, c: int, duration: int32, es: seq<Event>, L: nat)
    requires c == 1 || c == 2
  {
    var s', due := Run(p, Command(p, s, c, duration), es), s.clock + 1000 * duration;
    && (s'.clock < due ==> R.Get(s'.auto.relays, c).relay)
    && (s'.clock >= Later(due, s.clock) + L ==> R.Get(s'.auto.relays, c) == R.Channel(NO_TIMER, false, false))
  }

  lemma OnTimeFrom(p: Plant, s: State, c: int, duration: int32, es: seq<Event>, L: nat)
    requires c == 1 || c == 2
    requires 0 <= Wrap(s.clock) + 1000 * duration < WORD - 1 && s.hist.relaisPolled <= s.clock
    requires PolledCommand(p, s, c, duration, es, L)
    ensures OnAsCommanded(p, s, c, duration, es, L)
  {
    var s', due := Run(p, Command(p, s, c, duration), es), s.clock + 1000 * duration;
    if s'.clock < due {
      OnUntilDue(p, s, c, duration, es);
    } else if s'.clock >= Later(due, s.clock) + L {
      OffAfterLatePoll(p, s, c, duration, es);
    }
  }

  /**
   * With relay polls less than L ms apart, the on-time lies in [1000 s, 1000 s + L): from any reachable
   * state, the relay is on before the due time and off from L ms after it, or after the command if that is later.
   */
  lemma OnTime(p: Plant, before: seq<Event>, c: int, duration: int32, es: seq<Event>, L: nat)
    requires c == 1 || c == 2
    requires 0 <= Wrap(Run(p, BOOT, before).clock) + 1000 * duration < WORD - 1
    requires PolledCommand(p, Run(p, BOOT, before), c, duration, es, L)
    ensures OnAsCommanded(p, Run(p, BOOT, before), c, duration, es, L)
  {
    PollsAreInThePast(p, before);
    OnTimeFrom(p, Run(p, BOOT, before), c, duration, es, L);
  }

  /** A channel that is off and disarmed stays so while only its timer could write it, over any number of rollovers. */
  lemma StaysOff(p: Plant, s: State, c: int, es: seq<Event>)
    requires (c == 1 || c == 2) && R.Get(s.auto.relays, c) == R.Channel(NO_TIMER, false, false)
    requires OnlyTimer(s, Run(p, s, es), c)
    ensures R.Get(Run(p, s, es).auto.relays, c) == R.Channel(NO_TIMER, false, false)
  {
    ChannelRun(p, s, c, es);
  }

  /**
   * Once a poll at or after the due time has come before the rollover, the relay is off for good: no
   * continuation of the run, however many rollovers long, turns it on again unless another writer does.
   */
  lemma OffForGood(p: Plant, s: State, c: int, duration: int32, es: seq<Event>, fs: seq<Event>)
    requires c == 1 || c == 2
    requires 0 <= Wrap(s.clock) + 1000 * duration < WORD - 1
    requires var s' := Run(p, Command(p, s, c, duration), es);
             s'.clock / WORD == s.clock / WORD && OnlyTimer(Command(p, s, c, duration), s', c)
             && PolledFrom(p, Command(p, s, c, duration), es, s.clock + 1000 * duration)
             && OnlyTimer(s', Run(p, Command(p, s, c, duration), es + fs), c)
    ensures R.Get(Run(p, Command(p, s, c, duration), es + fs).auto.relays, c) == R.Channel(NO_TIMER, false, false)
  {
    TimedRun(p, s, c, duration, es);
    RunSplits(p, Command(p, s, c, duration), es, fs);
    StaysOff(p, Run(p, Command(p, s, c, duration), es), c, fs);
  }

  /** Before 2^31 ms, an armed deadline not yet passed is reported exactly. */
  lemma ReportsExactly(due: nat, now: nat)
    requires now <= due < 0x8000_0000
    ensures R.GetDuration(Wrap(due), Wrap(now)) == due - now
  {
    assert Wrap(due) == due && Wrap(now) == now;
    R.GetDurationMeetsPromiseIff(due, now);
  }

  /** Until the next rollover, and below 2^31 ms, the command's deadline can be followed by `getDuration`. */
  predicate Reportable(p: Plant, s: State, c: int, duration: int32, es: seq<Event>)
    requires c == 1 || c == 2
  {
    var s' := Run(p, Command(p, s, c, duration), es);
    && 0 <= Wrap(s.clock) + 1000 * duration && s.clock + 1000 * duration < 0x8000_0000
    && s'.clock / WORD == s.clock / WORD && OnlyTimer(Command(p, s, c, duration), s', c)
  }

  function Reported(s: State, c: int): int32
    requires c == 1 || c == 2
  {
    R.GetDuration(R.Get(s.auto.relays, c).deadline, Millis(s))
  }

  lemma NothingRemains(s: State, c: int)
    requires (c == 1 || c == 2) && R.Get(s.auto.relays, c).deadline == NO_TIMER
    ensures Reported(s, c) == 0
  {}

  /**
   * What `getDuration` reports on those runs: the due time minus the clock while the relay waits for
   * it, so it falls by exactly the elapsed time, and 0 once the timer is gone.
   */
  lemma RemainingTime(p: Plant, s: State, c: int, duration: int32, es: seq<Event>)
    requires (c == 1 || c == 2) && Reportable(p, s, c, duration, es)
    ensures var s', due := Run(p, Command(p, s, c, duration), es), s.clock + 1000 * duration;
            && (s'.clock <= due ==> Reported(s', c) == due - s'.clock)
            && (PolledFrom(p, Command(p, s, c, duration), es, due) ==> Reported(s', c) == 0)
  {
    var s0 := Command(p, s, c, duration);
    var s', due := Run(p, s0, es), s.clock + 1000 * duration;
    TimedRun(p, s, c, duration, es);
    if PolledFrom(p, s0, es, due) {
      NothingRemains(s', c);
      if s'.clock < due {
        NoPollBeforeDue(p, s0, es, due);
      }
    } else if s'.clock <= due {
      ReportsExactly(due, s'.clock);
    }
  }

  // ---------- channels the automation leaves alone ----------

  /** Does the automation drive this channel in the configured mode? */
  predicate Owns(p: Plant, c: int) {
    if c == 1 then p.auto.mode == 1 || p.auto.mode == 2 else p.auto.mode == 1
  }

  lemma UnownedStep(p: Plant, s: State, e: Event, c: int)
    requires (c == 1 || c == 2) && !Owns(p, c) && !Targets(e, c)
    requires Filling(p) || (!s.auto.fillM && !s.auto.pumpM)
    ensures OnlyTimer(s, Step(p, s, e), c)
    ensures Filling(p) || (!Step(p, s, e).auto.fillM && !Step(p, s, e).auto.pumpM)
  {
    match e {
      case Api(channel, state, duration) => SetRelaisCounted(s.auto.relays, Int8(channel), state, R.Api, c);
      case PollRelais => TimersCounted(s.auto.relays, Millis(s), c);
      case PollAuto => FillCounted(p.auto, s.auto.(millis := Millis(s)), s.readings.level, c);
      case _ =>
    }
  }

  lemma {:induction false} UnownedRun(p: Plant, s: State, es: seq<Event>, c: int)
    requires (c == 1 || c == 2) && !Owns(p, c)
    requires Filling(p) || (!s.auto.fillM && !s.auto.pumpM)
    requires forall k :: 0 <= k < |es| ==> !Targets(es[k], c)
    ensures OnlyTimer(s, Run(p, s, es), c)
    ensures Filling(p) || (!Run(p, s, es).auto.fillM && !Run(p, s, es).auto.pumpM)
  {
    if es != [] {
      UnownedRun(p, s, es[..|es| - 1], c);
      UnownedStep(p, Run(p, s, es[..|es| - 1]), es[|es| - 1], c);
    }
  }

  /**
   * A channel the automation does not drive in the configured mode (relay 2 in fill mode, both when off) is moved by the API
   * and its own timer alone: from any reachable state, on a run without API commands for it, it stays as it is until its
   * deadline word is reached at a relay poll, and is off and disarmed from then on.
   */
  lemma UnownedChannelIsLeftAlone(p: Plant, before: seq<Event>, es: seq<Event>, c: int)
    requires (c == 1 || c == 2) && !Owns(p, c)
    requires forall k :: 0 <= k < |es| ==> !Targets(es[k], c)
    ensures var s := Run(p, BOOT, before);
            var ch := R.Get(s.auto.relays, c);
            R.Get(Run(p, s, es).auto.relays, c) ==
            if PolledExpired(p, s, es, ch.deadline) then R.Channel(NO_TIMER, false, false) else ch
  {
    F.FillFlagIsLatch(p, before);
    UnownedRun(p, Run(p, BOOT, before), es, c);
    ChannelRun(p, Run(p, BOOT, before), c, es);
  }
}
