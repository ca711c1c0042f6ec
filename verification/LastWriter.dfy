/** Three writers share the relays: what each flag remembers on every run. */
module LastWriter {
  import opened Options
  import opened Words
  import R = Relays
  import A = Automation
  import opened Controller

  /** The state last written to channel c, by whomever. */
  function LastState(log: seq<R.Write>, c: int): bool {
    log != [] &&
    (var w := log[|log| - 1];
     if w.channel == c then w.state else LastState(log[..|log| - 1], c))
  }

  /** The state the automation last wrote to channel c. */
  function LastAutoState(log: seq<R.Write>, c: int): bool {
    log != [] &&
    (var w := log[|log| - 1];
     if w.channel == c && w.writer == R.Automation then w.state else LastAutoState(log[..|log| - 1], c))
  }

  /** Who last wrote channel c. */
  function LastWriterOf(log: seq<R.Write>, c: int): Option<R.Writer> {
    if log == [] then None
    else if log[|log| - 1].channel == c then Some(log[|log| - 1].writer)
    else LastWriterOf(log[..|log| - 1], c)
  }

  predicate FlagsMatchLog(a: A.Auto) {
    var r := a.relays;
    && r.c1.relay == r.c1.pin == LastState(r.log, 1)
    && r.c2.relay == r.c2.pin == LastState(r.log, 2)
    && a.fillM == LastAutoState(r.log, 1)
    && a.pumpM == LastAutoState(r.log, 2)
  }

  lemma SetRelaisKeepsFlags(a: A.Auto, c: int, state: bool, writer: R.Writer, fillM: bool, pumpM: bool)
    requires FlagsMatchLog(a) && (c == 1 || c == 2)
    requires fillM == if c == 1 && writer == R.Automation then state else a.fillM
    requires pumpM == if c == 2 && writer == R.Automation then state else a.pumpM
    ensures FlagsMatchLog(a.(relays := R.SetRelais(a.relays, c, state, writer), fillM := fillM, pumpM := pumpM))
  {
    var log := a.relays.log + [R.Write(c, state, writer)];
    assert log[..|log| - 1] == a.relays.log;
  }

  lemma ApiKeepsFlags(a: A.Auto, channel: R.ApiChannel, state: bool, duration: Option<int32>, now: word)
    requires FlagsMatchLog(a)
    ensures FlagsMatchLog(a.(relays := R.ApiRelais(a.relays, channel, state, duration, now)))
  {
    SetRelaisKeepsFlags(a, Int8(channel), state, R.Api, a.fillM, a.pumpM);
  }

  lemma TimersKeepFlags(a: A.Auto, now: word)
    requires FlagsMatchLog(a)
    ensures FlagsMatchLog(a.(relays := R.HandleRelais(a.relays, now)))
  {
    var r1 := R.ExpireChannel(a.relays, 1, now);
    SetRelaisKeepsFlags(a, 1, false, R.Timer, a.fillM, a.pumpM);
    SetRelaisKeepsFlags(a.(relays := r1), 2, false, R.Timer, a.fillM, a.pumpM);
  }

  lemma LoopKeepsFlags(cfg: A.Config, a: A.Auto, level: real, now: word)
    requires FlagsMatchLog(a)
    ensures FlagsMatchLog(A.Loop(cfg, a, level, now))
  {
    var a0 := a.(millis := now);
    if cfg.mode == 1 || cfg.mode == 2 {
      SetRelaisKeepsFlags(a0, 1, level < cfg.maxL, R.Automation, level < cfg.maxL, a0.pumpM);
      var a1 := A.HandleFill(cfg, a0, level);
      SetRelaisKeepsFlags(a1, 2, level > cfg.minL, R.Automation, a1.fillM, level > cfg.minL);
    } else {
      SetRelaisKeepsFlags(a0, 2, false, R.Automation, a0.fillM, false);
      SetRelaisKeepsFlags(A.SetPump(a0, false), 1, false, R.Automation, false, false);
    }
  }

  /** On every run, relay flags and pins are the last write of all, automation flags the last write of the automation. */
  lemma {:induction false} FlagsAreLastWrites(p: Plant, es: seq<Event>)
    ensures FlagsMatchLog(Run(p, BOOT, es).auto)
  {
    if es != [] {
      var n := |es| - 1;
      FlagsAreLastWrites(p, es[..n]);
      var s := Run(p, BOOT, es[..n]);
      match es[n] {
        case Api(channel, state, duration) => ApiKeepsFlags(s.auto, channel, state, duration, Millis(s));
        case PollRelais => TimersKeepFlags(s.auto, Millis(s));
        case PollAuto => LoopKeepsFlags(p.auto, s.auto, s.readings.level, Millis(s));
        case _ =>
      }
    }
  }

  lemma {:induction false} AgreesIfAutoWroteLast(log: seq<R.Write>, c: int)
    requires LastState(log, c) != LastAutoState(log, c)
    ensures LastWriterOf(log, c) == Some(R.Api) || LastWriterOf(log, c) == Some(R.Timer)
  {
    if log[|log| - 1].channel != c {
      AgreesIfAutoWroteLast(log[..|log| - 1], c);
    }
  }

  /** Relay and automation flag disagree only while the last write came from the API or from a timer. */
  lemma DisagreementNeedsOtherWriter(p: Plant, es: seq<Event>)
    ensures var a := Run(p, BOOT, es).auto;
            && (a.fillM != a.relays.c1.relay ==> LastWriterOf(a.relays.log, 1) in {Some(R.Api), Some(R.Timer)})
            && (a.pumpM != a.relays.c2.relay ==> LastWriterOf(a.relays.log, 2) in {Some(R.Api), Some(R.Timer)})
  {
    FlagsAreLastWrites(p, es);
    var a := Run(p, BOOT, es).auto;
    if a.fillM != a.relays.c1.relay {
      AgreesIfAutoWroteLast(a.relays.log, 1);
    }
    if a.pumpM != a.relays.c2.relay {
      AgreesIfAutoWroteLast(a.relays.log, 2);
    }
  }
}
