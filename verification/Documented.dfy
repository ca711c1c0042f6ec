/** The automation and the relay timer as the repository's documents describe them, and when the code agrees. */
module Documented {
  import opened Words
  import R = Relays
  import A = Automation
  import L = Latch
  import F = FillFlag
  import O = Override
  import opened Controller

  // ---------- the drain pump: "between the max and min level" ----------

  predicate PumpPromised(cfg: A.Config, level: real) {
    cfg.minL < level < cfg.maxL
  }

  /** At 90 percent, above a maximum of 80, a tick of mode 1 switches relay 2 on. */
  lemma PumpRunsAboveMaximum(a: A.Auto)
    ensures var cfg := A.Config(1, 80.0, 10.0, 20.0);
            A.Tick(cfg, a, 90.0).relays.c2.relay && !PumpPromised(cfg, 90.0)
  {}

  /** One tick of mode 1, for all thresholds: the documented rule is met if and only if the level is below the maximum or not above the minimum. */
  lemma PumpTickAsPromisedIff(cfg: A.Config, a: A.Auto, level: real)
    requires cfg.mode == 1
    ensures (A.Tick(cfg, a, level).relays.c2.relay <==> PumpPromised(cfg, level)) <==> level < cfg.maxL || level <= cfg.minL
  {}

  /** The same for the pump flag on every run of the firmware and the level it last sampled. */
  lemma PumpAsPromisedIff(p: Plant, es: seq<Event>)
    requires p.auto.mode == 1 && Run(p, BOOT, es).hist.samples != []
    ensures var s := Run(p, BOOT, es);
            var last := s.hist.samples[|s.hist.samples| - 1];
            (s.auto.pumpM <==> PumpPromised(p.auto, last)) <==> last < p.auto.maxL || last <= p.auto.minL
  {
    O.PumpFlagIsLastSample(p, es);
  }

  // ---------- the fill pump: "if the level exceeds the fill level" ----------

  /** The latch as documented: started by a level above the fill level. */
  function PromisedNext(m: L.Limits, on: bool, x: real): bool {
    x < m.maxL && (on || x > m.fillL)
  }

  function PromisedLatch(m: L.Limits, xs: seq<real>): bool {
    xs != [] && PromisedNext(m, PromisedLatch(m, xs[..|xs| - 1]), xs[|xs| - 1])
  }

  /** At 50 percent, fill level 20 and maximum 80, filling is documented to start, and the code does not start it. */
  lemma FillDoesNotStartAbove(a: A.Auto)
    requires !a.fillM
    ensures var cfg := A.Config(2, 80.0, 10.0, 20.0);
            PromisedNext(A.Limits(cfg), a.fillM, 50.0) && !A.Tick(cfg, a, 50.0).fillM
  {}

  /** One tick: as documented if and only if it was already filling, or the level is at the maximum or above. */
  lemma FillTickAsPromisedIff(cfg: A.Config, a: A.Auto, level: real)
    requires cfg.mode == 1 || cfg.mode == 2
    ensures A.Tick(cfg, a, level).fillM == PromisedNext(A.Limits(cfg), a.fillM, level) <==> a.fillM || level >= cfg.maxL
  {}

  /** The comment in `handleFill` says "below the fill level" with a strict sign; that differs exactly at the fill level itself. */
  lemma FillTickAtFillLevelIff(cfg: A.Config, a: A.Auto, level: real)
    requires cfg.mode == 1 || cfg.mode == 2
    ensures (A.Tick(cfg, a, level).fillM <==> level < cfg.maxL && (a.fillM || level < cfg.fillL)) <==>
            a.fillM || level != cfg.fillL || level >= cfg.maxL
  {}

  /** The samples after the last one that reached the maximum. */
  function SinceStop(m: L.Limits, xs: seq<real>): seq<real> {
    if xs == [] then []
    else
      var x := xs[|xs| - 1];
      if L.IsStop(m, x) then [] else SinceStop(m, xs[..|xs| - 1]) + [x]
  }

  ghost predicate SomeBelow(xs: seq<real>, fillL: real) {
    exists i :: 0 <= i < |xs| && xs[i] <= fillL
  }

  ghost predicate SomeAbove(xs: seq<real>, fillL: real) {
    exists i :: 0 <= i < |xs| && xs[i] > fillL
  }

  lemma SomeSnoc(xs: seq<real>, x: real, fillL: real)
    ensures SomeBelow(xs + [x], fillL) <==> SomeBelow(xs, fillL) || x <= fillL
    ensures SomeAbove(xs + [x], fillL) <==> SomeAbove(xs, fillL) || x > fillL
  {
    var ys := xs + [x];
    assert ys[|xs|] == x && forall i :: 0 <= i < |xs| ==> ys[i] == xs[i];
    if SomeBelow(xs, fillL) {
      var i :| 0 <= i < |xs| && xs[i] <= fillL;
      assert ys[i] <= fillL;
    }
    if SomeAbove(xs, fillL) {
      var i :| 0 <= i < |xs| && xs[i] > fillL;
      assert ys[i] > fillL;
    }
  }

  /** Since the last stop, the coded latch was started by a low sample and the documented one by a high sample. */
  lemma {:induction false} LatchesSinceStop(m: L.Limits, xs: seq<real>)
    ensures L.Latched(m, xs) <==> SomeBelow(SinceStop(m, xs), m.fillL)
    ensures PromisedLatch(m, xs) <==> SomeAbove(SinceStop(m, xs), m.fillL)
  {
    if xs != [] {
      var front := xs[..|xs| - 1];
      LatchesSinceStop(m, front);
      SomeSnoc(SinceStop(m, front), xs[|xs| - 1], m.fillL);
    }
  }

  /**
   * On every run of a filling mode, the fill flag is what the documented rule makes of the sampled levels
   * if and only if, since the last sample at the maximum, there was none at all or both one at or below and one above the fill level.
   */
  lemma FillAsPromisedIff(p: Plant, es: seq<Event>)
    requires Filling(p)
    ensures var s := Run(p, BOOT, es);
            var m, recent := A.Limits(p.auto), SinceStop(A.Limits(p.auto), s.hist.samples);
            s.auto.fillM == PromisedLatch(m, s.hist.samples) <==>
            recent == [] || (SomeBelow(recent, m.fillL) && SomeAbove(recent, m.fillL))
  {
    var m, xs := A.Limits(p.auto), Run(p, BOOT, es).hist.samples;
    F.FillFlagIsLatch(p, es);
    LatchesSinceStop(m, xs);
    var recent := SinceStop(m, xs);
    if recent != [] {
      assert SomeBelow(recent, m.fillL) || SomeAbove(recent, m.fillL) by {
        assert recent[0] <= m.fillL || recent[0] > m.fillL;
      }
    }
  }

  // ---------- the relay timer: "duration in milliseconds" ----------

  /** 2^32 divides 999 d only if it divides d: 999 * 68788265 is 16 * 2^32 - 1. */
  lemma OddFactor(d: int, k: int)
    requires 999 * d == k * WORD
    ensures d == (16 * d - 68788265 * k) * WORD
  {
    assert 68788265 * (999 * d) == 68788265 * (k * WORD);
  }

  /** The comment of `setRelaisDuration` gives its duration in milliseconds; the code counts seconds. They agree at 0 only. */
  lemma DurationInMillisecondsIff(now: word, duration: int32)
    ensures R.Deadline(now, duration) == Wrap(now + duration) <==> duration == 0
  {
    if R.Deadline(now, duration) == Wrap(now + duration) {
      var a, b := now + duration * 1000, now + duration;
      assert a == a / WORD * WORD + Wrap(a) && b == b / WORD * WORD + Wrap(b);
      OddFactor(duration, a / WORD - b / WORD);
    }
  }
}
