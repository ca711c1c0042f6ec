/** The two relays, their run timers, and everything that was ever written to their pins. */
module Relays {
  import opened Options
  import opened Words

  /** Who asked for a relay write. */
  datatype Writer = Api | Timer | Automation

  datatype Write = Write(channel: int, state: bool, writer: Writer)

  /** One channel: the word `ch1`/`ch2`, the flag `relay1`/`relay2` and the level of the output pin. */
  datatype Channel = Channel(deadline: word, relay: bool, pin: bool)

  /** Both channels and the history of writes. */
  datatype Bank = Bank(c1: Channel, c2: Channel, log: seq<Write>)

  const BOOT := Bank(Channel(NO_TIMER, false, false), Channel(NO_TIMER, false, false), [])

  function Get(r: Bank, c: int): Channel {
    if c == 1 then r.c1 else r.c2
  }

  function Put(r: Bank, c: int, ch: Channel): Bank {
    if c == 1 then r.(c1 := ch) else r.(c2 := ch)
  }

  function SetRelais(r: Bank, c: int, state: bool, writer: Writer): Bank
    requires c == 1 || c == 2
  {
    Put(r, c, Channel(NO_TIMER, state, state)).(log := r.log + [Write(c, state, writer)])
  }

  /** A write to an unset pin: flags and timers stay, and at most one of the relay pins is hit. */
  predicate StrayWrite(r: Bank, r': Bank, state: bool) {
    && r'.log == r.log
    && r'.c1 == r.c1.(pin := r'.c1.pin) && r'.c2 == r.c2.(pin := r'.c2.pin)
    && (r'.c1.pin != r.c1.pin ==> r'.c1.pin == state && r'.c2.pin == r.c2.pin)
    && (r'.c2.pin != r.c2.pin ==> r'.c2.pin == state)
  }

  /** `duration * 1000` is 32-bit arithmetic; so is adding it to the clock. */
  function Deadline(now: word, duration: int32): word {
    Wrap(now + duration * 1000)
  }

  function SetRelaisDuration(r: Bank, channel: int32, duration: int32, now: word): Bank {
    if channel == 1 || channel == 2
    then Put(r, channel, Get(r, channel).(deadline := Deadline(now, duration)))
    else r
  }

  /** A timer fires at a poll that sees its deadline reached. */
  predicate Expired(deadline: word, now: word) {
    deadline != NO_TIMER && now >= deadline
  }

  function ExpireChannel(r: Bank, c: int, now: word): Bank
    requires c == 1 || c == 2
  {
    if Expired(Get(r, c).deadline, now) then SetRelais(r, c, false, Timer) else r
  }

  function HandleRelais(r: Bank, now: word): Bank {
    ExpireChannel(ExpireChannel(r, 1, now), 2, now)
  }

  /** Channel numbers whose low byte names a relay; for any other the firmware writes an unset pin. */
  type ApiChannel = c: int32 | Int8(c) == 1 || Int8(c) == 2 witness 1

  /** The `relais` API command. The state goes through an `int8_t`, the duration does not. */
  function ApiRelais(r: Bank, channel: ApiChannel, state: bool, duration: Option<int32>, now: word): Bank {
    var r1 := SetRelais(r, Int8(channel), state, Api);
    if duration.Some? then SetRelaisDuration(r1, channel, duration.value, now) else r1
  }

  /** `getDuration`, with its conversions between `int` and `unsigned long`. */
  function GetDuration(deadline: word, now: word): int32 {
    var duration := Signed(deadline);
    if duration > 0 && Wrap(duration - now) > 0 then Signed(Wrap(duration - now)) else 0
  }

  /** The remaining time as its documentation promises it: never negative, 0 if disarmed or expired. */
  function Remaining(deadline: word, now: word): nat {
    if deadline == NO_TIMER || deadline <= now then 0 else deadline - now
  }

  // ---------- single-call laws ----------

  /**
   * `getDuration` keeps its documented promise exactly when the deadline is 0 or disarmed, or the
   * deadline is below 2^31 and not yet passed, or it is above and has passed. In particular an
   * expired but not yet polled timer reports a negative or a huge time.
   */
  lemma GetDurationMeetsPromiseIff(deadline: word, now: word)
    ensures GetDuration(deadline, now) == Remaining(deadline, now) <==>
            deadline == 0 || deadline == NO_TIMER || (if deadline < 0x8000_0000 then now <= deadline else deadline <= now)
  {
    if 0 < deadline < 0x8000_0000 {
      if now <= deadline {
        assert Wrap(deadline - now) == deadline - now;
      } else {
        assert Wrap(deadline - now) == deadline - now + WORD;
      }
    }
  }

  /**
   * What `getDuration` reports, for every deadline and clock: 0 for deadlines from 2^31 on, else the signed distance to the
   * deadline, so an expired one reports minus its overrun until that exceeds 2^31 ms and flips to a positive time.
   */
  lemma GetDurationReports(deadline: word, now: word)
    ensures deadline == 0 || deadline >= 0x8000_0000 ==> GetDuration(deadline, now) == 0
    ensures 0 < deadline < 0x8000_0000 && now <= deadline + 0x8000_0000 ==> GetDuration(deadline, now) == deadline - now
    ensures 0 < deadline < 0x8000_0000 && now > deadline + 0x8000_0000 ==> GetDuration(deadline, now) == deadline - now + WORD
  {
    if 0 < deadline < 0x8000_0000 {
      if now <= deadline {
        assert Wrap(deadline - now) == deadline - now;
      } else {
        assert Wrap(deadline - now) == deadline - now + WORD;
      }
    }
  }

  /** An expired timer that no poll has cleared reports its overrun as a negative duration. */
  lemma GetDurationCanBeNegative()
    ensures GetDuration(100, 150) == -50
  {}

  /** Right after a poll at the same clock value the promise holds while both numbers fit an `int`. */
  lemma GetDurationAfterPoll(r: Bank, c: int, now: word)
    requires c == 1 || c == 2
    requires now < 0x8000_0000
    requires Get(r, c).deadline == NO_TIMER || Get(r, c).deadline < 0x8000_0000
    ensures var d := Get(HandleRelais(r, now), c).deadline;
            && GetDuration(d, now) == Remaining(d, now)
            && (GetDuration(d, now) == 0 <==> d == NO_TIMER)
  {
    GetDurationMeetsPromiseIff(Get(HandleRelais(r, now), c).deadline, now);
  }

  /** A poll at the unbounded time `t` fires the timer armed at `t0`. */
  predicate FiresAt(t0: nat, duration: int32, t: nat) {
    Expired(Deadline(Wrap(t0), duration), Wrap(t))
  }

  /** A timer armed at t0 is right at every poll from then until its due time, and until the clock next rolls over. */
  ghost predicate TimerIsExact(t0: nat, duration: int32) {
    forall t: nat :: t0 <= t && (t / WORD == t0 / WORD || t <= t0 + 1000 * duration)
                     ==> (FiresAt(t0, duration, t) <==> t >= t0 + 1000 * duration)
  }

  /** When that is so. The API takes negative durations too; theirs is due before the command. */
  predicate CountsRightly(now: word, duration: int32) {
    if duration >= 0 then now + 1000 * duration < WORD - 1
    else Deadline(now, duration) <= now && Deadline(now, duration) != NO_TIMER
  }

  /**
   * A timer is exact if and only if its due time comes before the rollover and off the "no timer" mark; with a
   * negative duration, if and only if the deadline it wraps to has passed already and is not the mark.
   */
  lemma TimerIsExactIff(t0: nat, duration: int32)
    ensures TimerIsExact(t0, duration) <==> CountsRightly(Wrap(t0), duration)
  {
    if duration >= 0 {
      TimerForward(t0, duration);
    } else {
      TimerBackward(t0, duration);
    }
  }

  lemma TimerForward(t0: nat, duration: int32)
    requires duration >= 0
    ensures TimerIsExact(t0, duration) <==> Wrap(t0) + 1000 * duration < WORD - 1
  {
    var due := t0 + 1000 * duration;
    var base := t0 - Wrap(t0);
    var d := Deadline(Wrap(t0), duration);
    if Wrap(t0) + 1000 * duration < WORD - 1 {
      forall t: nat | t0 <= t && (t / WORD == t0 / WORD || t <= due)
        ensures FiresAt(t0, duration, t) <==> t >= due
      {
        assert t / WORD == t0 / WORD;
        assert Wrap(t) == t - base && d == due - base;
      }
    } else if d == NO_TIMER {
      assert !FiresAt(t0, duration, due);
    } else if Wrap(t0) + 1000 * duration < WORD + Wrap(t0) {
      assert d == Wrap(t0) + 1000 * duration - WORD;
      assert FiresAt(t0, duration, t0);
    } else {
      var last := base + (WORD - 1);
      assert last / WORD == t0 / WORD && Wrap(last) == WORD - 1;
      assert FiresAt(t0, duration, last) && last < due;
    }
  }

  lemma TimerBackward(t0: nat, duration: int32)
    requires duration < 0
    ensures TimerIsExact(t0, duration) <==> Deadline(Wrap(t0), duration) <= Wrap(t0) && Deadline(Wrap(t0), duration) != NO_TIMER
  {
    if Deadline(Wrap(t0), duration) <= Wrap(t0) && Deadline(Wrap(t0), duration) != NO_TIMER {
      forall t: nat | t0 <= t && t / WORD == t0 / WORD
        ensures FiresAt(t0, duration, t)
      {
        SameEpochOrder(t0, t);
      }
    } else {
      assert !FiresAt(t0, duration, t0);
    }
  }

  lemma SameEpochOrder(a: nat, b: nat)
    requires a / WORD == b / WORD
    ensures a <= b <==> Wrap(a) <= Wrap(b)
  {
    assert a == a / WORD * WORD + Wrap(a) && b == b / WORD * WORD + Wrap(b);
  }

  /** Ten seconds too few: 5 s after boot, a duration of -10 s leaves the relay on until 4294962296 ms, for 49.7 days. */
  lemma NegativeDurationStaysOn(r: Bank, t: nat)
    requires 5000 <= t < 4294962296
    ensures ApiRelais(r, 1, true, Some(-10), 5000).c1 == Channel(4294962296, true, true)
    ensures !FiresAt(5000, -10, t) && !CountsRightly(5000, -10)
  {}

  /** A command given half a second before the clock rolls over for one second is cut off at once. */
  lemma TimerAcrossRollover()
    ensures FiresAt(WORD - 500, 1, WORD - 500)
  {}

  /**
   * A timed command sets its relay and pin. It leaves a timer running behind it if and only if the
   * number is 1 or 2 already as an `int` and the deadline misses the "no timer" mark.
   */
  lemma TimedCommandArmsIff(r: Bank, channel: ApiChannel, state: bool, duration: int32, now: word)
    ensures var after := Get(ApiRelais(r, channel, state, Some(duration), now), Int8(channel));
            && after.relay == after.pin == state
            && (after.deadline != NO_TIMER <==> (channel == 1 || channel == 2) && Deadline(now, duration) != NO_TIMER)
  {}

  /**
   * From r to r': the relay's flag and pin take the state, with a timer if a duration is given and the number is 1 or 2 already as
   * an `int`, and without one otherwise; the other channel is as before.
   */
  predicate Commanded(r: Bank, r': Bank, channel: ApiChannel, state: bool, duration: Option<int32>, now: word) {
    var c := Int8(channel);
    && Get(r', 3 - c) == Get(r, 3 - c)
    && match duration
       case None => Get(r', c) == Channel(NO_TIMER, state, state)
       case Some(d) => Get(r', c) == Channel(if channel == c then Deadline(now, d) else NO_TIMER, state, state)
  }

  lemma ApiRelaisCommands(r: Bank, channel: ApiChannel, state: bool, duration: Option<int32>, now: word)
    ensures Commanded(r, ApiRelais(r, channel, state, duration, now), channel, state, duration, now)
  {}

  /** A command without a duration switches flag and pin, disarms the timer, and leaves the other channel alone. */
  lemma UntimedCommand(r: Bank, channel: ApiChannel, state: bool, now: word)
    ensures var r', c := ApiRelais(r, channel, state, None, now), Int8(channel);
            Get(r', c) == Channel(NO_TIMER, state, state) && Get(r', 3 - c) == Get(r, 3 - c)
  {}

  /** One second from 1001 ms before the end of the clock hits the mark: relay 1 is switched on without a timer. */
  lemma MarkMeansNoTimer(r: Bank)
    ensures ApiRelais(r, 1, true, Some(1), NO_TIMER - 1000).c1 == Channel(NO_TIMER, true, true)
  {}

  /** Channel 257 switches relay 1 on and leaves it on without a timer. */
  lemma Channel257HasNoTimer(r: Bank, now: word)
    ensures ApiRelais(r, 257, true, Some(5), now).c1 == Channel(NO_TIMER, true, true)
  {}
}
