/**
 * The interval gates of the firmware: `handleBlink`, `handleScan`, `handleDisplay` and the
 * automation loop all keep the word read from `millis()` when they last ran and run again once
 * the unsigned difference reaches their interval.
 */
module Gate {
  import opened Words

  /** The test every gate makes. */
  predicate Due(last: word, now: word, interval: nat) {
    Minus(now, last) >= interval
  }

  /** Polled at the (unbounded) times `ts`, when does the 32-bit gate run? */
  function Fires(last: word, ts: seq<nat>, interval: nat): seq<nat>
    decreases ts
  {
    if ts == [] then []
    else if Due(last, Wrap(ts[0]), interval) then [ts[0]] + Fires(Wrap(ts[0]), ts[1..], interval)
    else Fires(last, ts[1..], interval)
  }

  /** The gate as it would be with a clock that never rolls over. */
  function IdealFires(last: nat, ts: seq<nat>, interval: nat): seq<nat>
    decreases ts
  {
    if ts == [] then []
    else if ts[0] - last >= interval then [ts[0]] + IdealFires(ts[0], ts[1..], interval)
    else IdealFires(last, ts[1..], interval)
  }

  /** Poll times that do not run backwards. */
  predicate Ordered(start: nat, ts: seq<nat>)
    decreases ts
  {
    ts == [] || (start <= ts[0] && Ordered(ts[0], ts[1..]))
  }

  /** Neither the first poll nor any later one comes more than `gap` after the one before. */
  predicate Within(start: nat, ts: seq<nat>, gap: nat)
    decreases ts
  {
    ts == [] || (start <= ts[0] <= start + gap && Within(ts[0], ts[1..], gap))
  }

  function LastOf(start: nat, ts: seq<nat>): nat {
    if ts == [] then start else ts[|ts| - 1]
  }

  /** Each time is at least `interval` after the one before it, the first after `start`. */
  predicate Spaced(start: nat, fs: seq<nat>, interval: nat)
    decreases fs
  {
    fs == [] || (fs[0] >= start + interval && Spaced(fs[0], fs[1..], interval))
  }

  /** One poll: if the true elapsed time fits a word, the gate decides as an ideal gate would. */
  lemma DueIsExact(last: nat, now: nat, interval: nat)
    requires last <= now
    ensures Due(Wrap(last), Wrap(now), interval) ==> now - last >= interval
    ensures now - last < WORD ==> (Due(Wrap(last), Wrap(now), interval) <==> now - last >= interval)
  {
    ElapsedModulo(last, now);
  }

  /**
   * The 32-bit gate behaves exactly as the ideal one over any number of rollovers, provided that
   * the longest gap between polls plus the interval stays within a word.
   */
  lemma {:induction false} RefinesIdealGate(last: nat, prev: nat, ts: seq<nat>, interval: nat, gap: nat)
    requires last <= prev && (prev == last || prev - last < interval)
    requires Within(prev, ts, gap)
    requires interval + gap <= WORD && gap < WORD
    ensures Fires(Wrap(last), ts, interval) == IdealFires(last, ts, interval)
    decreases ts
  {
    if ts != [] {
      DueIsExact(last, ts[0], interval);
      if ts[0] - last >= interval {
        RefinesIdealGate(ts[0], ts[0], ts[1..], interval, gap);
      } else {
        RefinesIdealGate(last, ts[0], ts[1..], interval, gap);
      }
    }
  }

  /**
   * Runs are at least `interval` apart and so at most (T - last) / interval of them happen by
   * time T. Neither needs a bound on the gaps: a rollover can only delay a run.
   */
  lemma {:induction false} FiresAreSpaced(last: nat, ts: seq<nat>, interval: nat)
    requires Ordered(last, ts)
    ensures var fs := Fires(Wrap(last), ts, interval);
            && Spaced(last, fs, interval)
            && |fs| * interval <= LastOf(last, ts) - last
  {
    FiresAreSpacedFrom(last, last, ts, interval);
    SpacedBound(last, Fires(Wrap(last), ts, interval), interval);
  }

  lemma {:induction false} SpacedBound(start: nat, fs: seq<nat>, interval: nat)
    requires Spaced(start, fs, interval)
    ensures |fs| * interval <= LastOf(start, fs) - start
    decreases fs
  {
    if fs != [] {
      SpacedBound(fs[0], fs[1..], interval);
      var n := |fs[1..]|;
      assert (n + 1) * interval == n * interval + interval;
    }
  }

  lemma {:induction false} SpacedSnoc(start: nat, fs: seq<nat>, x: nat, interval: nat)
    requires Spaced(start, fs, interval) && x >= LastOf(start, fs) + interval
    ensures Spaced(start, fs + [x], interval)
    decreases fs
  {
    if fs != [] {
      SpacedSnoc(fs[0], fs[1..], x, interval);
      assert (fs + [x])[1..] == fs[1..] + [x];
    }
  }

  lemma {:induction false} FiresAreSpacedFrom(last: nat, prev: nat, ts: seq<nat>, interval: nat)
    requires last <= prev && Ordered(prev, ts)
    ensures var fs := Fires(Wrap(last), ts, interval);
            && Spaced(last, fs, interval)
            && LastOf(last, fs) <= LastOf(prev, ts)
    decreases ts
  {
    if ts != [] {
      DueIsExact(last, ts[0], interval);
      if Due(Wrap(last), Wrap(ts[0]), interval) {
        FiresAreSpacedFrom(ts[0], ts[0], ts[1..], interval);
        assert ([ts[0]] + Fires(Wrap(ts[0]), ts[1..], interval))[1..] == Fires(Wrap(ts[0]), ts[1..], interval);
      } else {
        FiresAreSpacedFrom(last, ts[0], ts[1..], interval);
      }
    }
  }

  /**
   * With polls at most `gap` apart up to time T, at least floor((T - last) / (interval + gap))
   * runs happen by T.
   */
  lemma {:induction false} FiresKeepUp(last: nat, prev: nat, ts: seq<nat>, interval: nat, gap: nat, T: nat)
    requires last <= prev && (prev == last || prev - last < interval)
    requires Within(prev, ts, gap) && LastOf(prev, ts) <= T <= LastOf(prev, ts) + gap
    requires interval + gap <= WORD && 0 < interval
    ensures T - last < (|Fires(Wrap(last), ts, interval)| + 1) * (interval + gap)
    decreases ts
  {
    if ts != [] {
      DueIsExact(last, ts[0], interval);
      if ts[0] - last >= interval {
        FiresKeepUp(ts[0], ts[0], ts[1..], interval, gap, T);
        var n := |Fires(Wrap(ts[0]), ts[1..], interval)|;
        assert (n + 2) * (interval + gap) == (n + 1) * (interval + gap) + (interval + gap);
      } else {
        FiresKeepUp(last, ts[0], ts[1..], interval, gap, T);
      }
    }
  }

  /** With polls at most `gap` apart, after the last poll the gate is never overdue: it ran less than an interval before. */
  lemma {:induction false} NeverOverdue(last: nat, prev: nat, ts: seq<nat>, interval: nat, gap: nat)
    requires last <= prev && prev - last < interval
    requires Within(prev, ts, gap) && interval + gap <= WORD
    ensures LastOf(prev, ts) - LastOf(last, Fires(Wrap(last), ts, interval)) < interval
    decreases ts
  {
    if ts != [] {
      DueIsExact(last, ts[0], interval);
      if ts[0] - last >= interval {
        NeverOverdue(ts[0], ts[0], ts[1..], interval, gap);
        var fs := Fires(Wrap(ts[0]), ts[1..], interval);
        assert LastOf(last, [ts[0]] + fs) == LastOf(ts[0], fs);
      } else {
        NeverOverdue(last, ts[0], ts[1..], interval, gap);
      }
    }
  }

  /** One more poll at the end: the gate tests it against its last run. */
  lemma {:induction false} FiresSnoc(last: nat, ts: seq<nat>, t: nat, interval: nat)
    ensures var fs := Fires(Wrap(last), ts, interval);
            Fires(Wrap(last), ts + [t], interval) ==
            fs + (if Due(Wrap(LastOf(last, fs)), Wrap(t), interval) then [t] else [])
    decreases ts
  {
    if ts == [] {
      assert [] + [t] == [t] && [t][1..] == [];
      assert Fires(Wrap(t), [], interval) == [];
    } else {
      assert (ts + [t])[1..] == ts[1..] + [t];
      if Due(Wrap(last), Wrap(ts[0]), interval) {
        FiresSnoc(ts[0], ts[1..], t, interval);
        var fs := Fires(Wrap(ts[0]), ts[1..], interval);
        assert LastOf(last, [ts[0]] + fs) == LastOf(ts[0], fs);
      } else {
        FiresSnoc(last, ts[1..], t, interval);
      }
    }
  }
}
