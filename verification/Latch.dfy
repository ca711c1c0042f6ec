/** The fill latch as a machine over the levels it samples. */
module Latch {
  datatype Limits = Limits(maxL: real, fillL: real)

  predicate IsStop(m: Limits, x: real) {
    x >= m.maxL
  }

  predicate IsStart(m: Limits, x: real) {
    x < m.maxL && x <= m.fillL
  }

  /** The latch after one more sample. */
  function Next(m: Limits, on: bool, x: real): bool {
    if x < m.maxL then on || x <= m.fillL else false
  }

  /** The latch, first off, after the samples xs. */
  function Latched(m: Limits, xs: seq<real>): bool {
    xs != [] && Next(m, Latched(m, xs[..|xs| - 1]), xs[|xs| - 1])
  }

  /** Some sample asked for filling and none since asked to stop. */
  ghost predicate StartedAndNotStopped(m: Limits, xs: seq<real>) {
    exists i :: 0 <= i < |xs| && IsStart(m, xs[i]) && forall j :: i < j < |xs| ==> !IsStop(m, xs[j])
  }

  /** The latch is on exactly when the last decisive sample was a start, for any thresholds. */
  lemma {:induction false} LatchedIff(m: Limits, xs: seq<real>)
    ensures Latched(m, xs) <==> StartedAndNotStopped(m, xs)
  {
    if xs != [] {
      var n := |xs| - 1;
      var front := xs[..n];
      LatchedIff(m, front);
      if StartedAndNotStopped(m, front) && !IsStop(m, xs[n]) {
        var i :| 0 <= i < n && IsStart(m, front[i]) && forall j :: i < j < n ==> !IsStop(m, front[j]);
        assert IsStart(m, xs[i]) && forall j :: i < j < n ==> xs[j] == front[j];
      }
      if StartedAndNotStopped(m, xs) {
        var i :| 0 <= i < |xs| && IsStart(m, xs[i]) && forall j :: i < j < |xs| ==> !IsStop(m, xs[j]);
        if i < n {
          assert IsStart(m, front[i]) && forall j :: i < j < n ==> xs[j] == front[j];
          assert !IsStop(m, xs[n]);
        }
      }
    }
  }

  // ---------- chatter ----------

  /** How often the latch went from off to on. */
  function Switches(m: Limits, xs: seq<real>): nat {
    if xs == [] then 0
    else Switches(m, xs[..|xs| - 1]) + (if !Latched(m, xs[..|xs| - 1]) && Latched(m, xs) then 1 else 0)
  }

  function Abs(x: real): real {
    if x < 0.0 then -x else x
  }

  function Max0(x: real): real {
    if x < 0.0 then 0.0 else x
  }

  /** The total up and down movement of the samples. */
  function Variation(xs: seq<real>): (v: real)
    ensures v >= 0.0
  {
    if |xs| <= 1 then 0.0 else Variation(xs[..|xs| - 1]) + Abs(xs[|xs| - 1] - xs[|xs| - 2])
  }

  /** The movement of k - 1 full swings between the thresholds. */
  function Cycles(m: Limits, k: int): real {
    2.0 * (k - 1) as real * (m.maxL - m.fillL)
  }

  lemma CyclesNext(m: Limits, k: int)
    ensures Cycles(m, k + 1) == Cycles(m, k) + 2.0 * (m.maxL - m.fillL)
  {
    assert (k + 1 - 1) as real == (k - 1) as real + 1.0;
  }

  /**
   * Switching on k times costs at least 2 (k - 1) (maxL - fillL) of movement in the samples.
   */
  lemma ChatterBound(m: Limits, xs: seq<real>)
    requires m.fillL < m.maxL && Switches(m, xs) >= 1
    ensures Cycles(m, Switches(m, xs)) <= Variation(xs)
  {
    ChatterPotential(m, xs);
  }

  /** What the samples moved beyond the completed cycles, depending on where the latch stands. */
  lemma {:induction false} ChatterPotential(m: Limits, xs: seq<real>)
    requires m.fillL < m.maxL && xs != []
    ensures var k, x := Switches(m, xs), xs[|xs| - 1];
            if Latched(m, xs) then k >= 1 && Cycles(m, k) + Max0(x - m.fillL) <= Variation(xs)
            else k >= 1 ==> Cycles(m, k) + m.maxL - m.fillL + Max0(m.maxL - x) <= Variation(xs)
  {
    if |xs| > 1 {
      var front := xs[..|xs| - 1];
      ChatterPotential(m, front);
      assert front[|front| - 1] == xs[|xs| - 2];
      CyclesNext(m, Switches(m, front));
    }
  }

  /** The cheapest way to switch on k times: jump between the two thresholds. */
  function Alternating(m: Limits, k: nat): (xs: seq<real>)
    ensures |xs| == if k == 0 then 0 else 2 * k - 1
  {
    if k == 0 then [] else if k == 1 then [m.fillL] else Alternating(m, k - 1) + [m.maxL] + [m.fillL]
  }

  lemma SwitchesSnoc(m: Limits, xs: seq<real>, x: real)
    ensures Latched(m, xs + [x]) == Next(m, Latched(m, xs), x)
    ensures Switches(m, xs + [x]) == Switches(m, xs) + (if !Latched(m, xs) && Next(m, Latched(m, xs), x) then 1 else 0)
  {
    assert (xs + [x])[..|xs|] == xs;
  }

  lemma VariationSnoc(xs: seq<real>, x: real)
    requires xs != []
    ensures Variation(xs + [x]) == Variation(xs) + Abs(x - xs[|xs| - 1])
  {
    assert (xs + [x])[..|xs|] == xs;
  }

  /** One more swing up to the maximum and down to the fill level. */
  lemma Swing(m: Limits, ys: seq<real>)
    requires m.fillL < m.maxL && ys != [] && ys[|ys| - 1] == m.fillL && Latched(m, ys)
    ensures var xs := ys + [m.maxL] + [m.fillL];
            && Latched(m, xs) && Switches(m, xs) == Switches(m, ys) + 1
            && Variation(xs) == Variation(ys) + 2.0 * (m.maxL - m.fillL)
  {
    SwitchesSnoc(m, ys, m.maxL);
    SwitchesSnoc(m, ys + [m.maxL], m.fillL);
    VariationSnoc(ys, m.maxL);
    VariationSnoc(ys + [m.maxL], m.fillL);
  }

  /** xs switches on k times, ends on the fill level with the latch on, and moves no more than it must. */
  predicate IsTight(m: Limits, xs: seq<real>, k: nat) {
    && xs != [] && xs[|xs| - 1] == m.fillL && Latched(m, xs)
    && Switches(m, xs) == k
    && Variation(xs) == Cycles(m, k)
  }

  lemma FirstSwitchIsTight(m: Limits)
    requires m.fillL < m.maxL
    ensures IsTight(m, [m.fillL], 1)
  {
    SwitchesSnoc(m, [], m.fillL);
    assert [] + [m.fillL] == [m.fillL];
  }

  lemma SwingIsTight(m: Limits, ys: seq<real>, k: nat)
    requires m.fillL < m.maxL && IsTight(m, ys, k)
    ensures IsTight(m, ys + [m.maxL] + [m.fillL], k + 1)
  {
    Swing(m, ys);
    CyclesNext(m, k);
  }

  /** The bound cannot be improved for any k. */
  lemma {:induction false} ChatterBoundIsTight(m: Limits, k: nat)
    requires m.fillL < m.maxL && k >= 1
    ensures IsTight(m, Alternating(m, k), k)
  {
    if k == 1 {
      FirstSwitchIsTight(m);
    } else {
      ChatterBoundIsTight(m, k - 1);
      SwingIsTight(m, Alternating(m, k - 1), k - 1);
    }
  }
}
