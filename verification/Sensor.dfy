/** From filtered voltage to the cached readings: affine map, clamp, volume, rounding. */
module Sensor {
  import opened Words
  import E = Ema

  /** Calibration: voltages of the empty and the full tank, and its volume. */
  datatype RawCalibration = Calibration(minV: real, maxV: real, tank: real)
  type Calibration = c: RawCalibration | c.minV != c.maxV witness Calibration(0.0, 2.4, 1000.0)

  /** The voltage and what the last scan cached. */
  datatype Readings = Readings(latest: real, current: real, temperature: real, level: real, volume: real)

  /** `handleScan` runs at most once in this many milliseconds. */
  const SCAN_INTERVAL: nat := 1000

  const BOOT := Readings(0.0, 0.0, 0.0, 0.0, 0.0)

  /** `std::round`: to the nearest integer, halves away from zero. */
  function Round(x: real): int {
    if x >= 0.0 then (x + 0.5).Floor else -((0.5 - x).Floor)
  }

  function Round2(x: real): real {
    Round(x * 100.0) as real / 100.0
  }

  /** Percentage before the clamp. */
  function Percent(c: Calibration, v: real): real {
    (v - c.minV) / (c.maxV - c.minV) * 100.0
  }

  function Clamp(x: real): real {
    if x < 0.0 then 0.0 else if x > 100.0 then 100.0 else x
  }

  function Level(c: Calibration, v: real): real {
    Clamp(Percent(c, v))
  }

  function Volume(c: Calibration, v: real): real {
    c.tank * (Level(c, v) / 100.0)
  }

  function Current(v: real): real {
    v / 120.0 * 1000.0
  }

  /** `sum` is a 32-bit accumulator of millivolt readings. */
  function SumWords(xs: seq<word>): word {
    if xs == [] then 0 else Wrap(SumWords(xs[..|xs| - 1]) + xs[|xs| - 1])
  }

  function SumOf(xs: seq<word>): nat {
    if xs == [] then 0 else SumOf(xs[..|xs| - 1]) + xs[|xs| - 1]
  }

  /** The readings one ADC task takes. */
  type Block = xs: seq<word> | xs != [] witness [0]

  /** The block average in volts that the filter is fed. */
  function Average(xs: Block): real {
    SumWords(xs) as real / |xs| as real / 1000.0
  }

  /** `scanSensors` once the voltage is taken as given. */
  function Scan(c: Calibration, r: Readings, temperature: real): Readings {
    r.(current := Round2(Current(r.latest)), temperature := Round2(temperature),
       level := Round2(Level(c, r.latest)), volume := Round2(Volume(c, r.latest)))
  }

  // ---------- block average ----------

  lemma OneMore(n: nat, bound: nat)
    ensures (n + 1) * bound == n * bound + bound
  {}

  lemma {:induction false} SumOfBetween(xs: seq<word>, lo: nat, hi: nat)
    requires forall i :: 0 <= i < |xs| ==> lo <= xs[i] <= hi
    ensures |xs| * lo <= SumOf(xs) <= |xs| * hi
  {
    if xs != [] {
      var n := |xs| - 1;
      SumOfBetween(xs[..n], lo, hi);
      OneMore(n, lo);
      OneMore(n, hi);
    }
  }

  /** The 32-bit accumulator holds the sum if the sum fits. */
  lemma {:induction false} SumWordsExact(xs: seq<word>)
    requires SumOf(xs) < WORD
    ensures SumWords(xs) == SumOf(xs)
  {
    if xs != [] {
      SumWordsExact(xs[..|xs| - 1]);
    }
  }

  lemma {:induction false} SumWordsModulo(xs: seq<word>)
    ensures SumWords(xs) == SumOf(xs) % WORD
  {
    if xs != [] {
      var n := |xs| - 1;
      SumWordsModulo(xs[..n]);
      WrapAdds(SumOf(xs[..n]), xs[n]);
    }
  }

  lemma WrapAdds(n: nat, x: word)
    ensures Wrap(n % WORD + x) == (n + x) % WORD
  {
    assert n == n / WORD * WORD + n % WORD;
  }

  /** The average times the number of readings is their sum modulo 2^32, in millivolts. */
  lemma AverageIsSum(xs: Block)
    ensures Average(xs) * |xs| as real * 1000.0 == (SumOf(xs) % WORD) as real
  {
    SumWordsModulo(xs);
    Undivided(SumWords(xs) as real, |xs| as real);
  }

  lemma Undivided(s: real, n: real)
    requires n > 0.0
    ensures s / n / 1000.0 * n * 1000.0 == s
  {
    var q := s / n;
    assert q * n == s;
    assert q / 1000.0 * n * 1000.0 == q * n;
  }

  /** The average of a block lies between its smallest and largest reading unless the accumulator wraps. */
  lemma AverageInHull(xs: Block, lo: nat, hi: nat)
    requires forall i :: 0 <= i < |xs| ==> lo <= xs[i] <= hi
    requires |xs| * hi < WORD
    ensures lo as real / 1000.0 <= Average(xs) <= hi as real / 1000.0
  {
    SumOfBetween(xs, lo, hi);
    SumWordsExact(xs);
    AverageBetween(|xs|, SumOf(xs), lo, hi);
  }

  lemma AverageBetween(n: nat, s: nat, lo: nat, hi: nat)
    requires 0 < n && n * lo <= s <= n * hi
    ensures lo as real / 1000.0 <= s as real / n as real / 1000.0 <= hi as real / 1000.0
  {
    SumBoundsAsReals(n, s, lo, hi);
    DivBounds(s as real, n as real, lo as real, hi as real);
  }

  lemma SumBoundsAsReals(n: nat, s: nat, lo: nat, hi: nat)
    requires n * lo <= s <= n * hi
    ensures n as real * lo as real <= s as real <= n as real * hi as real
  {
    assert (n * lo) as real == n as real * lo as real && (n * hi) as real == n as real * hi as real;
  }

  lemma DivBounds(s: real, n: real, lo: real, hi: real)
    requires n > 0.0 && n * lo <= s <= n * hi
    ensures lo <= s / n <= hi
  {
    assert s == n * (s / n);
  }

  // ---------- rounding ----------

  lemma RoundNearest(x: real)
    ensures x - 0.5 <= Round(x) as real <= x + 0.5
    ensures x >= 0.0 ==> Round(x) >= 0
  {}

  lemma RoundMonotone(x: real, y: real)
    requires x <= y
    ensures Round(x) <= Round(y)
  {}

  lemma Round2Near(x: real)
    ensures x - 0.005 <= Round2(x) <= x + 0.005
  {
    RoundNearest(x * 100.0);
  }

  /** Rounding to two decimals is within 0.005, monotone, idempotent and odd. */
  lemma Round2Laws(x: real, y: real)
    ensures x - 0.005 <= Round2(x) <= x + 0.005
    ensures x <= y ==> Round2(x) <= Round2(y)
    ensures Round2(Round2(x)) == Round2(x)
    ensures Round2(-x) == -Round2(x)
  {
    RoundNearest(x * 100.0);
    if x <= y {
      RoundMonotone(x * 100.0, y * 100.0);
    }
    var n := Round(x * 100.0);
    assert Round2(x) * 100.0 == n as real;
    assert Round(n as real) == n;
  }

  // ---------- cached readings ----------

  lemma PercentMonotone(c: Calibration, v: real, w: real)
    requires v < w
    ensures c.minV < c.maxV ==> Percent(c, v) < Percent(c, w)
    ensures c.maxV < c.minV ==> Percent(c, w) < Percent(c, v)
  {
    var d := c.maxV - c.minV;
    var p, q := (v - c.minV) / d, (w - c.minV) / d;
    assert p * d == v - c.minV && q * d == w - c.minV;
    assert (q - p) * d > 0.0;
  }

  /** The cached level is a percentage. */
  lemma CachedLevelInRange(c: Calibration, r: Readings, t: real)
    ensures 0.0 <= Scan(c, r, t).level <= 100.0
  {
    Round2Laws(0.0, Level(c, r.latest));
    Round2Laws(Level(c, r.latest), 100.0);
    assert Round2(0.0) == 0.0 && Round2(100.0) == 100.0;
  }

  /** The voltage a fraction f of the way from the empty to the full tank. */
  function VoltageAt(c: Calibration, f: real): real {
    c.minV + f * (c.maxV - c.minV)
  }

  /** It is read as 100 f percent, as 0 below the empty tank and as 100 above the full one; the cached level is that up to rounding. */
  lemma LevelOfFraction(c: Calibration, f: real, r: Readings, t: real)
    requires r.latest == VoltageAt(c, f)
    ensures 0.0 <= f <= 1.0 ==> Level(c, r.latest) == 100.0 * f
    ensures f < 0.0 ==> Level(c, r.latest) == 0.0
    ensures f > 1.0 ==> Level(c, r.latest) == 100.0
    ensures 0.0 <= f <= 1.0 ==> 100.0 * f - 0.005 <= Scan(c, r, t).level <= 100.0 * f + 0.005
    ensures Volume(c, r.latest) == c.tank * Clamp(100.0 * f) / 100.0
  {
    DivExact(f, c.maxV - c.minV);
    assert Percent(c, r.latest) == 100.0 * f;
    Round2Near(Level(c, r.latest));
  }

  /** The cached temperature is the one given, up to rounding; the voltage is not touched. */
  lemma CachedTemperature(c: Calibration, r: Readings, t: real)
    ensures t - 0.005 <= Scan(c, r, t).temperature <= t + 0.005 && Scan(c, r, t).latest == r.latest
  {
    Round2Near(t);
  }

  /** The cached level rises with the voltage for every pair of voltages exactly when minV < maxV. */
  lemma CachedLevelMonotoneIff(c: Calibration, t: real)
    ensures (forall r: Readings, s: Readings :: r.latest <= s.latest ==> Scan(c, r, t).level <= Scan(c, s, t).level)
            <==> c.minV < c.maxV
  {
    if c.minV < c.maxV {
      forall r: Readings, s: Readings | r.latest <= s.latest
        ensures Scan(c, r, t).level <= Scan(c, s, t).level
      {
        if r.latest < s.latest {
          PercentMonotone(c, r.latest, s.latest);
        }
        Round2Laws(Level(c, r.latest), Level(c, s.latest));
      }
    } else {
      var full, empty := BOOT.(latest := c.maxV), BOOT.(latest := c.minV);
      assert (c.maxV - c.minV) / (c.maxV - c.minV) == 1.0;
      assert Scan(c, full, t).level == Round2(100.0) == 100.0;
      assert Scan(c, empty, t).level == Round2(0.0) == 0.0;
      assert full.latest <= empty.latest;
    }
  }

  /** The cached milliamperes, through the 120 ohm shunt, give back the voltage up to rounding. */
  lemma CachedCurrentMatchesVoltage(c: Calibration, r: Readings, t: real)
    ensures r.latest - 0.0006 <= Scan(c, r, t).current / 1000.0 * 120.0 <= r.latest + 0.0006
  {
    Round2Near(Current(r.latest));
  }

  /** Volume and level fit together up to two roundings. */
  predicate Agree(tank: real, level: real, volume: real) {
    -(0.005 + tank * 0.00005) <= volume - tank * level / 100.0 <= 0.005 + tank * 0.00005
  }

  /** Level and volume cached from one voltage agree. */
  lemma CachedVolumeAgrees(c: Calibration, r: Readings, t: real)
    requires c.tank >= 0.0
    ensures Agree(c.tank, Scan(c, r, t).level, Scan(c, r, t).volume)
  {
    RoundedAgree(c.tank, Level(c, r.latest), Volume(c, r.latest));
  }

  lemma RoundedAgree(tank: real, level: real, volume: real)
    requires tank >= 0.0 && volume == tank * (level / 100.0)
    ensures Agree(tank, Round2(level), Round2(volume))
  {
    Round2Near(level);
    Round2Near(volume);
    VolumeError(tank, level, Round2(level), volume, Round2(volume));
  }

  lemma VolumeError(tank: real, level: real, roundedLevel: real, volume: real, roundedVolume: real)
    requires tank >= 0.0 && volume == tank * (level / 100.0)
    requires level - 0.005 <= roundedLevel <= level + 0.005
    requires volume - 0.005 <= roundedVolume <= volume + 0.005
    ensures Agree(tank, roundedLevel, roundedVolume)
  {
    var e := (level - roundedLevel) / 100.0;
    assert -0.00005 <= e <= 0.00005;
    assert volume == tank * roundedLevel / 100.0 + tank * e;
    E.ScaleMonotone(tank, -0.00005, e);
    E.ScaleMonotone(tank, e, 0.00005);
  }

  // ---------- the filter seen in level units ----------

  function Percents(c: Calibration, vs: seq<real>): (ps: seq<real>)
    ensures |ps| == |vs|
  {
    seq(|vs|, i requires 0 <= i < |vs| => Percent(c, vs[i]))
  }

  lemma PercentOfEma(c: Calibration, v: real, x: real)
    ensures Percent(c, E.Ema(v, x)) == E.Ema(Percent(c, v), Percent(c, x))
  {
    var d := c.maxV - c.minV;
    var p, q := (v - c.minV) / d, (x - c.minV) / d;
    assert p * d == v - c.minV && q * d == x - c.minV;
    assert E.Ema(v, x) - c.minV == (0.7 * p + 0.3 * q) * d;
    DivExact(0.7 * p + 0.3 * q, d);
  }

  lemma DivExact(a: real, d: real)
    requires d != 0.0
    ensures (a * d) / d == a
  {}

  /** Filtering the voltage and converting is the same as converting and filtering the level. */
  lemma {:induction false} PercentOfFold(c: Calibration, v0: real, vs: seq<real>)
    ensures Percent(c, E.Fold(v0, vs)) == E.Fold(Percent(c, v0), Percents(c, vs))
  {
    if vs != [] {
      var n := |vs| - 1;
      PercentOfFold(c, v0, vs[..n]);
      assert Percents(c, vs)[..n] == Percents(c, vs[..n]);
      PercentOfEma(c, E.Fold(v0, vs[..n]), vs[n]);
    }
  }
}
