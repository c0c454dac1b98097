/** The arithmetic every decision rests on: saturating 32-bit watts, saturating
    64-bit millisecond timestamps, the gain and the ramp factor, all as integers
    with the source's rounding written out. Energy and meter readings are reals. */
module Units {

  datatype Option<+T> = None | Some(value: T)

  const I32_MIN: int := -0x8000_0000
  const I32_MAX: int := 0x7fff_ffff
  const I64_MIN: int := -0x8000_0000_0000_0000
  const I64_MAX: int := 0x7fff_ffff_ffff_ffff
  const U32_MAX: int := 0xffff_ffff

  type Watts = w: int | I32_MIN <= w <= I32_MAX
  type U32 = w: int | 0 <= w <= U32_MAX
  /** A commanded setpoint: never negative. */
  type Setpoint = w: int | 0 <= w <= I32_MAX
  type Soc = s: int | 0 <= s <= 100
  type Gain = g: int | 0 <= g <= 200
  /** Wall-clock milliseconds. */
  type Timestamp = t: int | I64_MIN <= t <= I64_MAX

  function Min(a: int, b: int): int { if a < b then a else b }
  function Max(a: int, b: int): int { if a < b then b else a }
  function Abs(a: int): int { if a < 0 then -a else a }

  /** Rust's `clamp`, which panics unless `lo <= hi`. */
  function Clamp(x: int, lo: int, hi: int): int
    requires lo <= hi
  {
    if x < lo then lo else if hi < x then hi else x
  }

  function SatI32(x: int): Watts { Clamp(x, I32_MIN, I32_MAX) }
  function SatI64(x: int): Timestamp { Clamp(x, I64_MIN, I64_MAX) }

  function Add(a: Watts, b: Watts): Watts { SatI32(a + b) }
  function Sub(a: Watts, b: Watts): Watts { SatI32(a - b) }
  function Neg(a: Watts): Watts { SatI32(0 - a) }

  /** A margin, cap or slew limit as an `i32` bound. */
  function Bound(w: U32): Setpoint { Min(w, I32_MAX) }

  /** `i32::abs` as a release build computes it: the one value with no
      positive counterpart wraps back onto itself. */
  function WrappingAbs(w: Watts): Watts { if w == I32_MIN then I32_MIN else Abs(w) }

  /** A float cast to `i32`: truncates toward zero, saturating. */
  function Truncated(r: real): Watts
  {
    SatI32(if r < 0.0 then -((-r).Floor) else r.Floor)
  }

  function Importing(grid: real): Watts { Truncated(grid) }
  function Exporting(grid: real): Watts { Truncated(-grid) }

  /** How hard a signed battery flow is charging, and discharging. */
  function Charging(flow: Watts): Setpoint { Max(Neg(flow), 0) }
  function Discharging(flow: Watts): Setpoint { Max(flow, 0) }

  /** `n / 100` rounded half away from zero. */
  function RoundedHundredth(n: int): int
  {
    if n < 0 then -((-n + 50) / 100) else (n + 50) / 100
  }

  function ApplyGain(gain: Gain, w: Watts): Watts { SatI32(RoundedHundredth(w * gain)) }

  /** A setpoint scaled by the 75 % ramp factor, truncated. */
  function Ramped(w: Setpoint): Setpoint { 3 * w / 4 }

  function ClampedSetpoint(w: Watts, cap: U32): Setpoint { Clamp(w, 0, Bound(cap)) }

  /** A configured duration in milliseconds, as a span. */
  function ElapsedOf(duration: nat): Timestamp { Min(duration, I64_MAX) }

  /** The signed, saturating span from `then` to `now`. */
  function Since(now: Timestamp, before: Timestamp): Timestamp { SatI64(now - before) }

  /** A gain of 0 to 100 % never overshoots an error, and one that scales the
      error to half a watt or more always moves at least one. */
  lemma GainBounds(gain: Gain, w: Watts)
    requires gain <= 100
    ensures 0 <= w ==> 0 <= ApplyGain(gain, w) <= w
    ensures w <= 0 ==> w <= ApplyGain(gain, w) <= 0
    ensures 0 <= w && gain * w >= 50 ==> ApplyGain(gain, w) >= 1
    ensures w <= 0 && gain * (0 - w) >= 50 ==> ApplyGain(gain, w) <= -1
  {
    var n := w * gain;
    if 0 <= w {
      ScalesWithin(w, gain);
      HundredthBounds(n, w);
    } else {
      ScalesWithin(0 - w, gain);
      assert n == 0 - (0 - w) * gain;
      HundredthBounds(0 - n, 0 - w);
    }
  }

  /** What the gain makes of an error is that percentage of it to the nearest watt,
      ties going away from zero, and the end of the range where that is beyond it. */
  lemma GainScales(gain: Gain, w: Watts)
    ensures
      var n, scaled := gain * w, ApplyGain(gain, w);
      && (0 <= n < 100 * I32_MAX + 50 ==> -50 <= n - 100 * scaled < 50)
      && (100 * I32_MIN - 50 < n < 0 ==> -50 < n - 100 * scaled <= 50)
      && (n >= 100 * I32_MAX ==> scaled == I32_MAX)
      && (n <= 100 * I32_MIN ==> scaled == I32_MIN)
  {
    var n := gain * w;
    assert w * gain == n;
    HundredthIsNearest(n);
  }

  lemma HundredthIsNearest(n: int)
    ensures 0 <= n ==> -50 <= n - 100 * RoundedHundredth(n) < 50
    ensures n < 0 ==> -50 < n - 100 * RoundedHundredth(n) <= 50
  {
  }

  /** Exact where the result is representable, and its nearest bound where not. */
  predicate Saturates(exact: int, least: int, most: int, result: int)
  {
    && least <= result <= most
    && (least <= exact <= most ==> result == exact)
    && (exact < least ==> result == least)
    && (exact > most ==> result == most)
  }

  lemma ArithmeticSaturates(a: Watts, b: Watts, w: U32)
    ensures Saturates(a + b, I32_MIN, I32_MAX, Add(a, b))
    ensures Saturates(a - b, I32_MIN, I32_MAX, Sub(a, b))
    ensures Saturates(0 - a, I32_MIN, I32_MAX, Neg(a))
    ensures Saturates(w, 0, I32_MAX, Bound(w))
    ensures Saturates(a, 0, if w > I32_MAX then I32_MAX else w, ClampedSetpoint(a, w))
  {
  }

  lemma TimeSaturates(now: Timestamp, before: Timestamp, duration: nat)
    ensures Saturates(now - before, I64_MIN, I64_MAX, Since(now, before))
    ensures Saturates(duration, 0, I64_MAX, ElapsedOf(duration))
  {
  }

  /** A meter's figure as whole watts: the fraction is dropped, so the two readings
      of one figure are opposites, and it is off by less than a watt. */
  lemma ReadingsTruncate(grid: real)
    ensures I32_MIN as real < grid < I32_MAX as real ==>
              && Exporting(grid) == 0 - Importing(grid)
              && (grid >= 0.0 ==> Importing(grid) as real <= grid < Importing(grid) as real + 1.0)
              && (grid <= 0.0 ==> Importing(grid) as real - 1.0 < grid <= Importing(grid) as real)
    ensures grid >= I32_MAX as real ==> Importing(grid) == I32_MAX && Exporting(grid) <= 0 - I32_MAX
    ensures grid <= I32_MIN as real ==> Importing(grid) == I32_MIN && Exporting(grid) == I32_MAX
  {
  }

  /** A battery flow charges or discharges, or neither, and never both. */
  lemma FlowHasOneDirection(flow: Watts)
    ensures flow > I32_MIN ==> Discharging(flow) - Charging(flow) == flow
    ensures Charging(flow) == 0 || Discharging(flow) == 0
  {
  }

  /** The ramp factor takes three quarters and drops the fraction. */
  lemma RampIsThreeQuarters(w: Setpoint)
    ensures 4 * Ramped(w) <= 3 * w < 4 * Ramped(w) + 4
  {
  }

  lemma ScalesWithin(w: nat, gain: Gain)
    requires gain <= 100
    ensures 0 <= w * gain <= 100 * w
  {
  }

  lemma HundredthBounds(n: int, w: int)
    requires 0 <= n <= 100 * w
    ensures 0 <= RoundedHundredth(n) <= w && RoundedHundredth(0 - n) == 0 - RoundedHundredth(n)
    ensures n >= 50 ==> RoundedHundredth(n) >= 1
  {
  }

  lemma PrefixGrows<T>(s: seq<T>, i: nat)
    requires i < |s|
    ensures s[..i + 1] == s[..i] + [s[i]] && s[..i + 1][..i] == s[..i]
  {
  }
}
