/**
 * The two pure display helpers of src/ui.rs: `format_simulation_time`, which
 * writes a signed duration in seconds as "days hh:mm:ss", and `format_scale`,
 * which picks the unit for the length a scale gauge stands for.
 */
module UiFormat {

  import opened RealMath
  import Simulation

  // ---------------------------------------------------------------------------
  // Floating-point helpers

  /** `f64::floor` followed by `as i64`, for values in range. */
  function Floor(x: real): (r: int)
    ensures r as real <= x < r as real + 1.0
  {
    x.Floor
  }

  /** Rounding toward zero, the quotient the `%` operator on `f64` uses. */
  function Trunc(x: real): int {
    if x >= 0.0 then x.Floor else -((-x).Floor)
  }

  /** The `%` operator on `f64`: the remainder after a quotient rounded toward zero. */
  function Fmod(a: real, b: real): real
    requires b > 0.0
  {
    a - b * Trunc(a / b) as real
  }

  /** For x >= 0, floor(x / k) = floor(x) div k. */
  lemma FloorDiv(x: real, k: int)
    requires x >= 0.0 && k > 0
    ensures Floor(x / k as real) == Floor(x) / k
  {
    var n := Floor(x);
    var q := n / k;
    var r := n % k;
    assert n == q * k + r && 0 <= r < k;
    assert (q * k) as real == q as real * k as real;
    assert q as real * k as real <= x;
    assert x < (q as real + 1.0) * k as real by {
      assert x < n as real + 1.0;
      assert n + 1 <= q * k + k;
      assert ((q + 1) * k) as real == (q as real + 1.0) * k as real;
    }
    DivideBounds(x, k as real, q as real);
  }

  /** From q k <= x < (q + 1) k with k > 0: q <= x / k < q + 1. */
  lemma DivideBounds(x: real, k: real, q: real)
    requires k > 0.0
    requires q * k <= x < (q + 1.0) * k
    ensures q <= x / k < q + 1.0
  {
    assert x / k * k == x;
    if x / k < q {
      MulMonotone(x / k, q, k);
    }
    if x / k >= q + 1.0 {
      MulMonotone(q + 1.0, x / k, k);
    }
  }

  /** Multiplying by a positive number keeps the order. */
  lemma MulMonotone(a: real, b: real, k: real)
    requires a <= b && k > 0.0
    ensures a * k <= b * k
    ensures a < b ==> a * k < b * k
  {
    assert b * k - a * k == (b - a) * k;
  }

  /** For x >= 0, x % k is non-negative and its floor is floor(x) mod k. */
  lemma FloorFmod(x: real, k: int)
    requires x >= 0.0 && k > 0
    ensures Fmod(x, k as real) >= 0.0
    ensures Floor(Fmod(x, k as real)) == Floor(x) % k
  {
    FloorDiv(x, k);
    var q := Floor(x) / k;
    assert Trunc(x / k as real) == q;
    assert Fmod(x, k as real) == x - (q * k) as real;
    FloorShift(x, q * k);
  }

  /** Subtracting a whole number shifts the floor by that number. */
  lemma FloorShift(x: real, j: int)
    ensures Floor(x - j as real) == Floor(x) - j
  {
  }

  // ---------------------------------------------------------------------------
  // format_simulation_time

  /** The whole days, hours, minutes and seconds of a duration. */
  datatype Clock = Clock(days: int, hours: int, minutes: int, seconds: int)

  /**
   * The decomposition `format_simulation_time` computes from |t| with
   * floating-point floor and remainder; its fields are the number of whole
   * days, and the hours, minutes and seconds of the day, of floor(|t|).
   */
  function ClockOf(t: real): (c: Clock)
    ensures c.days >= 0
    ensures 0 <= c.hours < 24 && 0 <= c.minutes < 60 && 0 <= c.seconds < 60
    ensures c.days * 86400 + c.hours * 3600 + c.minutes * 60 + c.seconds == Floor(Abs(t))
  {
    ClockOfIsDecomposition(Abs(t));
    IntegerClockSpec(Floor(Abs(t)));
    Clock(Floor(Abs(t) / 86400.0),
          Floor(Fmod(Abs(t), 86400.0) / 3600.0),
          Floor(Fmod(Fmod(Abs(t), 86400.0), 3600.0) / 60.0),
          Floor(Fmod(Fmod(Abs(t), 86400.0), 60.0)))
  }

  /** The integer clock of n whole seconds. */
  function IntegerClock(n: nat): Clock {
    Clock(n / 86400, n % 86400 / 3600, n % 3600 / 60, n % 60)
  }

  /**
   * The floating-point steps compute exactly the integer clock of the whole
   * seconds: days = n div 86400, hours = (n mod 86400) div 3600,
   * minutes = (n mod 3600) div 60 and seconds = n mod 60.
   */
  lemma ClockOfIsDecomposition(x: real)
    requires x >= 0.0
    ensures Floor(x / 86400.0) == Floor(x) / 86400
    ensures Floor(Fmod(x, 86400.0) / 3600.0) == Floor(x) % 86400 / 3600
    ensures Floor(Fmod(Fmod(x, 86400.0), 3600.0) / 60.0) == Floor(x) % 3600 / 60
    ensures Floor(Fmod(Fmod(x, 86400.0), 60.0)) == Floor(x) % 60
  {
    var n := Floor(x);
    FloorDiv(x, 86400);
    FloorFmod(x, 86400);
    var rem := Fmod(x, 86400.0);
    FloorDiv(rem, 3600);
    FloorFmod(rem, 3600);
    FloorDiv(Fmod(rem, 3600.0), 60);
    FloorFmod(rem, 60);
    ModOfDay(n);
  }

  /** A day is a whole number of hours and of minutes, so the remainders agree. */
  lemma ModOfDay(n: int)
    requires n >= 0
    ensures n % 86400 % 3600 == n % 3600
    ensures n % 86400 % 60 == n % 60
  {
  }

  /**
   * The integer clock is a decomposition of n: days, then hours below 24,
   * minutes below 60 and seconds below 60, adding back up to n.
   */
  lemma IntegerClockSpec(n: nat)
    ensures var c := IntegerClock(n);
            && c.days >= 0 && 0 <= c.hours < 24 && 0 <= c.minutes < 60 && 0 <= c.seconds < 60
            && c.days * 86400 + c.hours * 3600 + c.minutes * 60 + c.seconds == n
  {
    ModOfDay(n);
    assert n == n / 86400 * 86400 + n % 86400;
    assert n % 86400 == n % 86400 / 3600 * 3600 + n % 3600;
    assert n % 3600 == n % 3600 / 60 * 60 + n % 60;
  }

  /** The clock equals the integer clock of floor(|t|). */
  lemma ClockOfIsIntegerClock(t: real)
    ensures Floor(Abs(t)) >= 0
    ensures ClockOf(t) == IntegerClock(Floor(Abs(t)))
  {
    ClockOfIsDecomposition(Abs(t));
  }

  /** The sign prefix: "-" exactly for negative durations. */
  function Sign(t: real): (r: string)
    ensures r == "-" <==> t < 0.0
    ensures r == "" <==> t >= 0.0
  {
    if t < 0.0 then "-" else ""
  }

  /** The character of a decimal digit. */
  function DigitChar(d: nat): (c: char)
    requires d < 10
    ensures '0' <= c <= '9'
  {
    ('0' as int + d) as char
  }

  predicate IsDigit(c: char) {
    '0' <= c <= '9'
  }

  /** The value of a decimal digit character. */
  function DigitValue(c: char): (d: nat)
    requires IsDigit(c)
    ensures d < 10
  {
    c as int - '0' as int
  }

  predicate AllDigits(s: string) {
    forall k :: 0 <= k < |s| ==> IsDigit(s[k])
  }

  /** `Display` of a non-negative integer: its decimal digits without leading zeros. */
  function NatToString(n: nat): (s: string)
    ensures |s| >= 1 && AllDigits(s)
    decreases n
  {
    if n < 10 then [DigitChar(n)] else NatToString(n / 10) + [DigitChar(n % 10)]
  }

  /** The value of a string of decimal digits. */
  function ParseDigits(s: string): nat
    requires AllDigits(s)
  {
    if |s| == 0 then 0 else ParseDigits(s[..|s| - 1]) * 10 + DigitValue(s[|s| - 1])
  }

  /** Reading back the decimal digits of n gives n, and only 0 is written with a leading zero. */
  lemma {:induction false} NatToStringRoundTrip(n: nat)
    ensures ParseDigits(NatToString(n)) == n
    ensures NatToString(n)[0] == '0' <==> n == 0
  {
    if n >= 10 {
      NatToStringRoundTrip(n / 10);
      var s := NatToString(n);
      assert s[..|s| - 1] == NatToString(n / 10);
    }
  }

  /** `{:02}` of a value below 100: two digits, zero-padded. */
  function Pad2(n: nat): (s: string)
    requires n < 100
    ensures |s| == 2 && AllDigits(s)
  {
    if n < 10 then ['0', DigitChar(n)]
    else
      assert NatToString(n / 10) == [DigitChar(n / 10)];
      NatToString(n)
  }

  /** The two digits read back as n. */
  lemma Pad2RoundTrip(n: nat)
    requires n < 100
    ensures ParseDigits(Pad2(n)) == n
  {
    if n >= 10 {
      NatToStringRoundTrip(n);
    } else {
      assert Pad2(n)[..1] == "0";
      assert "0"[..0] == "";
    }
  }

  /** `format_simulation_time`: sign, days, a space, then hh:mm:ss. */
  function FormatSimulationTime(t: real): (r: string)
    ensures |r| == |Sign(t)| + |NatToString(ClockOf(t).days)| + 9
    ensures r[0] == '-' <==> t < 0.0
  {
    var d := NatToString(ClockOf(t).days);
    Layout(Sign(t), d, Pad2(ClockOf(t).hours), Pad2(ClockOf(t).minutes), Pad2(ClockOf(t).seconds));
    assert IsDigit(d[0]);
    Sign(t) + d + " "
      + Pad2(ClockOf(t).hours) + ":" + Pad2(ClockOf(t).minutes) + ":" + Pad2(ClockOf(t).seconds)
  }

  /**
   * The layout of the text: it starts with '-' exactly for negative
   * durations; the last nine characters are " hh:mm:ss", which read back as
   * the clock's hours, minutes and seconds; the digits in between read back
   * as the days.
   */
  lemma FormatSimulationTimeShape(t: real)
    ensures var r := FormatSimulationTime(t);
            && |r| == |Sign(t)| + |NatToString(ClockOf(t).days)| + 9
            && (r[0] == '-' <==> t < 0.0)
            && r[|r| - 9] == ' ' && r[|r| - 6] == ':' && r[|r| - 3] == ':'
            && AllDigits(r[|Sign(t)|..|r| - 9])
            && ParseDigits(r[|Sign(t)|..|r| - 9]) == ClockOf(t).days
            && AllDigits(r[|r| - 8..|r| - 6]) && ParseDigits(r[|r| - 8..|r| - 6]) == ClockOf(t).hours
            && AllDigits(r[|r| - 5..|r| - 3]) && ParseDigits(r[|r| - 5..|r| - 3]) == ClockOf(t).minutes
            && AllDigits(r[|r| - 2..]) && ParseDigits(r[|r| - 2..]) == ClockOf(t).seconds
  {
    hide ClockOf;
    var c := ClockOf(t);
    var sg := Sign(t);
    var d := NatToString(c.days);
    var h := Pad2(c.hours);
    var mi := Pad2(c.minutes);
    var s := Pad2(c.seconds);
    assert FormatSimulationTime(t) == sg + d + " " + h + ":" + mi + ":" + s;
    NatToStringRoundTrip(c.days);
    Pad2RoundTrip(c.hours);
    Pad2RoundTrip(c.minutes);
    Pad2RoundTrip(c.seconds);
    Layout(sg, d, h, mi, s);
  }

  /** Where each part of sign + days + " " + hh + ":" + mm + ":" + ss sits. */
  lemma Layout(sg: string, d: string, h: string, mi: string, s: string)
    requires |h| == 2 && |mi| == 2 && |s| == 2 && |d| > 0
    ensures var r := sg + d + " " + h + ":" + mi + ":" + s;
            && |r| == |sg| + |d| + 9
            && r[0] == (if |sg| > 0 then sg[0] else d[0])
            && r[|r| - 9] == ' ' && r[|r| - 6] == ':' && r[|r| - 3] == ':'
            && r[|sg|..|r| - 9] == d
            && r[|r| - 8..|r| - 6] == h && r[|r| - 5..|r| - 3] == mi && r[|r| - 2..] == s
  {
    var r := sg + d + " " + h + ":" + mi + ":" + s;
    var k := |r|;
    assert r[|sg|..k - 9] == d;
    assert r[k - 8..k - 6] == h;
    assert r[k - 5..k - 3] == mi;
    assert r[k - 2..] == s;
  }

  // ---------------------------------------------------------------------------
  // format_scale

  /** The scale gauge at which the displayed length equals the scale. */
  const DefaultScaleUi: real := 5000.0

  /** The unit (and notation) `format_scale` writes the length in. */
  datatype ScaleUnit = AuScientific | Au | KmScientific | Km | Nm | Mm | M

  /** The length shown for a gauge: (5000 / gauge)^4 times the scale. */
  function Pow10(scaleGauge: real, scale: real): real
    requires scaleGauge != 0.0
  {
    (DefaultScaleUi / scaleGauge) * (DefaultScaleUi / scaleGauge)
      * (DefaultScaleUi / scaleGauge) * (DefaultScaleUi / scaleGauge) * scale
  }

  /** At the default gauge the shown length is the scale itself. */
  lemma Pow10AtDefaultGauge(scale: real)
    ensures Pow10(DefaultScaleUi, scale) == scale
  {
  }

  /** The threshold chain of `format_scale`, from the largest unit down. */
  function UnitOf(pow10: real): (u: ScaleUnit)
    ensures InUnitRange(pow10, u)
  {
    if pow10 >= Simulation.AU * 1000000.0 then AuScientific
    else if pow10 >= Simulation.AU then Au
    else if pow10 >= 1000000000.0 then KmScientific
    else if pow10 >= 1000.0 then Km
    else if pow10 < 0.000000001 then Nm
    else if pow10 < 0.001 then Mm
    else M
  }

  /** The interval of lengths each unit is used for. */
  predicate InUnitRange(pow10: real, u: ScaleUnit) {
    match u
    case AuScientific => pow10 >= Simulation.AU * 1000000.0
    case Au => Simulation.AU <= pow10 < Simulation.AU * 1000000.0
    case KmScientific => 1000000000.0 <= pow10 < Simulation.AU
    case Km => 1000.0 <= pow10 < 1000000000.0
    case Nm => pow10 < 0.000000001
    case Mm => 0.000000001 <= pow10 < 0.001
    case M => 0.001 <= pow10 < 1000.0
  }

  /** Each length falls in exactly one unit's interval, and that is the unit chosen. */
  lemma UnitOfIsRange(pow10: real, u: ScaleUnit)
    ensures UnitOf(pow10) == u <==> InUnitRange(pow10, u)
  {
  }

  /** The units from smallest to largest. */
  function Rank(u: ScaleUnit): nat {
    match u
    case Nm => 0
    case Mm => 1
    case M => 2
    case Km => 3
    case KmScientific => 4
    case Au => 5
    case AuScientific => 6
  }

  /** A longer length never gets a smaller unit. */
  lemma UnitOfMonotone(p: real, q: real)
    requires p <= q
    ensures Rank(UnitOf(p)) <= Rank(UnitOf(q))
  {
  }

  /** How many metres one displayed unit stands for. */
  function Metres(u: ScaleUnit): (r: real)
    ensures r > 0.0
  {
    match u
    case AuScientific => Simulation.AU
    case Au => Simulation.AU
    case KmScientific => 1000.0
    case Km => 1000.0
    case Nm => 0.000000001
    case Mm => 0.001
    case M => 1.0
  }

  /** The unit's name as printed after the number. */
  function Suffix(u: ScaleUnit): string {
    match u
    case AuScientific => " au"
    case Au => " au"
    case KmScientific => " km"
    case Km => " km"
    case Nm => " nm"
    case Mm => " mm"
    case M => " m"
  }

  /** Whether the number is printed in scientific notation (`{:.3e}`). */
  predicate Scientific(u: ScaleUnit) {
    u == AuScientific || u == KmScientific
  }

  /** What `format_scale` prints: a number, its notation and the unit. */
  datatype ScaleText = ScaleText(value: real, scientific: bool, suffix: string)

  /** The number printed for each unit: pow10 converted into that unit. */
  function ValueIn(u: ScaleUnit, pow10: real): real {
    match u
    case AuScientific => pow10 / Simulation.AU
    case Au => pow10 / Simulation.AU
    case KmScientific => pow10 / 1000.0
    case Km => pow10 / 1000.0
    case Nm => pow10 * 1000000000.0
    case Mm => pow10 * 1000.0
    case M => pow10
  }

  /**
   * `format_scale`: the length (5000 / gauge)^4 scale written in the unit the
   * thresholds select; the digit-level formatting of the number is not modelled.
   * The contract names each unit's interval directly: au from one astronomical
   * unit up, km from 1e3 m, m from 1e-3 m, mm from 1e-9 m and nm below, with
   * scientific notation from 1e6 au and on [1e9 m, 1 au).
   */
  function FormatScale(scaleGauge: real, scale: real): (r: ScaleText)
    requires scaleGauge != 0.0
    ensures var p := Pow10(scaleGauge, scale); r.suffix == " au" <==> p >= Simulation.AU
    ensures var p := Pow10(scaleGauge, scale); r.suffix == " km" <==> 1000.0 <= p < Simulation.AU
    ensures var p := Pow10(scaleGauge, scale); r.suffix == " m" <==> 0.001 <= p < 1000.0
    ensures var p := Pow10(scaleGauge, scale); r.suffix == " mm" <==> 0.000000001 <= p < 0.001
    ensures var p := Pow10(scaleGauge, scale); r.suffix == " nm" <==> p < 0.000000001
    ensures var p := Pow10(scaleGauge, scale);
            r.scientific <==> p >= Simulation.AU * 1000000.0 || 1000000000.0 <= p < Simulation.AU
  {
    ScaleText(ValueIn(UnitOf(Pow10(scaleGauge, scale)), Pow10(scaleGauge, scale)),
              Scientific(UnitOf(Pow10(scaleGauge, scale))),
              Suffix(UnitOf(Pow10(scaleGauge, scale))))
  }

  /** Converting the printed number back with its unit gives the length in metres. */
  lemma FormatScaleRoundTrip(scaleGauge: real, scale: real)
    requires scaleGauge != 0.0
    ensures FormatScale(scaleGauge, scale).value * Metres(UnitOf(Pow10(scaleGauge, scale)))
         == Pow10(scaleGauge, scale)
  {
    var p := Pow10(scaleGauge, scale);
    match UnitOf(p)
    case Nm =>
      assert p * 1000000000.0 * 0.000000001 == p;
    case Mm =>
      assert p * 1000.0 * 0.001 == p;
    case _ =>
  }

  /**
   * The printed number of a non-scientific unit lies in its display range:
   * [1, 1e6) au, [1, 1e6) km, [1e-6, 1) mm, [0.001, 1000) m, and below 1 nm.
   */
  lemma FormatScaleValueRange(scaleGauge: real, scale: real)
    requires scaleGauge != 0.0
    ensures var r := FormatScale(scaleGauge, scale);
            match UnitOf(Pow10(scaleGauge, scale))
            case Au => 1.0 <= r.value < 1000000.0
            case Km => 1.0 <= r.value < 1000000.0
            case Mm => 0.000001 <= r.value < 1.0
            case M => 0.001 <= r.value < 1000.0
            case Nm => r.value < 1.0
            case _ => r.scientific
  {
  }
}
