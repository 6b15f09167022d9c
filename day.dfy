/** The day/night schedule of day.py as functions of one clock reading
    (hour, minute, second): a 30-minute sunrise ramp from the configured
    sunrise time, full duty by day, a 30-minute sunset ramp from the
    configured sunset time and duty 0 by night. Duty values are PWM duty
    cycles out of 4095. */
module DayCycle {
  import opened PyText

  /** Day.sunrise_time and Day.sunset_time, as configured. */
  const SunriseTime: string := "7:00"
  const SunsetTime: string := "19:00"

  /** Day.duration: the length of each ramp in minutes. */
  const Duration: int := 30

  /** Day.max_duty_cycle */
  const MaxDuty: int := 4095

  /** A Day: the sunrise and sunset times in minutes after midnight. */
  datatype Day = Day(sunrise: int, sunset: int)

  /** One reading of the clock. */
  datatype Clock = Clock(hour: int, minute: int, second: int)

  predicate ValidClock(c: Clock) {
    0 <= c.hour < 24 && 0 <= c.minute < 60 && 0 <= c.second < 60
  }

  // ---------------------------------------------------------------- Day.__init__

  /** str.index(c): the first position of c, None for the ValueError when c is absent. */
  function IndexOf(s: string, c: char): (r: Option<nat>)
    ensures r.Some? ==> r.value < |s| && s[r.value] == c && c !in s[..r.value]
    ensures r.None? ==> c !in s
  {
    if s == [] then None
    else if s[0] == c then Some(0)
    else match IndexOf(s[1..], c)
      case None => None
      case Some(i) =>
        assert s[..i + 1] == [s[0]] + s[1..][..i];
        Some(i + 1)
  }

  /** 'H:MM' read as in Day.__init__: int() of the part before the first ':' times
      60 plus int() of the part after it; None where Python raises ValueError. */
  function ParseClock(t: string): (r: Option<int>)
    ensures ':' !in t ==> r == None
  {
    match IndexOf(t, ':')
    case None => None
    case Some(i) =>
      match ParseInt(t[..i])
      case None => None
      case Some(h) =>
        match ParseInt(t[i + 1..])
        case None => None
        case Some(m) => Some(h * 60 + m)
  }

  /** Day.__init__ */
  function Configured(): Option<Day> {
    match ParseClock(SunriseTime)
    case None => None
    case Some(rise) =>
      match ParseClock(SunsetTime)
      case None => None
      case Some(fall) => Some(Day(rise, fall))
  }

  /** Two decimal digits, as minutes are written in a clock string. */
  function TwoDigits(m: nat): (s: string)
    requires m < 100
    ensures IsDecimal(s) && DigitsValue(s) == m
  {
    var s := [DigitChar(m / 10), DigitChar(m % 10)];
    assert s[..1] == [DigitChar(m / 10)] && s[..1][..0] == [];
    assert DigitsValue(s[..1]) == m / 10;
    s
  }

  /** A clock string written as hours, ':' and two digits of minutes reads back as
      the minutes after midnight it names. */
  lemma ParseClockOf(h: nat, m: nat)
    requires m < 60
    ensures ParseClock(NatToString(h) + ":" + TwoDigits(m)) == Some(h * 60 + m)
  {
    var hs, ms := NatToString(h), TwoDigits(m);
    var t := hs + ":" + ms;
    assert forall k :: 0 <= k < |hs| ==> t[k] == hs[k];
    assert ':' !in hs;
    NoColonBefore(t, |hs|);
    assert t[..|hs|] == hs && t[|hs| + 1..] == ms;
    ParseIntToString(h);
    StripTrimmed(ms);
  }

  lemma NoColonBefore(t: string, i: nat)
    requires i < |t| && t[i] == ':' && ':' !in t[..i]
    ensures IndexOf(t, ':') == Some(i)
  {
  }

  /** The configured times give sunrise at minute 420 and sunset at minute 1140. */
  lemma ConfiguredDay()
    ensures Configured() == Some(Day(420, 1140))
  {
    SunriseParses();
    SunsetParses();
  }

  lemma SunriseParses()
    ensures ParseClock(SunriseTime) == Some(420)
  {
    ParseClockOf(7, 0);
    assert SunriseTime == NatToString(7) + ":" + TwoDigits(0) by {
      assert NatToString(7) == "7" && TwoDigits(0) == "00";
    }
  }

  lemma SunsetParses()
    ensures ParseClock(SunsetTime) == Some(1140)
  {
    NoColonBefore(SunsetTime, 2);
    assert SunsetTime[..2] == "19" && SunsetTime[3..] == "00";
    assert DigitsValue("19") == 19 by {
      assert "19"[..1] == "1";
    }
    StripTrimmed("19");
    StripTrimmed("00");
  }

  // ---------------------------------------------------------------- the schedule

  /** getMinutesSince: the clock's minute of the day minus `minute`, not wrapped,
      so a valid clock gives a value in -minute .. 1439 - minute. */
  function MinutesSince(c: Clock, minute: int): (r: int)
    ensures ValidClock(c) ==> -minute <= r < 24 * 60 - minute
  {
    c.hour * 60 + c.minute - minute
  }

  /** isSunrise: the half-open window of Duration minutes, to the second, that starts at sunrise. */
  function IsSunrise(d: Day, c: Clock): (r: bool)
    ensures 0 <= c.second < 60 ==>
      (r <==> d.sunrise * 60 <= SecondOfDay(c) < (d.sunrise + Duration) * 60)
  {
    0 <= MinutesSince(c, d.sunrise) < Duration
  }

  /** isSunset: the half-open window of Duration minutes, to the second, that starts at sunset. */
  function IsSunset(d: Day, c: Clock): (r: bool)
    ensures 0 <= c.second < 60 ==>
      (r <==> d.sunset * 60 <= SecondOfDay(c) < (d.sunset + Duration) * 60)
  {
    0 <= MinutesSince(c, d.sunset) < Duration
  }

  /** scaleBrightness: int(brightness / high * 4095), the fraction of the duty
      cycle, truncated toward zero. */
  function ScaleBrightness(brightness: int, high: int): (r: int)
    requires high > 0
    ensures 0 <= brightness ==> 0 <= r && r * high <= brightness * MaxDuty < (r + 1) * high
    ensures brightness < 0 ==> r <= 0
  {
    if brightness >= 0 then FloorDiv(brightness * MaxDuty, high) else -FloorDiv(-brightness * MaxDuty, high)
  }

  /** a / b for a >= 0, characterised as the floor. */
  function FloorDiv(a: int, b: int): (q: int)
    requires a >= 0 && b > 0
    ensures 0 <= q && q * b <= a < (q + 1) * b
  {
    var q := a / b;
    assert a == b * q + a % b;
    q
  }

  /** The second within a ramp: minutes since its start times 60 plus the clock's second. */
  function RampSeconds(c: Clock, start: int): int {
    MinutesSince(c, start) * 60 + c.second
  }

  /** getBrightness: the sunrise ramp, the sunset ramp, night, or day, tested in that
      order. Outside the ramps the duty is 0 or full; during sunrise it is the
      elapsed fraction of the ramp out of 4095, rounded down; during sunset full
      duty less that fraction. */
  function GetBrightness(d: Day, c: Clock): (r: int)
    ensures !IsSunrise(d, c) && !IsSunset(d, c) ==> r == 0 || r == MaxDuty
    ensures IsSunrise(d, c) && 0 <= c.second < 60 ==>
      r * (Duration * 60) <= RampSeconds(c, d.sunrise) * MaxDuty < (r + 1) * (Duration * 60)
    ensures !IsSunrise(d, c) && IsSunset(d, c) && 0 <= c.second < 60 ==>
      (MaxDuty - r) * (Duration * 60) <= RampSeconds(c, d.sunset) * MaxDuty < (MaxDuty - r + 1) * (Duration * 60)
  {
    if IsSunrise(d, c) then ScaleBrightness(RampSeconds(c, d.sunrise), Duration * 60)
    else if IsSunset(d, c) then MaxDuty - ScaleBrightness(RampSeconds(c, d.sunset), Duration * 60)
    else if MinutesSince(c, d.sunrise) <= 0 || MinutesSince(c, d.sunset + Duration) >= 0 then 0
    else MaxDuty
  }

  // ---------------------------------------------------------------- its properties

  /** A ramp that has run `b` of its 1800 seconds has reached floor(b * 4095 / 1800), below 4095. */
  lemma RampBelowMax(b: int)
    requires 0 <= b < Duration * 60
    ensures 0 <= ScaleBrightness(b, Duration * 60) < MaxDuty
  {
  }

  /** Whatever the day, a clock whose second is in 0..59 gets a duty in 0..4095;
      during sunrise it stays below 4095, during sunset above 0. */
  lemma BrightnessInRange(d: Day, c: Clock)
    requires 0 <= c.second < 60
    ensures 0 <= GetBrightness(d, c) <= MaxDuty
    ensures IsSunrise(d, c) ==> GetBrightness(d, c) < MaxDuty
    ensures !IsSunrise(d, c) && IsSunset(d, c) ==> GetBrightness(d, c) > 0
  {
    if IsSunrise(d, c) {
      RampBelowMax(RampSeconds(c, d.sunrise));
    } else if IsSunset(d, c) {
      RampBelowMax(RampSeconds(c, d.sunset));
    }
  }

  /** floor(b * 4095 / high) never decreases as b grows. */
  lemma {:induction false} ScaleMonotone(b1: int, b2: int, high: int)
    requires 0 <= b1 <= b2 && high > 0
    ensures ScaleBrightness(b1, high) <= ScaleBrightness(b2, high)
  {
    var r1, r2 := ScaleBrightness(b1, high), ScaleBrightness(b2, high);
    assert b1 * MaxDuty <= b2 * MaxDuty;
    if r1 > r2 {
      MulMonotone(r2 + 1, r1, high);
    }
  }

  lemma MulMonotone(a: int, b: int, c: int)
    requires a <= b && c >= 0
    ensures a * c <= b * c
  {
    assert b * c - a * c == (b - a) * c;
  }

  /** The number of seconds since midnight. */
  function SecondOfDay(c: Clock): int {
    c.hour * 3600 + c.minute * 60 + c.second
  }

  /** Through the sunrise ramp the duty never decreases ... */
  lemma SunriseMonotone(d: Day, c1: Clock, c2: Clock)
    requires IsSunrise(d, c1) && IsSunrise(d, c2)
    requires 0 <= c1.second < 60 && 0 <= c2.second < 60
    requires SecondOfDay(c1) <= SecondOfDay(c2)
    ensures GetBrightness(d, c1) <= GetBrightness(d, c2)
  {
    assert RampSeconds(c1, d.sunrise) - RampSeconds(c2, d.sunrise) == SecondOfDay(c1) - SecondOfDay(c2);
    ScaleMonotone(RampSeconds(c1, d.sunrise), RampSeconds(c2, d.sunrise), Duration * 60);
  }

  /** ... and through the sunset ramp it never increases. */
  lemma SunsetAntitone(d: Day, c1: Clock, c2: Clock)
    requires !IsSunrise(d, c1) && !IsSunrise(d, c2) && IsSunset(d, c1) && IsSunset(d, c2)
    requires 0 <= c1.second < 60 && 0 <= c2.second < 60
    requires SecondOfDay(c1) <= SecondOfDay(c2)
    ensures GetBrightness(d, c1) >= GetBrightness(d, c2)
  {
    assert RampSeconds(c1, d.sunset) - RampSeconds(c2, d.sunset) == SecondOfDay(c1) - SecondOfDay(c2);
    ScaleMonotone(RampSeconds(c1, d.sunset), RampSeconds(c2, d.sunset), Duration * 60);
  }

  /** With sunrise at 07:00 and sunset at 19:00 the day has five phases by the
      minute t of the day: night before 07:00, the sunrise ramp until 07:30, day
      until 19:00, the sunset ramp until 19:30 and night again from then on. */
  lemma ConfiguredPhases(c: Clock)
    requires ValidClock(c)
    ensures var d, t := Day(420, 1140), c.hour * 60 + c.minute;
      && (t < 420 ==> GetBrightness(d, c) == 0)
      && (420 <= t < 450 ==> GetBrightness(d, c) == ScaleBrightness((t - 420) * 60 + c.second, 1800))
      && (450 <= t < 1140 ==> GetBrightness(d, c) == MaxDuty)
      && (1140 <= t < 1170 ==> GetBrightness(d, c) == MaxDuty - ScaleBrightness((t - 1140) * 60 + c.second, 1800))
      && (1170 <= t ==> GetBrightness(d, c) == 0)
  {
  }

  /** The sunrise and sunset ramps of the configured day never overlap. */
  lemma ConfiguredRampsApart(c: Clock)
    ensures !(IsSunrise(Day(420, 1140), c) && IsSunset(Day(420, 1140), c))
  {
  }

  /** Checkpoints of the configured day. */
  lemma ConfiguredCheckpoints()
    ensures GetBrightness(Day(420, 1140), Clock(6, 59, 59)) == 0
    ensures GetBrightness(Day(420, 1140), Clock(7, 0, 0)) == 0
    ensures GetBrightness(Day(420, 1140), Clock(7, 15, 0)) == 2047
    ensures GetBrightness(Day(420, 1140), Clock(7, 30, 0)) == MaxDuty
    ensures GetBrightness(Day(420, 1140), Clock(19, 0, 0)) == MaxDuty
    ensures GetBrightness(Day(420, 1140), Clock(19, 30, 0)) == 0
  {
    assert ScaleBrightness(900, 1800) == 2047;
    assert ScaleBrightness(0, 1800) == 0;
  }
}
