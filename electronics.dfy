/** The output stage (electronics.py): which duty cycle every LED pin and every
    RGB channel of the two PCA9685 PWM modules receives on one refresh, given
    the shelves' settings, the schedule's brightness percentage and the stage
    of the day. The branch logic is a pure function of those inputs; the refresh
    itself is a method that writes the pins one by one and reports whether the
    hardware raised on the way. */
module ElectronicsOutput {
  import opened PyText
  import opened SettingsStore

  /** Electronics.MAX_DUTY_CYCLE */
  const MaxDutyCycle: int := 4095

  /** int(x) of a number: truncation toward zero. */
  function Trunc(x: real): (n: int)
    ensures x >= 0.0 ==> 0 <= n && n as real <= x < n as real + 1.0
    ensures x < 0.0 ==> n <= 0 && x <= n as real < x + 1.0
  {
    if x >= 0.0 then x.Floor else -((-x).Floor)
  }

  /** getBrightness(brightness, scale): brightness as a fraction of scale, out of
      4095 and truncated; None stands for the ZeroDivisionError of scale 0. */
  function GetBrightness(brightness: real, scale: real): (r: Option<int>)
    ensures r.None? <==> scale == 0.0
    ensures 0.0 <= brightness <= scale && scale > 0.0 ==> 0 <= r.value <= MaxDutyCycle
    ensures brightness == 0.0 && scale != 0.0 ==> r == Some(0)
    ensures brightness == scale && scale != 0.0 ==> r == Some(MaxDutyCycle)
  {
    if scale == 0.0 then None
    else
      var f := brightness / scale;
      FractionBounds(brightness, scale);
      Some(Trunc(f * MaxDutyCycle as real))
  }

  lemma FractionBounds(b: real, scale: real)
    requires scale != 0.0
    ensures 0.0 <= b <= scale && scale > 0.0 ==> 0.0 <= b / scale <= 1.0
    ensures b == scale ==> b / scale == 1.0
  {
    var f := b / scale;
    assert f * scale == b;
    if scale > 0.0 {
      MulSign(f, scale);
    }
  }

  /** Multiplying by a positive number keeps the sign and the order against 1. */
  lemma MulSign(f: real, scale: real)
    requires scale > 0.0
    ensures f < 0.0 ==> f * scale < 0.0
    ensures f > 1.0 ==> f * scale > scale
  {
    if f < 0.0 {
      assert (-f) * scale > 0.0;
    }
    if f > 1.0 {
      assert (f - 1.0) * scale > 0.0;
    }
  }

  /** The stage of the day the schedule reports; only the two dark stages matter here. */
  datatype Stage = PreSunRise | PostSunSet | Other

  /** led_pins: the LED module's channel of each shelf. */
  const LedPins: map<string, int> :=
    map["A1" := 11, "A2" := 10, "A3" := 9, "B1" := 0, "B2" := 1, "B3" := 2, "C1" := 3, "C2" := 4, "C3" := 5]

  /** rgb_pins: the RGB module's red, green and blue channels of each rack. */
  const RgbPins: map<string, seq<int>> := map["A" := [8, 9, 10], "B" := [0, 1, 2], "C" := [4, 5, 6]]

  /** One set_pwm(channel, on, off) call. */
  datatype PwmWrite = PwmWrite(channel: int, on: int, off: int)

  // ------------------------------------------------------------ the branch rules

  /** The duty an LED shelf receives: the manual brightness (a percentage) scaled
      by the schedule when it is overridden; 0 for a third shelf whose rack has
      RGB override; the schedule otherwise. With the percentage in 0..1 and a
      brightness in 0..100 every branch gives a duty in 0..4095. */
  function LedDuty(s: Snapshot, shelf: string, percentage: real): (r: int)
    requires WellFormed(s) && shelf in ShelfIds
    ensures 0.0 <= percentage <= 1.0 && 0 <= s.leds[shelf].brightness <= 100 ==> 0 <= r <= MaxDutyCycle
  {
    var led := s.leds[shelf];
    if led.override then
      ManualDutyBounds(percentage, led.brightness);
      Trunc(percentage * led.brightness as real / 100.0 * MaxDutyCycle as real)
    else if '3' in shelf then
      if s.rgbs[[shelf[0]]].override then 0 else Trunc(percentage * MaxDutyCycle as real)
    else Trunc(percentage * MaxDutyCycle as real)
  }

  /** A manual brightness out of 100, scaled by a percentage in 0..1, is a duty in 0..4095. */
  lemma ManualDutyBounds(p: real, b: int)
    ensures 0.0 <= p <= 1.0 && 0 <= b <= 100 ==>
      0 <= Trunc(p * b as real / 100.0 * MaxDutyCycle as real) <= MaxDutyCycle
  {
    if 0.0 <= p <= 1.0 && 0 <= b <= 100 {
      var br := b as real;
      assert 0.0 <= br <= 100.0;
      var pb := p * br;
      ScaledPercentage(p, br);
      assert 0.0 <= pb <= br;
      assert 0.0 <= pb <= 100.0;
      var q := pb / 100.0;
      assert 0.0 <= q <= 1.0;
      assert MaxDutyCycle as real == 4095.0;
      assert 0.0 <= q * 4095.0 <= 4095.0;
      assert p * b as real / 100.0 == q;
      assert p * b as real / 100.0 * MaxDutyCycle as real == q * 4095.0;
      assert Trunc(q * 4095.0) as real <= 4095.0;
    }
  }

  /** Whether a rack's colour reaches its channels: override on, and the day not in a dark stage. */
  predicate ColorShown(s: Snapshot, rack: string, stage: Stage)
    requires WellFormed(s) && rack in RackIds
  {
    s.rgbs[rack].override && stage != PreSunRise && stage != PostSunSet
  }

  /** The duties of a rack's red, green and blue channels. */
  function RgbDuties(s: Snapshot, rack: string, stage: Stage): (d: seq<int>)
    requires WellFormed(s) && rack in RackIds
    ensures |d| == 3
  {
    if ColorShown(s, rack, stage) then
      var c := s.rgbs[rack].color;
      [GetBrightness(c.r as real, 255.0).value, GetBrightness(c.g as real, 255.0).value,
       GetBrightness(c.b as real, 255.0).value]
    else [0, 0, 0]
  }

  /** The LED module's writes of one refresh, shelf by shelf in the order of led_pins. */
  function LedPlan(s: Snapshot, percentage: real): (ws: seq<PwmWrite>)
    requires WellFormed(s)
    ensures |ws| == |Shelves|
  {
    seq(|Shelves|, i requires 0 <= i < |Shelves| =>
      PwmWrite(LedPins[Shelves[i]], 0, LedDuty(s, Shelves[i], percentage)))
  }

  /** The three set_pwm calls of one rack: red, green and blue, on the rack's rgb_pins. */
  function RackWrites(s: Snapshot, rack: string, stage: Stage): (ws: seq<PwmWrite>)
    requires WellFormed(s) && rack in RackIds
    ensures |ws| == 3
  {
    var d, pins := RgbDuties(s, rack, stage), RgbPins[rack];
    [PwmWrite(pins[0], 0, d[0]), PwmWrite(pins[1], 0, d[1]), PwmWrite(pins[2], 0, d[2])]
  }

  /** The RGB module's writes for the first j racks, in the order of rgb_pins. */
  function RgbPlanUpTo(s: Snapshot, stage: Stage, j: nat): (ws: seq<PwmWrite>)
    requires WellFormed(s) && j <= |Racks|
    ensures |ws| == 3 * j
  {
    if j == 0 then [] else RgbPlanUpTo(s, stage, j - 1) + RackWrites(s, Racks[j - 1], stage)
  }

  /** The RGB module's writes of one refresh: three per rack. */
  function RgbPlan(s: Snapshot, stage: Stage): (ws: seq<PwmWrite>)
    requires WellFormed(s)
    ensures |ws| == 3 * |Racks|
  {
    RgbPlanUpTo(s, stage, |Racks|)
  }

  /** In a dark stage the writes of the first j racks are all 0. */
  lemma {:induction false} RgbPlanUpToDark(s: Snapshot, stage: Stage, j: nat)
    requires WellFormed(s) && j <= |Racks| && stage != Other
    ensures forall i :: 0 <= i < 3 * j ==> RgbPlanUpTo(s, stage, j)[i].off == 0
  {
    if j > 0 {
      RgbPlanUpToDark(s, stage, j - 1);
      RgbChannelDuties(s, Racks[j - 1], stage);
    }
  }

  /** Every LED write of a refresh has on-time 0, and its duty is in 0..4095 when the
      percentage is in 0..1 and every brightness in 0..100. */
  lemma LedPlanInRange(s: Snapshot, percentage: real)
    requires WellFormed(s)
    ensures forall i :: 0 <= i < |Shelves| ==> LedPlan(s, percentage)[i].on == 0
    ensures 0.0 <= percentage <= 1.0 && (forall shelf :: shelf in s.leds ==> 0 <= s.leds[shelf].brightness <= 100) ==>
      forall i :: 0 <= i < |Shelves| ==> 0 <= LedPlan(s, percentage)[i].off <= MaxDutyCycle
  {
  }

  /** Before sunrise and after sunset every RGB write of a refresh is 0. */
  lemma RgbPlanDark(s: Snapshot, stage: Stage)
    requires WellFormed(s) && stage != Other
    ensures forall i :: 0 <= i < 3 * |Racks| ==> RgbPlan(s, stage)[i].off == 0
  {
    RgbPlanUpToDark(s, stage, |Racks|);
  }

  /** A refresh's RGB writes are rack A's, then rack B's, then rack C's. */
  lemma RgbPlanRacks(s: Snapshot, stage: Stage)
    requires WellFormed(s)
    ensures RgbPlan(s, stage)
         == RackWrites(s, "A", stage) + RackWrites(s, "B", stage) + RackWrites(s, "C", stage)
  {
    assert RgbPlanUpTo(s, stage, 1) == RackWrites(s, "A", stage);
    assert RgbPlanUpTo(s, stage, 2) == RackWrites(s, "A", stage) + RackWrites(s, "B", stage);
  }

  /** A refresh whose RGB writes stop at write n, inside rack number j, has made
      the writes of the racks before j and the first ones of rack j. */
  lemma RgbPlanStops(s: Snapshot, stage: Stage, j: nat, n: nat)
    requires WellFormed(s) && j < |Racks| && 3 * j <= n <= 3 * j + 3
    ensures RgbPlan(s, stage)[..n] == RgbPlanUpTo(s, stage, j) + RackWrites(s, Racks[j], stage)[..n - 3 * j]
  {
    RgbPlanPrefix(s, stage, j + 1, n);
    assert RgbPlanUpTo(s, stage, j + 1)[..n]
        == RgbPlanUpTo(s, stage, j) + RackWrites(s, Racks[j], stage)[..n - 3 * j];
  }

  lemma AppendAssoc<T>(a: seq<T>, b: seq<T>, c: seq<T>)
    ensures (a + b) + c == a + (b + c)
  {
  }

  /** The writes of the first j racks begin the whole refresh's RGB writes. */
  lemma {:induction false} RgbPlanPrefix(s: Snapshot, stage: Stage, j: nat, n: nat)
    requires WellFormed(s) && j <= |Racks| && n <= 3 * j
    ensures RgbPlan(s, stage)[..n] == RgbPlanUpTo(s, stage, j)[..n]
    decreases |Racks| - j
  {
    if j < |Racks| {
      RgbPlanPrefix(s, stage, j + 1, n);
      assert RgbPlanUpTo(s, stage, j + 1)[..n] == RgbPlanUpTo(s, stage, j)[..n];
    }
  }

  // ------------------------------------------------------------ properties of the rules

  /** A fraction of a non-negative number lies between 0 and that number. */
  lemma ScaledPercentage(p: real, b: real)
    requires 0.0 <= p <= 1.0 && 0.0 <= b
    ensures 0.0 <= p * b <= b
  {
    if p > 0.0 && b > 0.0 {
      assert p * b > 0.0;
    }
    assert b - p * b == (1.0 - p) * b;
    if p < 1.0 && b > 0.0 {
      assert (1.0 - p) * b > 0.0;
    }
  }

  /** An overridden shelf gets its manual brightness, out of 100, scaled by the
      schedule's percentage: a duty in 0..4095 that is 0 for brightness 0 and
      4095 for brightness 100 at full schedule. */
  lemma OverrideShelfDuty(s: Snapshot, shelf: string, percentage: real)
    requires WellFormed(s) && shelf in ShelfIds && s.leds[shelf].override
    ensures var b := s.leds[shelf].brightness as real;
      && LedDuty(s, shelf, percentage) == GetBrightness(percentage * b, 100.0).value
      && (0.0 <= percentage <= 1.0 && 0.0 <= b <= 100.0 ==> 0 <= LedDuty(s, shelf, percentage) <= MaxDutyCycle)
      && (b == 0.0 ==> LedDuty(s, shelf, percentage) == 0)
      && (b == 100.0 && percentage == 1.0 ==> LedDuty(s, shelf, percentage) == MaxDutyCycle)
  {
    var b := s.leds[shelf].brightness as real;
    if 0.0 <= percentage <= 1.0 && 0.0 <= b <= 100.0 {
      ScaledPercentage(percentage, b);
    }
  }

  /** A shelf without override whose rack lends its third shelf to the RGB strip is dark,
      whatever the schedule says. */
  lemma SharedShelfDark(s: Snapshot, rack: string, percentage: real)
    requires WellFormed(s) && rack in RackIds && SharedShelf(rack) in ShelfIds
    requires !s.leds[SharedShelf(rack)].override && s.rgbs[rack].override
    ensures LedDuty(s, SharedShelf(rack), percentage) == 0
  {
    SharedShelfOf(rack);
    var shelf := SharedShelf(rack);
    assert '3' in shelf && [shelf[0]] == rack;
  }

  /** Any other shelf without override follows the schedule: the duty the scale-1
      getBrightness of the percentage gives, in 0..4095 for a percentage in 0..1. */
  lemma ScheduledShelfDuty(s: Snapshot, shelf: string, percentage: real)
    requires WellFormed(s) && shelf in ShelfIds && !s.leds[shelf].override
    requires '3' in shelf ==> !s.rgbs[[shelf[0]]].override
    ensures LedDuty(s, shelf, percentage) == GetBrightness(percentage, 1.0).value
    ensures 0.0 <= percentage <= 1.0 ==> 0 <= LedDuty(s, shelf, percentage) <= MaxDutyCycle
  {
    assert percentage / 1.0 == percentage;
  }

  /** A rack's channels carry its colour, each component out of 255, exactly when
      ColorShown holds; otherwise all three are 0. */
  lemma RgbChannelDuties(s: Snapshot, rack: string, stage: Stage)
    requires WellFormed(s) && rack in RackIds
    ensures var c, d := s.rgbs[rack].color, RgbDuties(s, rack, stage);
      && (ColorShown(s, rack, stage) <==> s.rgbs[rack].override && stage == Other)
      && (ColorShown(s, rack, stage) ==>
            && d[0] == GetBrightness(c.r as real, 255.0).value
            && d[1] == GetBrightness(c.g as real, 255.0).value
            && d[2] == GetBrightness(c.b as real, 255.0).value)
      && (!ColorShown(s, rack, stage) ==> d == [0, 0, 0])
      && (0 <= c.r <= 255 && 0 <= c.g <= 255 && 0 <= c.b <= 255 ==>
            forall k :: 0 <= k < 3 ==> 0 <= d[k] <= MaxDutyCycle)
  {
  }

  /** In the state turnAllOff leaves behind every LED pin and every RGB channel is written 0. */
  lemma ForcedDarkOutputs(s: Snapshot, percentage: real, stage: Stage)
    requires WellFormed(s)
    ensures WellFormed(ForcedDark(s))
    ensures forall i :: 0 <= i < |Shelves| ==> LedPlan(ForcedDark(s), percentage)[i].off == 0
    ensures forall i :: 0 <= i < 3 * |Racks| ==> RgbPlan(ForcedDark(s), stage)[i].off == 0
  {
    ForcedDarkEffect(s);
    ForcedDarkLeds(ForcedDark(s), percentage);
    ForcedDarkRgbs(ForcedDark(s), stage);
  }

  /** Every shelf at [True, 0] means every LED write is 0. */
  lemma ForcedDarkLeds(t: Snapshot, percentage: real)
    requires WellFormed(t) && forall shelf :: shelf in t.leds ==> t.leds[shelf] == Led(true, 0)
    ensures forall i :: 0 <= i < |Shelves| ==> LedPlan(t, percentage)[i].off == 0
  {
    forall i | 0 <= i < |Shelves|
      ensures LedPlan(t, percentage)[i].off == 0
    {
      assert Shelves[i] in ShelfIds;
    }
  }

  /** No rack with override means every RGB write is 0. */
  lemma ForcedDarkRgbs(t: Snapshot, stage: Stage)
    requires WellFormed(t) && forall rack :: rack in t.rgbs ==> !t.rgbs[rack].override
    ensures forall i :: 0 <= i < 3 * |Racks| ==> RgbPlan(t, stage)[i].off == 0
  {
    forall rack | rack in RackIds
      ensures forall k :: 0 <= k < 3 ==> RackWrites(t, rack, stage)[k].off == 0
    {
      assert !t.rgbs[rack].override;
    }
    RgbPlanRacks(t, stage);
  }

  /** led_pins gives every shelf its own channel, nine in all. */
  lemma LedPinsDistinct()
    ensures LedPins.Keys == ShelfIds
    ensures forall a, b :: a in LedPins && b in LedPins && a != b ==> LedPins[a] != LedPins[b]
    ensures LedPins.Values == {0, 1, 2, 3, 4, 5, 9, 10, 11}
  {
  }

  /** rgb_pins gives every rack three channels, and no channel is shared. */
  lemma RgbPinsDistinct()
    ensures RgbPins.Keys == RackIds
    ensures forall r :: r in RgbPins ==> |RgbPins[r]| == 3
    ensures forall r1, r2, k1, k2 ::
      (r1 in RgbPins && r2 in RgbPins && 0 <= k1 < 3 && 0 <= k2 < 3 && (r1 != r2 || k1 != k2)) ==>
      RgbPins[r1][k1] != RgbPins[r2][k2]
  {
  }

  /** The channels a sequence of writes addresses, in order. */
  function Channels(ws: seq<PwmWrite>): (cs: seq<int>)
    ensures |cs| == |ws| && forall i :: 0 <= i < |ws| ==> cs[i] == ws[i].channel
  {
    seq(|ws|, i requires 0 <= i < |ws| => ws[i].channel)
  }

  /** No channel twice. */
  predicate Distinct(cs: seq<int>) {
    forall i, j :: 0 <= i < j < |cs| ==> cs[i] != cs[j]
  }

  /** A refresh writes each of the nine LED pins exactly once, in the order of led_pins ... */
  lemma LedPlanOncePerPin(s: Snapshot, percentage: real)
    requires WellFormed(s)
    ensures Channels(LedPlan(s, percentage)) == [11, 10, 9, 0, 1, 2, 3, 4, 5]
    ensures Distinct(Channels(LedPlan(s, percentage)))
    ensures forall pin :: pin in LedPins.Values <==> pin in Channels(LedPlan(s, percentage))
  {
    LedPlanChannels(s, percentage);
    LedPinsDistinct();
    LedChannelsListed();
  }

  /** The nine LED channels, in the order of led_pins, are distinct and are exactly its values. */
  lemma LedChannelsListed()
    ensures Distinct([11, 10, 9, 0, 1, 2, 3, 4, 5])
    ensures forall pin :: pin in {0, 1, 2, 3, 4, 5, 9, 10, 11} <==> pin in [11, 10, 9, 0, 1, 2, 3, 4, 5]
  {
  }

  /** The channels of the LED writes do not depend on the settings. */
  lemma LedPlanChannels(s: Snapshot, percentage: real)
    requires WellFormed(s)
    ensures Channels(LedPlan(s, percentage)) == [11, 10, 9, 0, 1, 2, 3, 4, 5]
  {
    var cs := Channels(LedPlan(s, percentage));
    forall i | 0 <= i < |Shelves|
      ensures cs[i] == LedPins[Shelves[i]]
    {
    }
  }

  /** ... and each of the nine RGB channels exactly once, rack by rack. */
  lemma RgbPlanOncePerChannel(s: Snapshot, stage: Stage)
    requires WellFormed(s)
    ensures Channels(RgbPlan(s, stage)) == [8, 9, 10, 0, 1, 2, 4, 5, 6]
    ensures Distinct(Channels(RgbPlan(s, stage)))
  {
    RgbPlanRacks(s, stage);
  }

  // ------------------------------------------------------------ the hardware and the refresh

  /** A PCA9685 module, seen through the set_pwm calls it receives. */
  class Pwm {
    var log: seq<PwmWrite>

    constructor ()
      ensures log == []
    {
      log := [];
    }

    /** set_pwm(channel, on, off) */
    method SetPwm(channel: int, on: int, off: int)
      modifies this
      ensures log == old(log) + [PwmWrite(channel, on, off)]
    {
      log := log + [PwmWrite(channel, on, off)];
    }
  }

  /** How many of a refresh's writes go through: all eighteen, or those before the one that raises. */
  function Reached(failsAt: Option<nat>): nat {
    match failsAt
    case None => 18
    case Some(k) => if k < 18 then k else 18
  }

  /** How many of the writes numbered from `first` to `first + 8` go through. */
  function ReachedFrom(failsAt: Option<nat>, first: nat): (n: nat)
    ensures n <= 9
  {
    var k := Reached(failsAt);
    if k <= first then 0 else if k - first >= 9 then 9 else k - first
  }

  class Electronics {
    const settings: Settings
    const pwmLed: Pwm
    const pwmRgb: Pwm

    predicate Valid()
      reads this, settings
    {
      settings.Valid() && pwmLed != pwmRgb
    }

    /** The two modules at addresses 0x40 and 0x41, sharing the controller's settings. */
    constructor (settings: Settings)
      requires settings.Valid()
      ensures this.settings == settings && Valid()
      ensures fresh(pwmLed) && fresh(pwmRgb) && pwmLed.log == [] && pwmRgb.log == []
    {
      this.settings := settings;
      pwmLed := new Pwm();
      pwmRgb := new Pwm();
    }

    /** One set_pwm call that raises when it is write number failsAt of the refresh. */
    method Emit(pwm: Pwm, w: PwmWrite, count: nat, failsAt: Option<nat>) returns (raised: bool)
      modifies pwm
      ensures raised <==> failsAt == Some(count)
      ensures pwm.log == if raised then old(pwm.log) else old(pwm.log) + [w]
    {
      raised := failsAt == Some(count);
      if !raised {
        pwm.SetPwm(w.channel, w.on, w.off);
      }
    }

    /** updateModule: every shelf's LED pin, then every rack's three channels.
        failsAt numbers the set_pwm call that raises, if one does (a missing
        module or a bus error); the refresh then stops and reports False. */
    method UpdateModule(percentage: real, stage: Stage, failsAt: Option<nat>) returns (ok: bool)
      requires Valid()
      modifies pwmLed, pwmRgb
      ensures ok <==> Reached(failsAt) == 18
      ensures pwmLed.log == old(pwmLed.log) + LedPlan(settings.Model(), percentage)[..ReachedFrom(failsAt, 0)]
      ensures pwmRgb.log == old(pwmRgb.log) + RgbPlan(settings.Model(), stage)[..ReachedFrom(failsAt, 9)]
    {
      ok := UpdateLeds(percentage, failsAt);
      if !ok {
        return;
      }
      ok := UpdateRgbs(stage, failsAt);
    }

    /** The loop over led_pins; true when all nine writes went through. */
    method UpdateLeds(percentage: real, failsAt: Option<nat>) returns (ok: bool)
      requires Valid()
      modifies pwmLed
      ensures ok <==> Reached(failsAt) >= 9
      ensures pwmLed.log == old(pwmLed.log) + LedPlan(settings.Model(), percentage)[..ReachedFrom(failsAt, 0)]
    {
      var s := settings.Model();
      ghost var plan := LedPlan(s, percentage);
      var i := 0;
      while i < |Shelves|
        invariant 0 <= i <= |Shelves| && i <= Reached(failsAt)
        invariant pwmLed.log == old(pwmLed.log) + plan[..i]
      {
        var shelf := Shelves[i];
        var raised := Emit(pwmLed, PwmWrite(LedPins[shelf], 0, LedDuty(s, shelf, percentage)), i, failsAt);
        if raised {
          return false;
        }
        assert plan[..i + 1] == plan[..i] + [plan[i]];
        i := i + 1;
      }
      assert plan[..ReachedFrom(failsAt, 0)] == plan[..i];
      ok := true;
    }

    /** The loop over rgb_pins, after the nine LED writes; true when all nine channel writes went through. */
    method UpdateRgbs(stage: Stage, failsAt: Option<nat>) returns (ok: bool)
      requires Valid() && Reached(failsAt) >= 9
      modifies pwmRgb
      ensures ok <==> Reached(failsAt) == 18
      ensures pwmRgb.log == old(pwmRgb.log) + RgbPlan(settings.Model(), stage)[..ReachedFrom(failsAt, 9)]
    {
      ok := UpdateRacks(settings.Model(), stage, failsAt);
    }

    /** The rack loop over a given store. */
    method UpdateRacks(s: Snapshot, stage: Stage, failsAt: Option<nat>) returns (ok: bool)
      requires WellFormed(s) && Reached(failsAt) >= 9
      modifies pwmRgb
      ensures ok <==> Reached(failsAt) == 18
      ensures pwmRgb.log == old(pwmRgb.log) + RgbPlan(s, stage)[..ReachedFrom(failsAt, 9)]
    {
      var j := 0;
      while j < |Racks|
        invariant 0 <= j <= |Racks| && 9 + 3 * j <= Reached(failsAt)
        invariant pwmRgb.log == old(pwmRgb.log) + RgbPlanUpTo(s, stage, j)
      {
        var w := RackWrites(s, Racks[j], stage);
        ok := UpdateRack(w, 9 + 3 * j, failsAt);
        if !ok {
          var n := Reached(failsAt) - 9;
          RgbPlanStops(s, stage, j, n);
          AppendAssoc(old(pwmRgb.log), RgbPlanUpTo(s, stage, j), w[..n - 3 * j]);
          assert ReachedFrom(failsAt, 9) == n;
          return;
        }
        AppendAssoc(old(pwmRgb.log), RgbPlanUpTo(s, stage, j), w);
        j := j + 1;
      }
      assert RgbPlan(s, stage)[..ReachedFrom(failsAt, 9)] == RgbPlanUpTo(s, stage, j);
      ok := true;
    }

    /** The three channel writes of one rack, red, green and blue, numbered from `first`. */
    method UpdateRack(w: seq<PwmWrite>, first: nat, failsAt: Option<nat>) returns (ok: bool)
      requires |w| == 3 && first + 3 <= 18 && first <= Reached(failsAt)
      modifies pwmRgb
      ensures ok <==> first + 3 <= Reached(failsAt)
      ensures ok ==> pwmRgb.log == old(pwmRgb.log) + w
      ensures !ok ==> pwmRgb.log == old(pwmRgb.log) + w[..Reached(failsAt) - first]
    {
      var raised := Emit(pwmRgb, w[0], first, failsAt);
      if raised {
        return false;
      }
      raised := Emit(pwmRgb, w[1], first + 1, failsAt);
      if raised {
        assert w[..1] == [w[0]];
        return false;
      }
      raised := Emit(pwmRgb, w[2], first + 2, failsAt);
      if raised {
        assert w[..2] == [w[0], w[1]];
        return false;
      }
      assert w == [w[0], w[1], w[2]];
      ok := true;
    }
  }
}
