/** Correcting the ambient-light reading for the light of the screen above the sensor: a throttled, cached state
    machine with hysteresis. Floating-point numbers are modelled as reals. */
module AlsCorrection {
  import opened Wrappers
  import opened AreaCapture

  /** A number or `HUGE_VALF`. */
  datatype Limit = Finite(value: real) | Unbounded

  predicate AtMost(x: real, limit: Limit) {
    match limit
    case Finite(v) => x <= v
    case Unbounded => true
  }

  datatype Range = Range(middle: Limit, min: real, max: Limit)

  /** `hysteresis_ranges` before `init` scales it. */
  const RANGES := [
    Range(Finite(0.0), 0.0, Finite(4.0)),
    Range(Finite(7.0), 1.0, Finite(12.0)),
    Range(Finite(15.0), 5.0, Finite(30.0)),
    Range(Finite(30.0), 10.0, Finite(50.0)),
    Range(Finite(360.0), 25.0, Finite(700.0)),
    Range(Finite(1200.0), 300.0, Finite(1600.0)),
    Range(Finite(2250.0), 1000.0, Finite(2940.0)),
    Range(Finite(4600.0), 2000.0, Finite(5900.0)),
    Range(Finite(10000.0), 4000.0, Finite(80000.0)),
    Range(Unbounded, 8000.0, Unbounded)
  ]

  /** `gamma` stands for x ↦ x to the power of 2.2. */
  datatype Config = Config(
    hbr: bool, bias: real, calibGain: real, maxBrightness: real, maxLuxWhite: real, luxPostmul: seq<real>,
    poly: seq<seq<real>>, weights: seq<real>, gainPoints: seq<real>, inverseGain: seq<real>, gamma: real -> real)

  /** A product, named so that proofs can treat it as one number. */
  function Times(x: real, y: real): real {
    x * y
  }

  predicate WellFormedConfig(c: Config) {
    && |c.luxPostmul| == |c.poly| == |c.gainPoints| == |c.inverseGain| == 4 && |c.weights| == 3
    && (forall i :: 0 <= i < 4 ==> |c.poly[i]| == 4)
    && c.inverseGain[0] > 0.0 && c.calibGain > 0.0 && c.maxBrightness > 0.0
  }

  function Gain(c: Config): (g: real)
    requires WellFormedConfig(c)
    ensures g > 0.0
  {
    c.calibGain * c.inverseGain[0]
  }

  function DividedBy(limit: Limit, gain: real): Limit
    requires gain != 0.0
  {
    match limit
    case Finite(v) => Finite(v / gain)
    case Unbounded => Unbounded
  }

  function Plus(limit: Limit, x: real): Limit {
    match limit
    case Finite(v) => Finite(v + x)
    case Unbounded => Unbounded
  }

  /** The table after `init`. */
  function ScaledRange(gain: real, i: nat): Range
    requires gain > 0.0 && i < |RANGES|
  {
    var r := RANGES[i];
    Range(r.middle, if i == 0 then -1.0 else r.min / gain, DividedBy(r.max, gain))
  }

  datatype State = State(
    lastUpdate: int, lastForcedUpdate: int, forceUpdate: bool, hystMin: real, hystMax: Limit,
    lastCorrectedValue: real, lastAgcGain: real)

  const INITIAL := State(0, 0, true, -1.0, Finite(-1.0), 0.0, 0.0)

  /** `dropped` is `sensor == 0`; `data2` is `data[2]`. */
  datatype LightEvent = LightEvent(light: real, data2: real, dropped: bool)

  /** One call of `process`: the event, the clock, the display brightness, and what the screen capture gives. */
  datatype Input = Input(event: LightEvent, now: int, brightness: real, capture: Option<Rgb>)

  const MS_100 := 100_000_000
  const S_3 := 3_000_000_000

  function Max(a: real, b: real): real { if a < b then b else a }

  function Min(a: real, b: real): real { if b < a then b else a }

  // ---------- One call ----------

  function Debiased(c: Config, light: real): real {
    if light > c.bias then light - c.bias else light
  }

  predicate IsForced(s: State, input: Input) {
    s.lastUpdate != 0 && input.brightness > 0.0 && input.now - s.lastForcedUpdate > S_3
  }

  predicate IsThrottled(s: State, input: Input) {
    s.lastUpdate != 0 && input.now - s.lastUpdate < MS_100
  }

  /** The state once the clock has been looked at. */
  function Tick(s: State, input: Input): State {
    var forced := IsForced(s, input);
    s.(lastUpdate := if IsThrottled(s, input) then s.lastUpdate else input.now,
       lastForcedUpdate := if s.lastUpdate == 0 || forced then input.now else s.lastForcedUpdate,
       forceUpdate := s.forceUpdate || forced)
  }

  predicate IsOutside(s: State, light: real) {
    light < s.hystMin || !AtMost(light, s.hystMax)
  }

  /** A raw sensor value in lux. */
  function Lux(c: Config, raw: real, agcGain: real): real {
    Times(Times(raw, c.calibGain), agcGain)
  }

  predicate NeedsCapture(c: Config, s: State, light: real) {
    var calibrated := Lux(c, light, s.lastAgcGain);
    s.forceUpdate || (IsOutside(s, light) && (calibrated < 10.0 || calibrated > 5.0 / 0.07))
  }

  /** The value of the first `n` coefficients as a polynomial, the highest power first. */
  function Horner(coefs: seq<real>, x: real, n: nat): real
    requires n <= |coefs|
  {
    if n == 0 then 0.0 else Horner(coefs, x, n - 1) * x + coefs[n - 1]
  }

  function Gray(c: Config, rgb: Rgb): real
    requires WellFormedConfig(c)
  {
    Times(rgb.r, c.weights[0]) + Times(rgb.g, c.weights[1]) + Times(rgb.b, c.weights[2])
  }

  function Channels(c: Config, rgb: Rgb): seq<real>
    requires WellFormedConfig(c)
  {
    [rgb.r, rgb.g, rgb.b, Gray(c, rgb)]
  }

  function ChannelCorrection(c: Config, rgb: Rgb, i: nat): real
    requires WellFormedConfig(c) && i < 4
  {
    var corr := Horner(c.poly[i], Channels(c, rgb)[i], |c.poly[i]|) * c.luxPostmul[i];
    if i < 3 then Max(corr, 0.0) else -corr
  }

  /** The sum of the first `n` channel corrections. */
  function CumulativeCorrection(c: Config, rgb: Rgb, n: nat): real
    requires WellFormedConfig(c) && n <= 4
  {
    if n == 0 then 0.0 else CumulativeCorrection(c, rgb, n - 1) + ChannelCorrection(c, rgb, n - 1)
  }

  function FullWhite(c: Config, brightness: real): real
    requires WellFormedConfig(c)
  {
    c.maxLuxWhite * brightness / c.maxBrightness
  }

  /** The estimated brightness of the screen above the sensor. */
  function ScreenBrightness(c: Config, rgb: Rgb, brightness: real): real
    requires WellFormedConfig(c)
  {
    var full := FullWhite(c, brightness);
    var estimate := CumulativeCorrection(c, rgb, 4) * (brightness / c.maxBrightness);
    Max(Min(estimate, full), Times(c.gamma(Gray(c, rgb) / 255.0), full))
  }

  function AgcThreshold(c: Config): real
    requires WellFormedConfig(c)
  {
    800.0 / c.inverseGain[0]
  }

  /** Whether the gain estimate is above a calibration point. A division by zero gives infinity, which is. */
  predicate Exceeds(c: Config, raw: real, data2: real, point: real)
    requires raw > 0.0
  {
    if c.hbr then data2 * 1000.0 / raw > point
    else data2 == 0.0 || raw / data2 > point
  }

  /** The gain after the first `n` calibration points. */
  function GainAfter(c: Config, raw: real, data2: real, n: nat): real
    requires WellFormedConfig(c) && raw > 0.0 && n <= 4
  {
    if n == 0 then c.inverseGain[0]
    else if Exceeds(c, raw, data2, c.gainPoints[n - 1]) then c.inverseGain[n - 1]
    else GainAfter(c, raw, data2, n - 1)
  }

  lemma ThresholdIsPositive(c: Config)
    requires WellFormedConfig(c)
    ensures AgcThreshold(c) > 0.0
  {
  }

  function AgcGain(c: Config, raw: real, data2: real): real
    requires WellFormedConfig(c)
  {
    ThresholdIsPositive(c);
    if raw > AgcThreshold(c) then GainAfter(c, raw, data2, 4) else c.inverseGain[0]
  }

  /** The first range whose middle is not below the value. */
  function Bucket(corrected: real, from: nat): (i: nat)
    requires from < |RANGES|
    ensures from <= i < |RANGES| && AtMost(corrected, RANGES[i].middle)
    ensures forall j :: from <= j < i ==> !AtMost(corrected, RANGES[j].middle)
    decreases |RANGES| - from
  {
    if AtMost(corrected, RANGES[from].middle) then from
    else
      assert RANGES[9].middle == Unbounded;
      Bucket(corrected, from + 1)
  }

  /** What a captured screen makes of a reading. */
  datatype Reading = Reading(screen: real, raw: real, agcGain: real, corrected: real)

  function Read(c: Config, light: real, data2: real, brightness: real, rgb: Rgb): Reading
    requires WellFormedConfig(c)
  {
    var screen := ScreenBrightness(c, rgb, brightness);
    var raw := Max(light - screen, 0.0);
    var agc := AgcGain(c, raw, data2);
    Reading(screen, raw, agc, Lux(c, raw, agc))
  }

  predicate Accepts(c: Config, s: State, light: real, r: Reading) {
    r.screen <= light * 1.35 || Lux(c, light, r.agcGain) < 10000.0 || s.forceUpdate
  }

  function Reported(r: Reading): real {
    Max(r.corrected - 14.0, 0.0)
  }

  /** The state after a capture has succeeded. */
  function Corrected(c: Config, s: State, light: real, brightness: real, r: Reading): State
    requires WellFormedConfig(c)
  {
    if Accepts(c, s, light, r) then
      var range := ScaledRange(Gain(c), Bucket(r.corrected, 0));
      s.(lastAgcGain := r.agcGain, hystMin := range.min, hystMax := Plus(range.max, FullWhite(c, brightness)),
         lastCorrectedValue := Reported(r), forceUpdate := false)
    else s.(forceUpdate := false)
  }

  function ReadInput(c: Config, input: Input): Reading
    requires WellFormedConfig(c) && input.capture.Some?
  {
    Read(c, Debiased(c, input.event.light), input.event.data2, input.brightness, input.capture.value)
  }

  function After(c: Config, s: State, input: Input): State
    requires WellFormedConfig(c)
  {
    var light := Debiased(c, input.event.light);
    var ticked := Tick(s, input);
    if IsThrottled(s, input) || !NeedsCapture(c, ticked, light) || input.capture.None? then ticked
    else Corrected(c, ticked, light, input.brightness, ReadInput(c, input))
  }

  predicate IsDropped(c: Config, s: State, input: Input) {
    IsThrottled(s, input)
    || (NeedsCapture(c, Tick(s, input), Debiased(c, input.event.light)) && input.capture.None?)
  }

  /** The event that leaves `process`; a dropped one keeps its debiased reading. */
  function Output(c: Config, s: State, input: Input): LightEvent
    requires WellFormedConfig(c)
  {
    if IsDropped(c, s, input) then input.event.(light := Debiased(c, input.event.light), dropped := true)
    else input.event.(light := After(c, s, input).lastCorrectedValue)
  }

  // ---------- The object ----------

  class Corrector {
    const conf: Config
    const hysteresisRanges: array<Range>
    var lastUpdate: int
    var lastForcedUpdate: int
    var forceUpdate: bool
    var hystMin: real
    var hystMax: Limit
    var lastCorrectedValue: real
    var lastAgcGain: real

    ghost function Now(): State
      reads this
    {
      State(lastUpdate, lastForcedUpdate, forceUpdate, hystMin, hystMax, lastCorrectedValue, lastAgcGain)
    }

    ghost predicate Scaled()
      reads hysteresisRanges
    {
      && WellFormedConfig(conf) && hysteresisRanges.Length == |RANGES|
      && forall i :: 0 <= i < |RANGES| ==> hysteresisRanges[i] == ScaledRange(Gain(conf), i)
    }

    /** Static initialisation followed by `init`. */
    constructor (conf: Config)
      requires WellFormedConfig(conf)
      ensures this.conf == conf && Scaled() && Now() == INITIAL && fresh(hysteresisRanges)
    {
      this.conf := conf;
      hysteresisRanges := new Range[|RANGES|](i requires 0 <= i < |RANGES| => RANGES[i]);
      lastUpdate, lastForcedUpdate, forceUpdate := 0, 0, true;
      hystMin, hystMax, lastCorrectedValue, lastAgcGain := -1.0, Finite(-1.0), 0.0, 0.0;
      new;
      ScaleRanges();
    }

    method ScaleRanges()
      requires WellFormedConfig(conf) && hysteresisRanges[..] == RANGES
      modifies hysteresisRanges
      ensures Scaled()
    {
      for i := 0 to hysteresisRanges.Length
        invariant forall j :: 0 <= j < i ==>
          hysteresisRanges[j]
            == Range(RANGES[j].middle, RANGES[j].min / Gain(conf), DividedBy(RANGES[j].max, Gain(conf)))
        invariant forall j :: i <= j < hysteresisRanges.Length ==> hysteresisRanges[j] == RANGES[j]
      {
        var range := hysteresisRanges[i];
        hysteresisRanges[i] := range.(
          min := range.min / Gain(conf),
          max := DividedBy(range.max, Gain(conf)));
      }
      hysteresisRanges[0] := hysteresisRanges[0].(min := -1.0);
    }

    method Evaluate(coefs: seq<real>, x: real) returns (corr: real)
      ensures corr == Horner(coefs, x, |coefs|)
    {
      corr := 0.0;
      for i := 0 to |coefs|
        invariant corr == Horner(coefs, x, i)
      {
        corr := corr * x;
        corr := corr + coefs[i];
      }
    }

    method Estimate(screenshot: Rgb, brightness: real) returns (screen: real)
      requires WellFormedConfig(conf)
      ensures screen == ScreenBrightness(conf, screenshot, brightness)
    {
      var rgbw := [screenshot.r, screenshot.g, screenshot.b, Gray(conf, screenshot)];
      assert rgbw == Channels(conf, screenshot);
      screen := 0.0;
      for i := 0 to 4
        invariant screen == CumulativeCorrection(conf, screenshot, i)
      {
        var corr := Evaluate(conf.poly[i], rgbw[i]);
        assert corr == Horner(conf.poly[i], Channels(conf, screenshot)[i], |conf.poly[i]|);
        corr := corr * conf.luxPostmul[i];
        assert ChannelCorrection(conf, screenshot, i) == if i < 3 then Max(corr, 0.0) else -corr;
        if i < 3 {
          screen := screen + Max(corr, 0.0);
        } else {
          screen := screen - corr;
        }
      }
      screen := screen * (brightness / conf.maxBrightness);
      var full := FullWhite(conf, brightness);
      screen := Min(screen, full);
      screen := Max(screen, Times(conf.gamma(rgbw[3] / 255.0), full));
    }

    method ChooseGain(raw: real, data2: real) returns (agcGain: real)
      requires WellFormedConfig(conf)
      ensures agcGain == AgcGain(conf, raw, data2)
    {
      ThresholdIsPositive(conf);
      agcGain := conf.inverseGain[0];
      if raw > AgcThreshold(conf) {
        for i := 0 to 4
          invariant agcGain == GainAfter(conf, raw, data2, i)
        {
          if Exceeds(conf, raw, data2, conf.gainPoints[i]) {
            agcGain := conf.inverseGain[i];
          }
        }
      }
    }

    method ChooseWindow(corrected: real, fullWhite: real)
      requires Scaled()
      modifies `hystMin, `hystMax
      ensures var range := ScaledRange(Gain(conf), Bucket(corrected, 0));
        hystMin == range.min && hystMax == Plus(range.max, fullWhite)
    {
      var i := 0;
      while i < hysteresisRanges.Length
        invariant 0 <= i < hysteresisRanges.Length
        invariant Bucket(corrected, 0) == Bucket(corrected, i)
        decreases hysteresisRanges.Length - i
      {
        var range := hysteresisRanges[i];
        assert range.middle == RANGES[i].middle;
        if AtMost(corrected, range.middle) {
          hystMin, hystMax := range.min, Plus(range.max, fullWhite);
          break;
        }
        assert RANGES[9].middle == Unbounded;
        i := i + 1;
      }
    }

    /** The clock part of `process`. */
    method TakeTime(input: Input) returns (throttled: bool)
      modifies `lastUpdate, `lastForcedUpdate, `forceUpdate
      ensures Now() == Tick(old(Now()), input) && throttled == IsThrottled(old(Now()), input)
    {
      if lastUpdate == 0 {
        lastUpdate := input.now;
        lastForcedUpdate := input.now;
        return false;
      }
      if input.brightness > 0.0 && input.now - lastForcedUpdate > S_3 {
        lastForcedUpdate := input.now;
        forceUpdate := true;
      }
      if input.now - lastUpdate < MS_100 {
        return true;
      }
      lastUpdate := input.now;
      return false;
    }

    /** The part of `process` after a successful capture; returns the reading to report. */
    method Recompute(light: real, data2: real, brightness: real, screenshot: Rgb) returns (reported: real)
      requires Scaled()
      modifies `forceUpdate, `hystMin, `hystMax, `lastCorrectedValue, `lastAgcGain
      ensures Now() == Corrected(conf, old(Now()), light, brightness, Read(conf, light, data2, brightness, screenshot))
      ensures reported == lastCorrectedValue
    {
      var screen := Estimate(screenshot, brightness);
      var raw := Max(light - screen, 0.0);
      var agcGain := ChooseGain(raw, data2);
      ghost var r := Read(conf, light, data2, brightness, screenshot);
      assert r == Reading(screen, raw, agcGain, Lux(conf, raw, agcGain));
      if screen <= light * 1.35 || Lux(conf, light, agcGain) < 10000.0 || forceUpdate {
        var corrected := Lux(conf, raw, agcGain);
        lastAgcGain := agcGain;
        ChooseWindow(corrected, FullWhite(conf, brightness));
        corrected := Max(corrected - 14.0, 0.0);
        reported := corrected;
        lastCorrectedValue := corrected;
      } else {
        reported := lastCorrectedValue;
      }
      forceUpdate := false;
    }

    method Process(input: Input) returns (event: LightEvent)
      requires Scaled()
      modifies `lastUpdate, `lastForcedUpdate, `forceUpdate, `hystMin, `hystMax, `lastCorrectedValue, `lastAgcGain
      ensures Now() == After(conf, old(Now()), input)
      ensures event == Output(conf, old(Now()), input)
    {
      event := input.event;
      if event.light > conf.bias {
        event := event.(light := event.light - conf.bias);
      }
      var throttled := TakeTime(input);
      if throttled {
        return event.(dropped := true);
      }
      var calibrated := Lux(conf, event.light, lastAgcGain);
      if forceUpdate || ((event.light < hystMin || !AtMost(event.light, hystMax))
                         && (calibrated < 10.0 || calibrated > 5.0 / 0.07)) {
        if input.capture.None? {
          return event.(dropped := true);
        }
        var reported := Recompute(event.light, event.data2, input.brightness, input.capture.value);
        event := event.(light := reported);
      } else {
        event := event.(light := lastCorrectedValue);
      }
    }
  }
}
