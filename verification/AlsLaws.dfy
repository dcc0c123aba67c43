/** What the ambient-light correction computes, spelled out in the numbers of the configuration, the state and the
    event, and what its clock does over whole runs. */
module AlsLaws {
  import AreaCapture
  import opened AlsCorrection
  import opened AlsStability

  // ---------- The screen ----------

  /** The polynomial of a channel at a value, times the channel's factor. */
  function ChannelLux(c: Config, i: nat, x: real): real
    requires WellFormedConfig(c) && i < 4
  {
    (c.poly[i][0] * x * x * x + c.poly[i][1] * x * x + c.poly[i][2] * x + c.poly[i][3]) * c.luxPostmul[i]
  }

  function Positive(x: real): real {
    if x > 0.0 then x else 0.0
  }

  /** The colours that count add up, but white is subtracted. */
  function ColoursLessWhite(r: real, g: real, b: real, white: real): real {
    Positive(r) + Positive(g) + Positive(b) - white
  }

  /** `x`, but at most `high`, and at least `low` whatever that makes of it. */
  predicate IsClamped(result: real, x: real, low: real, high: real) {
    var capped := if x > high then high else x;
    result == if capped < low then low else capped
  }

  lemma HornerIsLux(c: Config, i: nat, x: real)
    requires WellFormedConfig(c) && i < 4
    ensures Horner(c.poly[i], x, |c.poly[i]|) * c.luxPostmul[i] == ChannelLux(c, i, x)
  {
    HornerIsCubic(c.poly[i], x);
    var cubic := Horner(c.poly[i], x, 4);
    assert cubic == c.poly[i][0] * x * x * x + c.poly[i][1] * x * x + c.poly[i][2] * x + c.poly[i][3];
  }

  lemma CorrectionOf(c: Config, rgb: AreaCapture.Rgb, i: nat, x: real, lux: real)
    requires WellFormedConfig(c) && i < 4 && x == Channels(c, rgb)[i]
    requires Horner(c.poly[i], x, |c.poly[i]|) * c.luxPostmul[i] == lux
    ensures ChannelCorrection(c, rgb, i) == if i < 3 then Positive(lux) else -lux
  {
  }

  lemma CorrectionOfChannel(c: Config, rgb: AreaCapture.Rgb, i: nat, x: real)
    requires WellFormedConfig(c) && i < 4 && x == Channels(c, rgb)[i]
    ensures ChannelCorrection(c, rgb, i) == if i < 3 then Positive(ChannelLux(c, i, x)) else -ChannelLux(c, i, x)
  {
    HornerIsLux(c, i, x);
    CorrectionOf(c, rgb, i, x, ChannelLux(c, i, x));
  }

  lemma SumOfChannels(c: Config, rgb: AreaCapture.Rgb)
    requires WellFormedConfig(c)
    ensures CumulativeCorrection(c, rgb, 4)
         == ChannelCorrection(c, rgb, 0) + ChannelCorrection(c, rgb, 1) + ChannelCorrection(c, rgb, 2)
            + ChannelCorrection(c, rgb, 3)
  {
    assert CumulativeCorrection(c, rgb, 1) == ChannelCorrection(c, rgb, 0);
    assert CumulativeCorrection(c, rgb, 2) == CumulativeCorrection(c, rgb, 1) + ChannelCorrection(c, rgb, 1);
    assert CumulativeCorrection(c, rgb, 3) == CumulativeCorrection(c, rgb, 2) + ChannelCorrection(c, rgb, 2);
  }

  /** The contributions of the three colours, of white, and the gray value. */
  datatype Parts = Parts(r: real, g: real, b: real, white: real, gray: real)

  predicate ArePartsOf(parts: Parts, c: Config, rgb: AreaCapture.Rgb)
    requires WellFormedConfig(c)
  {
    && parts.gray == rgb.r * c.weights[0] + rgb.g * c.weights[1] + rgb.b * c.weights[2]
    && parts.r == ChannelLux(c, 0, rgb.r) && parts.g == ChannelLux(c, 1, rgb.g) && parts.b == ChannelLux(c, 2, rgb.b)
    && parts.white == ChannelLux(c, 3, parts.gray)
  }

  lemma SumIs(c: Config, rgb: AreaCapture.Rgb, parts: Parts)
    requires WellFormedConfig(c) && ArePartsOf(parts, c, rgb)
    ensures Gray(c, rgb) == parts.gray
    ensures CumulativeCorrection(c, rgb, 4) == ColoursLessWhite(parts.r, parts.g, parts.b, parts.white)
  {
    assert Gray(c, rgb) == parts.gray;
    SumOfChannels(c, rgb);
    CorrectionOfChannel(c, rgb, 0, rgb.r);
    CorrectionOfChannel(c, rgb, 1, rgb.g);
    CorrectionOfChannel(c, rgb, 2, rgb.b);
    CorrectionOfChannel(c, rgb, 3, parts.gray);
  }

  /** `full` is the light of a white screen; `gamma` and `sum` are shares of it and of what the parts add up to. */
  predicate IsEstimate(screen: real, sum: real, share: real, gamma: real, full: real) {
    IsClamped(screen, Times(sum, share), Times(gamma, full), full)
  }

  lemma ClampIs(sum: real, share: real, gamma: real, full: real)
    ensures IsEstimate(Max(Min(Times(sum, share), full), Times(gamma, full)), sum, share, gamma, full)
  {
  }

  /** The display's share of its maximum brightness. */
  function Share(c: Config, brightness: real): real
    requires WellFormedConfig(c)
  {
    brightness / c.maxBrightness
  }

  /** The light of a white screen at a brightness. */
  function FullLight(c: Config, brightness: real): real
    requires WellFormedConfig(c)
  {
    c.maxLuxWhite * brightness / c.maxBrightness
  }

  lemma ScreenOfSum(c: Config, rgb: AreaCapture.Rgb, brightness: real, sum: real, gray: real)
    requires WellFormedConfig(c) && CumulativeCorrection(c, rgb, 4) == sum && Gray(c, rgb) == gray
    ensures IsEstimate(ScreenBrightness(c, rgb, brightness), sum, Share(c, brightness), c.gamma(gray / 255.0),
                       FullLight(c, brightness))
  {
    ClampIs(sum, brightness / c.maxBrightness, c.gamma(gray / 255.0), FullWhite(c, brightness));
  }

  /** The estimated light of the screen: the three colours as far as they are positive, less white, at the display's
      share of its maximum brightness; at most a white screen, and at least the gamma-corrected gray of one. */
  lemma ScreenIs(c: Config, rgb: AreaCapture.Rgb, brightness: real, parts: Parts)
    requires WellFormedConfig(c) && ArePartsOf(parts, c, rgb)
    ensures IsEstimate(ScreenBrightness(c, rgb, brightness),
                       ColoursLessWhite(parts.r, parts.g, parts.b, parts.white), Share(c, brightness),
                       c.gamma(parts.gray / 255.0), FullLight(c, brightness))
  {
    SumIs(c, rgb, parts);
    ScreenOfSum(c, rgb, brightness, ColoursLessWhite(parts.r, parts.g, parts.b, parts.white), parts.gray);
  }

  lemma ScaleMonotone(a: real, b: real, share: real)
    requires a <= b && share >= 0.0
    ensures Times(a, share) <= Times(b, share)
  {
  }

  lemma EstimateMonotone(a: real, x: real, b: real, y: real, share: real, gamma: real, full: real)
    requires share >= 0.0 && x <= y && IsEstimate(a, x, share, gamma, full) && IsEstimate(b, y, share, gamma, full)
    ensures a <= b
  {
    ScaleMonotone(x, y, share);
  }

  lemma PartsMonotone(a: real, p: Parts, b: real, q: Parts, share: real, gamma: real, full: real)
    requires share >= 0.0 && p.r <= q.r && p.g <= q.g && p.b <= q.b && p.white >= q.white
    requires IsEstimate(a, ColoursLessWhite(p.r, p.g, p.b, p.white), share, gamma, full)
    requires IsEstimate(b, ColoursLessWhite(q.r, q.g, q.b, q.white), share, gamma, full)
    ensures a <= b
  {
    EstimateMonotone(a, ColoursLessWhite(p.r, p.g, p.b, p.white), b, ColoursLessWhite(q.r, q.g, q.b, q.white),
                     share, gamma, full);
  }

  lemma SameDisplay(c: Config, d: Config, brightness: real)
    requires WellFormedConfig(c) && WellFormedConfig(d) && brightness >= 0.0
    requires c.maxBrightness == d.maxBrightness && c.maxLuxWhite == d.maxLuxWhite
    ensures Share(c, brightness) == Share(d, brightness) >= 0.0 && FullLight(c, brightness) == FullLight(d, brightness)
  {
  }

  /** On the same display and for the same gray, a larger part of a colour never lowers the estimate, and a larger
      part of white never raises it. */
  lemma ScreenIsMonotone(c: Config, rgb: AreaCapture.Rgb, p: Parts, d: Config, rgb': AreaCapture.Rgb, q: Parts,
                         brightness: real)
    requires WellFormedConfig(c) && ArePartsOf(p, c, rgb) && WellFormedConfig(d) && ArePartsOf(q, d, rgb')
    requires c.maxBrightness == d.maxBrightness && c.maxLuxWhite == d.maxLuxWhite && c.gamma == d.gamma
    requires p.gray == q.gray && brightness >= 0.0
    requires p.r <= q.r && p.g <= q.g && p.b <= q.b && p.white >= q.white
    ensures ScreenBrightness(c, rgb, brightness) <= ScreenBrightness(d, rgb', brightness)
  {
    SameDisplay(c, d, brightness);
    ScreenIs(c, rgb, brightness, p);
    ScreenIs(d, rgb', brightness, q);
    PartsMonotone(ScreenBrightness(c, rgb, brightness), p, ScreenBrightness(d, rgb', brightness), q,
                  Share(c, brightness), c.gamma(p.gray / 255.0), FullLight(c, brightness));
  }

  // ---------- The reading ----------

  /** The reading without the sensor's offset, which is taken off what lies above it. */
  predicate IsDebiased(c: Config, light: real, x: real) {
    if light > c.bias then x + c.bias == light else x == light
  }

  /** What is left of a reading without offset and screen, never less than nothing, and its value in lux. */
  lemma ReadingIs(c: Config, input: Input, x: real)
    requires WellFormedConfig(c) && input.capture.Some? && IsDebiased(c, input.event.light, x)
    ensures var r, screen := ReadInput(c, input), ScreenBrightness(c, input.capture.value, input.brightness);
      && r.screen == screen && r.raw == (if x > screen then x - screen else 0.0)
      && r.corrected == Times(Times(r.raw, c.calibGain), r.agcGain)
  {
  }

  /** Whether a gain estimate lies above a calibration point, without dividing: the estimate is `data[2]` over the
      reading, a thousandfold, or the reading over `data[2]`, and a `data[2]` of nothing makes it infinite. */
  lemma ExceedsIs(c: Config, raw: real, data2: real, point: real)
    requires raw > 0.0
    ensures c.hbr ==> (Exceeds(c, raw, data2, point) <==> data2 * 1000.0 > point * raw)
    ensures !c.hbr && data2 == 0.0 ==> Exceeds(c, raw, data2, point)
    ensures !c.hbr && data2 > 0.0 ==> (Exceeds(c, raw, data2, point) <==> raw > point * data2)
  {
    if c.hbr {
      QuotientAbove(data2 * 1000.0, raw, point);
    } else if data2 > 0.0 {
      QuotientAbove(raw, data2, point);
    }
  }

  lemma QuotientAbove(x: real, y: real, bound: real)
    requires y > 0.0
    ensures x / y > bound <==> x > bound * y
  {
    var q := x / y;
    assert q * y == x;
    assert q > bound ==> q * y > bound * y;
    assert q <= bound ==> q * y <= bound * y;
  }

  /** Up to 800 lux at the base gain, and without calibration, the base gain counts; above that, the last calibration
      point that the estimate lies above, if there is one. */
  lemma GainIs(c: Config, raw: real, data2: real)
    requires WellFormedConfig(c)
    ensures raw * c.inverseGain[0] <= 800.0 ==> AgcGain(c, raw, data2) == c.inverseGain[0]
    ensures raw * c.inverseGain[0] > 800.0 ==> raw > 0.0
    ensures raw * c.inverseGain[0] > 800.0 ==>
      forall k :: 0 <= k < 4 && IsLastExceeded(c, raw, data2, k, 4) ==> AgcGain(c, raw, data2) == c.inverseGain[k]
    ensures raw * c.inverseGain[0] > 800.0 && (forall k :: 0 <= k < 4 ==> !Exceeds(c, raw, data2, c.gainPoints[k])) ==>
      AgcGain(c, raw, data2) == c.inverseGain[0]
  {
    ThresholdIsPositive(c);
    QuotientBelow(800.0, c.inverseGain[0], raw);
    if raw * c.inverseGain[0] > 800.0 {
      GainIsLastExceeded(c, raw, data2, 4);
    }
  }

  lemma QuotientBelow(x: real, y: real, z: real)
    requires y > 0.0
    ensures z > x / y <==> z * y > x
  {
    var q := x / y;
    assert q * y == x;
    assert z > q ==> z * y > q * y;
    assert z <= q ==> z * y <= q * y;
  }

  // ---------- The window ----------

  /** The window reaches from `low` to `high`, in lux at the given gain. */
  predicate Reaches(range: Range, gain: real, low: real, high: real) {
    Times(range.min, gain) == low && range.max.Finite? && Times(range.max.value, gain) == high
  }

  lemma ScaledReaches(gain: real, i: nat)
    requires gain > 0.0 && 0 < i < |RANGES| && RANGES[i].max.Finite?
    ensures Reaches(ScaledRange(gain, i), gain, RANGES[i].min, RANGES[i].max.value)
  {
    QuotientTimes(RANGES[i].min, gain);
    QuotientTimes(RANGES[i].max.value, gain);
  }

  lemma QuotientTimes(x: real, gain: real)
    requires gain > 0.0
    ensures Times(x / gain, gain) == x
  {
  }

  /** The window that is set for a value, in lux. Darkness has no lower end that a reading could fall below, and the
      brightest window has no upper end. */
  lemma WindowIs(gain: real, value: real)
    requires gain > 0.0
    ensures var window := ScaledRange(gain, Bucket(value, 0));
      if value <= 0.0 then window.min == -1.0 && window.max.Finite? && Times(window.max.value, gain) == 4.0
      else if value <= 7.0 then Reaches(window, gain, 1.0, 12.0)
      else if value <= 15.0 then Reaches(window, gain, 5.0, 30.0)
      else if value <= 30.0 then Reaches(window, gain, 10.0, 50.0)
      else if value <= 360.0 then Reaches(window, gain, 25.0, 700.0)
      else if value <= 1200.0 then Reaches(window, gain, 300.0, 1600.0)
      else if value <= 2250.0 then Reaches(window, gain, 1000.0, 2940.0)
      else if value <= 4600.0 then Reaches(window, gain, 2000.0, 5900.0)
      else if value <= 10000.0 then Reaches(window, gain, 4000.0, 80000.0)
      else Times(window.min, gain) == 8000.0 && window.max.Unbounded?
  {
    var i := Bucket(value, 0);
    if 0 < i < 9 {
      ScaledReaches(gain, i);
    }
    QuotientTimes(4.0, gain);
    QuotientTimes(8000.0, gain);
  }

  // ---------- One call ----------

  /** An update is forced: since the start, or because the display is on and has not been forced for three seconds. */
  predicate IsPending(s: State, input: Input) {
    s.forceUpdate
    || (s.lastUpdate != 0 && input.brightness > 0.0 && input.now > s.lastForcedUpdate + 3_000_000_000)
  }

  predicate IsTooEarly(s: State, input: Input) {
    s.lastUpdate != 0 && input.now < s.lastUpdate + 100_000_000
  }

  /** The window does not hold the reading, and the reading in lux, at the last gain, is dark or bright. */
  predicate IsNews(c: Config, s: State, x: real) {
    (x < s.hystMin || !AtMost(x, s.hystMax)) && IsDarkOrBright(Times(Times(x, c.calibGain), s.lastAgcGain))
  }

  predicate IsDarkOrBright(lux: real) {
    lux < 10.0 || lux * 0.07 > 5.0
  }

  lemma DarkOrBright(lux: real)
    ensures IsDarkOrBright(lux) <==> lux < 10.0 || lux > 5.0 / 0.07
  {
    QuotientBelow(5.0, 0.07, lux);
  }

  lemma NewsIs(c: Config, s: State, x: real)
    ensures NeedsCapture(c, s, x) <==> s.forceUpdate || IsNews(c, s, x)
  {
    DarkOrBright(Lux(c, x, s.lastAgcGain));
  }

  /** The screen seems much brighter than the reading, in bright light: then it is not believed. */
  predicate IsUnbelievable(c: Config, x: real, r: Reading) {
    r.screen > x * 1.35 && Times(Times(x, c.calibGain), r.agcGain) >= 10000.0
  }

  /** The last correction is left as it is: its value, its gain and its window. */
  predicate KeepsCorrection(s: State, s': State) {
    && s'.lastCorrectedValue == s.lastCorrectedValue && s'.lastAgcGain == s.lastAgcGain
    && s'.hystMin == s.hystMin && s'.hystMax == s.hystMax
  }

  /** What one call does. It drops an event that comes within 100 ms of the last one, and one whose screen could not be
      captured when that was asked for. It asks when an update is pending, or the reading is news. A captured screen is
      used, unless it is unbelievable and nothing is pending; what is reported is the value in lux less 14, as far as
      that is positive. In every other case the last value is reported. */
  lemma CallIs(c: Config, s: State, input: Input, x: real)
    requires WellFormedConfig(c) && IsDebiased(c, input.event.light, x)
    ensures var s', event := After(c, s, input), Output(c, s, input);
      var pending := IsPending(s, input);
      var captures := !IsTooEarly(s, input) && (pending || IsNews(c, s, x));
      && (IsTooEarly(s, input) || (captures && input.capture.None?) ==>
            && event == input.event.(light := x, dropped := true)
            && KeepsCorrection(s, s') && s'.forceUpdate == pending)
      && (!IsTooEarly(s, input) && !captures ==>
            event == input.event.(light := s.lastCorrectedValue) && KeepsCorrection(s, s') && !s'.forceUpdate)
      && (captures && input.capture.Some? ==>
            var r := ReadInput(c, input);
            && !s'.forceUpdate && event == input.event.(light := s'.lastCorrectedValue)
            && (if IsUnbelievable(c, x, r) && !pending
                then KeepsCorrection(s, s')
                else s'.lastCorrectedValue == Positive(r.corrected - 14.0) && s'.lastAgcGain == r.agcGain))
  {
    assert Debiased(c, input.event.light) == x;
    assert IsForced(s, input) || s.forceUpdate <==> IsPending(s, input);
    assert IsThrottled(s, input) <==> IsTooEarly(s, input);
    NewsIs(c, Tick(s, input), x);
  }

  // ---------- The clock, over whole runs ----------

  /** The times at which events get past the throttle: the first, and each that comes 100 ms or more after the one
      before it. */
  function Passes(inputs: seq<Input>): seq<int> {
    if inputs == [] then []
    else
      var before, now := Passes(inputs[..|inputs| - 1]), inputs[|inputs| - 1].now;
      if before == [] || now >= before[|before| - 1] + 100_000_000 then before + [now] else before
  }

  /** The times at which an update is forced by the clock: the first call, and each with the display on that comes more
      than three seconds after the one before it. */
  function Forcings(inputs: seq<Input>): seq<int> {
    if inputs == [] then []
    else
      var before, last := Forcings(inputs[..|inputs| - 1]), inputs[|inputs| - 1];
      if before == [] || (last.brightness > 0.0 && last.now > before[|before| - 1] + 3_000_000_000)
      then before + [last.now] else before
  }

  /** Over every run with a forward clock, the state knows the last time that got past the throttle. */
  lemma {:induction false} StateKnowsPasses(c: Config, inputs: seq<Input>)
    requires WellFormedConfig(c) && ForwardClock(inputs)
    ensures inputs == [] <==> Passes(inputs) == []
    ensures var s, times := RunTo(c, INITIAL, inputs), Passes(inputs);
      s.lastUpdate == (if times == [] then 0 else times[|times| - 1])
    ensures forall i :: 0 <= i < |Passes(inputs)| ==> Passes(inputs)[i] > 0
  {
    if inputs == [] {
    } else {
      StateKnowsPasses(c, inputs[..|inputs| - 1]);
    }
  }

  /** It also knows the last time that an update was forced. */
  lemma {:induction false} StateKnowsForcings(c: Config, inputs: seq<Input>)
    requires WellFormedConfig(c) && ForwardClock(inputs)
    ensures inputs == [] <==> Forcings(inputs) == []
    ensures var s, times := RunTo(c, INITIAL, inputs), Forcings(inputs);
      s.lastForcedUpdate == (if times == [] then 0 else times[|times| - 1])
  {
    if inputs == [] {
    } else {
      StateKnowsForcings(c, inputs[..|inputs| - 1]);
      StateKnowsPasses(c, inputs[..|inputs| - 1]);
    }
  }

  /** In every run an event is dropped by the throttle exactly when it comes less than 100 ms after the last event that
      was not. */
  lemma ThrottledIff(c: Config, inputs: seq<Input>)
    requires WellFormedConfig(c) && ForwardClock(inputs) && inputs != []
    ensures var n := |inputs| - 1;
      IsThrottled(RunTo(c, INITIAL, inputs[..n]), inputs[n]) <==>
        Passes(inputs[..n]) != [] && inputs[n].now < Passes(inputs[..n])[|Passes(inputs[..n])| - 1] + 100_000_000
  {
    StateKnowsPasses(c, inputs[..|inputs| - 1]);
  }

  // ---------- An example ----------

  /** With the display off, and up to 800 lux, a reading that is captured is reported as its value in lux less 14. */
  lemma DarkDisplayReports(c: Config, s: State, input: Input, x: real)
    requires Sane(c) && Sensible(input) && Triggers(c, s, input) && input.brightness == 0.0
    requires IsDebiased(c, input.event.light, x) && x * c.inverseGain[0] <= 800.0
    ensures Output(c, s, input)
         == input.event.(light := Positive(Times(Times(x, c.calibGain), c.inverseGain[0]) - 14.0))
  {
    ScreenIsBounded(c, input.capture.value, 0.0);
    assert FullWhite(c, 0.0) == 0.0;
    ReadingIs(c, input, x);
    GainIs(c, x, input.event.data2);
    AfterTriggered(c, s, input);
  }
}
