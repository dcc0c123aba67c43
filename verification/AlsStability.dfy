/** What the hysteresis window and the cache of the ambient-light correction promise. */
module AlsStability {
  import AreaCapture
  import opened AlsCorrection

  /** The gamma curve maps the unit interval to itself. */
  ghost predicate IsGamma(gamma: real -> real) {
    forall x: real :: 0.0 <= x <= 1.0 ==> 0.0 <= gamma(x) <= 1.0
  }

  /** A configuration whose gray value stays a gray value and whose display is not darker than black. */
  ghost predicate Sane(c: Config) {
    && WellFormedConfig(c) && IsGamma(c.gamma) && c.maxLuxWhite >= 0.0
    && c.weights[0] >= 0.0 && c.weights[1] >= 0.0 && c.weights[2] >= 0.0
    && c.weights[0] + c.weights[1] + c.weights[2] <= 1.0
  }

  predicate IsColour(rgb: AreaCapture.Rgb) {
    0.0 <= rgb.r <= 255.0 && 0.0 <= rgb.g <= 255.0 && 0.0 <= rgb.b <= 255.0
  }

  /** A mean that `GetAreaBrightness` computes is a colour. */
  lemma MeansAreColours(capture: AreaCapture.Capture)
    requires AreaCapture.WellFormed(capture) && 0 < capture.width * capture.height <= AreaCapture.MAX_PIXELS
    ensures IsColour(AreaCapture.MeanOfSums(capture))
  {
    AreaCapture.MeanIsBetween(capture, 0, 0, 255);
    AreaCapture.MeanIsBetween(capture, 1, 0, 255);
    AreaCapture.MeanIsBetween(capture, 2, 0, 255);
  }

  lemma TimesPositive(raw: real, g: real)
    requires raw >= 0.0 && g > 0.0
    ensures Times(raw, g) >= 0.0
  {
  }

  lemma TimesMonotone(a: real, b: real, g: real)
    requires a <= b && g > 0.0
    ensures Times(a, g) <= Times(b, g)
  {
  }

  lemma ScaleBetween(x: real, w: real)
    requires 0.0 <= x <= 255.0 && w >= 0.0
    ensures 0.0 <= Times(x, w) <= 255.0 * w
  {
    if w > 0.0 {
      TimesPositive(x, w);
      TimesMonotone(x, 255.0, w);
    }
  }

  lemma WeightedSum(r: real, g: real, b: real, u: real, v: real, w: real)
    requires 0.0 <= r <= 255.0 && 0.0 <= g <= 255.0 && 0.0 <= b <= 255.0
    requires u >= 0.0 && v >= 0.0 && w >= 0.0 && u + v + w <= 1.0
    ensures 0.0 <= Times(r, u) + Times(g, v) + Times(b, w) <= 255.0
  {
    ScaleBetween(r, u);
    ScaleBetween(g, v);
    ScaleBetween(b, w);
    SumBetween(Times(r, u), Times(g, v), Times(b, w), u, v, w);
  }

  lemma SumBetween(x: real, y: real, z: real, u: real, v: real, w: real)
    requires 0.0 <= x <= 255.0 * u && 0.0 <= y <= 255.0 * v && 0.0 <= z <= 255.0 * w && u + v + w <= 1.0
    ensures 0.0 <= x + y + z <= 255.0
  {
  }

  lemma GrayIsGray(c: Config, rgb: AreaCapture.Rgb)
    requires Sane(c) && IsColour(rgb)
    ensures 0.0 <= Gray(c, rgb) / 255.0 <= 1.0
  {
    WeightedSum(rgb.r, rgb.g, rgb.b, c.weights[0], c.weights[1], c.weights[2]);
  }

  lemma ProductBetween(g: real, full: real)
    requires 0.0 <= g <= 1.0 && full >= 0.0
    ensures 0.0 <= Times(g, full) <= full
  {
    if full > 0.0 {
      TimesPositive(g, full);
      TimesMonotone(g, 1.0, full);
    }
  }

  lemma FullWhiteIsLight(c: Config, brightness: real)
    requires Sane(c) && brightness >= 0.0
    ensures FullWhite(c, brightness) >= 0.0
  {
    assert c.maxLuxWhite * brightness >= 0.0;
  }

  /** The screen is never taken to be darker than black or brighter than full white. */
  lemma ScreenIsBounded(c: Config, rgb: AreaCapture.Rgb, brightness: real)
    requires Sane(c) && IsColour(rgb) && brightness >= 0.0
    ensures 0.0 <= ScreenBrightness(c, rgb, brightness) <= FullWhite(c, brightness)
  {
    GrayIsGray(c, rgb);
    FullWhiteIsLight(c, brightness);
    ProductBetween(c.gamma(Gray(c, rgb) / 255.0), FullWhite(c, brightness));
  }

  // ---------- The table ----------

  /** Neighbouring buckets overlap: a bucket reaches down to the middle of the one before it, except that the first
      bucket above darkness starts at 1, and it reaches up at least to its own middle. */
  lemma TableOverlaps(i: nat)
    requires i < |RANGES|
    ensures RANGES[i].middle.Finite? && RANGES[i].max.Finite? ==> RANGES[i].middle.value <= RANGES[i].max.value
    ensures RANGES[i].middle.Unbounded? ==> RANGES[i].max.Unbounded?
    ensures i >= 2 ==> RANGES[i - 1].middle.Finite? && 1.0 <= RANGES[i].min <= RANGES[i - 1].middle.value
    ensures i == 1 ==> RANGES[i].min == 1.0 && RANGES[i - 1].middle == Finite(0.0)
    ensures i == 0 ==> RANGES[i].middle == Finite(0.0)
  {
  }

  /** What the bucket of a value says about the value, in lux. */
  lemma BucketBounds(corrected: real)
    ensures var range := RANGES[Bucket(corrected, 0)];
      && AtMost(corrected, range.max)
      && (Bucket(corrected, 0) == 0 <==> corrected <= 0.0)
      && (Bucket(corrected, 0) == 1 ==> range.min == 1.0)
      && (Bucket(corrected, 0) >= 2 ==> 1.0 <= range.min <= corrected)
  {
    var i := Bucket(corrected, 0);
    TableOverlaps(i);
    TableOverlaps(0);
    if i >= 1 {
      assert !AtMost(corrected, RANGES[i - 1].middle);
      assert !AtMost(corrected, RANGES[0].middle);
    }
  }

  // ---------- Scaling ----------

  lemma QuotientOrder(x: real, bound: real, g: real)
    requires g > 0.0
    ensures x >= bound / g <==> Times(x, g) >= bound
    ensures x <= bound / g <==> Times(x, g) <= bound
  {
    var q := bound / g;
    assert q * g == bound;
    assert x < q ==> x * g < q * g;
    assert x > q ==> x * g > q * g;
  }

  lemma LuxIsScaled(c: Config, raw: real)
    requires WellFormedConfig(c)
    ensures Lux(c, raw, c.inverseGain[0]) == Times(raw, Gain(c))
  {
  }

  lemma UpperEdge(gain: real, i: nat, light: real, full: real)
    requires gain > 0.0 && i < |RANGES|
    ensures AtMost(light, Plus(ScaledRange(gain, i).max, full)) <==> AtMost(Times(light - full, gain), RANGES[i].max)
  {
    var max := RANGES[i].max;
    if max.Finite? {
      QuotientOrder(light - full, max.value, gain);
    }
  }

  lemma LowerEdge(gain: real, i: nat, light: real)
    requires gain > 0.0 && i < |RANGES| && light >= 0.0
    ensures light >= ScaledRange(gain, i).min <==> i == 0 || Times(light, gain) >= RANGES[i].min
  {
    QuotientOrder(light, RANGES[i].min, gain);
  }

  /** Whether a reading lies in bucket `i`, in lux at the base gain: the light of a white screen is allowed for at the
      upper end, and the lowest bucket has no lower end. */
  predicate InBucket(gain: real, i: nat, light: real, full: real)
    requires i < |RANGES|
  {
    (i == 0 || Times(light, gain) >= RANGES[i].min) && AtMost(Times(light - full, gain), RANGES[i].max)
  }

  /** The window that belongs to a value contains a reading exactly when the reading lies in the bucket of the value.
      The value is computed with the automatic gain and the window is scaled with the base gain. When the value is not
      below what the base gain would make of it, the reading is never above the window; when it is not above that, the
      reading is below the window exactly when the value is positive and the reading is below 1 lux. */
  lemma WindowContainsReading(gain: real, light: real, full: real, raw: real, corrected: real)
    requires gain > 0.0 && 0.0 <= raw <= light <= raw + full
    ensures var i := Bucket(corrected, 0);
      var range := ScaledRange(gain, i);
      && (light >= range.min && AtMost(light, Plus(range.max, full)) <==> InBucket(gain, i, light, full))
      && (corrected >= Times(raw, gain) ==> AtMost(light, Plus(range.max, full)))
      && (corrected <= Times(raw, gain) ==> (light < range.min <==> corrected > 0.0 && Times(light, gain) < 1.0))
  {
    var i := Bucket(corrected, 0);
    TimesMonotone(raw, light, gain);
    TimesMonotone(light - full, raw, gain);
    BucketBounds(corrected);
    UpperEdge(gain, i, light, full);
    LowerEdge(gain, i, light);
  }

  // ---------- Repeating a reading ----------

  /** The input that triggers a correction, and the state and reading it starts from. */
  predicate Triggers(c: Config, s: State, input: Input)
    requires WellFormedConfig(c)
  {
    && !IsThrottled(s, input) && input.capture.Some?
    && NeedsCapture(c, Tick(s, input), Debiased(c, input.event.light))
    && Accepts(c, Tick(s, input), Debiased(c, input.event.light), ReadInput(c, input))
  }

  /** The state an accepted correction leaves. */
  lemma AfterTriggered(c: Config, s: State, input: Input)
    requires WellFormedConfig(c) && Triggers(c, s, input)
    ensures var s', r := After(c, s, input), ReadInput(c, input);
      var range := ScaledRange(Gain(c), Bucket(r.corrected, 0));
      && s'.hystMin == range.min && s'.hystMax == Plus(range.max, FullWhite(c, input.brightness))
      && !s'.forceUpdate && s'.lastAgcGain == r.agcGain && s'.lastCorrectedValue == Reported(r)
  {
  }

  /** An input with a colour that the capture service can return, and with light that is not negative. */
  predicate Sensible(input: Input) {
    input.capture.Some? && IsColour(input.capture.value) && input.brightness >= 0.0 && input.event.light >= 0.0
  }

  lemma TimesOrder(x: real, y: real, z: real)
    requires x >= 0.0 && y <= z
    ensures Times(x, y) <= Times(x, z)
  {
  }

  /** A larger automatic gain makes a larger value. */
  lemma LuxFollowsGain(c: Config, raw: real, agcGain: real)
    requires WellFormedConfig(c) && raw >= 0.0
    ensures agcGain >= c.inverseGain[0] ==> Lux(c, raw, agcGain) >= Times(raw, Gain(c))
    ensures agcGain <= c.inverseGain[0] ==> Lux(c, raw, agcGain) <= Times(raw, Gain(c))
  {
    LuxIsScaled(c, raw);
    TimesPositive(raw, c.calibGain);
    if agcGain >= c.inverseGain[0] {
      TimesOrder(Times(raw, c.calibGain), c.inverseGain[0], agcGain);
    } else {
      TimesOrder(Times(raw, c.calibGain), agcGain, c.inverseGain[0]);
    }
  }

  /** The reading of a triggering input lies between what is left of it and that plus the light of a white screen. */
  lemma ReadingFacts(c: Config, input: Input)
    requires Sane(c) && Sensible(input)
    ensures var light, r := Debiased(c, input.event.light), ReadInput(c, input);
      && 0.0 <= r.raw <= light <= r.raw + FullWhite(c, input.brightness)
      && (r.agcGain >= c.inverseGain[0] ==> r.corrected >= Times(r.raw, Gain(c)))
      && (r.agcGain <= c.inverseGain[0] ==> r.corrected <= Times(r.raw, Gain(c)))
  {
    ScreenIsBounded(c, input.capture.value, input.brightness);
    LuxFollowsGain(c, ReadInput(c, input).raw, ReadInput(c, input).agcGain);
  }

  /** Hysteresis stability, with any automatic gain. After an accepted correction the same reading lies in the new
      window exactly when it lies, in lux at the base gain, in the bucket of the corrected value. A gain above the base
      gain can only put it below the window, a gain below the base gain can only put it above, apart from readings
      below 1 lux. */
  lemma WindowAfterCorrection(c: Config, s: State, input: Input)
    requires Sane(c) && Triggers(c, s, input) && Sensible(input)
    ensures var light, r, s' := Debiased(c, input.event.light), ReadInput(c, input), After(c, s, input);
      && (IsOutside(s', light) <==>
            !InBucket(Gain(c), Bucket(r.corrected, 0), light, FullWhite(c, input.brightness)))
      && (r.agcGain >= c.inverseGain[0] ==> AtMost(light, s'.hystMax))
      && (r.agcGain <= c.inverseGain[0] ==>
            (light < s'.hystMin <==> r.corrected > 0.0 && Times(light, Gain(c)) < 1.0))
  {
    var light, r := Debiased(c, input.event.light), ReadInput(c, input);
    AfterTriggered(c, s, input);
    ReadingFacts(c, input);
    WindowContainsReading(Gain(c), light, FullWhite(c, input.brightness), r.raw, r.corrected);
  }

  /** The band, in lux, in which a reading is served from the cache wherever the window lies. */
  predicate IsQuiet(c: Config, light: real, agcGain: real) {
    10.0 <= Lux(c, light, agcGain) <= 5.0 / 0.07
  }

  /** With any automatic gain, the same reading, when it is not forced, is served from the cache if and only if it lies
      in the bucket of the corrected value or, at the new gain, in the quiet band. */
  lemma RepeatedReadingNeedsCapture(c: Config, s: State, input: Input)
    requires Sane(c) && Triggers(c, s, input) && Sensible(input)
    ensures var light, r := Debiased(c, input.event.light), ReadInput(c, input);
      NeedsCapture(c, After(c, s, input), light) <==>
        && !InBucket(Gain(c), Bucket(r.corrected, 0), light, FullWhite(c, input.brightness))
        && !IsQuiet(c, light, r.agcGain)
  {
    AfterTriggered(c, s, input);
    WindowAfterCorrection(c, s, input);
  }

  /** With the base gain that is so if and only if the corrected value is 0 or the reading is at least 1 lux; a
      corrected value of 1 or more is such a case. */
  lemma RepeatedReadingIsStable(c: Config, s: State, input: Input)
    requires Sane(c) && Triggers(c, s, input) && Sensible(input)
    requires ReadInput(c, input).agcGain == c.inverseGain[0]
    ensures var light, r := Debiased(c, input.event.light), ReadInput(c, input);
      && (IsOutside(After(c, s, input), light) <==> !(r.corrected == 0.0 || Times(light, Gain(c)) >= 1.0))
      && (NeedsCapture(c, After(c, s, input), light) <==> !(r.corrected == 0.0 || Times(light, Gain(c)) >= 1.0))
      && (r.corrected >= 1.0 ==> Times(light, Gain(c)) >= 1.0)
  {
    var light, r := Debiased(c, input.event.light), ReadInput(c, input);
    AfterTriggered(c, s, input);
    ReadingFacts(c, input);
    WindowAfterCorrection(c, s, input);
    LuxIsScaled(c, light);
    TimesPositive(r.raw, Gain(c));
    TimesMonotone(r.raw, light, Gain(c));
  }

  /** The condition is needed: with a gain of 1 and a dark screen, half a lux is captured again when it is repeated. */
  lemma HalfLuxEscapes(c: Config, input: Input)
    requires Sane(c) && Sensible(input)
    requires c.calibGain == c.inverseGain[0] == 1.0 && c.bias == 0.0
    requires input.event.light == 0.5 && input.brightness == 0.0
    ensures Triggers(c, INITIAL, input) && NeedsCapture(c, After(c, INITIAL, input), 0.5)
  {
    ReadingFacts(c, input);
    assert FullWhite(c, 0.0) == 0.0;
    assert Lux(c, 0.5, 1.0) == 0.5;
    RepeatedReadingIsStable(c, INITIAL, input);
    LuxIsScaled(c, 0.5);
  }

  /** So is the base gain: with the display off, a gain of a tenth at the last calibration point makes 1000 lux 100 lux,
      and the reading lies above the window of 25 to 700. */
  lemma LowGainEscapes(c: Config, input: Input)
    requires Sane(c) && Sensible(input)
    requires c.calibGain == c.inverseGain[0] == 1.0 && c.inverseGain[3] == 0.1 && c.bias == 0.0 && !c.hbr
    requires input.event.light == 1000.0 && input.event.data2 == 0.0 && input.brightness == 0.0
    ensures Triggers(c, INITIAL, input) && NeedsCapture(c, After(c, INITIAL, input), 1000.0)
  {
    ReadingFacts(c, input);
    assert FullWhite(c, 0.0) == 0.0;
    assert ReadInput(c, input).agcGain == 0.1;
    assert Lux(c, 1000.0, 0.1) == 100.0;
    AfterTriggered(c, INITIAL, input);
    BucketsBelow360();
  }

  /** Outside the window, but quiet: at a twentieth of the base gain the same 1000 lux are 50 lux, and are served from
      the cache although they lie above the window. */
  lemma QuietReadingIsServed(c: Config, input: Input)
    requires Sane(c) && Sensible(input)
    requires c.calibGain == c.inverseGain[0] == 1.0 && c.inverseGain[3] == 0.05 && c.bias == 0.0 && !c.hbr
    requires input.event.light == 1000.0 && input.event.data2 == 0.0 && input.brightness == 0.0
    ensures var s' := After(c, INITIAL, input);
      Triggers(c, INITIAL, input) && IsOutside(s', 1000.0) && !NeedsCapture(c, s', 1000.0)
  {
    ReadingFacts(c, input);
    assert FullWhite(c, 0.0) == 0.0;
    assert ReadInput(c, input).agcGain == 0.05;
    assert Lux(c, 1000.0, 0.05) == 50.0;
    AfterTriggered(c, INITIAL, input);
    BucketsBelow360();
  }

  lemma BucketsBelow360()
    ensures Bucket(100.0, 0) == Bucket(50.0, 0) == 4
  {
    assert RANGES[3].middle == Finite(30.0) && RANGES[4].middle == Finite(360.0);
  }

  /** Two calls with the same reading, the second past the throttle and not forced. If the reading lies in the bucket of
      the corrected value or in the quiet band, the second reports what the first did; otherwise it captures the screen,
      and is dropped or corrected anew. */
  lemma SecondCallReusesCache(c: Config, s: State, input: Input, again: Input)
    requires Sane(c) && Triggers(c, s, input) && Sensible(input)
    requires again.event.light == input.event.light
    requires !IsThrottled(After(c, s, input), again) && !IsForced(After(c, s, input), again)
    ensures !Output(c, s, input).dropped || input.event.dropped
    ensures var light, r, s' := Debiased(c, input.event.light), ReadInput(c, input), After(c, s, input);
      var cached := InBucket(Gain(c), Bucket(r.corrected, 0), light, FullWhite(c, input.brightness))
        || IsQuiet(c, light, r.agcGain);
      && (cached ==> Output(c, s', again) == again.event.(light := Output(c, s, input).light))
      && (!cached && again.capture.None? ==> Output(c, s', again).dropped)
      && (!cached && again.capture.Some? ==>
            After(c, s', again) == Corrected(c, Tick(s', again), light, again.brightness, ReadInput(c, again)))
  {
    RepeatedReadingNeedsCapture(c, s, input);
  }

  // ---------- Whole runs ----------

  function RunTo(c: Config, s: State, inputs: seq<Input>): State
    requires WellFormedConfig(c)
  {
    if inputs == [] then s else After(c, RunTo(c, s, inputs[..|inputs| - 1]), inputs[|inputs| - 1])
  }

  /** Every corrected value that a run has computed and accepted, in order. */
  function Corrections(c: Config, s: State, inputs: seq<Input>): seq<real>
    requires WellFormedConfig(c)
  {
    if inputs == [] then []
    else
      var before, input := RunTo(c, s, inputs[..|inputs| - 1]), inputs[|inputs| - 1];
      Corrections(c, s, inputs[..|inputs| - 1])
        + if Triggers(c, before, input) then [Reported(ReadInput(c, input))] else []
  }

  /** The times of the calls that got past the throttle. */
  function PassTimes(c: Config, s: State, inputs: seq<Input>): seq<int>
    requires WellFormedConfig(c)
  {
    if inputs == [] then []
    else
      var before, input := RunTo(c, s, inputs[..|inputs| - 1]), inputs[|inputs| - 1];
      PassTimes(c, s, inputs[..|inputs| - 1]) + if IsThrottled(before, input) then [] else [input.now]
  }

  predicate ForwardClock(inputs: seq<Input>) {
    && (forall i :: 0 <= i < |inputs| ==> inputs[i].now > 0)
    && (forall i, j :: 0 <= i < j < |inputs| ==> inputs[i].now <= inputs[j].now)
  }

  /** The state knows the last correction; until there is one, an update stays forced. */
  lemma {:induction false} StateCachesLastCorrection(c: Config, inputs: seq<Input>)
    requires WellFormedConfig(c)
    ensures var s, all := RunTo(c, INITIAL, inputs), Corrections(c, INITIAL, inputs);
      && (all == [] ==> s.forceUpdate)
      && (all != [] ==> s.lastCorrectedValue == all[|all| - 1])
  {
    if inputs == [] {
    } else {
      StateCachesLastCorrection(c, inputs[..|inputs| - 1]);
    }
  }

  /** Over every run, an event that is not dropped carries the most recent correction, and there is one. */
  lemma OutputIsLastCorrection(c: Config, inputs: seq<Input>)
    requires WellFormedConfig(c) && inputs != []
    requires !inputs[|inputs| - 1].event.dropped
    ensures var event := Output(c, RunTo(c, INITIAL, inputs[..|inputs| - 1]), inputs[|inputs| - 1]);
      var all := Corrections(c, INITIAL, inputs);
      !event.dropped ==> all != [] && event.light == all[|all| - 1]
  {
    StateCachesLastCorrection(c, inputs[..|inputs| - 1]);
    StateCachesLastCorrection(c, inputs);
  }

  lemma {:induction false} LastUpdateIsLastPass(c: Config, inputs: seq<Input>)
    requires WellFormedConfig(c) && ForwardClock(inputs)
    ensures var s, times := RunTo(c, INITIAL, inputs), PassTimes(c, INITIAL, inputs);
      s.lastUpdate == (if times == [] then 0 else times[|times| - 1])
    ensures forall i :: 0 <= i < |PassTimes(c, INITIAL, inputs)| ==> PassTimes(c, INITIAL, inputs)[i] > 0
  {
    if inputs == [] {
    } else {
      LastUpdateIsLastPass(c, inputs[..|inputs| - 1]);
    }
  }

  /** Calls that get past the throttle are at least 100 ms apart. */
  lemma {:induction false} PassesAreApart(c: Config, inputs: seq<Input>)
    requires WellFormedConfig(c) && ForwardClock(inputs)
    ensures var times := PassTimes(c, INITIAL, inputs);
      forall i :: 0 < i < |times| ==> times[i] - times[i - 1] >= 100_000_000
  {
    if inputs == [] {
    } else {
      PassesAreApart(c, inputs[..|inputs| - 1]);
      LastUpdateIsLastPass(c, inputs[..|inputs| - 1]);
    }
  }

  /** A failed capture drops the event and changes nothing but the times, and the force flag when it was time to
      force. */
  lemma FailedCaptureKeepsCache(c: Config, s: State, input: Input)
    requires WellFormedConfig(c) && input.capture.None?
    ensures var s' := After(c, s, input);
      && s' == s.(lastUpdate := s'.lastUpdate, lastForcedUpdate := s'.lastForcedUpdate, forceUpdate := s'.forceUpdate)
      && s'.forceUpdate == (s.forceUpdate || IsForced(s, input))
      && (NeedsCapture(c, s', Debiased(c, input.event.light)) ==> Output(c, s, input).dropped)
  {
  }

  /** When it is time to force an update, a call that gets past the throttle captures the screen: its event is dropped
      because that failed, or the correction it makes is accepted. A throttled call leaves the update forced. */
  lemma ForcingRefreshes(c: Config, s: State, input: Input)
    requires WellFormedConfig(c) && IsForced(s, input)
    ensures After(c, s, input).lastForcedUpdate == input.now
    ensures IsThrottled(s, input) ==> After(c, s, input).forceUpdate
    ensures !IsThrottled(s, input) ==> Output(c, s, input).dropped || Triggers(c, s, input)
  {
  }

  /** Point `k` is the last of the first `n` calibration points that the estimate exceeds. */
  predicate IsLastExceeded(c: Config, raw: real, data2: real, k: nat, n: nat)
    requires WellFormedConfig(c) && raw > 0.0 && k < n <= 4
  {
    Exceeds(c, raw, data2, c.gainPoints[k]) && forall j :: k < j < n ==> !Exceeds(c, raw, data2, c.gainPoints[j])
  }

  /** Above the threshold the gain is that of the last calibration point that the estimate exceeds, or the base gain
      when it exceeds none. */
  lemma {:induction false} GainIsLastExceeded(c: Config, raw: real, data2: real, n: nat)
    requires WellFormedConfig(c) && raw > 0.0 && n <= 4
    ensures forall k :: 0 <= k < n && IsLastExceeded(c, raw, data2, k, n) ==>
      GainAfter(c, raw, data2, n) == c.inverseGain[k]
    ensures (forall k :: 0 <= k < n ==> !Exceeds(c, raw, data2, c.gainPoints[k])) ==>
      GainAfter(c, raw, data2, n) == c.inverseGain[0]
  {
    if n == 0 {
    } else {
      GainIsLastExceeded(c, raw, data2, n - 1);
      forall k | 0 <= k < n && IsLastExceeded(c, raw, data2, k, n)
        ensures GainAfter(c, raw, data2, n) == c.inverseGain[k]
      {
        assert k < n - 1 ==> IsLastExceeded(c, raw, data2, k, n - 1);
      }
    }
  }

  /** The nested evaluation is the cubic polynomial. */
  lemma HornerIsCubic(coefs: seq<real>, x: real)
    requires |coefs| == 4
    ensures Horner(coefs, x, 4) == coefs[0] * x * x * x + coefs[1] * x * x + coefs[2] * x + coefs[3]
  {
    assert Horner(coefs, x, 1) == coefs[0];
    assert Horner(coefs, x, 2) == coefs[0] * x + coefs[1];
    assert Horner(coefs, x, 3) == coefs[0] * x * x + coefs[1] * x + coefs[2];
  }
}
