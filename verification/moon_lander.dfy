/** `MoonLander`: the rule fragments of the landing game that do not depend
    on the physics integration (thrust selection and clamping, fuel, reset,
    the landing decision, the colour-gradient factor). */
module MoonLander {

  import opened Wrappers
  import opened Actions
  import opened JavaInt

  const FuelStart: real := 4000.0
  /** mm/ms^2, as in the source. */
  const Gravity: real := 9810.0
  const ThrustMax: real := Gravity * 1.1
  const ThrustMin: real := Gravity * 0.9
  /** km/h */
  const LandingVelocityThreshold: real := 10.0

  datatype Vec = Vec(x: real, y: real)

  /** The mutable fields of the game that the modelled rules touch. Times
      are nanosecond counters; `landerY` is the lander's top edge in pixels. */
  datatype Lander = Lander(
    fuel: real,
    thrust: Vec,
    velocity: Vec,
    landed: bool,
    crashed: bool,
    timeStart: int,
    timeLast: int,
    landerY: real)

  /** The state a freshly constructed game starts in (field initialisers). */
  function Initial(): Lander
  {
    Lander(FuelStart, Vec(0.0, 0.0), Vec(0.0, 0.0), false, false, 0, 0, 0.0)
  }

  function Clamp(lo: real, hi: real, v: real): real
    requires lo <= hi
  {
    if v < lo then lo else if v > hi then hi else v
  }

  /** `validateThrust`: with fuel left the vertical component is clamped into
      [THRUST_MIN, THRUST_MAX], without fuel it is 0; the horizontal
      component is always 0. */
  function ValidateThrust(fuel: real, requested: Vec): (t: Vec)
    ensures t.x == 0.0
    ensures fuel > 0.0 ==> ThrustMin <= t.y <= ThrustMax
    ensures fuel > 0.0 && ThrustMin <= requested.y <= ThrustMax ==> t.y == requested.y
    ensures fuel > 0.0 && requested.y < ThrustMin ==> t.y == ThrustMin
    ensures fuel > 0.0 && requested.y > ThrustMax ==> t.y == ThrustMax
    ensures fuel <= 0.0 ==> t.y == 0.0
  {
    Vec(0.0, if fuel > 0.0 then Clamp(ThrustMin, ThrustMax, requested.y) else 0.0)
  }

  /** The thrust each action asks for (`thrustIncrease`, `thrustDecrease`,
      `thrustEqual`). */
  function Requested(a: Action): real
  {
    match a
    case ThrustUp => ThrustMax
    case ThrustDown => ThrustMin
    case Nothing => Gravity
  }

  /** `input(Action)`: only the thrust changes. */
  function Input(l: Lander, a: Action): (l': Lander)
    ensures l' == l.(thrust := l'.thrust)
    ensures l'.thrust == ValidateThrust(l.fuel, Vec(0.0, Requested(a)))
  {
    l.(thrust := ValidateThrust(l.fuel, Vec(0.0, Requested(a))))
  }

  /** The action `input(int)` selects for a code; codes other than 0, 1, 2
      are ignored. */
  function ActionOfCode(code: int): (r: Option<Action>)
    ensures r.Some? <==> 0 <= code < Size
  {
    if code == 0 then Some(Nothing)
    else if code == 1 then Some(ThrustUp)
    else if code == 2 then Some(ThrustDown)
    else None
  }

  /** `input(int)`. */
  function InputCode(l: Lander, code: int): (l': Lander)
    ensures ActionOfCode(code).None? ==> l' == l
    ensures ActionOfCode(code).Some? ==> l' == Input(l, ActionOfCode(code).value)
  {
    match ActionOfCode(code)
    case None => l
    case Some(a) => Input(l, a)
  }

  /** The integer code of `input(int)` never selects the action at that
      ordinal: code i selects the action at ordinal (i + 2) mod 3. */
  lemma CodeIsNotOrdinal(code: nat)
    requires code < Size
    ensures ActionOfCode(code).Some?
    ensures ActionOfCode(code).value != ByIndex(code)
    ensures ActionOfCode(code).value == ByIndex((code + 2) % Size)
  {
    IndexOrder();
    ByIndexOfIndex(ThrustUp);
    ByIndexOfIndex(ThrustDown);
    ByIndexOfIndex(Nothing);
  }

  /** With fuel left, each action sets the thrust it names, and all three lie
      inside the clamp band. */
  lemma ActionThrusts(l: Lander)
    requires l.fuel > 0.0
    ensures Input(l, ThrustUp).thrust == Vec(0.0, ThrustMax)
    ensures Input(l, ThrustDown).thrust == Vec(0.0, ThrustMin)
    ensures Input(l, Nothing).thrust == Vec(0.0, Gravity)
    ensures ThrustMin < Gravity < ThrustMax
  {
  }

  /** `updateFuel`: consumption is proportional to |thrust| / GRAVITY and to
      the time step (in ms) over 10; fuel is floored at 0. */
  function UpdateFuel(l: Lander, timeDeltaMs: real): (l': Lander)
    ensures l' == l.(fuel := l'.fuel)
    ensures l'.fuel >= 0.0
    ensures timeDeltaMs >= 0.0 && l.fuel >= 0.0 ==> l'.fuel <= l.fuel
    ensures l.fuel - Consumed(l.thrust, timeDeltaMs) > 0.0 ==> l'.fuel == l.fuel - Consumed(l.thrust, timeDeltaMs)
    ensures l.fuel - Consumed(l.thrust, timeDeltaMs) <= 0.0 ==> l'.fuel == 0.0
  {
    var rest := l.fuel - Consumed(l.thrust, timeDeltaMs);
    l.(fuel := if rest > 0.0 then rest else 0.0)
  }

  function Abs(x: real): real { if x < 0.0 then -x else x }

  function Consumed(thrust: Vec, timeDeltaMs: real): (c: real)
    ensures timeDeltaMs >= 0.0 ==> c >= 0.0
  {
    Abs(thrust.y) / Gravity * (timeDeltaMs / 10.0)
  }

  /** `resetZero`: back to the start of an episode. */
  function ResetZero(l: Lander): (l': Lander)
    ensures l'.fuel == FuelStart && !l'.landed && !l'.crashed
    ensures l'.velocity == Vec(0.0, 0.0) && l'.timeStart == 0 && l'.timeLast == 0
    ensures l'.thrust == Vec(0.0, ThrustMin) && l'.landerY == 0.0
  {
    Lander(FuelStart, Vec(0.0, ThrustMin), Vec(0.0, 0.0), false, false, 0, 0, 0.0)
  }

  /** `getVelocityVerticalInKmH` (the velocity is kept in m/ms units). */
  function VelocityVerticalKmH(l: Lander): real
  {
    l.velocity.y * 3600.0
  }

  /** `getTimeElapsedInSeconds`. */
  function ElapsedSeconds(l: Lander): real
  {
    (l.timeLast - l.timeStart) as real / 1000000000.0
  }

  /** The landing decision at the end of `update`: on ground contact the
      lander has landed, and crashed exactly when it came down faster than
      the threshold. Without contact nothing changes. */
  function Touchdown(l: Lander, groundContact: bool): (l': Lander)
    ensures !groundContact ==> l' == l
    ensures groundContact ==> l'.landed
    ensures groundContact ==> (l'.crashed <==> VelocityVerticalKmH(l) > LandingVelocityThreshold)
    ensures l' == l.(landed := l'.landed, crashed := l'.crashed)
  {
    if !groundContact then l
    else if VelocityVerticalKmH(l) <= LandingVelocityThreshold then l.(landed := true, crashed := false)
    else l.(landed := true, crashed := true)
  }

  /** One `update(now)` frame with the physics supplied by the caller: the
      integrated velocity and position and whether the lander touches the
      ground. The clock moves to `now`, fuel is burnt for the elapsed
      milliseconds, then the landing decision is taken. */
  function Update(l: Lander, now: int, velocity: Vec, landerY: real, groundContact: bool): (l': Lander)
    ensures l'.timeLast == now && l'.timeStart == l.timeStart
    ensures l'.velocity == velocity && l'.landerY == landerY && l'.thrust == l.thrust
    ensures l'.fuel >= 0.0
    ensures now >= l.timeLast && l.fuel >= 0.0 ==> l'.fuel <= l.fuel
    ensures var rest := l.fuel - Consumed(l.thrust, (now - l.timeLast) as real / 1000000.0);
      (rest > 0.0 ==> l'.fuel == rest) && (rest <= 0.0 ==> l'.fuel == 0.0)
    ensures groundContact ==> l'.landed && (l'.crashed <==> velocity.y * 3600.0 > LandingVelocityThreshold)
    ensures !groundContact ==> l'.landed == l.landed && l'.crashed == l.crashed
  {
    var dtMs := (now - l.timeLast) as real / 1000000.0;
    var burnt := UpdateFuel(l.(timeLast := now), dtMs);
    Touchdown(burnt.(velocity := velocity, landerY := landerY), groundContact)
  }

  /** What can happen to the game between two observations. */
  datatype Event =
    | Reset
    | Press(action: Action)
    | Code(code: int)
    | Frame(now: int, velocity: Vec, landerY: real, groundContact: bool)

  function Apply(l: Lander, e: Event): Lander
  {
    match e
    case Reset => ResetZero(l)
    case Press(a) => Input(l, a)
    case Code(c) => InputCode(l, c)
    case Frame(now, v, y, g) => Update(l, now, v, y, g)
  }

  function Run(l: Lander, events: seq<Event>): Lander
    decreases |events|
  {
    if |events| == 0 then l else Run(Apply(l, events[0]), events[1..])
  }

  /** The invariant the rules keep: fuel within [0, FUEL_START], a crash is
      always also a landing, the thrust is horizontal-free and either off or
      inside the clamp band. */
  ghost predicate Valid(l: Lander)
  {
    && 0.0 <= l.fuel <= FuelStart
    && (l.crashed ==> l.landed)
    && l.thrust.x == 0.0
    && (l.thrust.y == 0.0 || ThrustMin <= l.thrust.y <= ThrustMax)
  }

  /** Frames only move the clock forward. */
  ghost predicate Monotone(l: Lander, e: Event)
  {
    e.Frame? ==> e.now >= l.timeLast
  }

  ghost predicate MonotoneRun(l: Lander, events: seq<Event>)
    decreases |events|
  {
    |events| > 0 ==> Monotone(l, events[0]) && MonotoneRun(Apply(l, events[0]), events[1..])
  }

  lemma ApplyValid(l: Lander, e: Event)
    requires Valid(l) && Monotone(l, e)
    ensures Valid(Apply(l, e))
  {
    match e
    case Frame(now, v, y, g) =>
      var dtMs := (now - l.timeLast) as real / 1000000.0;
      assert dtMs >= 0.0;
    case _ =>
  }

  /** Starting from a fresh game, no sequence of resets, inputs and frames
      (with a clock that does not run backwards) makes fuel negative or larger
      than FUEL_START, a crash without a landing, or a thrust outside the
      band. */
  lemma {:induction false} RunValid(l: Lander, events: seq<Event>)
    requires Valid(l) && MonotoneRun(l, events)
    ensures Valid(Run(l, events))
    decreases |events|
  {
    if |events| > 0 {
      ApplyValid(l, events[0]);
      RunValid(Apply(l, events[0]), events[1..]);
    }
  }

  lemma InitialValid()
    ensures Valid(Initial())
  {
  }

  /** `colorGradient`'s interpolation factor `(value - min) / (max - min)`
      clamped into [0, 1]. Both differences are Java `int` subtractions,
      which wrap before the division widens them to double. With a zero
      denominator the division gives +Infinity for a positive numerator
      (clamped to 1), -Infinity for a negative one (clamped to 0) and NaN for
      a zero one, which no clamp removes (None). */
  function GradientFactor(value: int, minValue: int, maxValue: int): (f: Option<real>)
    requires IsInt32(value) && IsInt32(minValue) && IsInt32(maxValue)
    ensures f.Some? ==> 0.0 <= f.value <= 1.0
    ensures f.None? <==> maxValue == minValue && value == minValue
    ensures IsInt32(value - minValue) && IsInt32(maxValue - minValue) && maxValue != minValue ==>
      f == Some(Clamp(0.0, 1.0, (value - minValue) as real / (maxValue - minValue) as real))
    ensures maxValue == minValue && IsInt32(value - minValue) ==>
      (value > minValue ==> f == Some(1.0)) && (value < minValue ==> f == Some(0.0))
  {
    Wrap32Zero(value - minValue);
    Wrap32Zero(maxValue - minValue);
    var num := Wrap32(value - minValue);
    var den := Wrap32(maxValue - minValue);
    if den != 0 then Some(Clamp(0.0, 1.0, num as real / den as real))
    else if num > 0 then Some(1.0)
    else if num < 0 then Some(0.0)
    else None
  }

  /** Where neither subtraction wraps, the factor is the linear position
      inside the range and exactly 0 and 1 at or beyond its ends. */
  lemma GradientFactorEnds(value: int, minValue: int, maxValue: int)
    requires IsInt32(value) && IsInt32(minValue) && IsInt32(maxValue)
    requires minValue < maxValue
    ensures IsInt32(value - minValue) && IsInt32(maxValue - minValue) ==>
      && (value <= minValue ==> GradientFactor(value, minValue, maxValue) == Some(0.0))
      && (value >= maxValue ==> GradientFactor(value, minValue, maxValue) == Some(1.0))
      && (minValue <= value <= maxValue ==>
            GradientFactor(value, minValue, maxValue).value * (maxValue - minValue) as real == (value - minValue) as real)
  {
    if IsInt32(value - minValue) && IsInt32(maxValue - minValue) {
      var d := (maxValue - minValue) as real;
      var n := (value - minValue) as real;
      Quotient(n, d);
      assert GradientFactor(value, minValue, maxValue) == Some(Clamp(0.0, 1.0, n / d));
    }
  }

  lemma Quotient(n: real, d: real)
    requires d > 0.0
    ensures n <= 0.0 ==> n / d <= 0.0
    ensures n >= 0.0 ==> n / d >= 0.0
    ensures n >= d ==> n / d >= 1.0
    ensures n <= d ==> n / d <= 1.0
    ensures (n / d) * d == n
  {
    assert (n / d) * d == n;
  }

  /** The `int` subtraction wraps: far above a range just below zero, the
      numerator turns negative and the factor is 0, not 1. */
  lemma GradientFactorWraps()
    ensures GradientFactor(Int32Max, -2, 0) == Some(0.0)
  {
    assert Wrap32(Int32Max + 2) == Int32Min + 1;
  }

  /** The one use, `colorGradient(rate, 0, 1000, ...)` in `fire`, never
      wraps: the factor is the rate over 1000, clamped into [0, 1]. */
  lemma GradientFactorMeter(rate: int)
    requires IsInt32(rate)
    ensures GradientFactor(rate, 0, 1000) == Some(Clamp(0.0, 1.0, rate as real / 1000.0))
  {
    assert Wrap32(rate - 0) == rate;
    assert Wrap32(1000 - 0) == 1000;
  }
}
