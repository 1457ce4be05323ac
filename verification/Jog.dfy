/**
 The manual jog engine: per joint and tick, soft-limit lookahead with direction latching, a
 velocity ramp, and the clamps that keep the integrated target inside the soft window.
 */
module Jog {
  import opened Wrappers
  import opened Reals

  const NUM_JOINTS: nat := 6

  /** Runtime floors for the ramp time and the s-curve jerk factor. */
  const MIN_ACCEL_TIME: real := 0.05
  const MIN_JERK_FACTOR: real := 0.5

  /** How much farther than its stop a joint is taken to need. */
  const STOP_MARGIN: real := 1.5

  datatype Profile = Trapezoid | Scurve

  datatype Direction = Positive | Negative

  /** One joint's jog limits, as the validated configuration guarantees them. */
  datatype Limits = Limits(velocity: real, acceleration: real, softMin: real, softMax: real) {
    ghost predicate Valid() {
      velocity > 0.0 && acceleration > 0.0 && softMin <= softMax
    }

    ghost predicate Admits(q: real) {
      softMin <= q <= softMax
    }
  }

  /** The ramp settings all joints share. */
  datatype Ramp = Ramp(dt: real, profile: Profile, accelTime: real, jerkFactor: real) {
    ghost predicate Valid() {
      dt > 0.0 && accelTime >= MIN_ACCEL_TIME && jerkFactor >= MIN_JERK_FACTOR
    }
  }

  /** One joint: commanded fraction, whether it is in the driven set, ramp state, target and latch. */
  datatype Joint = Joint(active: real, driven: bool, v: real, acc: real, q: real, blocked: Option<Direction>)

  /** What a rate amounts to over one tick. */
  function PerTick(rate: real, dt: real): real {
    rate * dt
  }

  lemma PerTickSign(rate: real, dt: real)
    requires dt > 0.0
    ensures rate > 0.0 <==> PerTick(rate, dt) > 0.0
    ensures rate < 0.0 <==> PerTick(rate, dt) < 0.0
    ensures PerTick(-rate, dt) == -PerTick(rate, dt)
  {
    ProductSign(rate, dt);
    ProductSign(-rate, dt);
  }

  lemma PerTickMonotone(slow: real, fast: real, dt: real)
    requires dt > 0.0 && slow <= fast
    ensures PerTick(slow, dt) <= PerTick(fast, dt)
  {
    ProductSign(fast - slow, dt);
    assert (fast - slow) * dt == fast * dt - slow * dt;
  }

  function Margined(stop: real): real {
    STOP_MARGIN * stop
  }

  function FromSign(v: real): Direction {
    if v >= 0.0 then Positive else Negative
  }

  function Signum(x: real): real {
    if x >= 0.0 then 1.0 else -1.0
  }

  /** Capped acceleration of a ramp that reaches `vFull` in its time, and its jerk. */
  function RampRates(vFull: real, aLimit: real, accelTime: real, jerkFactor: real): (r: (real, real))
    ensures vFull > 0.0 && aLimit > 0.0 ==> r.0 > 0.0 && r.1 > 0.0
    ensures r.0 <= aLimit
  {
    var t := Max(accelTime, MIN_ACCEL_TIME);
    var f := Max(jerkFactor, MIN_JERK_FACTOR);
    var a := Min(vFull / t, aLimit);
    QuotientPositive(vFull, t);
    ProductSign(a, f);
    (a, a * f)
  }

  lemma QuotientPositive(x: real, t: real)
    requires t > 0.0
    ensures x > 0.0 ==> x / t > 0.0
  {
  }

  function TrapezoidStop(speed: real, a: real): real
    requires a > 0.0
  {
    speed * speed / (2.0 * a)
  }

  /** The acceleration is reversed first, while the speed still rises to a peak. */
  function ScurveStop(speed: real, a0: real, a: real, jerk: real): real
    requires a > 0.0 && jerk > 0.0
  {
    ProductSign(jerk, jerk);
    var peak := speed + a0 * a0 / (2.0 * jerk);
    speed * a0 / jerk + a0 * a0 * a0 / (3.0 * jerk * jerk) + peak * peak / (2.0 * a) + peak * a / (2.0 * jerk)
  }

  /** The room a joint at `speed` and acceleration `a0` takes to stop under a ramp. */
  function StoppingDistance(profile: Profile, speed: real, a0: real, a: real, jerk: real): real
    requires a > 0.0 && jerk > 0.0
  {
    match profile
    case Trapezoid => TrapezoidStop(speed, a)
    case Scurve => ScurveStop(speed, a0, a, jerk)
  }

  /** Travel left toward the soft limit on the side of `sgn`. */
  function Remaining(lim: Limits, sgn: real, q: real): real {
    if sgn > 0.0 then lim.softMax - q else q - lim.softMin
  }

  /** Where this tick's ramp would leave speed and acceleration along the motion. */
  function NextSpeed(ramp: Ramp, a: real, jerk: real, speed: real, a0: real, wanted: real): (real, real) {
    if speed < wanted then
      match ramp.profile
      case Trapezoid => (Min(speed + PerTick(a, ramp.dt), wanted), 0.0)
      case Scurve =>
        var a1 := Min(a0 + PerTick(jerk, ramp.dt), a);
        (Min(speed + PerTick(a1, ramp.dt), wanted), a1)
    else (speed, a0)
  }

  /** Whether the stop that must fit before the next check would not. */
  predicate Trips(lim: Limits, ramp: Ramp, s: Joint, qm: real, a: real, jerk: real, vT: real, sgn: real)
    requires a > 0.0 && jerk > 0.0
  {
    var (speed, a0) := NextSpeed(ramp, a, jerk, Abs(s.v), Max(s.acc * sgn, 0.0), Max(vT * sgn, 0.0));
    Margined(StoppingDistance(ramp.profile, speed, a0, a, jerk)) + PerTick(speed, ramp.dt) >= Remaining(lim, sgn, qm)
  }

  /** The latch after the lookahead along the motion, or along the command from rest. */
  function Lookahead(lim: Limits, ramp: Ramp, s: Joint, qm: real, a: real, jerk: real, vT: real): Option<Direction>
    requires a > 0.0 && jerk > 0.0
  {
    var probe := if s.v != 0.0 then s.v else vT;
    if probe != 0.0 && Trips(lim, ramp, s, qm, a, jerk, vT, Signum(probe)) then Some(FromSign(probe)) else s.blocked
  }

  function TrapezoidRamp(dt: real, a: real, v: real, vT: real): (real, real)
    requires a > 0.0 && dt > 0.0
  {
    PerTickSign(a, dt);
    var dv := Clamp(vT - v, -PerTick(a, dt), PerTick(a, dt));
    (v + dv, dv / dt)
  }

  /** Snap when close; otherwise ramp the acceleration, backing off once it alone would arrive. */
  function ScurveRamp(dt: real, a: real, jerk: real, v: real, acc: real, vT: real): (real, real)
    requires a > 0.0 && jerk > 0.0 && dt > 0.0
  {
    var err := vT - v;
    if Abs(err) <= PerTick(PerTick(jerk, dt), dt) && Abs(acc) <= 1.5 * PerTick(jerk, dt) then (vT, 0.0)
    else
      var backoff := acc * err > 0.0 && Abs(err) <= acc * acc / (2.0 * jerk);
      var wanted := if backoff then 0.0 else Signum(err) * a;
      PerTickSign(jerk, dt);
      var da := Clamp(wanted - acc, -PerTick(jerk, dt), PerTick(jerk, dt));
      var next := Clamp(acc + da, -a, a);
      (v + PerTick(next, dt), next)
  }

  /** One tick of the velocity ramp: the new velocity and acceleration. */
  function RampStep(ramp: Ramp, a: real, jerk: real, v: real, acc: real, vT: real): (real, real)
    requires a > 0.0 && jerk > 0.0 && ramp.dt > 0.0
  {
    match ramp.profile
    case Trapezoid => TrapezoidRamp(ramp.dt, a, v, vT)
    case Scurve => ScurveRamp(ramp.dt, a, jerk, v, acc, vT)
  }

  /** The target moves by one tick of velocity, and is held at a soft limit it would cross or was measured past. */
  function Integrate(lim: Limits, dt: real, s: Joint, v: real, acc: real, qm: real): Joint {
    var q := s.q + PerTick(v, dt);
    var t :=
      if v > 0.0 && q > lim.softMax && s.q <= lim.softMax then s.(q := lim.softMax, v := 0.0, acc := 0.0)
      else if v < 0.0 && q < lim.softMin && s.q >= lim.softMin then s.(q := lim.softMin, v := 0.0, acc := 0.0)
      else s.(q := q, v := v, acc := acc);
    if qm > lim.softMax && t.v > 0.0 then t.(v := 0.0, acc := 0.0, q := Min(t.q, lim.softMax))
    else if qm < lim.softMin && t.v < 0.0 then t.(v := 0.0, acc := 0.0, q := Max(t.q, lim.softMin))
    else t
  }

  /** The velocity the active command asks for. */
  function Commanded(lim: Limits, s: Joint): real {
    s.active * lim.velocity
  }

  /** One joint through one tick at measured position `qm`. */
  function TickJoint(lim: Limits, ramp: Ramp, s: Joint, qm: real): Joint
    requires lim.Valid() && ramp.Valid()
  {
    var (a, jerk) := RampRates(lim.velocity, lim.acceleration, ramp.accelTime, ramp.jerkFactor);
    var wanted := Commanded(lim, s);
    var blocked := Lookahead(lim, ramp, s, qm, a, jerk, wanted);
    var vT := if wanted != 0.0 && blocked == Some(FromSign(wanted)) then 0.0 else wanted;
    var (v, acc) := RampStep(ramp, a, jerk, s.v, s.acc, vT);
    Integrate(lim, ramp.dt, s.(blocked := blocked), v, acc, qm)
  }

  function ActivateJoint(q: real): Joint {
    Joint(0.0, false, 0.0, 0.0, q, None)
  }

  /** A command clears a latch by leaving the driven set or by driving the other way. */
  function CommandJoint(s: Joint, speed: real): Joint {
    var leaving := s.driven && speed == 0.0;
    var reversed := speed != 0.0 && s.blocked.Some? && s.blocked.value != FromSign(speed);
    s.(active := speed, driven := speed != 0.0, blocked := if leaving || reversed then None else s.blocked)
  }

  // ------------------------------------------------------------------ the engine

  datatype Engine = Engine(ramp: Ramp, joints: seq<Joint>, activated: bool)

  datatype Event =
    | Activate(measured: seq<real>)
    | Command(speeds: seq<real>)
    | Release
    | SetProfile(profile: Profile)
    | SetAccelTime(seconds: real)
    | SetJerkFactor(factor: real)
    | Tick(measured: seq<real>)

  predicate GoodSpeeds(speeds: seq<real>) {
    forall j | 0 <= j < |speeds| :: -1.0 <= speeds[j] <= 1.0
  }

  ghost predicate ValidEvent(ev: Event) {
    match ev
    case Activate(q) => |q| == NUM_JOINTS
    case Command(speeds) => |speeds| == NUM_JOINTS
    case Tick(q) => |q| == NUM_JOINTS
    case _ => true
  }

  ghost predicate ValidLimits(limits: seq<Limits>) {
    |limits| == NUM_JOINTS && forall j | 0 <= j < NUM_JOINTS :: limits[j].Valid()
  }

  ghost predicate ValidEngine(e: Engine) {
    |e.joints| == NUM_JOINTS && e.ramp.Valid()
  }

  ghost function Activated(e: Engine, q: seq<real>): Engine
    requires |q| == NUM_JOINTS
  {
    Engine(e.ramp, seq(NUM_JOINTS, j requires 0 <= j < NUM_JOINTS => ActivateJoint(q[j])), true)
  }

  /** What one event makes of the engine; a refused command or setting leaves it as it was. */
  ghost function Step(limits: seq<Limits>, e: Engine, ev: Event): (r: Engine)
    requires ValidLimits(limits) && ValidEngine(e) && ValidEvent(ev)
    ensures ValidEngine(r)
  {
    match ev
    case Activate(q) => Activated(e, q)
    case Command(speeds) =>
      if GoodSpeeds(speeds) then
        e.(joints := seq(NUM_JOINTS, j requires 0 <= j < NUM_JOINTS => CommandJoint(e.joints[j], speeds[j])))
      else e
    case Release => e.(joints := seq(NUM_JOINTS, j requires 0 <= j < NUM_JOINTS => e.joints[j].(active := 0.0)))
    case SetProfile(p) => e.(ramp := e.ramp.(profile := p))
    case SetAccelTime(t) => if t > 0.0 then e.(ramp := e.ramp.(accelTime := Max(t, MIN_ACCEL_TIME))) else e
    case SetJerkFactor(f) => if f > 0.0 then e.(ramp := e.ramp.(jerkFactor := Max(f, MIN_JERK_FACTOR))) else e
    case Tick(q) =>
      var s := if e.activated then e else Activated(e, q);
      s.(joints := seq(NUM_JOINTS, j requires 0 <= j < NUM_JOINTS => TickJoint(limits[j], s.ramp, s.joints[j], q[j])))
  }

  ghost predicate ValidEvents(events: seq<Event>) {
    forall k | 0 <= k < |events| :: ValidEvent(events[k])
  }

  ghost function Run(limits: seq<Limits>, e: Engine, events: seq<Event>): (r: Engine)
    requires ValidLimits(limits) && ValidEngine(e) && ValidEvents(events)
    ensures ValidEngine(r)
    decreases |events|
  {
    if events == [] then e
    else Step(limits, Run(limits, e, events[..|events| - 1]), events[|events| - 1])
  }

  /** An engine as built: floored settings, everything at zero, not yet activated. */
  ghost predicate Fresh(e: Engine) {
    && ValidEngine(e) && !e.activated
    && forall j | 0 <= j < NUM_JOINTS :: e.joints[j] == ActivateJoint(0.0)
  }

  // --------------------------------------------------------------- the soft window

  /** Whatever the profile and the measurement, a target inside the window stays inside. */
  lemma TickKeepsWindow(lim: Limits, ramp: Ramp, s: Joint, qm: real)
    requires lim.Valid() && ramp.Valid() && lim.Admits(s.q)
    ensures lim.Admits(TickJoint(lim, ramp, s, qm).q)
  {
    var (a, jerk) := RampRates(lim.velocity, lim.acceleration, ramp.accelTime, ramp.jerkFactor);
    var wanted := Commanded(lim, s);
    var blocked := Lookahead(lim, ramp, s, qm, a, jerk, wanted);
    var vT := if wanted != 0.0 && blocked == Some(FromSign(wanted)) then 0.0 else wanted;
    var (v, acc) := RampStep(ramp, a, jerk, s.v, s.acc, vT);
    IntegrateKeepsWindow(lim, ramp.dt, s.(blocked := blocked), v, acc, qm);
  }

  lemma IntegrateKeepsWindow(lim: Limits, dt: real, s: Joint, v: real, acc: real, qm: real)
    requires lim.Valid() && dt > 0.0 && lim.Admits(s.q)
    ensures lim.Admits(Integrate(lim, dt, s, v, acc, qm).q)
  {
    PerTickSign(v, dt);
  }

  /** Every pose the engine is synchronised to lies inside the window. */
  ghost predicate SyncsInside(limits: seq<Limits>, e: Engine, ev: Event)
    requires ValidLimits(limits) && ValidEvent(ev)
  {
    match ev
    case Activate(q) => forall j | 0 <= j < NUM_JOINTS :: limits[j].Admits(q[j])
    case Tick(q) => !e.activated ==> forall j | 0 <= j < NUM_JOINTS :: limits[j].Admits(q[j])
    case _ => true
  }

  ghost predicate RunSyncsInside(limits: seq<Limits>, e: Engine, events: seq<Event>)
    requires ValidLimits(limits) && ValidEngine(e) && ValidEvents(events)
  {
    forall k | 0 <= k < |events| :: SyncsInside(limits, Run(limits, e, events[..k]), events[k])
  }

  lemma PrefixSyncsInside(limits: seq<Limits>, e: Engine, events: seq<Event>)
    requires ValidLimits(limits) && ValidEngine(e) && ValidEvents(events) && events != []
    requires RunSyncsInside(limits, e, events)
    ensures RunSyncsInside(limits, e, events[..|events| - 1])
  {
    var init := events[..|events| - 1];
    forall k | 0 <= k < |init| ensures SyncsInside(limits, Run(limits, e, init[..k]), init[k]) {
      assert init[..k] == events[..k];
    }
  }

  /** Over any run synchronised inside the window, no target ever leaves it. */
  lemma {:induction false} RunKeepsWindow(limits: seq<Limits>, e: Engine, events: seq<Event>)
    requires ValidLimits(limits) && Fresh(e) && ValidEvents(events) && RunSyncsInside(limits, e, events)
    ensures var r := Run(limits, e, events);
            r.activated ==> forall j | 0 <= j < NUM_JOINTS :: limits[j].Admits(r.joints[j].q)
    decreases |events|
  {
    if events != [] {
      var init, ev := events[..|events| - 1], events[|events| - 1];
      PrefixSyncsInside(limits, e, events);
      RunKeepsWindow(limits, e, init);
      var s := Run(limits, e, init);
      assert events[..|events| - 1] == init && SyncsInside(limits, s, ev);
      if ev.Tick? {
        var t := if s.activated then s else Activated(s, ev.measured);
        forall j | 0 <= j < NUM_JOINTS {
          TickKeepsWindow(limits[j], t.ramp, t.joints[j], ev.measured[j]);
        }
      }
    }
  }

  // ------------------------------------------------------------------- braking

  /** The travel of a stop from `v` that sheds `d` of velocity each tick of `dt`. */
  ghost function BrakeTravel(v: real, d: real, dt: real): real
    requires d > 0.0
    decreases v / d
  {
    if v <= d then 0.0
    else
      OneTickLess(v, d);
      PerTick(v - d, dt) + BrakeTravel(v - d, d, dt)
  }

  lemma OneTickLess(v: real, d: real)
    requires d > 0.0
    ensures (v - d) / d == v / d - 1.0
    ensures v > d ==> v / d > 1.0
  {
    var x := v / d;
    assert x * d == v;
    assert (x - 1.0) * d == v - d;
    QuotientIs(v - d, d, x - 1.0);
  }

  lemma QuotientIs(y: real, d: real, z: real)
    requires d > 0.0 && y == z * d
    ensures y / d == z
  {
  }

  /** The discrete stop never exceeds the continuous one the lookahead computes. */
  lemma {:induction false} StopCovers(v: real, a: real, d: real, dt: real)
    requires a > 0.0 && dt > 0.0 && d == PerTick(a, dt) && d > 0.0
    ensures BrakeTravel(v, d, dt) >= 0.0
    ensures 2.0 * a * BrakeTravel(v, d, dt) <= v * v
    decreases v / d
  {
    if v > d {
      OneTickLess(v, d);
      StopCovers(v - d, a, d, dt);
      var rest := BrakeTravel(v - d, d, dt);
      var u := v - d;
      ProductSign(u, dt);
      assert 2.0 * a * (u * dt + rest) == 2.0 * (a * dt) * u + 2.0 * a * rest;
      assert 2.0 * d * u + u * u == v * v - d * d;
      assert d * d >= 0.0;
    }
  }

  lemma {:induction false} BrakeTravelMonotone(v: real, w: real, d: real, dt: real)
    requires d > 0.0 && dt > 0.0 && v <= w
    ensures BrakeTravel(v, d, dt) <= BrakeTravel(w, d, dt)
    ensures BrakeTravel(v, d, dt) >= 0.0
    decreases w / d
  {
    hide PerTick;
    if w > d {
      OneTickLess(w, d);
      BrakeTravelMonotone(v - d, w - d, d, dt);
      PerTickMonotone(v - d, w - d, dt);
      PerTickSign(v - d, dt);
      PerTickSign(w - d, dt);
    }
  }

  ghost function Deceleration(lim: Limits, ramp: Ramp): real {
    RampRates(lim.velocity, lim.acceleration, ramp.accelTime, ramp.jerkFactor).0
  }

  /** The velocity one tick of the trapezoid ramp can change. */
  ghost function TickStep(lim: Limits, ramp: Ramp): real {
    PerTick(Deceleration(lim, ramp), ramp.dt)
  }

  /** The target is inside, no faster than its limit, and a full stop from here ends inside. */
  ghost predicate Braked(lim: Limits, ramp: Ramp, s: Joint)
    requires lim.Valid() && ramp.Valid()
  {
    var d := TickStep(lim, ramp);
    && d > 0.0
    && lim.Admits(s.q)
    && -lim.velocity <= s.v <= lim.velocity
    && -1.0 <= s.active <= 1.0
    && s.q + BrakeTravel(s.v, d, ramp.dt) <= lim.softMax
    && s.q - BrakeTravel(-s.v, d, ramp.dt) >= lim.softMin
  }

  /** Slowing by a full step leaves room for the rest of the stop. */
  lemma BrakeStep(d: real, dt: real, u: real, w: real, room: real)
    requires d > 0.0 && dt > 0.0 && room >= BrakeTravel(u, d, dt)
    requires 0.0 < w <= u - d
    ensures room - PerTick(w, dt) >= BrakeTravel(w, d, dt)
  {
    hide PerTick;
    BrakeTravelMonotone(w, u - d, d, dt);
    PerTickMonotone(w, u - d, dt);
  }

  /** Driving on while the lookahead does not trip leaves room for the stop from the new speed. */
  lemma DriveStep(a: real, d: real, dt: real, speed: real, w: real, room: real)
    requires a > 0.0 && d == PerTick(a, dt) && d > 0.0 && dt > 0.0 && 0.0 < w <= speed
    requires Margined(TrapezoidStop(speed, a)) + PerTick(speed, dt) < room
    ensures room - PerTick(w, dt) >= BrakeTravel(w, d, dt)
  {
    hide PerTick, BrakeTravel;
    var square, brake := speed * speed, BrakeTravel(speed, d, dt);
    StopCovers(speed, a, d, dt);
    Quotients(square, 2.0 * a, TrapezoidStop(speed, a), brake);
    BrakeTravelMonotone(w, speed, d, dt);
    PerTickMonotone(w, speed, dt);
  }

  lemma Quotients(y: real, c: real, stop: real, b: real)
    requires c > 0.0 && stop == y / c && 0.0 <= b && c * b <= y
    ensures b <= stop
  {
    assert stop * c == y;
    assert (b - stop) * c == b * c - stop * c;
    if b > stop {
      QuotientPositive(b - stop, c);
      ProductSign(b - stop, c);
    }
  }

  /** The trapezoid ramp moves toward its target by at most one step, and never past it. */
  lemma TrapezoidStep(dt: real, a: real, v: real, vT: real)
    requires dt > 0.0 && a > 0.0
    ensures var d, r := PerTick(a, dt), TrapezoidRamp(dt, a, v, vT).0;
            && d > 0.0 && -d <= r - v <= d && Min(v, vT) <= r <= Max(v, vT)
            && (vT >= v + d ==> r == v + d) && (vT <= v - d ==> r == v - d) && (v - d <= vT <= v + d ==> r == vT)
  {
    hide PerTick;
    PerTickSign(a, dt);
  }

  /** What the ramp and the lookahead together promise the integration. */
  ghost predicate Safe(lim: Limits, s: Joint, v: real, d: real, dt: real)
    requires d > 0.0
  {
    && -d <= v - s.v <= d
    && -lim.velocity <= v <= lim.velocity
    && (v > 0.0 && s.v >= 0.0 ==> lim.softMax - s.q - PerTick(v, dt) >= BrakeTravel(v, d, dt))
    && (v < 0.0 && s.v <= 0.0 ==> s.q - lim.softMin - PerTick(-v, dt) >= BrakeTravel(-v, d, dt))
  }

  /** Speed and target along the motion: toward `sgn`, which is one or minus one. */
  function Along(x: real, sgn: real): real {
    if sgn > 0.0 then x else -x
  }

  lemma SideIsSafe(lim: Limits, ramp: Ramp, s: Joint, a: real, jerk: real, vT: real, sgn: real, d: real)
    requires lim.Valid() && ramp.Valid() && ramp.profile.Trapezoid? && a > 0.0 && jerk > 0.0
    requires sgn == 1.0 || sgn == -1.0
    requires d == PerTick(a, ramp.dt) && d > 0.0 && Along(s.v, sgn) >= 0.0
    requires Remaining(lim, sgn, s.q) >= BrakeTravel(Along(s.v, sgn), d, ramp.dt)
    requires Along(vT, sgn) > 0.0 ==> !Trips(lim, ramp, s, s.q, a, jerk, vT, sgn)
    ensures var w := Along(TrapezoidRamp(ramp.dt, a, s.v, vT).0, sgn);
            w > 0.0 ==> Remaining(lim, sgn, s.q) - PerTick(w, ramp.dt) >= BrakeTravel(w, d, ramp.dt)
  {
    hide BrakeTravel, TrapezoidStop, ScurveStop, PerTick, Remaining, Margined, TrapezoidRamp;
    var w := Along(TrapezoidRamp(ramp.dt, a, s.v, vT).0, sgn);
    TrapezoidStep(ramp.dt, a, s.v, vT);
    if w > 0.0 {
      if Along(vT, sgn) > 0.0 {
        var speed := NextSpeed(ramp, a, jerk, Abs(s.v), Max(s.acc * sgn, 0.0), Max(vT * sgn, 0.0)).0;
        DriveStep(a, d, ramp.dt, speed, w, Remaining(lim, sgn, s.q));
      } else {
        BrakeStep(d, ramp.dt, Along(s.v, sgn), w, Remaining(lim, sgn, s.q));
      }
    }
  }

  lemma RampIsSafe(lim: Limits, ramp: Ramp, s: Joint, a: real, jerk: real, wanted: real, vT: real, d: real)
    requires lim.Valid() && ramp.Valid() && ramp.profile.Trapezoid? && a > 0.0 && jerk > 0.0
    requires Braked(lim, ramp, s) && d == PerTick(a, ramp.dt) && d == TickStep(lim, ramp)
    requires -lim.velocity <= wanted <= lim.velocity
    requires var blocked := Lookahead(lim, ramp, s, s.q, a, jerk, wanted);
             vT == if wanted != 0.0 && blocked == Some(FromSign(wanted)) then 0.0 else wanted
    ensures Safe(lim, s, TrapezoidRamp(ramp.dt, a, s.v, vT).0, d, ramp.dt)
  {
    hide BrakeTravel, PerTick, Trips, TrapezoidRamp, RampRates;
    TrapezoidStep(ramp.dt, a, s.v, vT);
    if s.v >= 0.0 {
      SideIsSafe(lim, ramp, s, a, jerk, vT, 1.0, d);
    }
    if s.v <= 0.0 {
      SideIsSafe(lim, ramp, s, a, jerk, vT, -1.0, d);
    }
  }

  /** A safe step needs no clamp, except for a reversal within one step of rest. */
  lemma SafeIntegrates(lim: Limits, ramp: Ramp, s: Joint, latch: Option<Direction>, v: real, acc: real, d: real)
    requires lim.Valid() && ramp.Valid() && d > 0.0 && d == TickStep(lim, ramp)
    requires Braked(lim, ramp, s) && Safe(lim, s, v, d, ramp.dt)
    ensures var t := Integrate(lim, ramp.dt, s.(blocked := latch), v, acc, s.q);
            Braked(lim, ramp, t) && -d <= t.v - s.v <= d
  {
    hide PerTick, RampRates;
    PerTickSign(v, ramp.dt);
    BrakeTravelMonotone(0.0, Abs(v), d, ramp.dt);
    assert v >= 0.0 ==> BrakeTravel(-v, d, ramp.dt) == 0.0;
    assert v <= 0.0 ==> BrakeTravel(v, d, ramp.dt) == 0.0;
  }

  /** With the measurement following the target, a tick keeps the stop inside and the ramp's step. */
  lemma TickBrakes(lim: Limits, ramp: Ramp, s: Joint)
    requires lim.Valid() && ramp.Valid() && ramp.profile.Trapezoid?
    requires Braked(lim, ramp, s)
    ensures var t := TickJoint(lim, ramp, s, s.q);
            Braked(lim, ramp, t) && Abs(t.v - s.v) <= TickStep(lim, ramp)
  {
    hide BrakeTravel, PerTick, Trips, TrapezoidRamp, ScurveRamp, Safe, Commanded;
    var (a, jerk) := RampRates(lim.velocity, lim.acceleration, ramp.accelTime, ramp.jerkFactor);
    var wanted := Commanded(lim, s);
    CommandWithinLimit(lim, s);
    var blocked := Lookahead(lim, ramp, s, s.q, a, jerk, wanted);
    var vT := if wanted != 0.0 && blocked == Some(FromSign(wanted)) then 0.0 else wanted;
    var (v, acc) := RampStep(ramp, a, jerk, s.v, s.acc, vT);
    RampIsSafe(lim, ramp, s, a, jerk, wanted, vT, TickStep(lim, ramp));
    SafeIntegrates(lim, ramp, s, blocked, v, acc, TickStep(lim, ramp));
  }

  /** The velocity and acceleration the ramp arrives at, before any clamp. */
  ghost function Ramped(lim: Limits, ramp: Ramp, s: Joint, qm: real): (real, real)
    requires lim.Valid() && ramp.Valid()
  {
    var (a, jerk) := RampRates(lim.velocity, lim.acceleration, ramp.accelTime, ramp.jerkFactor);
    var wanted := Commanded(lim, s);
    var blocked := Lookahead(lim, ramp, s, qm, a, jerk, wanted);
    RampStep(ramp, a, jerk, s.v, s.acc, if wanted != 0.0 && blocked == Some(FromSign(wanted)) then 0.0 else wanted)
  }

  /** At ramped velocity `v` the target would cross a limit, or the joint is measured past it. */
  ghost predicate Clamps(lim: Limits, dt: real, q: real, qm: real, v: real) {
    || (v > 0.0 && (q <= lim.softMax < q + PerTick(v, dt) || qm > lim.softMax))
    || (v < 0.0 && (q + PerTick(v, dt) < lim.softMin <= q || qm < lim.softMin))
  }

  /** A clamp stops the joint dead, and nothing but a clamp changes the ramped velocity. */
  lemma IntegrateVelocity(lim: Limits, dt: real, s: Joint, v: real, acc: real, qm: real)
    ensures Integrate(lim, dt, s, v, acc, qm).v == if Clamps(lim, dt, s.q, qm, v) then 0.0 else v
    ensures !Clamps(lim, dt, s.q, qm, v) ==>
              Integrate(lim, dt, s, v, acc, qm) == s.(q := s.q + PerTick(v, dt), v := v, acc := acc)
  {
    hide PerTick;
  }

  /**
   Whatever the measurement, a trapezoid tick changes the velocity by no more than the ramp's
   step exactly when the joint was within one step of rest or no clamp acts.
   */
  lemma TickGradualExactly(lim: Limits, ramp: Ramp, s: Joint, qm: real)
    requires lim.Valid() && ramp.Valid() && ramp.profile.Trapezoid?
    ensures Abs(TickJoint(lim, ramp, s, qm).v - s.v) <= TickStep(lim, ramp) <==>
            Abs(s.v) <= TickStep(lim, ramp) || !Clamps(lim, ramp.dt, s.q, qm, Ramped(lim, ramp, s, qm).0)
  {
    hide PerTick, Trips, TrapezoidRamp, ScurveRamp, Commanded, Integrate, Clamps;
    var (a, jerk) := RampRates(lim.velocity, lim.acceleration, ramp.accelTime, ramp.jerkFactor);
    var wanted := Commanded(lim, s);
    var blocked := Lookahead(lim, ramp, s, qm, a, jerk, wanted);
    var vT := if wanted != 0.0 && blocked == Some(FromSign(wanted)) then 0.0 else wanted;
    var (v, acc) := Ramped(lim, ramp, s, qm);
    TrapezoidStep(ramp.dt, a, s.v, vT);
    IntegrateVelocity(lim, ramp.dt, s.(blocked := blocked), v, acc, qm);
  }

  lemma CommandWithinLimit(lim: Limits, s: Joint)
    requires -1.0 <= s.active <= 1.0 && lim.velocity > 0.0
    ensures -lim.velocity <= Commanded(lim, s) <= lim.velocity
  {
    var wanted := s.active * lim.velocity;
    ProductSign(1.0 - s.active, lim.velocity);
    ProductSign(1.0 + s.active, lim.velocity);
    assert (1.0 - s.active) * lim.velocity == lim.velocity - wanted;
    assert (1.0 + s.active) * lim.velocity == lim.velocity + wanted;
  }

  // ----------------------------------------------------------- braking over a run

  ghost predicate AllBraked(limits: seq<Limits>, e: Engine)
    requires ValidLimits(limits) && ValidEngine(e)
  {
    e.ramp.profile.Trapezoid? && forall j | 0 <= j < NUM_JOINTS :: Braked(limits[j], e.ramp, e.joints[j])
  }

  /**
   The measurement follows the target, synchronising happens inside the window, the profile
   stays a trapezoid, and no joint in motion is handed a ramp that brakes more softly.
   */
  ghost predicate Follows(limits: seq<Limits>, e: Engine, ev: Event)
    requires ValidLimits(limits) && ValidEngine(e) && ValidEvent(ev)
  {
    match ev
    case Tick(q) =>
      if e.activated then forall j | 0 <= j < NUM_JOINTS :: q[j] == e.joints[j].q else SyncsInside(limits, e, ev)
    case Activate(_) => SyncsInside(limits, e, ev)
    case SetProfile(p) => p.Trapezoid?
    case SetAccelTime(_) =>
      var r := Step(limits, e, ev);
      forall j | 0 <= j < NUM_JOINTS ::
        e.joints[j].v == 0.0 || Deceleration(limits[j], r.ramp) >= Deceleration(limits[j], e.ramp)
    case _ => true
  }

  ghost predicate RunFollows(limits: seq<Limits>, e: Engine, events: seq<Event>)
    requires ValidLimits(limits) && ValidEngine(e) && ValidEvents(events)
  {
    forall k | 0 <= k < |events| :: Follows(limits, Run(limits, e, events[..k]), events[k])
  }

  lemma RestBraked(lim: Limits, ramp: Ramp, s: Joint)
    requires lim.Valid() && ramp.Valid() && lim.Admits(s.q) && s.v == 0.0 && -1.0 <= s.active <= 1.0
    ensures Braked(lim, ramp, s)
  {
    PerTickSign(Deceleration(lim, ramp), ramp.dt);
  }

  lemma BrakeTravelRest(v: real, d: real, dt: real)
    requires 0.0 < d && v <= d
    ensures BrakeTravel(v, d, dt) == 0.0
  {
  }

  /** Braking harder never lengthens the stop. */
  lemma {:induction false} BrakeTravelAntitone(v: real, d: real, d': real, dt: real)
    requires 0.0 < d <= d' && dt > 0.0
    ensures BrakeTravel(v, d', dt) <= BrakeTravel(v, d, dt)
    decreases v / d'
  {
    hide PerTick;
    if v > d' {
      OneTickLess(v, d');
      BrakeTravelAntitone(v - d', d, d', dt);
      BrakeTravelMonotone(v - d', v - d, d, dt);
      PerTickMonotone(v - d', v - d, dt);
    } else {
      BrakeTravelMonotone(v, v, d, dt);
      BrakeTravelRest(v, d', dt);
    }
  }

  lemma HarderRampBrakes(lim: Limits, ramp: Ramp, ramp': Ramp, s: Joint)
    requires lim.Valid() && ramp.Valid() && ramp'.Valid() && ramp'.dt == ramp.dt
    requires Braked(lim, ramp, s)
    requires s.v == 0.0 || Deceleration(lim, ramp') >= Deceleration(lim, ramp)
    ensures Braked(lim, ramp', s)
  {
    if s.v == 0.0 {
      RestBraked(lim, ramp', s);
    } else {
      PerTickMonotone(Deceleration(lim, ramp), Deceleration(lim, ramp'), ramp.dt);
      BrakeTravelAntitone(s.v, TickStep(lim, ramp), TickStep(lim, ramp'), ramp.dt);
      BrakeTravelAntitone(-s.v, TickStep(lim, ramp), TickStep(lim, ramp'), ramp.dt);
    }
  }

  lemma ActivatedBraked(limits: seq<Limits>, e: Engine, q: seq<real>)
    requires ValidLimits(limits) && ValidEngine(e) && e.ramp.profile.Trapezoid? && |q| == NUM_JOINTS
    requires forall j | 0 <= j < NUM_JOINTS :: limits[j].Admits(q[j])
    ensures AllBraked(limits, Activated(e, q))
  {
    forall j | 0 <= j < NUM_JOINTS {
      RestBraked(limits[j], e.ramp, ActivateJoint(q[j]));
    }
  }

  /** No tick changes a velocity by more than its ramp step. */
  ghost predicate Gradual(limits: seq<Limits>, e: Engine, r: Engine)
    requires ValidLimits(limits) && ValidEngine(e) && ValidEngine(r)
  {
    forall j | 0 <= j < NUM_JOINTS :: Abs(r.joints[j].v - e.joints[j].v) <= TickStep(limits[j], e.ramp)
  }

  lemma StepBrakes(limits: seq<Limits>, e: Engine, ev: Event)
    requires ValidLimits(limits) && ValidEngine(e) && ValidEvent(ev) && e.ramp.profile.Trapezoid?
    requires e.activated ==> AllBraked(limits, e)
    requires Follows(limits, e, ev)
    ensures var r := Step(limits, e, ev);
            && r.ramp.profile.Trapezoid?
            && (r.activated ==> AllBraked(limits, r))
            && (e.activated && ev.Tick? ==> Gradual(limits, e, r))
  {
    hide BrakeTravel, TickJoint, RampRates, PerTick;
    var r := Step(limits, e, ev);
    match ev {
      case Tick(q) =>
        if !e.activated {
          ActivatedBraked(limits, e, q);
        }
        var s := if e.activated then e else Activated(e, q);
        forall j | 0 <= j < NUM_JOINTS
          ensures Braked(limits[j], r.ramp, r.joints[j])
          ensures Abs(r.joints[j].v - s.joints[j].v) <= TickStep(limits[j], s.ramp)
        {
          TickBrakes(limits[j], s.ramp, s.joints[j]);
        }
      case Activate(q) =>
        ActivatedBraked(limits, e, q);
      case Command(speeds) =>
      case Release =>
      case SetProfile(_) =>
        SettingsBraked(limits, e, r);
      case SetAccelTime(_) =>
        SettingsBraked(limits, e, r);
      case SetJerkFactor(_) =>
        forall j | 0 <= j < NUM_JOINTS {
          JerkKeepsDeceleration(limits[j], e.ramp, r.ramp);
        }
        SettingsBraked(limits, e, r);
    }
  }

  lemma JerkKeepsDeceleration(lim: Limits, ramp: Ramp, ramp': Ramp)
    requires ramp'.accelTime == ramp.accelTime
    ensures Deceleration(lim, ramp') == Deceleration(lim, ramp)
  {
  }

  lemma SettingsBraked(limits: seq<Limits>, e: Engine, r: Engine)
    requires ValidLimits(limits) && ValidEngine(e) && ValidEngine(r)
    requires e.activated ==> AllBraked(limits, e)
    requires r == e.(ramp := r.ramp) && r.ramp.dt == e.ramp.dt && r.ramp.profile.Trapezoid?
    requires forall j | 0 <= j < NUM_JOINTS ::
               e.joints[j].v == 0.0 || Deceleration(limits[j], r.ramp) >= Deceleration(limits[j], e.ramp)
    ensures r.activated ==> AllBraked(limits, r)
  {
    if e.activated {
      forall j | 0 <= j < NUM_JOINTS {
        HarderRampBrakes(limits[j], e.ramp, r.ramp, e.joints[j]);
      }
    }
  }

  /**
   In every reachable state of a run that follows, the remaining travel covers the discrete
   stop, so every target stays inside its window; and no tick, clamps included, changes a
   velocity by more than the ramp's step.
   */
  lemma {:induction false} RunBrakes(limits: seq<Limits>, e: Engine, events: seq<Event>)
    requires ValidLimits(limits) && Fresh(e) && e.ramp.profile.Trapezoid?
    requires ValidEvents(events) && RunFollows(limits, e, events)
    ensures var r := Run(limits, e, events);
            r.ramp.profile.Trapezoid? && (r.activated ==> AllBraked(limits, r))
    ensures events != [] && events[|events| - 1].Tick? ==>
              var before := Run(limits, e, events[..|events| - 1]);
              before.activated ==> Gradual(limits, before, Run(limits, e, events))
    decreases |events|
  {
    if events != [] {
      var init, ev := events[..|events| - 1], events[|events| - 1];
      assert RunFollows(limits, e, init) by {
        forall k | 0 <= k < |init| ensures Follows(limits, Run(limits, e, init[..k]), init[k]) {
          assert init[..k] == events[..k];
        }
      }
      RunBrakes(limits, e, init);
      assert Follows(limits, Run(limits, e, events[..|events| - 1]), ev);
      StepBrakes(limits, Run(limits, e, init), ev);
    }
  }

  /** A joint carried across the limit in one tick is stopped dead. */
  lemma ClampStops(lim: Limits, ramp: Ramp, s: Joint, v: real, acc: real, qm: real)
    requires lim.Valid() && ramp.Valid() && v > 0.0
    requires s.q <= lim.softMax < s.q + PerTick(v, ramp.dt)
    ensures Integrate(lim, ramp.dt, s, v, acc, qm).v == 0.0
  {
    hide PerTick;
  }

  /** Over a whole tick: every joint was within one step of rest or escapes its clamps. */
  lemma GradualExactly(limits: seq<Limits>, e: Engine, q: seq<real>)
    requires ValidLimits(limits) && ValidEngine(e) && e.ramp.profile.Trapezoid? && e.activated && |q| == NUM_JOINTS
    ensures Gradual(limits, e, Step(limits, e, Tick(q))) <==>
            forall j | 0 <= j < NUM_JOINTS :: GradualAt(limits[j], e.ramp, e.joints[j], q[j])
  {
    hide TickJoint, Ramped, Clamps, TickStep;
    var r := Step(limits, e, Tick(q));
    forall j | 0 <= j < NUM_JOINTS
      ensures Abs(r.joints[j].v - e.joints[j].v) <= TickStep(limits[j], e.ramp) <==>
              GradualAt(limits[j], e.ramp, e.joints[j], q[j])
    {
      TickGradualExactly(limits[j], e.ramp, e.joints[j], q[j]);
    }
  }

  ghost predicate GradualAt(lim: Limits, ramp: Ramp, s: Joint, qm: real)
    requires lim.Valid() && ramp.Valid()
  {
    Abs(s.v) <= TickStep(lim, ramp) || !Clamps(lim, ramp.dt, s.q, qm, Ramped(lim, ramp, s, qm).0)
  }

  // ------------------------------------------------- runs that break the velocity bound

  function Same<T>(x: T): seq<T> {
    seq(NUM_JOINTS, _ => x)
  }

  lemma RunNext(limits: seq<Limits>, e: Engine, events: seq<Event>, ev: Event)
    requires ValidLimits(limits) && ValidEngine(e) && ValidEvents(events) && ValidEvent(ev)
    ensures ValidEvents(events + [ev])
    ensures Run(limits, e, events + [ev]) == Step(limits, Run(limits, e, events), ev)
  {
    assert (events + [ev])[..|events|] == events;
  }

  /** What happens alike to every joint. */
  datatype Act = Sync(q: real) | Ask(speed: real) | Turn(measured: real)

  function EventOf(act: Act): Event {
    match act
    case Sync(q) => Activate(Same(q))
    case Ask(speed) => Command(Same(speed))
    case Turn(measured) => Tick(Same(measured))
  }

  function Acts(acts: seq<Act>): seq<Event> {
    seq(|acts|, k requires 0 <= k < |acts| => EventOf(acts[k]))
  }

  ghost function ActOn(lim: Limits, ramp: Ramp, s: Joint, act: Act): Joint
    requires lim.Valid() && ramp.Valid()
  {
    match act
    case Sync(q) => ActivateJoint(q)
    case Ask(speed) => if -1.0 <= speed <= 1.0 then CommandJoint(s, speed) else s
    case Turn(measured) => TickJoint(lim, ramp, s, measured)
  }

  /** One joint through what happens alike to all. */
  ghost function JointRun(lim: Limits, ramp: Ramp, acts: seq<Act>): Joint
    requires lim.Valid() && ramp.Valid()
  {
    if acts == [] then ActivateJoint(0.0)
    else ActOn(lim, ramp, JointRun(lim, ramp, acts[..|acts| - 1]), acts[|acts| - 1])
  }

  /** Joints alike that are treated alike stay alike. */
  lemma {:induction false} AlikeRun(limits: seq<Limits>, lim: Limits, e: Engine, acts: seq<Act>)
    requires lim.Valid() && limits == Same(lim) && Fresh(e) && (acts != [] ==> acts[0].Sync?)
    ensures ValidLimits(limits) && ValidEvents(Acts(acts))
    ensures Run(limits, e, Acts(acts)) == Engine(e.ramp, Same(JointRun(lim, e.ramp, acts)), acts != [])
    decreases |acts|
  {
    hide TickJoint, CommandJoint;
    if acts == [] {
      assert e.joints == Same(ActivateJoint(0.0));
    } else {
      var init, act := acts[..|acts| - 1], acts[|acts| - 1];
      AlikeRun(limits, lim, e, init);
      var before := Run(limits, e, Acts(init));
      assert Acts(acts)[..|acts| - 1] == Acts(init) && Acts(acts)[|acts| - 1] == EventOf(act);
      var after := Step(limits, before, EventOf(act));
      assert after.joints == Same(ActOn(lim, e.ramp, JointRun(lim, e.ramp, init), act));
    }
  }

  lemma NextAct(lim: Limits, ramp: Ramp, acts: seq<Act>, act: Act)
    requires lim.Valid() && ramp.Valid()
    ensures JointRun(lim, ramp, acts + [act]) == ActOn(lim, ramp, JointRun(lim, ramp, acts), act)
  {
    assert (acts + [act])[..|acts|] == acts;
  }

  /** A tick forward that neither trips the lookahead nor a clamp. */
  lemma FreeTick(lim: Limits, ramp: Ramp, s: Joint, qm: real, a: real, jerk: real, wanted: real, v: real)
    requires lim.Valid() && ramp.Valid() && ramp.profile.Trapezoid? && s.blocked == None
    requires RampRates(lim.velocity, lim.acceleration, ramp.accelTime, ramp.jerkFactor) == (a, jerk)
    requires a > 0.0 && jerk > 0.0 && Commanded(lim, s) == wanted && wanted > 0.0 && s.v >= 0.0
    requires !Trips(lim, ramp, s, qm, a, jerk, wanted, 1.0)
    requires v == TrapezoidRamp(ramp.dt, a, s.v, wanted).0
    ensures Ramped(lim, ramp, s, qm).0 == v
    ensures !Clamps(lim, ramp.dt, s.q, qm, v) ==>
              var t := TickJoint(lim, ramp, s, qm);
              t == s.(q := s.q + PerTick(v, ramp.dt), v := v, acc := t.acc)
  {
    hide PerTick, Trips, TrapezoidRamp, ScurveRamp, Commanded, Integrate, Clamps, RampRates;
    IntegrateVelocity(lim, ramp.dt, s, v, TrapezoidRamp(ramp.dt, a, s.v, wanted).1, qm);
  }

  const LONG_AXIS := Limits(1.0, 10.0, 0.0, 20.0)

  /** Toward the soft limit, then faster, while the measurement still reads zero. */
  function LagActs(): seq<Act> {
    [] + [Sync(19.94)] + [Ask(0.3)] + [Turn(0.0)] + [Turn(0.0)] + [Ask(1.0)]
  }

  lemma LagNumbers()
    ensures RampRates(1.0, 10.0, 0.5, 3.0) == (2.0, 6.0)
    ensures PerTick(2.0, 0.1) == 0.2 && PerTick(0.2, 0.1) == 0.02
    ensures PerTick(0.3, 0.1) == 0.03 && PerTick(0.5, 0.1) == 0.05
    ensures Margined(TrapezoidStop(0.2, 2.0)) == 0.015 && Margined(TrapezoidStop(0.3, 2.0)) == 0.03375
    ensures Margined(TrapezoidStop(0.5, 2.0)) == 0.09375
    ensures BrakeTravel(0.3, 0.2, 0.1) == 0.01 && BrakeTravel(-0.3, 0.2, 0.1) == 0.0
  {
  }

  lemma AsksFor(lim: Limits, s: Joint)
    requires lim.velocity == 1.0
    ensures Commanded(lim, s) == s.active
  {
  }

  /** Where that run stands: at 0.3 of full speed a hundredth short of the limit. */
  lemma LagJoint(ramp: Ramp) returns (s: Joint)
    requires ramp == Ramp(0.1, Trapezoid, 0.5, 3.0)
    ensures s == JointRun(LONG_AXIS, ramp, LagActs())
    ensures s == Joint(1.0, true, 0.3, s.acc, 19.99, None)
  {
    hide PerTick, TrapezoidStop, ScurveStop, Margined, TrapezoidRamp, ScurveRamp, Commanded, BrakeTravel, RampRates,
      TickJoint, JointRun, Clamps;
    var lim := LONG_AXIS;
    LagNumbers();
    var acts: seq<Act> := [];
    NextAct(lim, ramp, acts, Sync(19.94));
    NextAct(lim, ramp, acts + [Sync(19.94)], Ask(0.3));
    acts := acts + [Sync(19.94)] + [Ask(0.3)];
    s := CommandJoint(ActivateJoint(19.94), 0.3);
    assert JointRun(lim, ramp, acts) == s;
    NextAct(lim, ramp, acts, Turn(0.0));
    LagTick(ramp, s, 0.2);
    acts, s := acts + [Turn(0.0)], TickJoint(lim, ramp, s, 0.0);
    NextAct(lim, ramp, acts, Turn(0.0));
    LagTick(ramp, s, 0.3);
    acts, s := acts + [Turn(0.0)], TickJoint(lim, ramp, s, 0.0);
    NextAct(lim, ramp, acts, Ask(1.0));
    s := CommandJoint(s, 1.0);
  }

  /** The ramp's way up to 0.3. */
  lemma LagTick(ramp: Ramp, s: Joint, v: real)
    requires ramp == Ramp(0.1, Trapezoid, 0.5, 3.0) && s == Joint(0.3, true, s.v, s.acc, s.q, None)
    requires (s.v == 0.0 && v == 0.2 && s.q == 19.94) || (s.v == 0.2 && v == 0.3 && s.q == 19.96)
    ensures var t := TickJoint(LONG_AXIS, ramp, s, 0.0);
            t == s.(v := v, acc := t.acc, q := if v == 0.2 then 19.96 else 19.99)
  {
    hide PerTick, TrapezoidStop, ScurveStop, Margined, TrapezoidRamp, ScurveRamp, Commanded, BrakeTravel, RampRates;
    LagNumbers();
    AsksFor(LONG_AXIS, s);
    TrapezoidStep(0.1, 2.0, s.v, 0.3);
    FreeTick(LONG_AXIS, ramp, s, 0.0, 2.0, 6.0, 0.3, v);
  }

  /** The tick that follows leaves the ramp at 0.5, which the clamp stops dead. */
  lemma LagJump(ramp: Ramp, s: Joint)
    requires ramp == Ramp(0.1, Trapezoid, 0.5, 3.0) && s == Joint(1.0, true, 0.3, s.acc, 19.99, None)
    ensures Braked(LONG_AXIS, ramp, s) && !GradualAt(LONG_AXIS, ramp, s, 0.0)
  {
    hide PerTick, TrapezoidStop, ScurveStop, Margined, TrapezoidRamp, ScurveRamp, Commanded, BrakeTravel, RampRates;
    LagNumbers();
    AsksFor(LONG_AXIS, s);
    TrapezoidStep(0.1, 2.0, 0.3, 1.0);
    FreeTick(LONG_AXIS, ramp, s, 0.0, 2.0, 6.0, 1.0, 0.5);
  }

  /**
   A measurement that lags hides the limit from the lookahead: a run reaches a state with room
   to stop from which the next tick jumps.
   */
  lemma LagCanJump(limits: seq<Limits>, e: Engine)
    requires limits == Same(LONG_AXIS) && Fresh(e) && e.ramp == Ramp(0.1, Trapezoid, 0.5, 3.0)
    ensures ValidLimits(limits) && ValidEvents(Acts(LagActs()))
    ensures var before := Run(limits, e, Acts(LagActs()));
            && before.activated && AllBraked(limits, before)
            && !Gradual(limits, before, Step(limits, before, Tick(Same(0.0))))
  {
    hide JointRun, Braked, GradualAt, Run, Gradual;
    AlikeRun(limits, LONG_AXIS, e, LagActs());
    var s := LagJoint(e.ramp);
    LagJump(e.ramp, s);
    var before := Run(limits, e, Acts(LagActs()));
    GradualExactly(limits, before, Same(0.0));
    assert !GradualAt(limits[0], e.ramp, before.joints[0], Same(0.0)[0]);
  }

  lemma SofterNumbers()
    ensures RampRates(1.0, 10.0, 0.1, 3.0) == (10.0, 30.0) && RampRates(1.0, 10.0, 10.0, 3.0) == (0.1, 0.3)
    ensures PerTick(10.0, 0.1) == 1.0 && PerTick(1.0, 0.1) == 0.1 && PerTick(0.1, 0.1) == 0.01
    ensures PerTick(0.99, 0.1) == 0.099 && Margined(TrapezoidStop(1.0, 10.0)) == 0.075
    ensures BrakeTravel(1.0, 1.0, 0.1) == 0.0 && BrakeTravel(-1.0, 1.0, 0.1) == 0.0
  {
  }

  /** One tick at full acceleration, the measurement following. */
  function SofterActs(): seq<Act> {
    [] + [Sync(19.82)] + [Ask(1.0)] + [Turn(19.82)]
  }

  lemma SofterJoint(ramp: Ramp) returns (s: Joint)
    requires ramp == Ramp(0.1, Trapezoid, 0.1, 3.0)
    ensures s == JointRun(LONG_AXIS, ramp, SofterActs())
    ensures s == Joint(1.0, true, 1.0, s.acc, 19.92, None)
  {
    hide PerTick, TrapezoidStop, ScurveStop, Margined, TrapezoidRamp, ScurveRamp, Commanded, BrakeTravel, RampRates,
      JointRun;
    var lim := LONG_AXIS;
    SofterNumbers();
    var acts: seq<Act> := [];
    NextAct(lim, ramp, acts, Sync(19.82));
    NextAct(lim, ramp, acts + [Sync(19.82)], Ask(1.0));
    acts := acts + [Sync(19.82)] + [Ask(1.0)];
    s := CommandJoint(ActivateJoint(19.82), 1.0);
    NextAct(lim, ramp, acts, Turn(19.82));
    AsksFor(lim, s);
    TrapezoidStep(0.1, 10.0, 0.0, 1.0);
    FreeTick(lim, ramp, s, 19.82, 10.0, 30.0, 1.0, 1.0);
    s := TickJoint(lim, ramp, s, 19.82);
  }

  lemma SofterJump(ramp: Ramp, softer: Ramp, s: Joint)
    requires ramp == Ramp(0.1, Trapezoid, 0.1, 3.0) && softer == ramp.(accelTime := 10.0)
    requires s == Joint(1.0, true, 1.0, s.acc, 19.92, None)
    ensures Braked(LONG_AXIS, ramp, s) && !GradualAt(LONG_AXIS, softer, s, s.q)
  {
    hide PerTick, TrapezoidStop, ScurveStop, Margined, TrapezoidRamp, ScurveRamp, Commanded, BrakeTravel, Trips,
      RampRates;
    SofterNumbers();
    AsksFor(LONG_AXIS, s);
    TrapezoidStep(0.1, 0.1, 1.0, 0.0);
    TrapezoidStep(0.1, 0.1, 1.0, 1.0);
    PerTickMonotone(0.99, 1.0, 0.1);
  }

  /** So does handing a joint in motion a ramp that brakes more softly, though the measurement follows. */
  lemma SofterRampCanJump(limits: seq<Limits>, e: Engine)
    requires limits == Same(LONG_AXIS) && Fresh(e) && e.ramp == Ramp(0.1, Trapezoid, 0.1, 3.0)
    ensures ValidLimits(limits) && ValidEvents(Acts(SofterActs()) + [SetAccelTime(10.0)])
    ensures var before := Run(limits, e, Acts(SofterActs()) + [SetAccelTime(10.0)]);
            && before.activated && AllBraked(limits, Run(limits, e, Acts(SofterActs())))
            && before.joints == Same(before.joints[0])
            && !Gradual(limits, before, Step(limits, before, Tick(Same(before.joints[0].q))))
  {
    hide JointRun, Braked, GradualAt, Run, Gradual;
    AlikeRun(limits, LONG_AXIS, e, SofterActs());
    RunNext(limits, e, Acts(SofterActs()), SetAccelTime(10.0));
    var s := SofterJoint(e.ramp);
    var before := Run(limits, e, Acts(SofterActs()) + [SetAccelTime(10.0)]);
    SofterJump(e.ramp, before.ramp, s);
    GradualExactly(limits, before, Same(s.q));
    assert !GradualAt(limits[0], before.ramp, before.joints[0], Same(s.q)[0]);
  }

  // -------------------------------------------------------------------- latches

  /** The joint moves, or from rest is asked to move, against its latch and could not stop in time. */
  ghost predicate OppositeLookahead(lim: Limits, ramp: Ramp, s: Joint, qm: real)
    requires lim.Valid() && ramp.Valid()
  {
    var (a, jerk) := RampRates(lim.velocity, lim.acceleration, ramp.accelTime, ramp.jerkFactor);
    var wanted := Commanded(lim, s);
    var probe := if s.v != 0.0 then s.v else wanted;
    && probe != 0.0 && s.blocked.Some? && FromSign(probe) != s.blocked.value
    && Trips(lim, ramp, s, qm, a, jerk, wanted, Signum(probe))
  }

  /**
   A latched block clears only when its joint leaves the driven set or is commanded the other
   way, when the engine is activated, or when a lookahead the other way replaces it.
   */
  lemma LatchClears(limits: seq<Limits>, e: Engine, ev: Event, j: int)
    requires ValidLimits(limits) && ValidEngine(e) && ValidEvent(ev) && 0 <= j < NUM_JOINTS
    requires e.joints[j].blocked.Some?
    ensures var before, after := e.joints[j], Step(limits, e, ev).joints[j];
            after.blocked != before.blocked <==>
              match ev
              case Activate(_) => true
              case Command(speeds) =>
                && GoodSpeeds(speeds)
                && if speeds[j] == 0.0 then before.driven else FromSign(speeds[j]) != before.blocked.value
              case Tick(q) => !e.activated || OppositeLookahead(limits[j], e.ramp, before, q[j])
              case _ => false
  {
    hide RampRates, Trips, RampStep;
  }

  /** A latched joint driven the way it is latched only slows. */
  lemma LatchedOnlySlows(lim: Limits, ramp: Ramp, s: Joint, qm: real)
    requires lim.Valid() && ramp.Valid() && ramp.profile.Trapezoid?
    requires s.active != 0.0
    requires TickJoint(lim, ramp, s, qm).blocked == Some(FromSign(s.active))
    ensures var t := TickJoint(lim, ramp, s, qm);
            if s.v >= 0.0 then 0.0 <= t.v <= s.v else s.v <= t.v <= 0.0
  {
    hide PerTick, Trips, TrapezoidRamp, ScurveRamp, Commanded;
    var (a, jerk) := RampRates(lim.velocity, lim.acceleration, ramp.accelTime, ramp.jerkFactor);
    CommandSign(lim, s);
    TrapezoidStep(ramp.dt, a, s.v, 0.0);
  }

  lemma CommandSign(lim: Limits, s: Joint)
    requires lim.velocity > 0.0 && s.active != 0.0
    ensures Commanded(lim, s) != 0.0 && FromSign(Commanded(lim, s)) == FromSign(s.active)
  {
    ProductSign(s.active, lim.velocity);
    ProductSign(-s.active, lim.velocity);
    assert (-s.active) * lim.velocity == -(s.active * lim.velocity);
  }

  /** Integration takes the velocity and acceleration it is given, whatever the joint held. */
  lemma IntegrateOverrides(lim: Limits, dt: real, s: Joint, ramped: Joint, qm: real)
    requires ramped == s.(v := ramped.v, acc := ramped.acc, blocked := ramped.blocked)
    ensures Integrate(lim, dt, ramped, ramped.v, ramped.acc, qm) ==
            Integrate(lim, dt, s.(blocked := ramped.blocked), ramped.v, ramped.acc, qm)
  {
    hide PerTick;
  }

  // ------------------------------------------------------------ the engine object

  datatype JogError = BadSpeed(joint: nat) | BadSetting

  /** The engine as it runs: one value per joint in each field, updated in place. */
  class JogEngine {
    const dt: real
    const limits: seq<Limits>
    var profile: Profile
    var accelTime: real
    var jerkFactor: real
    var active: seq<real>
    var lastSet: seq<bool>
    var v: seq<real>
    var acc: seq<real>
    var q: seq<real>
    var blocked: seq<Option<Direction>>
    var activated: bool

    ghost predicate Valid()
      reads this
    {
      && ValidLimits(limits) && Settings().Valid()
      && |active| == |lastSet| == |v| == |acc| == |q| == |blocked| == NUM_JOINTS
    }

    ghost function Settings(): Ramp
      reads this
    {
      Ramp(dt, profile, accelTime, jerkFactor)
    }

    ghost function JointAt(j: int): Joint
      reads this
      requires Valid() && 0 <= j < NUM_JOINTS
    {
      Joint(active[j], lastSet[j], v[j], acc[j], q[j], blocked[j])
    }

    ghost function State(): Engine
      reads this
      requires Valid()
    {
      Engine(Settings(), seq(NUM_JOINTS, j requires 0 <= j < NUM_JOINTS reads this requires Valid() => JointAt(j)),
          activated)
    }

    /** Built from a validated configuration, with the runtime floors applied. */
    constructor (dt: real, limits: seq<Limits>, profile: Profile, accelTime: real, jerkFactor: real)
      requires dt > 0.0 && ValidLimits(limits)
      ensures Valid() && Fresh(State())
      ensures this.limits == limits
      ensures Settings() == Ramp(dt, profile, Max(accelTime, MIN_ACCEL_TIME), Max(jerkFactor, MIN_JERK_FACTOR))
    {
      this.dt, this.limits, this.profile := dt, limits, profile;
      this.accelTime, this.jerkFactor := Max(accelTime, MIN_ACCEL_TIME), Max(jerkFactor, MIN_JERK_FACTOR);
      active, v, acc, q := seq(NUM_JOINTS, j => 0.0), seq(NUM_JOINTS, j => 0.0), seq(NUM_JOINTS, j => 0.0),
                           seq(NUM_JOINTS, j => 0.0);
      lastSet, blocked, activated := seq(NUM_JOINTS, j => false), seq(NUM_JOINTS, j => None), false;
    }

    /** Synchronise to the measured pose, dropping ramp state, latches and any command. */
    method Activate(measured: seq<real>)
      requires Valid() && |measured| == NUM_JOINTS
      modifies this
      ensures Valid() && State() == Step(limits, old(State()), Event.Activate(measured))
    {
      q := measured;
      active, v, acc := seq(NUM_JOINTS, j => 0.0), seq(NUM_JOINTS, j => 0.0), seq(NUM_JOINTS, j => 0.0);
      lastSet, blocked, activated := seq(NUM_JOINTS, j => false), seq(NUM_JOINTS, j => None), true;
    }

    /** New fractions for all joints; refused whole when any is out of range. */
    method Command(speeds: seq<real>) returns (r: Result<(), JogError>)
      requires Valid() && |speeds| == NUM_JOINTS
      modifies this
      ensures Valid() && State() == Step(limits, old(State()), Event.Command(speeds))
      ensures r.Ok? <==> GoodSpeeds(speeds)
      ensures r.Err? ==> r.error.BadSpeed? && r.error.joint < NUM_JOINTS && GoodSpeeds(speeds[..r.error.joint])
    {
      for j := 0 to NUM_JOINTS
        invariant GoodSpeeds(speeds[..j])
      {
        if !(-1.0 <= speeds[j] <= 1.0) {
          return Err(BadSpeed(j));
        }
      }
      assert speeds[..NUM_JOINTS] == speeds;
      ghost var latches := blocked;
      for j := 0 to NUM_JOINTS
        invariant Valid() && Settings() == old(Settings()) && activated == old(activated)
        invariant active == old(active) && lastSet == old(lastSet) && v == old(v) && acc == old(acc) && q == old(q)
        invariant forall i | 0 <= i < NUM_JOINTS ::
                    blocked[i] == if i < j then CommandJoint(old(JointAt(i)), speeds[i]).blocked else latches[i]
      {
        var leaving := lastSet[j] && speeds[j] == 0.0;
        var reversed := speeds[j] != 0.0 && blocked[j].Some? && blocked[j].value != FromSign(speeds[j]);
        if leaving || reversed {
          blocked := blocked[j := None];
        }
      }
      active := speeds;
      lastSet := seq(NUM_JOINTS, j requires 0 <= j < NUM_JOINTS => speeds[j] != 0.0);
      r := Ok(());
    }

    /** Drop every target velocity to zero; latches survive. */
    method Release()
      requires Valid()
      modifies this`active
      ensures Valid() && State() == Step(limits, old(State()), Event.Release)
    {
      active := seq(NUM_JOINTS, j => 0.0);
    }

    method SetProfile(p: Profile)
      requires Valid()
      modifies this`profile
      ensures Valid() && State() == Step(limits, old(State()), Event.SetProfile(p))
    {
      profile := p;
    }

    method SetAccelTime(seconds: real) returns (r: Result<(), JogError>)
      requires Valid()
      modifies this`accelTime
      ensures Valid() && State() == Step(limits, old(State()), Event.SetAccelTime(seconds))
      ensures r == if seconds > 0.0 then Ok(()) else Err(BadSetting)
    {
      if seconds <= 0.0 {
        return Err(BadSetting);
      }
      accelTime := Max(seconds, MIN_ACCEL_TIME);
      r := Ok(());
    }

    method SetJerkFactor(factor: real) returns (r: Result<(), JogError>)
      requires Valid()
      modifies this`jerkFactor
      ensures Valid() && State() == Step(limits, old(State()), Event.SetJerkFactor(factor))
      ensures r == if factor > 0.0 then Ok(()) else Err(BadSetting)
    {
      if factor <= 0.0 {
        return Err(BadSetting);
      }
      jerkFactor := Max(factor, MIN_JERK_FACTOR);
      r := Ok(());
    }

    /** The lookahead's latch, then the ramp: joint `j` up to its new velocity. */
    method RampOne(j: nat, measured: real)
      requires Valid() && j < NUM_JOINTS
      modifies this`v, this`acc, this`blocked
      ensures Valid()
      ensures var s, lim, ramp := old(JointAt(j)), limits[j], Settings();
              var rates := RampRates(lim.velocity, lim.acceleration, accelTime, jerkFactor);
              var wanted := Commanded(lim, s);
              var latch := Lookahead(lim, ramp, s, measured, rates.0, rates.1, wanted);
              var vT := if wanted != 0.0 && latch == Some(FromSign(wanted)) then 0.0 else wanted;
              var next := RampStep(ramp, rates.0, rates.1, s.v, s.acc, vT);
              JointAt(j) == s.(v := next.0, acc := next.1, blocked := latch)
      ensures forall i | 0 <= i < NUM_JOINTS && i != j :: JointAt(i) == old(JointAt(i))
    {
      hide PerTick, Trips, RampStep, Commanded;
      var lim := limits[j];
      var ramp := Ramp(dt, profile, accelTime, jerkFactor);
      var (a, jerk) := RampRates(lim.velocity, lim.acceleration, accelTime, jerkFactor);
      var now := Joint(active[j], lastSet[j], v[j], acc[j], q[j], blocked[j]);
      var vT := Commanded(lim, now);
      var probe := if v[j] != 0.0 then v[j] else vT;
      if probe != 0.0 {
        if Trips(lim, ramp, now, measured, a, jerk, vT, Signum(probe)) {
          blocked := blocked[j := Some(FromSign(probe))];
        }
      }
      if vT != 0.0 && blocked[j] == Some(FromSign(vT)) {
        vT := 0.0;
      }
      var (speed, rate) := RampStep(ramp, a, jerk, v[j], acc[j], vT);
      v, acc := v[j := speed], acc[j := rate];
    }

    /** Integrate joint `j` by its velocity, with the soft-limit and hard clamps. */
    method IntegrateOne(j: nat, measured: real)
      requires Valid() && j < NUM_JOINTS
      modifies this`v, this`acc, this`q
      ensures Valid()
      ensures JointAt(j) == Integrate(limits[j], dt, old(JointAt(j)), old(v[j]), old(acc[j]), measured)
      ensures forall i | 0 <= i < NUM_JOINTS && i != j :: JointAt(i) == old(JointAt(i))
    {
      hide PerTick;
      var lim := limits[j];
      var before := q[j];
      q := q[j := q[j] + PerTick(v[j], dt)];
      if v[j] > 0.0 && q[j] > lim.softMax && before <= lim.softMax {
        q, v, acc := q[j := lim.softMax], v[j := 0.0], acc[j := 0.0];
      } else if v[j] < 0.0 && q[j] < lim.softMin && before >= lim.softMin {
        q, v, acc := q[j := lim.softMin], v[j := 0.0], acc[j := 0.0];
      }
      if measured > lim.softMax && v[j] > 0.0 {
        v, acc, q := v[j := 0.0], acc[j := 0.0], q[j := Min(q[j], lim.softMax)];
      } else if measured < lim.softMin && v[j] < 0.0 {
        v, acc, q := v[j := 0.0], acc[j := 0.0], q[j := Max(q[j], lim.softMin)];
      }
    }

    /** Joint `j` through one tick. */
    method TickOne(j: nat, measured: real)
      requires Valid() && j < NUM_JOINTS
      modifies this`v, this`acc, this`q, this`blocked
      ensures Valid() && JointAt(j) == TickJoint(limits[j], Settings(), old(JointAt(j)), measured)
      ensures forall i | 0 <= i < NUM_JOINTS && i != j :: JointAt(i) == old(JointAt(i))
    {
      hide PerTick, Lookahead, RampStep, Commanded;
      RampOne(j, measured);
      ghost var ramped := JointAt(j);
      IntegrateOne(j, measured);
      IntegrateOverrides(limits[j], dt, old(JointAt(j)), ramped, measured);
    }

    /** Advance one tick; the targets and velocities it leaves are the output. */
    method Tick(measured: seq<real>) returns (targets: seq<real>, velocities: seq<real>)
      requires Valid() && |measured| == NUM_JOINTS
      modifies this
      ensures Valid() && State() == Step(limits, old(State()), Event.Tick(measured))
      ensures targets == q && velocities == v
    {
      hide TickJoint;
      if !activated {
        Activate(measured);
      }
      ghost var start := State();
      for j := 0 to NUM_JOINTS
        invariant Valid() && Settings() == start.ramp && activated
        invariant forall i | 0 <= i < NUM_JOINTS ::
                    JointAt(i) == if i < j then TickJoint(limits[i], start.ramp, start.joints[i], measured[i])
                                  else start.joints[i]
      {
        TickOne(j, measured[j]);
      }
      targets, velocities := q, v;
    }
  }
}
