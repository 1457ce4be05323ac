/**
 What the jog engine's rules mean for the motion they make: the stopping distances as the travel
 of a stop, a tick by the velocity and acceleration it leaves, and the room a joint still has
 while it is not latched.
 */
module JogLaws {
  import opened Wrappers
  import opened Reals
  import opened Jog

  // --------------------------------------------------------------- stops by their motion

  datatype Motion = Motion(x: real, v: real, a: real)

  /** Where a motion is after `t` seconds of one jerk. */
  ghost function Glide(m: Motion, jerk: real, t: real): Motion {
    Motion(m.x + m.v * t + m.a * t * t / 2.0 + jerk * t * t * t / 6.0,
           m.v + m.a * t + jerk * t * t / 2.0,
           m.a + jerk * t)
  }

  /** The acceleration `jerk * t` let go at that jerk. */
  lemma LetGo(m: Motion, jerk: real, t: real, tt: real, ttt: real)
    requires m.a == jerk * t && tt == t * t && ttt == tt * t
    ensures Glide(m, -jerk, t) == Motion(m.x + m.v * t + jerk * ttt / 3.0, m.v + jerk * tt / 2.0, 0.0)
  {
    assert m.a * t == jerk * tt;
    assert m.a * t * t == jerk * ttt;
    assert jerk * t * t == jerk * tt && jerk * t * t * t == jerk * ttt;
    assert (-jerk) * t * t == -(jerk * tt) && (-jerk) * t * t * t == -(jerk * ttt);
  }

  /** The acceleration built up from none at that jerk, to brake. */
  lemma BuildUp(m: Motion, jerk: real, t: real, tt: real, ttt: real)
    requires m.a == 0.0 && tt == t * t && ttt == tt * t
    ensures Glide(m, -jerk, t) == Motion(m.x + m.v * t - jerk * ttt / 6.0, m.v - jerk * tt / 2.0, -(jerk * t))
  {
    assert (-jerk) * t * t == -(jerk * tt) && (-jerk) * t * t * t == -(jerk * ttt) && (-jerk) * t == -(jerk * t);
  }

  /** The velocity and the travel of a stop, phase by phase. */
  lemma StopSums(v: real, jerk: real, t: real, w: real, tt: real, ttt: real, brake: real)
    requires tt == t * t && ttt == tt * t && brake == jerk * t && v == brake * (t + w)
    ensures v - jerk * tt / 2.0 - brake * w == jerk * tt / 2.0
    ensures v * t - jerk * ttt / 6.0 + (v - jerk * tt / 2.0) * w - brake * w * w / 2.0 + jerk * tt / 2.0 * t -
            jerk * ttt / 3.0 == v * (t + t + w) / 2.0
  {
    var one, two := jerk * tt, brake * w;
    assert v == one + two;
    assert one * t == jerk * ttt && one * w == two * t;
    assert v * t == one * t + two * t && v * w == one * w + two * w;
    assert (v - one / 2.0) * w == v * w - one * w / 2.0;
    assert v * (t + t + w) == 2.0 * (v * t) + v * w;
  }

  /** A stop from no acceleration: `t` to brake at `jerk * t`, `w` at that rate, `t` to let go again. */
  lemma FullStop(m: Motion, jerk: real, t: real, w: real)
    requires m.a == 0.0 && m.v == jerk * t * (t + w)
    ensures var e := Glide(Glide(Glide(m, -jerk, t), 0.0, w), jerk, t);
            e == Motion(m.x + m.v * (t + t + w) / 2.0, 0.0, 0.0)
  {
    var tt, brake := t * t, jerk * t;
    var ttt := tt * t;
    BuildUp(m, jerk, t, tt, ttt);
    StopSums(m.v, jerk, t, w, tt, ttt, brake);
    var m1 := Glide(m, -jerk, t);
    Hold(m1, brake, w);
    var m2 := Glide(m1, 0.0, w);
    assert m2.v == jerk * tt / 2.0;
    hide Glide;
    LetGo(m2, -jerk, t, tt, ttt);
    assert -(-jerk) == jerk;
    assert (-jerk) * ttt == -(jerk * ttt) && (-jerk) * tt == -(jerk * tt);
  }

  lemma Hold(m: Motion, brake: real, w: real)
    requires m.a == -brake
    ensures Glide(m, 0.0, w) == Motion(m.x + m.v * w - brake * w * w / 2.0, m.v - brake * w, m.a)
  {
    assert (-brake) * w == -(brake * w) && (-brake) * w * w == -(brake * w * w);
  }

  lemma Shares(num: real, den: real, q: real)
    requires den > 0.0 && num == q * den
    ensures num / den == q
  {
    assert (num / den - q) * den == num / den * den - q * den;
    if num / den != q {
      ProductPositive(Abs(num / den - q), den, Abs(num / den - q) * den);
    }
  }

  lemma LetGoGain(acc: real, jerk: real, t: real, gain: real)
    requires jerk > 0.0 && acc == jerk * t && gain == jerk * (t * t) / 2.0
    ensures acc * acc / (2.0 * jerk) == gain
  {
    assert acc * acc == gain * (2.0 * jerk);
    Shares(acc * acc, 2.0 * jerk, gain);
  }

  /** What the first phase of the formula comes to when its acceleration takes `rise` to let go. */
  lemma RiseTerms(speed: real, a0: real, jerk: real, rise: real)
    requires jerk > 0.0 && a0 == jerk * rise
    ensures a0 * a0 / (2.0 * jerk) == jerk * (rise * rise) / 2.0
    ensures speed * a0 / jerk == speed * rise
    ensures 3.0 * jerk * jerk > 0.0 && a0 * a0 * a0 / (3.0 * jerk * jerk) == jerk * (rise * rise * rise) / 3.0
  {
    LetGoGain(a0, jerk, rise, jerk * (rise * rise) / 2.0);
    assert speed * a0 == speed * rise * jerk;
    Shares(speed * a0, jerk, speed * rise);
    CubeTerm(a0, jerk, rise, a0 * a0, jerk * jerk, rise * rise);
  }

  lemma CubeTerm(a0: real, jerk: real, rise: real, aa: real, jj: real, rr: real)
    requires jerk > 0.0 && a0 == jerk * rise && aa == a0 * a0 && jj == jerk * jerk && rr == rise * rise
    ensures 3.0 * jerk * jerk > 0.0 && a0 * a0 * a0 / (3.0 * jerk * jerk) == jerk * (rise * rise * rise) / 3.0
  {
    ProductPositive(jerk, jerk, jj);
    assert aa == jj * rr;
    var x := jerk * (rr * rise);
    assert aa * a0 == jj * rr * (jerk * rise) == x * jj;
    Shares(aa * a0, 3.0 * jj, x / 3.0);
    assert 3.0 * jerk * jerk == 3.0 * jj;
    assert a0 * a0 * a0 == aa * a0;
  }

  /** And the second when its stop spends `fall` braking and letting go, and `w` between. */
  lemma FallTerms(peak: real, a: real, jerk: real, fall: real, w: real)
    requires a > 0.0 && jerk > 0.0 && a == jerk * fall && peak == a * (fall + w)
    ensures peak * peak / (2.0 * a) + peak * a / (2.0 * jerk) == peak * (fall + fall + w) / 2.0
  {
    assert peak * peak == peak * (fall + w) * a;
    Shares(peak * peak, 2.0 * a, peak * (fall + w) / 2.0);
    assert peak * a == peak * fall * jerk;
    Shares(peak * a, 2.0 * jerk, peak * fall / 2.0);
    assert peak * (fall + fall + w) == peak * (fall + w) + peak * fall;
  }

  /** Letting go of the acceleration takes a joint to its peak. */
  lemma PeakIs(speed: real, a0: real, jerk: real)
    requires jerk > 0.0
    ensures var rise := a0 / jerk;
            && a0 == jerk * rise
            && Glide(Motion(0.0, speed, a0), -jerk, rise) ==
               Motion(speed * rise + jerk * (rise * rise * rise) / 3.0, speed + jerk * (rise * rise) / 2.0, 0.0)
  {
    var rise := a0 / jerk;
    Quotient(a0, jerk);
    LetGo(Motion(0.0, speed, a0), jerk, rise, rise * rise, rise * rise * rise);
  }

  /**
   The s-curve's stopping distance is what a jerk-limited stop travels: the acceleration is let
   go, the full deceleration built up, held, and let go again, leaving the joint at rest.
   */
  lemma ScurveStopIsTravel(speed: real, a0: real, a: real, jerk: real)
    requires a > 0.0 && jerk > 0.0
    ensures var peak := Glide(Motion(0.0, speed, a0), -jerk, a0 / jerk);
            && peak.a == 0.0
            && Glide(Glide(Glide(peak, -jerk, a / jerk), 0.0, peak.v / a - a / jerk), jerk, a / jerk) ==
               Motion(ScurveStop(speed, a0, a, jerk), 0.0, 0.0)
  {
    hide Glide;
    var rise, fall := a0 / jerk, a / jerk;
    PeakIs(speed, a0, jerk);
    var peak := Glide(Motion(0.0, speed, a0), -jerk, rise);
    var w := peak.v / a - fall;
    Quotient(a, jerk);
    Quotient(peak.v, a);
    RiseTerms(speed, a0, jerk, rise);
    FallTerms(peak.v, a, jerk, fall, w);
    FullStop(peak, jerk, fall, w);
  }

  /**
   A joint that peaks too low to build up the full deceleration brakes for `r` and lets go for
   `r`; it never decelerates harder, and needs no more room than the formula allows.
   */
  lemma LowStopIsCovered(speed: real, a0: real, a: real, jerk: real, r: real)
    requires a > 0.0 && jerk > 0.0 && r >= 0.0
    requires var peak := Glide(Motion(0.0, speed, a0), -jerk, a0 / jerk);
             jerk * r * r == peak.v <= a * (a / jerk)
    ensures var peak := Glide(Motion(0.0, speed, a0), -jerk, a0 / jerk);
            var e := Glide(Glide(peak, -jerk, r), jerk, r);
            jerk * r <= a && e.v == 0.0 && e.a == 0.0 && e.x <= ScurveStop(speed, a0, a, jerk)
  {
    hide Glide;
    var rise, fall := a0 / jerk, a / jerk;
    PeakIs(speed, a0, jerk);
    var peak := Glide(Motion(0.0, speed, a0), -jerk, rise);
    var w := peak.v / a - fall;
    Quotient(a, jerk);
    Quotient(peak.v, a);
    RiseTerms(speed, a0, jerk, rise);
    FallTerms(peak.v, a, jerk, fall, w);
    LowStop(peak, jerk, r);
    ShortLeg(jerk, r, fall, w, peak.v);
  }

  /** Without a middle phase. */
  lemma LowStop(m: Motion, jerk: real, r: real)
    requires m.a == 0.0 && m.v == jerk * r * r
    ensures Glide(Glide(m, -jerk, r), jerk, r) == Motion(m.x + m.v * r, 0.0, 0.0)
  {
    var e := Glide(m, -jerk, r);
    FullStop(m, jerk, r, 0.0);
    assert Glide(e, 0.0, 0.0) == e;
  }

  /** `r` is the geometric mean of `fall` and `fall + w`, so no more than their arithmetic mean. */
  lemma ShortLeg(jerk: real, r: real, fall: real, w: real, peak: real)
    requires jerk > 0.0 && r >= 0.0 && fall > 0.0
    requires peak == jerk * r * r && peak == jerk * fall * (fall + w) && peak <= jerk * fall * fall
    ensures r <= fall && peak * r <= peak * (fall + fall + w) / 2.0
  {
    var mid := fall + w / 2.0;
    Cancel(jerk, r * r, fall * (fall + w));
    CancelLess(jerk, r * r, fall * fall);
    SquaresOrder(r, fall);
    assert mid * mid == fall * (fall + w) + w * w / 4.0;
    assert fall * (fall + w) >= 0.0;
    ProductSign(w, w);
    if fall + w < 0.0 {
      ProductPositive(fall, -(fall + w), fall * -(fall + w));
      assert false;
    }
    assert w * w >= 0.0;
    SquaresOrder(r, mid);
    ProductSign(peak, mid - r);
    assert peak * (mid - r) == peak * mid - peak * r;
  }

  lemma Cancel(c: real, x: real, y: real)
    requires c > 0.0 && c * x == c * y
    ensures x == y
  {
    assert c * (x - y) == 0.0;
  }

  lemma CancelLess(c: real, x: real, y: real)
    requires c > 0.0 && c * x <= c * y
    ensures x <= y
  {
    assert c * (y - x) >= 0.0;
    if y < x {
      ProductPositive(c, x - y, c * (x - y));
    }
  }

  /** The trapezoid's is the travel at constant deceleration. */
  lemma TrapezoidStopIsTravel(speed: real, a: real)
    requires a > 0.0
    ensures Glide(Motion(0.0, speed, -a), 0.0, speed / a) == Motion(TrapezoidStop(speed, a), 0.0, -a)
  {
    var t := speed / a;
    Quotient(speed, a);
    var at := a * t;
    assert (-a) * t == -at && (-a) * t * t == -(at * t) && speed * t == at * t;
    assert speed * speed == at * t / 2.0 * (2.0 * a);
    Shares(speed * speed, 2.0 * a, at * t / 2.0);
  }

  // ------------------------------------------------------------------ ticks by their effect

  /** From `x` toward `goal` by `step`, and no further than it. */
  ghost function Toward(x: real, goal: real, step: real): real {
    if goal > x + step then x + step
    else if goal < x - step then x - step
    else goal
  }

  /**
   The rates of a joint's ramp: its acceleration limit unless that reaches the joint's velocity
   sooner than the acceleration time asks, and a jerk in proportion.
   */
  ghost predicate HasRates(lim: Limits, ramp: Ramp, a: real, jerk: real) {
    && a <= lim.acceleration && a * ramp.accelTime <= lim.velocity
    && (a == lim.acceleration || a * ramp.accelTime == lim.velocity)
    && jerk == a * ramp.jerkFactor
  }

  /** A joint has exactly the rates the engine runs it at. */
  lemma RatesAre(lim: Limits, ramp: Ramp, a: real, jerk: real)
    requires lim.Valid() && ramp.Valid()
    ensures HasRates(lim, ramp, a, jerk) <==>
            RampRates(lim.velocity, lim.acceleration, ramp.accelTime, ramp.jerkFactor) == (a, jerk)
    ensures HasRates(lim, ramp, a, jerk) ==> a > 0.0 && jerk > 0.0
  {
    var t, f := ramp.accelTime, ramp.jerkFactor;
    var r := RampRates(lim.velocity, lim.acceleration, t, f);
    assert r.0 == Min(lim.velocity / t, lim.acceleration) && r.1 == r.0 * f;
    CappedRate(lim.velocity, t, lim.acceleration, r.0);
    assert HasRates(lim, ramp, r.0, r.1);
    if HasRates(lim, ramp, a, jerk) {
      RateIs(lim.velocity, t, lim.acceleration, a);
      SameProduct(r.0, a, f, r.1, jerk);
      assert r == (r.0, r.1);
      ProductPositive(a, f, jerk);
    }
  }

  lemma SameProduct(x: real, y: real, f: real, p: real, q: real)
    requires x == y && p == x * f && q == y * f
    ensures p == q
  {
  }

  lemma CappedRate(v: real, t: real, limit: real, a: real)
    requires t > 0.0 && a == Min(v / t, limit)
    ensures a <= limit && a * t <= v && (a == limit || a * t == v)
  {
    Quotient(v, t);
    ProductSign(v / t - a, t);
    assert (v / t - a) * t == v / t * t - a * t;
  }

  lemma RateIs(v: real, t: real, limit: real, a: real)
    requires v > 0.0 && t > 0.0 && limit > 0.0 && a <= limit && a * t <= v && (a == limit || a * t == v)
    ensures a > 0.0 && a == Min(v / t, limit)
  {
    QuotientPositive(v, t);
    Quotient(v, t);
    var fast := v / t;
    if fast < a {
      ProductPositive(a - fast, t, (a - fast) * t);
    }
    if a < fast {
      ProductPositive(fast - a, t, (fast - a) * t);
    }
  }

  /** What a joint is driven at: nothing when it is latched the way it is commanded. */
  ghost function Goal(lim: Limits, active: real, latch: Option<Direction>): real {
    if (latch == Some(Positive) && active > 0.0) || (latch == Some(Negative) && active < 0.0) then 0.0
    else active * lim.velocity
  }

  /** No limit held the joint: it still moves, or it and its measurement are off the limits. */
  ghost predicate Unheld(lim: Limits, r: Joint, qm: real) {
    r.v != 0.0 || (r.q != lim.softMin && r.q != lim.softMax && lim.Admits(qm))
  }

  lemma TickParts(lim: Limits, ramp: Ramp, s: Joint, qm: real, a: real, jerk: real)
    requires lim.Valid() && ramp.Valid() && HasRates(lim, ramp, a, jerk) && a > 0.0 && jerk > 0.0
    requires Unheld(lim, TickJoint(lim, ramp, s, qm), qm)
    ensures var r := TickJoint(lim, ramp, s, qm);
            && (r.v, r.acc) == RampStep(ramp, a, jerk, s.v, s.acc, Goal(lim, s.active, r.blocked))
            && r == s.(q := s.q + PerTick(r.v, ramp.dt), v := r.v, acc := r.acc, blocked := r.blocked)
  {
    hide PerTick, Trips, RampStep, RampRates;
    RatesAre(lim, ramp, a, jerk);
    var wanted := Commanded(lim, s);
    var blocked := Lookahead(lim, ramp, s, qm, a, jerk, wanted);
    if s.active != 0.0 {
      CommandSign(lim, s);
    }
    var vT := if wanted != 0.0 && blocked == Some(FromSign(wanted)) then 0.0 else wanted;
    var (v, acc) := RampStep(ramp, a, jerk, s.v, s.acc, vT);
    IntegrateVelocity(lim, ramp.dt, s.(blocked := blocked), v, acc, qm);
    assert vT == Goal(lim, s.active, blocked);
  }

  /** A trapezoid tick moves the velocity toward its goal by at most one step, and integrates it. */
  lemma TrapezoidTick(lim: Limits, ramp: Ramp, s: Joint, qm: real, a: real, jerk: real)
    requires lim.Valid() && ramp.Valid() && ramp.profile.Trapezoid? && HasRates(lim, ramp, a, jerk)
    requires Unheld(lim, TickJoint(lim, ramp, s, qm), qm)
    ensures var r := TickJoint(lim, ramp, s, qm);
            && r.v == Toward(s.v, Goal(lim, s.active, r.blocked), a * ramp.dt)
            && r.acc * ramp.dt == r.v - s.v && r.q == s.q + r.v * ramp.dt
  {
    hide Trips, TickJoint, TrapezoidRamp, RampRates;
    RatesAre(lim, ramp, a, jerk);
    TickParts(lim, ramp, s, qm, a, jerk);
    var r := TickJoint(lim, ramp, s, qm);
    TrapezoidIs(ramp.dt, a, s.v, Goal(lim, s.active, r.blocked));
  }

  lemma TrapezoidIs(dt: real, a: real, v: real, vT: real)
    requires dt > 0.0 && a > 0.0
    ensures var r := TrapezoidRamp(dt, a, v, vT); r.0 == Toward(v, vT, a * dt) && r.1 * dt == r.0 - v
  {
    PerTickSign(a, dt);
    Quotient(TrapezoidRamp(dt, a, v, vT).0 - v, dt);
  }

  /** Letting the acceleration go at full jerk would carry the velocity to its goal or past it. */
  ghost predicate Arrives(v: real, acc: real, jerk: real, goal: real)
    requires jerk > 0.0
  {
    if acc > 0.0 then v < goal <= Glide(Motion(0.0, v, acc), -jerk, acc / jerk).v
    else acc < 0.0 && Glide(Motion(0.0, v, acc), jerk, -acc / jerk).v <= goal < v
  }

  /** Close enough to its goal, in velocity and acceleration, to be set to it. */
  ghost predicate Close(v: real, acc: real, goal: real, jerk: real, dt: real) {
    Abs(goal - v) <= PerTick(PerTick(jerk, dt), dt) && Abs(acc) <= 1.5 * PerTick(jerk, dt)
  }

  lemma ArrivesIs(v: real, acc: real, jerk: real, goal: real)
    requires jerk > 0.0
    ensures Arrives(v, acc, jerk, goal) <==> acc * (goal - v) > 0.0 && Abs(goal - v) <= acc * acc / (2.0 * jerk)
  {
    var t := acc / jerk;
    Quotient(acc, jerk);
    var gain := jerk * (t * t) / 2.0;
    LetGoGain(acc, jerk, t, gain);
    ArrivesOver(v, acc, jerk, goal, t, gain);
    hide Arrives;
    SameSign(acc, goal - v);
  }

  /** In terms of the velocity gained while the acceleration is let go. */
  lemma ArrivesOver(v: real, acc: real, jerk: real, goal: real, t: real, gain: real)
    requires jerk > 0.0 && acc == jerk * t && t == acc / jerk && gain == jerk * (t * t) / 2.0
    ensures Arrives(v, acc, jerk, goal) <==> (acc > 0.0 && v < goal <= v + gain) || (acc < 0.0 && v - gain <= goal < v)
  {
    LetGo(Motion(0.0, v, acc), jerk, t, t * t, t * t * t);
    ArrivesBack(v, acc, jerk, t, gain);
    hide Glide;
  }

  lemma ArrivesBack(v: real, acc: real, jerk: real, t: real, gain: real)
    requires acc == jerk * t && jerk > 0.0 && t == acc / jerk && gain == jerk * (t * t) / 2.0
    ensures Glide(Motion(0.0, v, acc), jerk, -acc / jerk).v == v - gain
  {
    Shares(-acc, jerk, -t);
    assert acc * (-t) == -(jerk * (t * t)) && jerk * (-t) * (-t) == jerk * (t * t);
  }

  lemma SameSign(x: real, y: real)
    ensures x * y > 0.0 <==> (x > 0.0 && y > 0.0) || (x < 0.0 && y < 0.0)
  {
    var p := x * y;
    if x > 0.0 && y > 0.0 { ProductPositive(x, y, p); }
    if x < 0.0 && y < 0.0 { assert p == (-x) * (-y); ProductPositive(-x, -y, p); }
    if x > 0.0 && y < 0.0 { assert -p == x * (-y); ProductPositive(x, -y, -p); }
    if x < 0.0 && y > 0.0 { assert -p == (-x) * y; ProductPositive(-x, y, -p); }
  }

  /**
   An s-curve tick sets the velocity to a goal it is close to. Otherwise the acceleration moves by
   at most one tick of jerk, toward none where letting it go would arrive and toward the full rate
   in the goal's direction where not, and the velocity by exactly that acceleration.
   */
  ghost predicate MovesSmoothly(dt: real, a: real, jerk: real, s: Joint, r: Joint, goal: real)
    requires jerk > 0.0 && a > 0.0
  {
    if Close(s.v, s.acc, goal, jerk, dt) then r.v == goal && r.acc == 0.0
    else
      var sought := if Arrives(s.v, s.acc, jerk, goal) then 0.0 else if goal >= s.v then a else -a;
      r.acc == Clamp(Toward(s.acc, sought, PerTick(jerk, dt)), -a, a) && r.v == s.v + PerTick(r.acc, dt)
  }

  lemma ScurveCore(dt: real, a: real, jerk: real, v: real, acc: real, goal: real, d: real, dd: real)
    requires dt > 0.0 && a > 0.0 && jerk > 0.0 && d == PerTick(jerk, dt) && dd == PerTick(d, dt)
    ensures var r := ScurveRamp(dt, a, jerk, v, acc, goal);
            if Abs(goal - v) <= dd && Abs(acc) <= 1.5 * d then r == (goal, 0.0)
            else
              var sought := if Arrives(v, acc, jerk, goal) then 0.0 else if goal >= v then a else -a;
              r.1 == Clamp(Toward(acc, sought, d), -a, a) && r.0 == v + PerTick(r.1, dt)
  {
    hide Arrives, PerTick;
    PerTickSign(jerk, dt);
    ArrivesIs(v, acc, jerk, goal);
  }

  lemma ScurveIs(dt: real, a: real, jerk: real, s: Joint, r: Joint, goal: real)
    requires dt > 0.0 && a > 0.0 && jerk > 0.0
    requires (r.v, r.acc) == ScurveRamp(dt, a, jerk, s.v, s.acc, goal)
    ensures MovesSmoothly(dt, a, jerk, s, r, goal)
  {
    hide Arrives, ScurveRamp, PerTick, Toward;
    ScurveCore(dt, a, jerk, s.v, s.acc, goal, PerTick(jerk, dt), PerTick(PerTick(jerk, dt), dt));
  }

  lemma ScurveTick(lim: Limits, ramp: Ramp, s: Joint, qm: real, a: real, jerk: real)
    requires lim.Valid() && ramp.Valid() && ramp.profile.Scurve?
    requires HasRates(lim, ramp, a, jerk) && a > 0.0 && jerk > 0.0
    requires Unheld(lim, TickJoint(lim, ramp, s, qm), qm)
    ensures var r := TickJoint(lim, ramp, s, qm);
            MovesSmoothly(ramp.dt, a, jerk, s, r, Goal(lim, s.active, r.blocked)) && r.q == s.q + r.v * ramp.dt
  {
    hide Trips, TickJoint, ScurveRamp, RampRates, MovesSmoothly;
    RatesAre(lim, ramp, a, jerk);
    TickParts(lim, ramp, s, qm, a, jerk);
    var r := TickJoint(lim, ramp, s, qm);
    ScurveIs(ramp.dt, a, jerk, s, r, Goal(lim, s.active, r.blocked));
  }

  /** Such a tick never passes the full rate, and jerks no harder than its limit unless it was past it. */
  lemma SmoothWithinRates(dt: real, a: real, jerk: real, s: Joint, r: Joint, goal: real)
    requires dt > 0.0 && a > 0.0 && jerk > 0.0 && MovesSmoothly(dt, a, jerk, s, r, goal)
    ensures -a <= r.acc <= a
    ensures !Close(s.v, s.acc, goal, jerk, dt) ==>
              (Abs(r.acc - s.acc) <= PerTick(jerk, dt) <==> Abs(s.acc) <= a + PerTick(jerk, dt))
    ensures Close(s.v, s.acc, goal, jerk, dt) ==> Abs(r.acc - s.acc) <= 1.5 * PerTick(jerk, dt)
  {
    hide Arrives, PerTick;
    PerTickSign(jerk, dt);
  }

  /** A joint with no acceleration moves toward its goal, and not past it. */
  lemma SmoothFromSteady(dt: real, a: real, jerk: real, s: Joint, r: Joint, goal: real)
    requires dt > 0.0 && a > 0.0 && jerk > 0.0 && MovesSmoothly(dt, a, jerk, s, r, goal) && s.acc == 0.0
    ensures if s.v < goal then s.v < r.v <= goal else if s.v > goal then s.v > r.v >= goal else r.v == goal
  {
    hide PerTick;
    var d := PerTick(jerk, dt);
    PerTickSign(jerk, dt);
    PerTickSign(d, dt);
    assert !Arrives(s.v, s.acc, jerk, goal);
    hide Arrives;
    if !Close(s.v, s.acc, goal, jerk, dt) {
      PerTickSign(r.acc, dt);
      PerTickMonotone(Abs(r.acc), d, dt);
    }
  }

  /**
   The acceleration stays within the full rate, the velocity changes by exactly that acceleration
   or is set to a goal no further off than a tick of jerk builds up, and a joint that has no
   acceleration moves toward its goal without passing it.
   */
  ghost predicate Gentle(dt: real, a: real, jerk: real, s: Joint, r: Joint, goal: real) {
    && -a <= r.acc <= a
    && (r.v == s.v + r.acc * dt || (r.v == goal && r.acc == 0.0 && Abs(goal - s.v) <= jerk * dt * dt))
    && (Abs(s.acc) <= a + jerk * dt ==> Abs(r.acc - s.acc) <= jerk * dt || (r.v == goal && r.acc == 0.0))
    && (s.acc == 0.0 ==> if s.v < goal then s.v < r.v <= goal
                         else if s.v > goal then s.v > r.v >= goal else r.v == goal)
  }

  lemma SmoothSets(dt: real, a: real, jerk: real, s: Joint, r: Joint, goal: real)
    requires a > 0.0 && jerk > 0.0 && MovesSmoothly(dt, a, jerk, s, r, goal)
    ensures r.v == s.v + PerTick(r.acc, dt) ||
            (r.v == goal && r.acc == 0.0 && Abs(goal - s.v) <= PerTick(PerTick(jerk, dt), dt))
    ensures Close(s.v, s.acc, goal, jerk, dt) ==> r.v == goal && r.acc == 0.0
  {
    hide Arrives, PerTick;
  }

  lemma SmoothIsGentle(dt: real, a: real, jerk: real, s: Joint, r: Joint, goal: real)
    requires dt > 0.0 && a > 0.0 && jerk > 0.0 && MovesSmoothly(dt, a, jerk, s, r, goal)
    ensures Gentle(dt, a, jerk, s, r, goal)
  {
    hide MovesSmoothly, Close, Arrives;
    SmoothSets(dt, a, jerk, s, r, goal);
    SmoothWithinRates(dt, a, jerk, s, r, goal);
    if s.acc == 0.0 {
      SmoothFromSteady(dt, a, jerk, s, r, goal);
    }
    assert PerTick(jerk, dt) == jerk * dt && PerTick(PerTick(jerk, dt), dt) == jerk * dt * dt;
    assert PerTick(r.acc, dt) == r.acc * dt;
  }

  /** So does every s-curve tick that no limit holds. */
  lemma ScurveTickGentle(lim: Limits, ramp: Ramp, s: Joint, qm: real, a: real, jerk: real)
    requires lim.Valid() && ramp.Valid() && ramp.profile.Scurve? && HasRates(lim, ramp, a, jerk)
    requires Unheld(lim, TickJoint(lim, ramp, s, qm), qm)
    ensures var r := TickJoint(lim, ramp, s, qm); Gentle(ramp.dt, a, jerk, s, r, Goal(lim, s.active, r.blocked))
  {
    hide TickJoint, HasRates, Goal, MovesSmoothly, Gentle;
    RatesAre(lim, ramp, a, jerk);
    ScurveTick(lim, ramp, s, qm, a, jerk);
    var r := TickJoint(lim, ramp, s, qm);
    SmoothIsGentle(ramp.dt, a, jerk, s, r, Goal(lim, s.active, r.blocked));
  }

  /** A joint a limit holds rests there or short of it, and nothing else of it changes. */
  lemma ClampLands(lim: Limits, dt: real, s: Joint, v: real, acc: real, qm: real)
    requires lim.Valid() && dt > 0.0 && Clamps(lim, dt, s.q, qm, v)
    ensures var q := s.q + v * dt;
            Integrate(lim, dt, s, v, acc, qm) ==
            s.(v := 0.0, acc := 0.0, q := if v > 0.0 then Min(q, lim.softMax) else Max(q, lim.softMin))
  {
    PerTickIs(v, dt);
    hide PerTick;
  }

  // ------------------------------------------------------------------ the room it is allowed

  /** A speed as it counts toward a direction. */
  ghost function Side(x: real, d: Direction): real {
    if d.Positive? then x else -x
  }

  /** Travel left before the soft limit of a direction, from the measured position. */
  ghost function Room(lim: Limits, d: Direction, qm: real): real {
    if d.Positive? then lim.softMax - qm else qm - lim.softMin
  }

  /** A joint heads the way it moves, or from rest the way it is commanded. */
  ghost predicate Heads(s: Joint, d: Direction) {
    Side(s.v, d) > 0.0 || (s.v == 0.0 && Side(s.active, d) > 0.0)
  }

  /** Speed and acceleration along its heading that one more tick of driving on could leave a joint. */
  ghost predicate Ahead(ramp: Ramp, a: real, jerk: real, speed: real, a0: real, wanted: real, ahead: (real, real)) {
    if speed >= wanted then ahead == (speed, a0)
    else if ramp.profile.Trapezoid? then ahead == (Toward(speed, wanted, PerTick(a, ramp.dt)), 0.0)
    else
      && ahead.1 == (if a0 >= a then a else Toward(a0, a, PerTick(jerk, ramp.dt)))
      && ahead.0 == Toward(speed, wanted, PerTick(ahead.1, ramp.dt))
  }

  ghost predicate JointAhead(lim: Limits, ramp: Ramp, a: real, jerk: real, s: Joint, d: Direction,
                             ahead: (real, real)) {
    Ahead(ramp, a, jerk, Side(s.v, d), Max(Side(s.acc, d), 0.0), Max(Side(Goal(lim, s.active, None), d), 0.0), ahead)
  }

  /** One and a half stops from there, and a tick of travel at that speed, take up all the room. */
  ghost predicate TooNear(lim: Limits, ramp: Ramp, a: real, jerk: real, d: Direction, ahead: (real, real), qm: real)
    requires a > 0.0 && jerk > 0.0
  {
    1.5 * StoppingDistance(ramp.profile, ahead.0, ahead.1, a, jerk) + ahead.0 * ramp.dt >= Room(lim, d, qm)
  }

  lemma AheadIs(ramp: Ramp, a: real, jerk: real, speed: real, a0: real, wanted: real, ahead: (real, real))
    requires ramp.dt > 0.0 && a > 0.0 && jerk > 0.0 && speed >= 0.0 && a0 >= 0.0
    requires Ahead(ramp, a, jerk, speed, a0, wanted, ahead)
    ensures NextSpeed(ramp, a, jerk, speed, a0, wanted) == ahead
    ensures ahead.0 >= 0.0 && ahead.1 >= 0.0
  {
    hide PerTick, Toward;
    PerTickSign(a, ramp.dt);
    PerTickSign(jerk, ramp.dt);
    PerTickSign(ahead.1, ramp.dt);
    if speed < wanted {
      match ramp.profile {
        case Trapezoid =>
          TowardIsMin(speed, wanted, PerTick(a, ramp.dt));
        case Scurve =>
          if a0 < a {
            TowardIsMin(a0, a, PerTick(jerk, ramp.dt));
          }
          TowardIsMin(speed, wanted, PerTick(ahead.1, ramp.dt));
      }
    }
  }

  lemma TowardIsMin(x: real, goal: real, step: real)
    requires step >= 0.0 && x <= goal
    ensures x <= Toward(x, goal, step) == Min(x + step, goal)
  {
  }

  lemma PerTickIs(rate: real, dt: real)
    requires dt > 0.0
    ensures PerTick(rate, dt) == rate * dt && (rate > 0.0 <==> PerTick(rate, dt) > 0.0)
  {
    PerTickSign(rate, dt);
  }

  lemma GoalIsCommand(lim: Limits, s: Joint)
    ensures Goal(lim, s.active, None) == Commanded(lim, s) && (s.active == 0.0 ==> Commanded(lim, s) == 0.0)
  {
  }

  /** A joint is latched the way it heads exactly when it is too near; otherwise its latch stays. */
  lemma LatchesExactly(lim: Limits, ramp: Ramp, s: Joint, qm: real, a: real, jerk: real, d: Direction,
                       ahead: (real, real))
    requires lim.Valid() && ramp.Valid() && HasRates(lim, ramp, a, jerk) && a > 0.0 && jerk > 0.0
    requires Heads(s, d) && JointAhead(lim, ramp, a, jerk, s, d, ahead)
    ensures TickJoint(lim, ramp, s, qm).blocked ==
            if TooNear(lim, ramp, a, jerk, d, ahead, qm) then Some(d) else s.blocked
  {
    hide NextSpeed, RampStep, RampRates, StoppingDistance, Ahead, HasRates;
    RatesAre(lim, ramp, a, jerk);
    var wanted := Commanded(lim, s);
    GoalIsCommand(lim, s);
    hide Commanded, Goal;
    if s.active != 0.0 {
      CommandSign(lim, s);
    }
    var sgn := if d.Positive? then 1.0 else -1.0;
    assert Max(s.acc * sgn, 0.0) == Max(Side(s.acc, d), 0.0) && Max(wanted * sgn, 0.0) == Max(Side(wanted, d), 0.0);
    AheadIs(ramp, a, jerk, Side(s.v, d), Max(Side(s.acc, d), 0.0), Max(Side(wanted, d), 0.0), ahead);
    var probe := if s.v != 0.0 then s.v else wanted;
    assert Signum(probe) == sgn && FromSign(probe) == d && probe != 0.0;
  }

  /** One that neither moves nor is asked to keeps its latch. */
  lemma IdleKeepsLatch(lim: Limits, ramp: Ramp, s: Joint, qm: real)
    requires lim.Valid() && ramp.Valid() && s.v == 0.0 && s.active == 0.0
    ensures TickJoint(lim, ramp, s, qm).blocked == s.blocked
  {
    hide RampStep, RampRates, Trips;
  }

  lemma QuotientMonotone(p: real, p': real, c: real)
    requires 0.0 <= p <= p' && c > 0.0
    ensures 0.0 <= p / c <= p' / c
  {
    if p > 0.0 {
      QuotientPositive(p, c);
    }
    if p' > p {
      QuotientPositive(p' - p, c);
    }
    Quotient(p, c);
    Quotient(p', c);
    Shares(p' - p, c, p' / c - p / c);
  }

  lemma TermMonotone(x: real, y: real, x': real, y': real, c: real)
    requires 0.0 <= x <= x' && 0.0 <= y <= y' && c > 0.0
    ensures 0.0 <= x * y <= x' * y' && 0.0 <= x * y / c <= x' * y' / c
  {
    ProductSign(x' - x, y);
    ProductSign(x', y' - y);
    assert (x' - x) * y == x' * y - x * y && x' * (y' - y) == x' * y' - x' * y;
    ProductSign(x, y);
    QuotientMonotone(x * y, x' * y', c);
  }

  lemma CubeMonotone(x: real, x': real, c: real)
    requires 0.0 <= x <= x' && c > 0.0
    ensures 0.0 <= x * x * x / c <= x' * x' * x' / c
  {
    var sq, sq' := x * x, x' * x';
    TermMonotone(x, x, x', x', c);
    TermMonotone(sq, x, sq', x', c);
    assert sq * x == x * x * x && sq' * x' == x' * x' * x';
  }

  lemma ScurveTerms(v: real, a0: real, a: real, jerk: real, peak: real, one: real, two: real, three: real, four: real)
    requires a > 0.0 && jerk > 0.0 && 3.0 * jerk * jerk > 0.0 && peak == v + a0 * a0 / (2.0 * jerk)
    requires one == v * a0 / jerk && two == a0 * a0 * a0 / (3.0 * jerk * jerk)
    requires three == peak * peak / (2.0 * a) && four == peak * a / (2.0 * jerk)
    ensures ScurveStop(v, a0, a, jerk) == one + two + three + four
  {
  }

  lemma ScurveStopMonotone(v: real, a0: real, v': real, a0': real, a: real, jerk: real)
    requires a > 0.0 && jerk > 0.0 && 0.0 <= v <= v' && 0.0 <= a0 <= a0'
    ensures 0.0 <= ScurveStop(v, a0, a, jerk) <= ScurveStop(v', a0', a, jerk)
  {
    var jj := jerk * jerk;
    ProductPositive(jerk, jerk, jj);
    assert 3.0 * jerk * jerk == 3.0 * jj;
    TermMonotone(a0, a0, a0', a0', 2.0 * jerk);
    var peak, peak' := v + a0 * a0 / (2.0 * jerk), v' + a0' * a0' / (2.0 * jerk);
    var one, one' := v * a0 / jerk, v' * a0' / jerk;
    TermMonotone(v, a0, v', a0', jerk);
    var two, two' := a0 * a0 * a0 / (3.0 * jerk * jerk), a0' * a0' * a0' / (3.0 * jerk * jerk);
    CubeMonotone(a0, a0', 3.0 * jerk * jerk);
    var three, three' := peak * peak / (2.0 * a), peak' * peak' / (2.0 * a);
    TermMonotone(peak, peak, peak', peak', 2.0 * a);
    var four, four' := peak * a / (2.0 * jerk), peak' * a / (2.0 * jerk);
    TermMonotone(peak, a, peak', a, 2.0 * jerk);
    ScurveTerms(v, a0, a, jerk, peak, one, two, three, four);
    ScurveTerms(v', a0', a, jerk, peak', one', two', three', four');
  }

  lemma StopMonotone(profile: Profile, v: real, a0: real, v': real, a0': real, a: real, jerk: real)
    requires a > 0.0 && jerk > 0.0 && 0.0 <= v <= v' && 0.0 <= a0 && (profile.Scurve? ==> a0 <= a0')
    ensures 0.0 <= StoppingDistance(profile, v, a0, a, jerk) <= StoppingDistance(profile, v', a0', a, jerk)
  {
    match profile {
      case Trapezoid => TermMonotone(v, v, v', v', 2.0 * a);
      case Scurve => ScurveStopMonotone(v, a0, v', a0', a, jerk);
    }
  }

  lemma GoalAlong(lim: Limits, active: real, latch: Option<Direction>, d: Direction)
    requires lim.Valid()
    ensures Side(Goal(lim, active, latch), d) <= Max(Side(Goal(lim, active, None), d), 0.0)
  {
  }

  /** A trapezoid ramp leaves a joint no faster along its heading than it looked ahead to. */
  lemma TrapezoidWithinAhead(ramp: Ramp, a: real, jerk: real, s: Joint, r: Joint, goal: real, wanted: real,
                             d: Direction, ahead: (real, real))
    requires ramp.dt > 0.0 && ramp.profile.Trapezoid? && a > 0.0 && Side(s.v, d) >= 0.0 && Side(goal, d) <= wanted
    requires r.v == Toward(s.v, goal, a * ramp.dt)
    requires Ahead(ramp, a, jerk, Side(s.v, d), Max(Side(s.acc, d), 0.0), wanted, ahead)
    ensures Side(r.v, d) <= ahead.0
  {
    ProductPositive(a, ramp.dt, a * ramp.dt);
  }

  lemma Snaps(dt: real, a: real, jerk: real, s: Joint, r: Joint, goal: real)
    requires a > 0.0 && jerk > 0.0 && MovesSmoothly(dt, a, jerk, s, r, goal) && Close(s.v, s.acc, goal, jerk, dt)
    ensures r.v == goal && r.acc == 0.0 && Abs(goal - s.v) <= PerTick(PerTick(jerk, dt), dt)
  {
    hide Arrives, PerTick;
  }

  /** The acceleration it leaves along a heading grows by at most one tick of jerk. */
  lemma SmoothAlong(dt: real, a: real, jerk: real, s: Joint, r: Joint, goal: real, d: Direction)
    requires dt > 0.0 && a > 0.0 && jerk > 0.0 && MovesSmoothly(dt, a, jerk, s, r, goal)
    requires !Close(s.v, s.acc, goal, jerk, dt)
    ensures Side(r.acc, d) <= a && Side(r.acc, d) <= Max(Side(s.acc, d), 0.0) + PerTick(jerk, dt)
    ensures Side(r.v, d) == Side(s.v, d) + PerTick(Side(r.acc, d), dt)
  {
    hide Arrives, Close, PerTick;
    PerTickSign(jerk, dt);
    PerTickSign(r.acc, dt);
  }

  /** While it drives on, looking ahead covers any gain of a tick that stays within rate and command. */
  lemma AheadCovers(ramp: Ramp, a: real, jerk: real, speed: real, a0: real, wanted: real, ahead: (real, real),
                    x: real, gain: real)
    requires ramp.dt > 0.0 && ramp.profile.Scurve? && a > 0.0 && jerk > 0.0 && speed < wanted && a0 >= 0.0
    requires Ahead(ramp, a, jerk, speed, a0, wanted, ahead)
    requires x <= a && x <= a0 + PerTick(jerk, ramp.dt) && gain <= PerTick(x, ramp.dt) && speed + gain <= wanted
    ensures 0.0 <= ahead.1 && x <= ahead.1 && speed + gain <= ahead.0
  {
    hide PerTick;
    PerTickSign(jerk, ramp.dt);
    PerTickMonotone(x, ahead.1, ramp.dt);
    PerTickSign(ahead.1, ramp.dt);
  }

  /** Nor does an s-curve, while it does not pass its command. */
  lemma ScurveWithinAhead(ramp: Ramp, a: real, jerk: real, s: Joint, r: Joint, goal: real, wanted: real, d: Direction,
                          ahead: (real, real))
    requires ramp.dt > 0.0 && ramp.profile.Scurve? && a > 0.0 && jerk > 0.0 && PerTick(jerk, ramp.dt) <= a
    requires Side(s.v, d) >= 0.0 && Side(goal, d) <= wanted && Side(r.v, d) <= Max(Side(s.v, d), wanted)
    requires MovesSmoothly(ramp.dt, a, jerk, s, r, goal)
    requires Ahead(ramp, a, jerk, Side(s.v, d), Max(Side(s.acc, d), 0.0), wanted, ahead)
    ensures Side(r.v, d) <= ahead.0 && Max(Side(r.acc, d), 0.0) <= ahead.1
  {
    hide Close, PerTick, Arrives, MovesSmoothly;
    var x, speed, a0, k := Side(r.acc, d), Side(s.v, d), Max(Side(s.acc, d), 0.0), PerTick(jerk, ramp.dt);
    PerTickSign(jerk, ramp.dt);
    if speed >= wanted {
      PerTickSign(x, ramp.dt);
      if Close(s.v, s.acc, goal, jerk, ramp.dt) {
        Snaps(ramp.dt, a, jerk, s, r, goal);
      } else {
        SmoothAlong(ramp.dt, a, jerk, s, r, goal, d);
      }
    } else if Close(s.v, s.acc, goal, jerk, ramp.dt) {
      Snaps(ramp.dt, a, jerk, s, r, goal);
      AheadCovers(ramp, a, jerk, speed, a0, wanted, ahead, k, Side(r.v, d) - speed);
    } else {
      SmoothAlong(ramp.dt, a, jerk, s, r, goal, d);
      AheadCovers(ramp, a, jerk, speed, a0, wanted, ahead, x, PerTick(x, ramp.dt));
    }
  }

  /**
   A joint not latched the way it heads has room for one and a half stops from the speed and
   acceleration a tick leaves it, and for a tick of travel at that speed.
   */
  lemma UnlatchedFits(lim: Limits, ramp: Ramp, s: Joint, qm: real, a: real, jerk: real, d: Direction)
    requires lim.Valid() && ramp.Valid() && HasRates(lim, ramp, a, jerk) && a > 0.0 && jerk > 0.0 && Heads(s, d)
    requires var r := TickJoint(lim, ramp, s, qm);
             && Unheld(lim, r, qm) && r.blocked != Some(d) && Side(r.v, d) >= 0.0
             && (ramp.profile.Scurve? ==>
                   jerk * ramp.dt <= a && Side(r.v, d) <= Max(Side(s.v, d), Side(Goal(lim, s.active, None), d)))
    ensures var r := TickJoint(lim, ramp, s, qm);
            var speed := Side(r.v, d);
            1.5 * StoppingDistance(ramp.profile, speed, Max(Side(r.acc, d), 0.0), a, jerk) + speed * ramp.dt <
            Room(lim, d, qm)
  {
    hide TickJoint, StoppingDistance, HasRates, Ahead, Goal, Room, TooNear, Unheld;
    var r := TickJoint(lim, ramp, s, qm);
    var speed0, a0, wanted := Side(s.v, d), Max(Side(s.acc, d), 0.0), Max(Side(Goal(lim, s.active, None), d), 0.0);
    var ahead := AheadExists(ramp, a, jerk, speed0, a0, wanted);
    assert JointAhead(lim, ramp, a, jerk, s, d, ahead);
    LatchesExactly(lim, ramp, s, qm, a, jerk, d, ahead);
    AheadIs(ramp, a, jerk, speed0, a0, wanted, ahead);
    TickWithinAhead(lim, ramp, s, qm, a, jerk, d, ahead);
    var speed := Side(r.v, d);
    StopMonotone(ramp.profile, speed, Max(Side(r.acc, d), 0.0), ahead.0, ahead.1, a, jerk);
    var stop := StoppingDistance(ramp.profile, speed, Max(Side(r.acc, d), 0.0), a, jerk);
    NearerFits(lim, ramp, a, jerk, d, ahead, qm, speed, stop);
  }

  lemma TickWithinAhead(lim: Limits, ramp: Ramp, s: Joint, qm: real, a: real, jerk: real, d: Direction,
                        ahead: (real, real))
    requires lim.Valid() && ramp.Valid() && HasRates(lim, ramp, a, jerk) && a > 0.0 && jerk > 0.0
    requires Side(s.v, d) >= 0.0 && JointAhead(lim, ramp, a, jerk, s, d, ahead)
    requires var r := TickJoint(lim, ramp, s, qm);
             && Unheld(lim, r, qm)
             && (ramp.profile.Scurve? ==>
                   jerk * ramp.dt <= a && Side(r.v, d) <= Max(Side(s.v, d), Side(Goal(lim, s.active, None), d)))
    ensures var r := TickJoint(lim, ramp, s, qm);
            Side(r.v, d) <= ahead.0 && (ramp.profile.Scurve? ==> Max(Side(r.acc, d), 0.0) <= ahead.1)
  {
    hide TickJoint, HasRates, MovesSmoothly, Ahead, Goal, Unheld, Toward, PerTick;
    var r := TickJoint(lim, ramp, s, qm);
    var goal, wanted := Goal(lim, s.active, r.blocked), Max(Side(Goal(lim, s.active, None), d), 0.0);
    GoalAlong(lim, s.active, r.blocked, d);
    match ramp.profile {
      case Trapezoid =>
        TrapezoidTick(lim, ramp, s, qm, a, jerk);
        TrapezoidWithinAhead(ramp, a, jerk, s, r, goal, wanted, d, ahead);
      case Scurve =>
        ScurveTick(lim, ramp, s, qm, a, jerk);
        PerTickIs(jerk, ramp.dt);
        ScurveWithinAhead(ramp, a, jerk, s, r, goal, wanted, d, ahead);
    }
  }

  lemma NearerFits(lim: Limits, ramp: Ramp, a: real, jerk: real, d: Direction, ahead: (real, real), qm: real,
                   speed: real, stop: real)
    requires a > 0.0 && jerk > 0.0 && ramp.dt > 0.0 && !TooNear(lim, ramp, a, jerk, d, ahead, qm)
    requires speed <= ahead.0 && stop <= StoppingDistance(ramp.profile, ahead.0, ahead.1, a, jerk)
    ensures 1.5 * stop + speed * ramp.dt < Room(lim, d, qm)
  {
    hide StoppingDistance;
    PerTickMonotone(speed, ahead.0, ramp.dt);
  }

  lemma AheadExists(ramp: Ramp, a: real, jerk: real, speed: real, a0: real, wanted: real) returns (ahead: (real, real))
    ensures Ahead(ramp, a, jerk, speed, a0, wanted, ahead)
  {
    if speed >= wanted {
      ahead := (speed, a0);
    } else if ramp.profile.Trapezoid? {
      ahead := (Toward(speed, wanted, PerTick(a, ramp.dt)), 0.0);
    } else {
      var rate := if a0 >= a then a else Toward(a0, a, PerTick(jerk, ramp.dt));
      ahead := (Toward(speed, wanted, PerTick(rate, ramp.dt)), rate);
    }
  }

  // ------------------------------------------------------------------ what the events leave

  /** A command with no fraction beyond full speed. */
  ghost predicate Takes(ev: Event) {
    ev.Command? && forall i | 0 <= i < |ev.speeds| :: Abs(ev.speeds[i]) <= 1.0
  }

  /** Only ticks and activations move a joint; a command taken replaces what is asked of every joint. */
  lemma OnlyTicksMove(limits: seq<Limits>, e: Engine, ev: Event, j: int)
    requires ValidLimits(limits) && ValidEngine(e) && ValidEvent(ev) && 0 <= j < NUM_JOINTS
    requires !ev.Tick? && !ev.Activate?
    ensures var before, after := e.joints[j], Step(limits, e, ev).joints[j];
            after == before.(active := if Takes(ev) then ev.speeds[j] else if ev.Release? then 0.0 else before.active,
                             driven := if Takes(ev) then ev.speeds[j] != 0.0 else before.driven,
                             blocked := after.blocked)
    ensures Step(limits, e, ev).activated == e.activated
  {
    if ev.Command? {
      assert GoodSpeeds(ev.speeds) <==> Takes(ev);
    }
  }

  /** A setting that is taken is the one given, or the floor where that is greater; the rest stay. */
  lemma SettingsTaken(limits: seq<Limits>, e: Engine, ev: Event)
    requires ValidLimits(limits) && ValidEngine(e) && ValidEvent(ev)
    ensures var old', new' := e.ramp, Step(limits, e, ev).ramp;
            match ev
            case SetProfile(p) => new' == old'.(profile := p)
            case SetAccelTime(t) =>
              && new' == old'.(accelTime := new'.accelTime)
              && (t >= MIN_ACCEL_TIME ==> new'.accelTime == t)
              && (0.0 < t <= MIN_ACCEL_TIME ==> new'.accelTime == MIN_ACCEL_TIME) && (t <= 0.0 ==> new' == old')
            case SetJerkFactor(f) =>
              && new' == old'.(jerkFactor := new'.jerkFactor)
              && (f >= MIN_JERK_FACTOR ==> new'.jerkFactor == f)
              && (0.0 < f <= MIN_JERK_FACTOR ==> new'.jerkFactor == MIN_JERK_FACTOR) && (f <= 0.0 ==> new' == old')
            case _ => new' == old'
  {
  }

  /** A joint just synchronised stays at rest where it is measured. */
  lemma RestTick(lim: Limits, ramp: Ramp, qm: real)
    requires lim.Valid() && ramp.Valid()
    ensures TickJoint(lim, ramp, ActivateJoint(qm), qm) == ActivateJoint(qm)
  {
    var (a, jerk) := RampRates(lim.velocity, lim.acceleration, ramp.accelTime, ramp.jerkFactor);
    RestRamp(ramp, a, jerk);
    hide RampRates, RampStep, Trips;
    assert PerTick(0.0, ramp.dt) == 0.0 && Commanded(lim, ActivateJoint(qm)) == 0.0;
  }

  lemma RestRamp(ramp: Ramp, a: real, jerk: real)
    requires a > 0.0 && jerk > 0.0 && ramp.dt > 0.0
    ensures RampStep(ramp, a, jerk, 0.0, 0.0, 0.0) == (0.0, 0.0)
  {
    PerTickSign(a, ramp.dt);
    PerTickSign(jerk, ramp.dt);
    PerTickSign(PerTick(jerk, ramp.dt), ramp.dt);
    hide PerTick;
  }

  /** A tick of an engine that is not active starts every joint at rest where it is measured. */
  lemma TickSynchronises(limits: seq<Limits>, e: Engine, measured: seq<real>, j: int)
    requires ValidLimits(limits) && ValidEngine(e) && |measured| == NUM_JOINTS && 0 <= j < NUM_JOINTS && !e.activated
    ensures var r := Step(limits, e, Event.Tick(measured));
            r.activated && r.joints[j] == Joint(0.0, false, 0.0, 0.0, measured[j], None)
  {
    hide TickJoint;
    RestTick(limits[j], e.ramp, measured[j]);
  }
}
