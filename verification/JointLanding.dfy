// One joint around the moment its destination is dispatched unshaped. Velocity
// and acceleration are counted in travel per step, which makes everything but
// the conversion to it, and the feedback's own steps, linear.

module JointLanding {
  import opened Reals
  import opened TransitionLimiter
  import opened MotionGate

  /** The boundaries a candidate must not cross without being shaped. */
  datatype Bounds = Bounds(velocity: real, acceleration: real, jerk: real)

  /** Dispatching `target` next would cross a boundary. */
  predicate Crosses(m: Motion, target: real, b: Bounds, dt: real)
    requires dt > 0.0
  {
    || Abs(Measured(target, m, dt).velocity) > b.velocity + SLACK
    || Abs(Measured(target, m, dt).acceleration) > b.acceleration + SLACK
    || Abs(Jerk(target, m, dt)) > b.jerk + SLACK
  }

  // ---- travel per step -----------------------------------------------------

  function Squared(x: real, dt: real): real {
    x * dt * dt
  }

  function Cubed(x: real, dt: real): real {
    x * dt * dt * dt
  }

  /** The travel of one more step at this velocity. */
  function Travel(m: Motion, dt: real): real {
    m.velocity * dt
  }

  /** The change of that travel at this acceleration. */
  function Swing(m: Motion, dt: real): real {
    Squared(m.acceleration, dt)
  }

  /** The boundaries, as travel and as its first and second difference. */
  function Reach(b: Bounds, dt: real): Bounds {
    Bounds((b.velocity + SLACK) * dt, Squared(b.acceleration + SLACK, dt), Cubed(b.jerk + SLACK, dt))
  }

  /** Error e after travel u that changed by g: what a candidate is checked for. */
  predicate Within(e: real, u: real, g: real, r: Bounds) {
    Abs(e) <= r.velocity && Abs(e - u) <= r.acceleration && Abs(e - u - g) <= r.jerk
  }

  lemma QuotientWithin(x: real, d: real, c: real)
    requires d > 0.0
    ensures Abs(x / d) <= c <==> Abs(x) <= c * d
  {
    DivideMultiply(c, d);
    if Abs(x) <= c * d {
      DividedBound(x, d, c);
    }
    if Abs(x / d) <= c {
      var q := x / d;
      assert q * d == x;
      MulMonotone(q, c, d);
      MulMonotone(-c, q, d);
      assert (-c) * d == -(c * d);
    }
  }

  lemma QuotientMinus(x: real, y: real, d: real)
    requires d > 0.0
    ensures x / d - y == (x - y * d) / d
  {
    DivideMultiply(y, d);
    assert (x - y * d) / d == x / d - y * d / d;
  }

  /** Differences of quotients, as quotients of differences. */
  lemma Quotients(e: real, v: real, a: real, dt: real, u: real, g: real)
    requires dt > 0.0 && u == v * dt && g == a * dt * dt
    ensures (e / dt - v) / dt == (e - u) / dt / dt
    ensures ((e / dt - v) / dt - a) / dt == (e - u - g) / dt / dt / dt
  {
    QuotientMinus(e, v, dt);
    var k, s := (e - u) / dt, a * dt;
    QuotientMinus(k, a, dt);
    QuotientMinus(e - u, s, dt);
    Thirds(e - u, a, s, k, g, dt);
  }

  lemma Thirds(x: real, a: real, s: real, k: real, g: real, dt: real)
    requires dt > 0.0 && k / dt - a == (k - s) / dt && k - s == (x - g) / dt
    ensures (k / dt - a) / dt == (x - g) / dt / dt / dt
  {
  }

  /** The check of a candidate in travel per step. */
  lemma CandidateWithin(m: Motion, target: real, b: Bounds, dt: real)
    requires dt > 0.0
    ensures Crosses(m, target, b, dt) <==> !Within(target - m.position, Travel(m, dt), Swing(m, dt), Reach(b, dt))
  {
    var e, u, g := target - m.position, Travel(m, dt), Swing(m, dt);
    Quotients(e, m.velocity, m.acceleration, dt, u, g);
    hide Travel, Swing;
    QuotientWithin(e, dt, b.velocity + SLACK);
    TwiceWithin(e - u, dt, b.acceleration + SLACK);
    ThriceWithin(e - u - g, dt, b.jerk + SLACK);
    assert Jerk(target, m, dt) == (e - u - g) / dt / dt / dt;
    assert Measured(target, m, dt).acceleration == (e - u) / dt / dt;
    hide Measured, Jerk;
  }

  lemma ThriceWithin(x: real, d: real, c: real)
    requires d > 0.0
    ensures Abs(x / d / d / d) <= c <==> Abs(x) <= Cubed(c, d)
  {
    TwiceWithin(x / d, d, c);
    QuotientWithin(x, d, Squared(c, d));
  }

  lemma TwiceWithin(x: real, d: real, c: real)
    requires d > 0.0
    ensures Abs(x / d / d) <= c <==> Abs(x) <= Squared(c, d)
  {
    QuotientWithin(x / d, d, c);
    QuotientWithin(x, d, c * d);
  }

  /** After `target` was dispatched as it is, the travel is the error it closed. */
  lemma LandedTravel(m: Motion, target: real, dt: real)
    requires dt > 0.0
    ensures var next := Measured(target, m, dt);
            && next.position == target
            && Travel(next, dt) == target - m.position
            && Swing(next, dt) == target - m.position - Travel(m, dt)
  {
    var e := target - m.position;
    var v := e / dt;
    assert v * dt == e;
    var a := (v - m.velocity) / dt;
    assert a * dt == v - m.velocity;
    assert a * dt * dt == v * dt - m.velocity * dt;
  }

  // ---- shaping in travel per step ------------------------------------------

  /** The change of travel the shaper chooses. */
  function Choice(desired: real, g: real, step: real, a: real): real {
    Clamp(Clamp(desired, g - step, g + step), -a, a)
  }

  lemma ClampScales(x: real, lo: real, hi: real, k: real, xk: real, lok: real, hik: real)
    requires k > 0.0 && xk == x * k && lok == lo * k && hik == hi * k
    ensures Clamp(x, lo, hi) * k == Clamp(xk, lok, hik)
  {
    Compares(x, lo, k, xk, lok);
    Compares(hi, x, k, hik, xk);
  }

  lemma Compares(x: real, y: real, k: real, xk: real, yk: real)
    requires k > 0.0 && xk == x * k && yk == y * k
    ensures x < y <==> xk < yk
  {
    ProductSign(y - x, k);
    assert (y - x) * k == y * k - x * k;
  }

  /** The shaped step, in travel per step. */
  lemma ShapedTravel(m: Motion, target: real, a: real, jerk: real, dt: real)
    requires a > 0.0 && dt > 0.0
    ensures Shaped(target, m, dt, a, jerk).position
         == m.position + Travel(m, dt)
            + Choice(Squared(DesiredAcceleration(target, m, jerk / a), dt), Swing(m, dt), Cubed(jerk, dt), Squared(a, dt))
  {
    var d := DesiredAcceleration(target, m, jerk / a);
    var x := ShapedAcceleration(target, m, dt, a, jerk);
    hide DesiredAcceleration, Clamp, Squared, Cubed, Travel, Integrated, Choice;
    ChoiceOf(d, m.acceleration, jerk, a, dt, x);
    Stepped(m, x, dt, Squared(x, dt));
  }

  lemma ChoiceOf(d: real, g: real, jerk: real, a: real, dt: real, x: real)
    requires dt > 0.0
    requires var step := jerk * dt; x == Clamp(Clamp(d, g - step, g + step), -a, a)
    ensures Squared(x, dt) == Choice(Squared(d, dt), Squared(g, dt), Cubed(jerk, dt), Squared(a, dt))
  {
    hide Clamp, Squared, Cubed, Choice;
    var step, k := jerk * dt, dt * dt;
    PositiveSquare(dt, dt, k);
    SquareIs(x, dt, k);
    SquareIs(d, dt, k);
    SquareIs(g, dt, k);
    SquareIs(step, dt, k);
    SquareIs(a, dt, k);
    StepIs(jerk, dt, step);
    ChoiceScales(d, g, step, a, k, Squared(d, dt), Squared(g, dt), Cubed(jerk, dt), Squared(a, dt));
  }

  lemma ChoiceScales(d: real, g: real, step: real, a: real, k: real, dk: real, gk: real, stepk: real, ak: real)
    requires k > 0.0 && dk == d * k && gk == g * k && stepk == step * k && ak == a * k
    ensures Clamp(Clamp(d, g - step, g + step), -a, a) * k == Choice(dk, gk, stepk, ak)
  {
    hide Clamp;
    Distributes(g, step, a, k, gk, stepk, ak);
    var lo, hi, lok, hik := g - step, g + step, gk - stepk, gk + stepk;
    ClampScales(d, lo, hi, k, dk, lok, hik);
    ClampScales(Clamp(d, lo, hi), -a, a, k, Clamp(dk, lok, hik), -ak, ak);
  }

  lemma Distributes(g: real, step: real, a: real, k: real, gk: real, stepk: real, ak: real)
    requires gk == g * k && stepk == step * k && ak == a * k
    ensures gk - stepk == (g - step) * k && gk + stepk == (g + step) * k && -ak == (-a) * k
  {
  }

  lemma Stepped(m: Motion, x: real, dt: real, change: real)
    requires change == Squared(x, dt)
    ensures Integrated(m, x, dt).position == m.position + Travel(m, dt) + change
  {
    assert (m.velocity + x * dt) * dt == m.velocity * dt + x * dt * dt;
  }

  /** Twice the step, in whichever order. */
  lemma SquareIs(x: real, dt: real, k: real)
    requires k == dt * dt
    ensures x * k == Squared(x, dt)
  {
  }

  lemma StepIs(jerk: real, dt: real, step: real)
    requires step == jerk * dt
    ensures Squared(step, dt) == Cubed(jerk, dt)
  {
  }

  lemma PositiveSquare(x: real, y: real, k: real)
    requires x > 0.0 && y > 0.0 && k == x * y
    ensures k > 0.0
  {
  }

  // ---- landing and staying -------------------------------------------------

  /** From rest, an error one step can close and the next two can hold. */
  predicate Gentle(e: real, r: Bounds) {
    Abs(e) <= r.velocity && Abs(e) <= r.acceleration && 2.0 * Abs(e) <= r.jerk
  }

  /** At the destination, travel that the next two steps can stop. */
  predicate Settles(u: real, g: real, r: Bounds) {
    Abs(u) <= r.acceleration && Abs(u + g) <= r.jerk && Abs(u) <= r.jerk
  }

  lemma LandingSettles(e: real, r: Bounds)
    requires Within(e, 0.0, 0.0, r)
    ensures Settles(e, e, r) <==> Gentle(e, r)
    ensures Within(0.0, e, e, r) <==> Gentle(e, r)
  {
  }

  lemma ReachPositive(b: Bounds, dt: real)
    requires b.velocity > 0.0 && b.acceleration > 0.0 && b.jerk > 0.0 && dt > 0.0
    ensures var r := Reach(b, dt); r.velocity > 0.0 && r.acceleration > 0.0 && r.jerk > 0.0
  {
    PositiveSquare(b.velocity + SLACK, dt, (b.velocity + SLACK) * dt);
    PowersPositive(b.acceleration + SLACK, dt);
    PowersPositive(b.jerk + SLACK, dt);
  }

  lemma PowersPositive(x: real, dt: real)
    requires x > 0.0 && dt > 0.0
    ensures Squared(x, dt) > 0.0 && Cubed(x, dt) > 0.0
  {
    PositiveSquare(x, dt, x * dt);
    PositiveSquare(x * dt, dt, x * dt * dt);
    PositiveSquare(x * dt * dt, dt, x * dt * dt * dt);
  }

  lemma PowersMonotone(x: real, y: real, dt: real)
    requires x <= y && dt > 0.0
    ensures Squared(x, dt) <= Squared(y, dt) && Cubed(x, dt) <= Cubed(y, dt)
  {
    MulMonotone(x, y, dt);
    MulMonotone(x * dt, y * dt, dt);
    MulMonotone(x * dt * dt, y * dt * dt, dt);
  }

  /** A joint at its destination can be held there exactly when the candidate
      does not cross, and it then has no more travel. */
  lemma HoldingStep(m: Motion, b: Bounds, dt: real)
    requires dt > 0.0 && b.velocity > 0.0
    ensures Crosses(m, m.position, b, dt) <==> !Within(0.0, Travel(m, dt), Swing(m, dt), Reach(b, dt))
    ensures var next := Measured(m.position, m, dt);
            next.position == m.position && Travel(next, dt) == 0.0 && Swing(next, dt) == -Travel(m, dt)
  {
    CandidateWithin(m, m.position, b, dt);
    LandedTravel(m, m.position, dt);
  }

  /** The feedback in travel per step: only the product of frequency and step counts. */
  lemma DesiredTravel(m: Motion, target: real, w: real, dt: real, rho: real)
    requires rho == w * dt
    ensures Squared(DesiredAcceleration(target, m, w), dt) == rho * rho * (target - m.position) - 2.0 * rho * Travel(m, dt)
  {
    FeedbackTravel(target - m.position, m.velocity, w, dt, rho);
  }

  lemma FeedbackTravel(e: real, v: real, w: real, dt: real, rho: real)
    requires rho == w * dt
    ensures (w * w * e - 2.0 * w * v) * dt * dt == rho * rho * e - 2.0 * rho * (v * dt)
  {
    assert w * w * e * dt * dt == rho * rho * e;
    assert 2.0 * w * v * dt * dt == 2.0 * rho * (v * dt);
  }

  /** The step, counted in periods of the shaping frequency. */
  function StepRatio(jerk: real, a: real, dt: real): real
    requires a > 0.0
  {
    jerk / a * dt
  }

  /** From rest a shaped joint never reaches its destination in one step. */
  lemma ShapedFallsShort(p: real, target: real, a: real, jerk: real, dt: real)
    requires a > 0.0 && jerk > 0.0 && dt > 0.0 && StepRatio(jerk, a, dt) < 1.0 && target != p
    ensures Shaped(target, Motion(p, 0.0, 0.0), dt, a, jerk).position != target
  {
    hide Squared, Cubed, DesiredAcceleration, Shaped;
    var m := Motion(p, 0.0, 0.0);
    var rho := StepRatio(jerk, a, dt);
    FrequencyPositive(jerk, a, dt, rho);
    ShapedTravel(m, target, a, jerk, dt);
    DesiredTravel(m, target, jerk / a, dt, rho);
    PowersPositive(jerk, dt);
    PowersPositive(a, dt);
    NothingMoves(m, dt);
    ShrinksError(rho, target - p);
  }

  lemma NothingMoves(m: Motion, dt: real)
    requires m.velocity == 0.0 && m.acceleration == 0.0
    ensures Travel(m, dt) == 0.0 && Swing(m, dt) == 0.0
  {
  }

  lemma FrequencyPositive(jerk: real, a: real, dt: real, rho: real)
    requires jerk > 0.0 && a > 0.0 && dt > 0.0 && rho == jerk / a * dt
    ensures rho > 0.0
  {
    var w := jerk / a;
    assert w * a == jerk;
    ProductSign(w, a);
    PositiveSquare(w, dt, rho);
  }

  lemma ShrinksError(rho: real, e: real)
    requires 0.0 <= rho < 1.0 && e != 0.0
    ensures Abs(rho * rho * e) < Abs(e)
  {
    var k := rho * rho;
    MulMonotone(rho, 1.0, rho);
    assert 0.0 <= k < 1.0;
    StrictlyLess(k, Abs(e));
    MulNonNegative(k, Abs(e));
    assert Abs(k * e) == k * Abs(e);
  }

  lemma StrictlyLess(k: real, e: real)
    requires k < 1.0 && e > 0.0
    ensures k * e < e
  {
  }

  /** A joint that is too fast to be stopped goes on past its destination. */
  lemma TooFastGoesOn(m: Motion, a: real, jerk: real, b: Bounds, dt: real)
    requires a > 0.0 && jerk > 0.0 && dt > 0.0 && jerk <= b.jerk
    ensures var u, g, next := Travel(m, dt), Swing(m, dt), Shaped(m.position, m, dt, a, jerk).position;
            && (u > 0.0 && u + g > Reach(b, dt).jerk ==> next > m.position)
            && (u < 0.0 && u + g < -Reach(b, dt).jerk ==> next < m.position)
  {
    hide Squared, Cubed, DesiredAcceleration, Shaped;
    ShapedTravel(m, m.position, a, jerk, dt);
    PowersPositive(jerk, dt);
    PowersPositive(a, dt);
    PowersMonotone(jerk, b.jerk + SLACK, dt);
  }

  /** From rest: a landing that cannot be held goes past the destination. */
  lemma LandingGoesPast(p: real, target: real, a: real, jerk: real, b: Bounds, dt: real)
    requires a > 0.0 && jerk > 0.0 && dt > 0.0 && jerk <= b.jerk
    requires Within(target - p, 0.0, 0.0, Reach(b, dt)) && !Gentle(target - p, Reach(b, dt))
    ensures var next := Shaped(target, Measured(target, Motion(p, 0.0, 0.0), dt), dt, a, jerk).position;
            if target > p then next > target else next < target
  {
    var m := Measured(target, Motion(p, 0.0, 0.0), dt);
    hide Travel, Swing, DesiredAcceleration, Shaped;
    LandedTravel(Motion(p, 0.0, 0.0), target, dt);
    NothingMoves(Motion(p, 0.0, 0.0), dt);
    TooFastGoesOn(m, a, jerk, b, dt);
  }

  /** Where holding would cross a boundary, shaping moves the joint off its
      destination, unless the previous acceleration itself is in the way. */
  lemma ShapedMovesOff(m: Motion, a: real, jerk: real, b: Bounds, dt: real)
    requires a > 0.0 && jerk > 0.0 && dt > 0.0 && b.velocity > 0.0 && a <= b.acceleration && jerk <= b.jerk
    requires !Within(0.0, Travel(m, dt), Swing(m, dt), Reach(b, dt))
    requires Abs(m.acceleration) - a <= (b.jerk + SLACK) * dt
    ensures Shaped(m.position, m, dt, a, jerk).position != m.position
  {
    hide Squared, Cubed, DesiredAcceleration, Shaped, Travel, Reach;
    ShapedTravel(m, m.position, a, jerk, dt);
    PowersPositive(jerk, dt);
    PowersPositive(a, dt);
    SlackCounts(jerk, b.jerk, dt);
    SlackCounts(a, b.acceleration, dt);
    OverhangScales(m.acceleration, a, b.jerk + SLACK, dt);
    ReachIs(b, dt);
  }

  lemma ReachIs(b: Bounds, dt: real)
    requires b.velocity > 0.0 && dt > 0.0
    ensures var r := Reach(b, dt);
            r.velocity >= 0.0 && r.acceleration == Squared(b.acceleration + SLACK, dt) && r.jerk == Cubed(b.jerk + SLACK, dt)
  {
    MulNonNegative(b.velocity + SLACK, dt);
  }

  /** The slack of the comparison keeps the shaper's boundary strictly inside. */
  lemma SlackCounts(x: real, y: real, dt: real)
    requires x <= y && dt > 0.0
    ensures Squared(x, dt) < Squared(y + SLACK, dt) && Cubed(x, dt) < Cubed(y + SLACK, dt)
  {
    PowersPositive(y + SLACK - x, dt);
    assert Squared(y + SLACK - x, dt) == Squared(y + SLACK, dt) - Squared(x, dt);
    assert Cubed(y + SLACK - x, dt) == Cubed(y + SLACK, dt) - Cubed(x, dt);
  }

  lemma OverhangScales(x: real, a: real, jerk: real, dt: real)
    requires dt > 0.0 && Abs(x) - a <= jerk * dt
    ensures Abs(Squared(x, dt)) - Squared(a, dt) <= Cubed(jerk, dt)
  {
    PowersMonotone(Abs(x), a + jerk * dt, dt);
    assert Squared(a + jerk * dt, dt) == Squared(a, dt) + Cubed(jerk, dt);
    assert Squared(-x, dt) == -Squared(x, dt);
    PowersMonotone(0.0, Abs(x), dt);
  }

  // ---- landing after shaping -----------------------------------------------

  /** The feedback's own step from error e at travel u. */
  function FreeSwing(rho: real, e: real, u: real): real {
    rho * rho * e - 2.0 * rho * u
  }

  /** An approach from below: travel toward the target, no faster than the feedback allows. */
  predicate Approaching(e: real, u: real, rho: real) {
    0.0 <= e && 0.0 <= u <= rho * e
  }

  /** Error and travel after one free step. */
  predicate FreeStepTo(e: real, u: real, e': real, u': real, rho: real) {
    u' == u + FreeSwing(rho, e, u) && e' == e - u'
  }

  /** The travel after a free step, as a combination of error and travel. */
  lemma FreeForm(e: real, u: real, e': real, u': real, rho: real)
    requires FreeStepTo(e, u, e', u', rho)
    ensures u' == (1.0 - 2.0 * rho) * u + rho * rho * e
  {
  }

  lemma FreeApproaches(e: real, u: real, e': real, u': real, rho: real)
    requires 0.0 < rho <= 0.5 && Approaching(e, u, rho) && FreeStepTo(e, u, e', u', rho)
    ensures Approaching(e', u', rho) && (e > 0.0 ==> e' > 0.0) && e' <= e
  {
    FreeForm(e, u, e', u', rho);
    var x := rho * e;
    var y := rho * x;
    HalfOf(rho, e, x);
    HalfOf(rho, x, y);
    MulNonNegative(1.0 - 2.0 * rho, u);
    assert rho * rho * e == y;
    MulMonotone(u, x, 1.0 - 2.0 * rho);
    assert x * (1.0 - 2.0 * rho) == x - 2.0 * y;
    SlowEnough(u', x, y, rho);
    assert rho * e' == x - rho * u';
  }

  lemma SlowEnough(u: real, x: real, y: real, rho: real)
    requires 0.0 < rho <= 0.5 && 0.0 <= u <= x - y && y == rho * x
    ensures u <= x - rho * u
  {
    MulMonotone(u, x - y, rho);
    HalfOf(rho, x - y, rho * (x - y));
    assert rho * (x - y) == y - rho * y;
    MulNonNegative(rho, y);
  }

  lemma HalfOf(rho: real, x: real, product: real)
    requires 0.0 < rho <= 0.5 && x >= 0.0 && product == rho * x
    ensures 0.0 <= product <= 0.5 * x
  {
    MulNonNegative(rho, x);
    MulMonotone(rho, 0.5, x);
  }

  /** After one free step the braking a landing would take is at least what the
      candidate before the step asked for: here against its acceleration. */
  lemma AccelerationCarriesOver(e: real, u: real, e': real, u': real, rho: real)
    requires 0.0 < rho <= 0.5 && Approaching(e, u, rho) && FreeStepTo(e, u, e', u', rho)
    ensures 2.0 * e' - u' >= e - u >= 0.0
  {
    FreeForm(e, u, e', u', rho);
    var x := rho * e;
    var y := rho * x;
    var z := rho * u;
    assert rho * rho * e == y;
    assert (1.0 - 2.0 * rho) * u == u - 2.0 * z;
    HalfOf(rho, e, x);
    HalfOf(rho, x, y);
    ScaledDown(e, u, x, y, z, rho, 2.0 - 6.0 * rho);
    assert 2.0 * e' - u' == 2.0 * e - 3.0 * (u - 2.0 * z + y);
  }

  /** At most one sign of the travel's coefficient has to be paid for. */
  lemma ScaledDown(e: real, u: real, x: real, y: real, z: real, rho: real, c: real)
    requires 0.0 <= u <= x <= 0.5 * e && 0.0 <= y <= 0.5 * x
    requires y == rho * x && z == rho * u && c == 2.0 - 6.0 * rho
    ensures e - 3.0 * y - 2.0 * u + 6.0 * z >= 0.0
  {
    if c >= 0.0 {
      Paid(c, u, x, rho, y, z);
    } else {
      Free(-c, u, rho, z);
    }
  }

  lemma Paid(c: real, u: real, x: real, rho: real, y: real, z: real)
    requires 0.0 <= c && u <= x && y == rho * x && z == rho * u && c == 2.0 - 6.0 * rho
    ensures 2.0 * u - 6.0 * z <= 2.0 * x - 6.0 * y
  {
    MulMonotone(u, x, c);
    assert u * c == 2.0 * u - 6.0 * z;
    assert x * c == 2.0 * x - 6.0 * y;
  }

  lemma Free(c: real, u: real, rho: real, z: real)
    requires 0.0 <= c && 0.0 <= u && z == rho * u && c == 6.0 * rho - 2.0
    ensures 2.0 * u - 6.0 * z <= 0.0
  {
    MulNonNegative(c, u);
    assert c * u == 6.0 * z - 2.0 * u;
  }

  /** The same against its jerk, when the state itself came from a free step. */
  lemma JerkCarriesOver(e0: real, u0: real, e: real, u: real, e': real, u': real, rho: real)
    requires 0.0 < rho <= 0.5 && Approaching(e0, u0, rho)
    requires FreeStepTo(e0, u0, e, u, rho) && FreeStepTo(e, u, e', u', rho)
    ensures 2.0 * e' - u' >= e - u - FreeSwing(rho, e0, u0)
  {
    FreeForm(e0, u0, e, u, rho);
    FreeForm(e, u, e', u', rho);
    var s := rho * rho;
    assert e - u - FreeSwing(rho, e0, u0) == e - 2.0 * u + u0;
    assert 2.0 * e' - u' == 2.0 * e - 3.0 * ((1.0 - 2.0 * rho) * u + s * e);
    Gap(e0, u0, e, u, rho, s);
  }

  /** What is left over, as a polynomial in the ratio. */
  lemma Gap(e0: real, u0: real, e: real, u: real, rho: real, s: real)
    requires 0.0 < rho <= 0.5 && s == rho * rho && Approaching(e0, u0, rho)
    requires u == (1.0 - 2.0 * rho) * u0 + s * e0 && e == e0 - u
    ensures 2.0 * e - 3.0 * ((1.0 - 2.0 * rho) * u + s * e) >= e - 2.0 * u + u0
  {
    var c1 := 1.0 - 5.0 * s + 6.0 * (rho * s) + 3.0 * (s * s);
    var c2 := 3.0 - 10.0 * rho + 9.0 * s + 6.0 * (rho * s);
    Expanded(e0, u0, e, u, rho, s, c1, c2);
    Coefficients(rho, s, c1, c2);
    Remains(e0, u0, rho, c1, c2);
  }

  lemma Expanded(e0: real, u0: real, e: real, u: real, rho: real, s: real, c1: real, c2: real)
    requires s == rho * rho && u == (1.0 - 2.0 * rho) * u0 + s * e0 && e == e0 - u
    requires c1 == 1.0 - 5.0 * s + 6.0 * (rho * s) + 3.0 * (s * s)
    requires c2 == 3.0 - 10.0 * rho + 9.0 * s + 6.0 * (rho * s)
    ensures 2.0 * e - 3.0 * ((1.0 - 2.0 * rho) * u + s * e) - (e - 2.0 * u + u0) == c1 * e0 - c2 * u0
  {
    var ru, su, c, d := rho * u, s * u, rho * s, s * s;
    Substituted(e0, u0, u, rho, s, c, rho);
    Substituted(e0, u0, u, rho, s, d, s);
    assert (1.0 - 2.0 * rho) * u == u - 2.0 * ru;
    assert s * e == s * e0 - su;
    Collected(e0, u0, u, rho, s, c, d, c1, c2, ru, su);
  }

  /** A multiple k of the travel after a free step. */
  lemma Substituted(e0: real, u0: real, u: real, rho: real, s: real, ks: real, k: real)
    requires u == (1.0 - 2.0 * rho) * u0 + s * e0 && ks == k * s
    ensures k * u == k * u0 - 2.0 * (k * rho * u0) + ks * e0
  {
  }

  lemma Collected(e0: real, u0: real, u: real, rho: real, s: real, c: real, d: real, c1: real, c2: real, ru: real, su: real)
    requires s == rho * rho && c == rho * s
    requires u == (1.0 - 2.0 * rho) * u0 + s * e0
    requires ru == rho * u0 - 2.0 * (rho * rho * u0) + c * e0 && su == s * u0 - 2.0 * (s * rho * u0) + d * e0
    requires c1 == 1.0 - 5.0 * s + 6.0 * c + 3.0 * d && c2 == 3.0 - 10.0 * rho + 9.0 * s + 6.0 * c
    ensures e0 - 2.0 * u - u0 + 6.0 * ru - 3.0 * (s * e0) + 3.0 * su == c1 * e0 - c2 * u0
  {
  }

  lemma Remains(e0: real, u0: real, rho: real, c1: real, c2: real)
    requires Approaching(e0, u0, rho) && c2 >= 0.0 && c1 - rho * c2 >= 0.0
    ensures c1 * e0 - c2 * u0 >= 0.0
  {
    MulMonotone(u0, rho * e0, c2);
    assert (rho * e0) * c2 == (rho * c2) * e0;
    MulNonNegative(c1 - rho * c2, e0);
    assert (c1 - rho * c2) * e0 == c1 * e0 - (rho * c2) * e0;
  }

  lemma Coefficients(rho: real, s: real, c1: real, c2: real)
    requires 0.0 < rho <= 0.5 && s == rho * rho
    requires c1 == 1.0 - 5.0 * s + 6.0 * (rho * s) + 3.0 * (s * s)
    requires c2 == 3.0 - 10.0 * rho + 9.0 * s + 6.0 * (rho * s)
    ensures c2 >= 0.0 && c1 - rho * c2 >= 0.0
  {
    var c, d := rho * s, s * s;
    HalfOf(rho, rho, s);
    HalfOf(rho, s, c);
    assert d == rho * c;
    HalfOf(rho, c, d);
    Square(3.0 * rho - 5.0 / 3.0, 9.0 * s - 10.0 * rho + 25.0 / 9.0);
    Square(1.0 - 1.5 * rho, 1.0 - 3.0 * rho + 2.25 * s);
    Distributed(rho, s, c, d, c2);
  }

  lemma Distributed(rho: real, s: real, c: real, d: real, c2: real)
    requires s == rho * rho && c == rho * s && d == s * s && c2 == 3.0 - 10.0 * rho + 9.0 * s + 6.0 * c
    ensures rho * c2 == 3.0 * rho - 10.0 * s + 9.0 * c + 6.0 * d
  {
    assert rho * c == d;
  }

  lemma Square(x: real, y: real)
    requires y == x * x
    ensures y >= 0.0
  {
  }

  /** Where shaping was needed for acceleration or jerk, the landing after it is
      too fast to be held. The state before was at rest, or came from a free
      step as well. */
  lemma TooFast(e0: real, u0: real, e: real, u: real, g: real, e': real, u': real, rho: real, r: Bounds, rested: bool)
    requires 0.0 < rho <= 0.5 && Approaching(e, u, rho) && FreeStepTo(e, u, e', u', rho)
    requires if rested then u == 0.0 && g == 0.0
             else Approaching(e0, u0, rho) && FreeStepTo(e0, u0, e, u, rho) && g == FreeSwing(rho, e0, u0)
    requires 0.0 < r.jerk <= r.acceleration && e <= r.velocity && !Within(e, u, g, r)
    ensures e >= e' > 0.0 && 2.0 * e' - u' > r.jerk
  {
    AccelerationCarriesOver(e, u, e', u', rho);
    FreeApproaches(e, u, e', u', rho);
    hide FreeSwing;
    if !rested {
      JerkCarriesOver(e0, u0, e, u, e', u', rho);
      JerkIsUpward(e0, u0, e, u, g, rho);
    }
  }

  lemma JerkIsUpward(e0: real, u0: real, e: real, u: real, g: real, rho: real)
    requires 0.0 < rho <= 0.5 && Approaching(e, u, rho) && Approaching(e0, u0, rho)
    requires FreeStepTo(e0, u0, e, u, rho) && g == FreeSwing(rho, e0, u0)
    ensures 0.0 <= e - u - g <= e + u0
  {
    hide FreeSwing;
    HalfOf(rho, e, rho * e);
  }

  /** A free step of a motion, in travel per step. */
  ghost predicate Steps(m: Motion, m': Motion, target: real, rho: real, dt: real) {
    && Swing(m', dt) == FreeSwing(rho, target - m.position, Travel(m, dt))
    && FreeStepTo(target - m.position, Travel(m, dt), target - m'.position, Travel(m', dt), rho)
  }

  lemma FreeMotion(m: Motion, target: real, w: real, dt: real, rho: real)
    requires rho == w * dt
    ensures Steps(m, Integrated(m, DesiredAcceleration(target, m, w), dt), target, rho, dt)
  {
    hide DesiredAcceleration, Squared;
    var x := DesiredAcceleration(target, m, w);
    DesiredTravel(m, target, w, dt, rho);
    IntegratedTravel(m, x, dt);
    hide Travel, Integrated;
  }

  lemma IntegratedTravel(m: Motion, x: real, dt: real)
    ensures var next := Integrated(m, x, dt);
            && Swing(next, dt) == Squared(x, dt)
            && Travel(next, dt) == Travel(m, dt) + Squared(x, dt)
            && next.position == m.position + Travel(next, dt)
  {
    assert (m.velocity + x * dt) * dt == m.velocity * dt + x * dt * dt;
  }

  /** One joint in the unsaturated range: it approaches from one side or the other. */
  predicate Behind(m: Motion, target: real, rho: real, dt: real) {
    || Approaching(target - m.position, Travel(m, dt), rho)
    || Approaching(m.position - target, -Travel(m, dt), rho)
  }

  lemma SpeedIsBehind(m: Motion, target: real, w: real, rho: real, dt: real)
    requires rho == w * dt && w > 0.0 && dt > 0.0
    requires var e := target - m.position;
             (e >= 0.0 && 0.0 <= m.velocity <= w * e) || (e <= 0.0 && w * e <= m.velocity <= 0.0)
    ensures Behind(m, target, rho, dt)
  {
    var e, v := target - m.position, m.velocity;
    assert w * e * dt == rho * e;
    if e >= 0.0 && 0.0 <= v {
      MulNonNegative(v, dt);
      MulMonotone(v, w * e, dt);
    } else {
      MulNonNegative(-v, dt);
      MulMonotone(-v, -(w * e), dt);
      assert (-v) * dt == -(v * dt);
      assert -(w * e) * dt == rho * -e;
    }
  }

  lemma FreeSwingIsOdd(rho: real, e: real, u: real)
    ensures FreeSwing(rho, -e, -u) == -FreeSwing(rho, e, u)
  {
    assert rho * rho * (-e) == -(rho * rho * e);
    assert 2.0 * rho * (-u) == -(2.0 * rho * u);
  }

  /** The same as TooFast, from either side. */
  lemma TooFastEitherWay(e0: real, u0: real, e: real, u: real, g: real, e': real, u': real, rho: real, r: Bounds,
                         rested: bool)
    requires 0.0 < rho <= 0.5 && FreeStepTo(e, u, e', u', rho)
    requires Approaching(e, u, rho) || Approaching(-e, -u, rho)
    requires if rested then u == 0.0 && g == 0.0
             else && (Approaching(e0, u0, rho) || Approaching(-e0, -u0, rho))
                  && FreeStepTo(e0, u0, e, u, rho) && g == FreeSwing(rho, e0, u0)
    requires 0.0 < r.jerk <= r.acceleration && Abs(e) <= r.velocity && !Within(e, u, g, r)
    ensures (e > 0.0 && e' > 0.0 && 2.0 * e' - u' > r.jerk) || (e < 0.0 && e' < 0.0 && 2.0 * e' - u' < -r.jerk)
  {
    hide FreeSwing;
    if (if rested then Approaching(e, u, rho) else Approaching(e0, u0, rho)) {
      if !rested {
        FreeApproaches(e0, u0, e, u, rho);
      }
      TooFast(e0, u0, e, u, g, e', u', rho, r, rested);
    } else {
      FreeSwingIsOdd(rho, e0, u0);
      FreeSwingIsOdd(rho, e, u);
      if !rested {
        FreeApproaches(-e0, -u0, -e, -u, rho);
      }
      TooFast(-e0, -u0, -e, -u, -g, -e', -u', rho, r, rested);
    }
  }

  /** The joint whose candidate crossed before the last shaped step goes past
      the destination after the landing. */
  lemma CrossingGoesPast(m0: Motion, m: Motion, m': Motion, target: real, a: real, jerk: real, b: Bounds, dt: real,
                         rho: real, rested: bool)
    requires a > 0.0 && jerk > 0.0 && dt > 0.0 && jerk <= b.jerk && 0.0 < rho <= 0.5
    requires Behind(m, target, rho, dt) && Steps(m, m', target, rho, dt)
    requires if rested then Travel(m, dt) == 0.0 && Swing(m, dt) == 0.0
             else Behind(m0, target, rho, dt) && Steps(m0, m, target, rho, dt)
    requires var r := Reach(b, dt);
             && 0.0 < r.jerk <= r.acceleration && Abs(target - m.position) <= r.velocity
             && !Within(target - m.position, Travel(m, dt), Swing(m, dt), r)
    ensures Crosses(Measured(target, m', dt), target, b, dt)
    ensures var next := Shaped(target, Measured(target, m', dt), dt, a, jerk).position;
            if target > m.position then next > target else next < target && target < m.position
  {
    hide Crosses, Travel, Swing, FreeSwing, FreeStepTo, Approaching, Reach, Shaped, Measured, StepRatio;
    var e0, u0 := target - m0.position, Travel(m0, dt);
    var e, u, g := target - m.position, Travel(m, dt), Swing(m, dt);
    var e', u' := target - m'.position, Travel(m', dt);
    SidesOf(m, target, rho, dt);
    if !rested {
      SidesOf(m0, target, rho, dt);
    }
    LandedTravel(m', target, dt);
    CandidateWithin(Measured(target, m', dt), target, b, dt);
    TooFastGoesOn(Measured(target, m', dt), a, jerk, b, dt);
    TooFastEitherWay(e0, u0, e, u, g, e', u', rho, Reach(b, dt), rested);
  }

  lemma SidesOf(m: Motion, target: real, rho: real, dt: real)
    requires Behind(m, target, rho, dt)
    ensures var e, u := target - m.position, Travel(m, dt);
            Approaching(e, u, rho) || Approaching(-e, -u, rho)
  {
    assert m.position - target == -(target - m.position);
  }

  // ---- how long shaping can last -------------------------------------------

  /** A geometric decay lies below a hyperbola. */
  lemma {:induction false} DecayBelow(rho: real, n: nat)
    requires 0.0 < rho <= 0.5
    ensures Pow(1.0 - rho * rho, n) >= 0.0
    ensures Pow(1.0 - rho * rho, n) * (1.0 + n as real * (rho * rho)) <= 1.0
  {
    var s := rho * rho;
    HalfOf(rho, rho, s);
    if n > 0 {
      DecayBelow(rho, n - 1);
      DecayStep(s, Pow(1.0 - s, n - 1), (n - 1) as real * s, n as real * s);
    }
  }

  lemma DecayStep(s: real, p: real, x: real, y: real)
    requires 0.0 <= s <= 0.25 && p >= 0.0 && x >= 0.0 && y == x + s && p * (1.0 + x) <= 1.0
    ensures (1.0 - s) * p >= 0.0 && ((1.0 - s) * p) * (1.0 + y) <= 1.0
  {
    MulNonNegative(1.0 - s, p);
    MulNonNegative(s, y);
    MulNonNegative(p, s * y);
    assert ((1.0 - s) * p) * (1.0 + y) == p * (1.0 + x) - p * (s * y);
  }

  /** After n free steps an error this small needs no more shaping. */
  lemma DecayedIsWithin(e0: real, u0: real, e: real, u: real, g: real, start: real, rho: real, n: nat, r: Bounds)
    requires 0.0 < rho <= 0.5 && Approaching(e0, u0, rho) && FreeStepTo(e0, u0, e, u, rho) && g == FreeSwing(rho, e0, u0)
    requires start >= 0.0 && e0 <= Pow(1.0 - rho * rho, n) * start
    requires 1.5 * start <= (1.0 + n as real * (rho * rho)) * r.jerk
    requires 0.0 < r.jerk <= r.acceleration && e <= r.velocity
    ensures Within(e, u, g, r)
  {
    var s := rho * rho;
    DecayBelow(rho, n);
    SmallEnough(e0, start, Pow(1.0 - s, n), 1.0 + n as real * s, r.jerk);
    hide *;
    SmallIsWithin(e0, u0, e, u, g, rho, r);
  }

  lemma SmallIsWithin(e0: real, u0: real, e: real, u: real, g: real, rho: real, r: Bounds)
    requires 0.0 < rho <= 0.5 && Approaching(e0, u0, rho) && FreeStepTo(e0, u0, e, u, rho) && g == FreeSwing(rho, e0, u0)
    requires 0.0 < r.jerk <= r.acceleration && e <= r.velocity && 1.5 * e0 <= r.jerk
    ensures Within(e, u, g, r)
  {
    hide FreeSwing;
    FreeApproaches(e0, u0, e, u, rho);
    JerkIsUpward(e0, u0, e, u, g, rho);
    HalfOf(rho, e0, rho * e0);
    HalfOf(rho, e, rho * e);
  }

  lemma SmallEnough(e: real, start: real, p: real, c: real, jerk: real)
    requires p >= 0.0 && e <= p * start && p * c <= 1.0 && 1.5 * start <= c * jerk && jerk > 0.0
    ensures 1.5 * e <= jerk
  {
    MulMonotone(1.5 * start, c * jerk, p);
    assert (c * jerk) * p == (p * c) * jerk;
    MulMonotone(p * c, 1.0, jerk);
    assert 1.5 * start * p == 1.5 * (p * start);
  }

  /** What remains of an error after n cycles. */
  ghost predicate DecayedTo(e: real, start: real, rho: real, n: nat) {
    Abs(e) <= Pow(1.0 - rho * rho, n) * Abs(start)
  }

  /** n cycles bring this error below the jerk boundary. */
  ghost predicate LongEnough(start: real, rho: real, n: nat, jerk: real) {
    1.5 * Abs(start) <= (1.0 + n as real * (rho * rho)) * jerk
  }

  lemma DecayedEitherWay(e0: real, u0: real, e: real, u: real, g: real, start: real, rho: real, n: nat, r: Bounds)
    requires 0.0 < rho <= 0.5 && (Approaching(e0, u0, rho) || Approaching(-e0, -u0, rho))
    requires FreeStepTo(e0, u0, e, u, rho) && g == FreeSwing(rho, e0, u0)
    requires DecayedTo(e0, start, rho, n) && LongEnough(start, rho, n, r.jerk)
    requires 0.0 < r.jerk <= r.acceleration && Abs(e) <= r.velocity
    ensures Within(e, u, g, r)
  {
    hide FreeSwing, Pow;
    if Approaching(e0, u0, rho) {
      DecayedIsWithin(e0, u0, e, u, g, Abs(start), rho, n, r);
    } else {
      FreeSwingIsOdd(rho, e0, u0);
      DecayedIsWithin(-e0, -u0, -e, -u, -g, Abs(start), rho, n, r);
    }
  }
}
