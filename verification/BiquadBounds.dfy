/**
  A stable second-order filter forgets geometrically, and so answers a bounded signal with
  a bounded one, however long it is.
 */
module BiquadBounds {
  import opened Biquad
  import opened BiquadDecay

  // ---------------------------------------------------------------------------
  // Geometric decay
  // ---------------------------------------------------------------------------

  function Power(x: real, n: nat): real {
    if n == 0 then 1.0 else Times(x, Power(x, n - 1))
  }

  lemma MarginSmall(c: Coefficients)
    requires Stable(c)
    ensures -4.0 <= Margin(c.a1, c.a2) <= 0.0
  {
    Product(1.0 + c.a2 - c.a1, 1.0 + c.a2 + c.a1);
    assert -Margin(c.a1, c.a2) == Times(1.0 + c.a2 - c.a1, 1.0 + c.a2 + c.a1);
    Square(c.a1);
    SquareWithin(1.0 + c.a2, 2.0);
    assert Margin(c.a1, c.a2) == Sq(c.a1) - Sq(1.0 + c.a2) && Sq(2.0) == 4.0;
  }

  lemma RateSmall(c: Coefficients)
    requires Stable(c)
    ensures 0.0 < Rate(c) <= 0.2
  {
    var dd := Sq(Margin(c.a1, c.a2));
    RatePositive(c);
    MarginSmall(c);
    SquareWithin(Margin(c.a1, c.a2), 4.0);
    Square(Margin(c.a1, c.a2));
    assert Sq(4.0) == 16.0;
    TimesMonotone(1.0 - c.a2, 2.0, dd);
    assert Times(2.0, dd) <= 32.0;
  }

  /** After 2n samples of silence at most the n-th power of (1 - rate) of the energy is
      left. */
  lemma {:induction false} DecaysGeometrically(c: Coefficients, z: Delay, n: nat)
    requires Stable(c)
    ensures Ringing(c, Ring(c, z, 2 * n)) <= Times(Power(1.0 - Rate(c), n), Ringing(c, z))
    decreases n
  {
    if n > 0 {
      var before, q := Ring(c, z, 2 * (n - 1)), 1.0 - Rate(c);
      var middle := Ring(c, z, 2 * n - 1);
      assert middle == Shift(c, before, 0.0);
      assert Ring(c, z, 2 * n) == Shift(c, middle, 0.0);
      DecaysGeometrically(c, z, n - 1);
      TwoRings(c, before);
      RateSmall(c);
      PowerNext(q, Power(q, n - 1), Ringing(c, z), Ringing(c, before), Ringing(c, Ring(c, z, 2 * n)), Rate(c));
    }
  }

  lemma PowerNext(q: real, power: real, start: real, e: real, after: real, rate: real)
    requires q == 1.0 - rate && q >= 0.0 && e <= Times(power, start) && after <= e - Times(rate, e)
    ensures after <= Times(Times(q, power), start)
  {
    TimesMonotone(e, Times(power, start), q);
    assert e - Times(rate, e) == Times(e, q);
    assert Times(Times(power, start), q) == Times(Times(q, power), start);
  }

  // ---------------------------------------------------------------------------
  // Sums of states
  // ---------------------------------------------------------------------------

  function Plus(z: Delay, w: Delay): Delay {
    Delay(z.z1 + w.z1, z.z2 + w.z2)
  }

  function Scale(k: real, z: Delay): Delay {
    Delay(k * z.z1, k * z.z2)
  }

  lemma CrossSplit(d: real, u: real, v: real, u': real, v': real, s: real, t: real, x: real, y: real)
    requires s == u + u' && t == v + v' && x == d * u - u' && y == d * v - v'
    ensures Times(d * (1.0 + d), u * v) + Times(d + 1.0, u' * v') - Times(d, s * t) == x * y
  {
  }

  lemma EnergyLinear(c: Coefficients, k: real, uu: real, vv: real, uv: real, k': real, uu': real, vv': real, uv': real,
                     k'': real, uu'': real, vv'': real, uv'': real, ruu: real, rvv: real, ruv: real)
    requires Times(k, uu) + Times(k', uu') - Times(k'', uu'') == ruu
    requires Times(k, vv) + Times(k', vv') - Times(k'', vv'') == rvv
    requires Times(k, uv) + Times(k', uv') - Times(k'', uv'') == ruv
    ensures Times(k, Form(c, uu, vv, uv)) + Times(k', Form(c, uu', vv', uv')) - Times(k'', Form(c, uu'', vv'', uv''))
         == Form(c, ruu, rvv, ruv)
  {
    FormTimes(c, k, uu, vv, uv);
    FormTimes(c, k', uu', vv', uv');
    FormTimes(c, k'', uu'', vv'', uv'');
    FormSums(c, Times(k, uu), Times(k, vv), Times(k, uv), Times(k', uu'), Times(k', vv'), Times(k', uv'),
             Times(k'', uu''), Times(k'', vv''), Times(k'', uv''));
  }

  lemma FormSums(c: Coefficients, x: real, y: real, z: real, x': real, y': real, z': real, x'': real, y'': real, z'': real)
    ensures Form(c, x + x' - x'', y + y' - y'', z + z' - z'') == Form(c, x, y, z) + Form(c, x', y', z') - Form(c, x'', y'', z'')
  {
    Spread(1.0 + c.a2, x, x', x'');
    Spread(1.0 + c.a2, y, y', y'');
    Spread(2.0 * c.a1, z, z', z'');
  }

  lemma Spread(b: real, x: real, x': real, x'': real)
    ensures b * (x + x' - x'') == b * x + b * x' - b * x''
  {
  }

  /** The energy from the squares and the product of the two outputs. */
  function Form(c: Coefficients, uu: real, vv: real, uv: real): real {
    (1.0 + c.a2) * uu + (1.0 + c.a2) * vv + 2.0 * c.a1 * uv
  }

  lemma EnergyIsForm(c: Coefficients, u: real, v: real)
    ensures Energy(c, u, v) == Form(c, u * u, v * v, u * v)
  {
  }

  lemma EnergyPositive(c: Coefficients, u: real, v: real)
    requires Stable(c)
    ensures Energy(c, u, v) >= 0.0
  {
    EnergyBoundsOutput(c, u, v);
    Square(v);
    Product(Reserve(c), Sq(v));
  }

  /** For any d > 0: the energy of a sum, by those of its parts. */
  lemma EnergyOfSum(c: Coefficients, d: real, u: real, v: real, u': real, v': real)
    requires Stable(c) && d > 0.0
    ensures Times(d, Energy(c, u + u', v + v')) <=
      Times(d * (1.0 + d), Energy(c, u, v)) + Times(d + 1.0, Energy(c, u', v'))
  {
    var x, y, s, t := d * u - u', d * v - v', u + u', v + v';
    CrossSplit(d, u, u, u', u', s, s, x, x);
    CrossSplit(d, v, v, v', v', t, t, y, y);
    CrossSplit(d, u, v, u', v', s, t, x, y);
    EnergyLinear(c, d * (1.0 + d), u * u, v * v, u * v, d + 1.0, u' * u', v' * v', u' * v',
                 d, s * s, t * t, s * t, x * x, y * y, x * y);
    EnergySum(c, d * (1.0 + d), d + 1.0, d, u, v, u', v', s, t, x, y);
  }

  lemma EnergySum(c: Coefficients, k: real, k': real, d: real,
                  u: real, v: real, u': real, v': real, s: real, t: real, x: real, y: real)
    requires Stable(c)
    requires Times(k, Form(c, u * u, v * v, u * v)) + Times(k', Form(c, u' * u', v' * v', u' * v'))
           - Times(d, Form(c, s * s, t * t, s * t)) == Form(c, x * x, y * y, x * y)
    ensures Times(d, Energy(c, s, t)) <= Times(k, Energy(c, u, v)) + Times(k', Energy(c, u', v'))
  {
    EnergyIsForm(c, u, v);
    EnergyIsForm(c, u', v');
    EnergyIsForm(c, s, t);
    EnergyIsForm(c, x, y);
    EnergyPositive(c, x, y);
  }

  lemma RingingOfSum(c: Coefficients, d: real, z: Delay, w: Delay)
    requires Stable(c) && d > 0.0
    ensures Times(d, Ringing(c, Plus(z, w))) <=
      Times(d * (1.0 + d), Ringing(c, z)) + Times(d + 1.0, Ringing(c, w))
  {
    var u, u' := z.z2 - c.a1 * z.z1, w.z2 - c.a1 * w.z1;
    AheadOfSum(c, z, w, u, u');
    RingingIs(c, z, u);
    RingingIs(c, w, u');
    EnergyOfSum(c, d, u, z.z1, u', w.z1);
  }

  lemma AheadOfSum(c: Coefficients, z: Delay, w: Delay, u: real, u': real)
    requires u == z.z2 - c.a1 * z.z1 && u' == w.z2 - c.a1 * w.z1
    ensures Ringing(c, Plus(z, w)) == Energy(c, u + u', z.z1 + w.z1)
  {
    RingingIs(c, Plus(z, w), u + u');
  }

  lemma RingingOfScaled(c: Coefficients, k: real, z: Delay)
    ensures Ringing(c, Scale(k, z)) == Times(Sq(k), Ringing(c, z))
  {
    var u := z.z2 - c.a1 * z.z1;
    RingingIs(c, z, u);
    AheadOfScaled(c, k, z, u);
    EnergyScaled(c, k, u, z.z1);
  }

  lemma AheadOfScaled(c: Coefficients, k: real, z: Delay, u: real)
    requires u == z.z2 - c.a1 * z.z1
    ensures Ringing(c, Scale(k, z)) == Energy(c, k * u, k * z.z1)
  {
    assert k * z.z2 - c.a1 * (k * z.z1) == k * u;
    RingingIs(c, Scale(k, z), k * u);
  }

  lemma EnergyScaled(c: Coefficients, k: real, u: real, v: real)
    ensures Energy(c, k * u, k * v) == Times(Sq(k), Energy(c, u, v))
  {
    EnergyIsForm(c, u, v);
    EnergyIsForm(c, k * u, k * v);
    FormScaled(c, k, u, v);
  }

  lemma FormScaled(c: Coefficients, k: real, u: real, v: real)
    ensures Form(c, (k * u) * (k * u), (k * v) * (k * v), (k * u) * (k * v)) == Times(Sq(k), Form(c, u * u, v * v, u * v))
  {
    var kk := Sq(k);
    assert (k * u) * (k * u) == Times(kk, u * u) && (k * v) * (k * v) == Times(kk, v * v);
    assert (k * u) * (k * v) == Times(kk, u * v);
    FormTimes(c, kk, u * u, v * v, u * v);
  }

  lemma FormTimes(c: Coefficients, k: real, uu: real, vv: real, uv: real)
    ensures Form(c, Times(k, uu), Times(k, vv), Times(k, uv)) == Times(k, Form(c, uu, vv, uv))
  {
  }

  // ---------------------------------------------------------------------------
  // Driven by a signal
  // ---------------------------------------------------------------------------

  /** What one sample of height 1 leaves in the delay line. */
  function Kick(c: Coefficients): Delay {
    Shift(c, REST, 1.0)
  }

  lemma ShiftSplits(c: Coefficients, z: Delay, x: real)
    ensures Shift(c, z, x) == Plus(Shift(c, z, 0.0), Scale(x, Kick(c)))
  {
    var y := Output(c, z, x);
    assert y == x * c.b0 + z.z1;
    assert c.a1 * y == x * (c.a1 * c.b0) + c.a1 * z.z1;
    assert c.a2 * y == x * (c.a2 * c.b0) + c.a2 * z.z1;
    assert Kick(c) == Delay(c.b1 - c.a1 * c.b0, c.b2 - c.a2 * c.b0);
    assert x * (c.b1 - c.a1 * c.b0) == x * c.b1 - x * (c.a1 * c.b0);
    assert x * (c.b2 - c.a2 * c.b0) == x * c.b2 - x * (c.a2 * c.b0);
    ShiftSilent(c, z);
  }

  lemma SilentPlus(c: Coefficients, z: Delay, w: Delay)
    ensures Shift(c, Plus(z, w), 0.0) == Plus(Shift(c, z, 0.0), Shift(c, w, 0.0))
  {
    ShiftSilent(c, z);
    ShiftSilent(c, w);
    ShiftSilent(c, Plus(z, w));
  }

  lemma SilentScale(c: Coefficients, k: real, z: Delay)
    ensures Shift(c, Scale(k, z), 0.0) == Scale(k, Shift(c, z, 0.0))
  {
    ShiftSilent(c, z);
    ShiftSilent(c, Scale(k, z));
    assert k * z.z2 - c.a1 * (k * z.z1) == k * (z.z2 - c.a1 * z.z1);
    assert -(c.a2 * (k * z.z1)) == k * -(c.a2 * z.z1);
  }

  lemma PlusAssociates(z: Delay, w: Delay, v: Delay)
    ensures Plus(Plus(z, w), v) == Plus(z, Plus(w, v))
  {
  }

  /** Two samples: what silence would leave, and what they add. */
  lemma TwoShiftsSplit(c: Coefficients, z: Delay, x0: real, x1: real)
    ensures Shift(c, Shift(c, z, x0), x1) == Plus(Shift(c, Shift(c, z, 0.0), 0.0),
      Plus(Scale(x0, Shift(c, Kick(c), 0.0)), Scale(x1, Kick(c))))
  {
    var still := Shift(c, z, 0.0);
    ShiftSplits(c, z, x0);
    ShiftSplits(c, Shift(c, z, x0), x1);
    SilentPlus(c, still, Scale(x0, Kick(c)));
    SilentScale(c, x0, Kick(c));
    PlusAssociates(Shift(c, still, 0.0), Scale(x0, Shift(c, Kick(c), 0.0)), Scale(x1, Kick(c)));
  }

  predicate Within(xs: seq<real>, bound: real) {
    forall i :: 0 <= i < |xs| ==> -bound <= xs[i] <= bound
  }

  lemma Doubled(c: Coefficients, z: Delay, w: Delay)
    requires Stable(c)
    ensures Ringing(c, Plus(z, w)) <= 2.0 * Ringing(c, z) + 2.0 * Ringing(c, w)
  {
    RingingOfSum(c, 1.0, z, w);
  }

  lemma ScaledWithin(c: Coefficients, k: real, z: Delay, bound: real)
    requires Stable(c) && -bound <= k <= bound
    ensures Ringing(c, Scale(k, z)) <= Times(Sq(bound), Ringing(c, z))
  {
    RingingOfScaled(c, k, z);
    SquareWithin(k, bound);
    RingingPositive(c, z);
    TimesMonotone(Sq(k), Sq(bound), Ringing(c, z));
  }

  /** Bounds the energy that two samples within the bound bring in. */
  function Inflow(c: Coefficients, bound: real): real {
    2.0 * Times(Sq(bound), Ringing(c, Shift(c, Kick(c), 0.0))) + 2.0 * Times(Sq(bound), Ringing(c, Kick(c)))
  }

  lemma InflowBounds(c: Coefficients, x0: real, x1: real, bound: real)
    requires Stable(c) && -bound <= x0 <= bound && -bound <= x1 <= bound
    ensures Ringing(c, Plus(Scale(x0, Shift(c, Kick(c), 0.0)), Scale(x1, Kick(c)))) <= Inflow(c, bound)
    ensures Inflow(c, bound) >= 0.0
  {
    var g0, g1 := Shift(c, Kick(c), 0.0), Kick(c);
    Doubled(c, Scale(x0, g0), Scale(x1, g1));
    ScaledWithin(c, x0, g0, bound);
    ScaledWithin(c, x1, g1, bound);
    RingingPositive(c, Plus(Scale(x0, g0), Scale(x1, g1)));
  }

  /** Two driven samples: part of the energy is lost, and a bounded amount comes in. */
  lemma TwoDriven(c: Coefficients, z: Delay, x0: real, x1: real, bound: real, limit: real)
    requires Stable(c) && -bound <= x0 <= bound && -bound <= x1 <= bound
    requires Ringing(c, z) <= limit && limit >= Ceiling(c, bound)
    ensures Ringing(c, Shift(c, Shift(c, z, x0), x1)) <= limit
  {
    var still := Shift(c, Shift(c, z, 0.0), 0.0);
    var forced := Plus(Scale(x0, Shift(c, Kick(c), 0.0)), Scale(x1, Kick(c)));
    TwoShiftsSplit(c, z, x0, x1);
    TwoRings(c, z);
    RateSmall(c);
    InflowBounds(c, x0, x1, bound);
    var half := Rate(c) / 2.0;
    RingingOfSum(c, half, still, forced);
    CeilingReached(c, bound, limit);
    Balance(half, Ringing(c, z), Ringing(c, still), Ringing(c, forced), Inflow(c, bound), limit,
            Ringing(c, Plus(still, forced)));
  }

  /** The energy at which the loss makes up for what comes in. */
  function Ceiling(c: Coefficients, bound: real): real
    requires Stable(c)
  {
    RatePositive(c);
    StrictProduct(Rate(c) / 2.0, Rate(c) / 2.0);
    Times(1.0 + Rate(c) / 2.0, Inflow(c, bound)) / Sq(Rate(c) / 2.0)
  }

  lemma CeilingReached(c: Coefficients, bound: real, limit: real)
    requires Stable(c) && limit >= Ceiling(c, bound) && Inflow(c, bound) >= 0.0
    ensures Times(limit, Sq(Rate(c) / 2.0)) >= Times(1.0 + Rate(c) / 2.0, Inflow(c, bound))
    ensures limit >= 0.0
  {
    var half := Rate(c) / 2.0;
    RatePositive(c);
    StrictProduct(half, half);
    Quotient(Times(1.0 + half, Inflow(c, bound)), Sq(half), Ceiling(c, bound));
    TimesMonotone(Ceiling(c, bound), limit, Sq(half));
    Product(1.0 + half, Inflow(c, bound));
    NotNegative(Ceiling(c, bound), Sq(half));
  }

  lemma Quotient(a: real, b: real, q: real)
    requires b > 0.0 && q == a / b
    ensures Times(q, b) == a
  {
  }

  lemma NotNegative(q: real, b: real)
    requires b > 0.0 && Times(q, b) >= 0.0
    ensures q >= 0.0
  {
    if q < 0.0 {
      StrictProduct(-q, b);
    }
  }

  lemma Balance(d: real, e: real, still: real, forced: real, inflow: real, limit: real, after: real)
    requires 0.0 < d <= 0.1 && e <= limit && 0.0 <= limit && forced <= inflow
    requires still <= e - Times(2.0 * d, e)
    requires Times(limit, Sq(d)) >= Times(1.0 + d, inflow)
    requires Times(d, after) <= Times(d * (1.0 + d), still) + Times(d + 1.0, forced)
    ensures after <= limit
  {
    StillLeft(d, e, still, limit);
    TimesMonotone(forced, inflow, 1.0 + d);
    Remainder(d, still, forced, inflow, limit);
    Commute(d, after);
    Cancel(after, limit, d);
  }

  lemma Commute(x: real, y: real)
    ensures Times(x, y) == Times(y, x)
  {
  }

  lemma StillLeft(d: real, e: real, still: real, limit: real)
    requires 0.0 < d <= 0.1 && e <= limit && still <= e - Times(2.0 * d, e)
    ensures Times(still, d * (1.0 + d)) <= Times(Times(limit, 1.0 - 2.0 * d), d * (1.0 + d))
  {
    assert e - Times(2.0 * d, e) == Times(e, 1.0 - 2.0 * d);
    TimesMonotone(e, limit, 1.0 - 2.0 * d);
    Product(d, 1.0 + d);
    assert Times(d, 1.0 + d) == d * (1.0 + d);
    TimesMonotone(still, Times(limit, 1.0 - 2.0 * d), d * (1.0 + d));
  }

  lemma Remainder(d: real, still: real, forced: real, inflow: real, limit: real)
    requires 0.0 < d && 0.0 <= limit
    requires Times(still, d * (1.0 + d)) <= Times(Times(limit, 1.0 - 2.0 * d), d * (1.0 + d))
    requires Times(forced, 1.0 + d) <= Times(inflow, 1.0 + d)
    requires Times(limit, Sq(d)) >= Times(1.0 + d, inflow)
    ensures Times(d * (1.0 + d), still) + Times(d + 1.0, forced) <= Times(limit, d)
  {
    var ld := Times(limit, d);
    Product(limit, d);
    Square(d);
    Product(ld, Sq(d));
    assert Times(Times(limit, 1.0 - 2.0 * d), d * (1.0 + d)) == ld - Times(limit, Sq(d)) - 2.0 * Times(ld, Sq(d));
  }

  // ---------------------------------------------------------------------------
  // Bounded in, bounded out
  // ---------------------------------------------------------------------------

  lemma AboveSquare(y: real)
    ensures Abs(y) <= 1.0 + Sq(y)
  {
    Square(Abs(y) - 1.0);
    Square(y);
    assert Sq(Abs(y) - 1.0) == Sq(y) - 2.0 * Abs(y) + 1.0;
  }

  /** How far the energy lets the delayed part go. */
  function Reach(c: Coefficients, energy: real): real
    requires Stable(c)
  {
    1.0 + energy / Reserve(c)
  }

  /** One output, from the energy of the state and the size of the sample. */
  function Loudness(c: Coefficients, bound: real, energy: real): real
    requires Stable(c)
  {
    Times(Abs(c.b0), bound) + Reach(c, energy)
  }

  lemma OutputWithin(c: Coefficients, z: Delay, x: real, bound: real, reach: real)
    requires -bound <= x <= bound && Abs(z.z1) <= reach
    ensures Abs(Output(c, z, x)) <= Times(Abs(c.b0), bound) + reach
  {
    ProductWithin(x, c.b0, bound);
    Triangle(x * c.b0, z.z1, Times(Abs(c.b0), bound), reach);
  }

  lemma StateWithin(c: Coefficients, z: Delay, energy: real)
    requires Stable(c) && Ringing(c, z) <= energy
    ensures Abs(z.z1) <= Reach(c, energy)
  {
    RingingBounds(c, z);
    AboveSquare(z.z1);
    ShareOf(Sq(z.z1), Reserve(c), energy);
  }

  lemma ShareOf(y: real, k: real, e: real)
    requires k > 0.0 && k * y <= e
    ensures y <= e / k
  {
    Quotient(e, k, e / k);
    Cancel(y, e / k, k);
  }

  lemma Triangle(x: real, y: real, a: real, b: real)
    requires -a <= x <= a && Abs(y) <= b
    ensures Abs(x + y) <= a + b
  {
  }

  lemma ProductWithin(x: real, b: real, bound: real)
    requires -bound <= x <= bound
    ensures -Times(Abs(b), bound) <= x * b <= Times(Abs(b), bound)
  {
    Product(Abs(b), bound - x);
    Product(Abs(b), bound + x);
  }

  lemma LoudnessGrows(c: Coefficients, bound: real, e: real, e': real)
    requires Stable(c) && e <= e'
    ensures Loudness(c, bound, e) <= Loudness(c, bound, e')
  {
    Quotient(e, Reserve(c), e / Reserve(c));
    Quotient(e', Reserve(c), e' / Reserve(c));
    Cancel(e / Reserve(c), e' / Reserve(c), Reserve(c));
  }

  /** The energy after one more sample. */
  function OneMore(c: Coefficients, bound: real, limit: real): real {
    2.0 * limit + 2.0 * Times(Sq(bound), Ringing(c, Kick(c)))
  }

  lemma OneDriven(c: Coefficients, z: Delay, x: real, bound: real, limit: real)
    requires Stable(c) && -bound <= x <= bound && Ringing(c, z) <= limit
    ensures Ringing(c, Shift(c, z, x)) <= OneMore(c, bound, limit) && limit <= OneMore(c, bound, limit)
  {
    ShiftSplits(c, z, x);
    Doubled(c, Shift(c, z, 0.0), Scale(x, Kick(c)));
    SilenceSettles(c, z);
    ScaledWithin(c, x, Kick(c), bound);
    RingingPositive(c, z);
    RingingPositive(c, Scale(x, Kick(c)));
  }

  /** Every sample of the answer, two at a time. */
  lemma {:induction false} AnswerWithin(c: Coefficients, z: Delay, xs: seq<real>, bound: real, limit: real, i: nat)
    requires Stable(c) && Within(xs, bound) && i < |xs|
    requires Ringing(c, z) <= limit && limit >= Ceiling(c, bound)
    ensures Abs(Filter(c, z, xs)[i]) <= Loudness(c, bound, OneMore(c, bound, limit))
    decreases |xs|
  {
    var next, more := Shift(c, z, xs[0]), OneMore(c, bound, limit);
    OneDriven(c, z, xs[0], bound, limit);
    if i == 0 {
      StateWithin(c, z, limit);
      OutputWithin(c, z, xs[0], bound, Reach(c, limit));
      LoudnessGrows(c, bound, limit, more);
    } else if i == 1 {
      StateWithin(c, next, more);
      OutputWithin(c, next, xs[1], bound, Reach(c, more));
      assert Filter(c, z, xs)[1] == Filter(c, next, xs[1..])[0];
    } else {
      TwoDriven(c, z, xs[0], xs[1], bound, limit);
      AnswerWithin(c, Shift(c, next, xs[1]), xs[2..], bound, limit, i - 2);
      LaterAnswer(c, z, xs, i);
    }
  }

  lemma LaterAnswer(c: Coefficients, z: Delay, xs: seq<real>, i: nat)
    requires 2 <= i < |xs|
    ensures Filter(c, z, xs)[i] == Filter(c, Shift(c, Shift(c, z, xs[0]), xs[1]), xs[2..])[i - 2]
  {
    assert xs[1..][1..] == xs[2..] && xs[1..][0] == xs[1];
    assert Filter(c, z, xs)[i] == Filter(c, Shift(c, z, xs[0]), xs[1..])[i - 1];
  }

  /** A bounded signal is answered by a bounded one: for every state and every bound on the
      input there is a bound on the output that holds however long the signal is. */
  lemma BoundedAnswer(c: Coefficients, z: Delay, bound: real) returns (limit: real)
    requires Stable(c)
    ensures forall xs, i :: Within(xs, bound) && 0 <= i < |xs| ==> Abs(Filter(c, z, xs)[i]) <= limit
  {
    var top := if Ringing(c, z) < Ceiling(c, bound) then Ceiling(c, bound) else Ringing(c, z);
    limit := Loudness(c, bound, OneMore(c, bound, top));
    forall xs, i | Within(xs, bound) && 0 <= i < |xs| ensures Abs(Filter(c, z, xs)[i]) <= limit {
      AnswerWithin(c, z, xs, bound, top, i);
    }
  }
}
