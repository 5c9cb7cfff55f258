/**
  The two-state (transposed) second-order filter over exact reals: it computes its
  difference equation, it is linear, and the tuned low-pass and high-pass forms are
  stable. Sine and cosine of the tuning angle are inputs.
 */
module Biquad {

  datatype Coefficients = Coefficients(b0: real, b1: real, b2: real, a1: real, a2: real)
  datatype Delay = Delay(z1: real, z2: real)

  const IDENTITY := Coefficients(1.0, 0.0, 0.0, 0.0, 0.0)
  const REST := Delay(0.0, 0.0)
  const EPSILON: real := 0.00000011920929

  // ---------------------------------------------------------------------------
  // Signals
  // ---------------------------------------------------------------------------

  function Output(c: Coefficients, z: Delay, x: real): real {
    x * c.b0 + z.z1
  }

  function Shift(c: Coefficients, z: Delay, x: real): Delay {
    var y := Output(c, z, x);
    Delay(x * c.b1 + z.z2 - c.a1 * y, x * c.b2 - c.a2 * y)
  }

  /** The response to a finite signal. */
  function Filter(c: Coefficients, z: Delay, xs: seq<real>): (ys: seq<real>)
    ensures |ys| == |xs|
    decreases |xs|
  {
    if xs == [] then [] else [Output(c, z, xs[0])] + Filter(c, Shift(c, z, xs[0]), xs[1..])
  }

  function Settled(c: Coefficients, z: Delay, xs: seq<real>): Delay
    decreases |xs|
  {
    if xs == [] then z else Settled(c, Shift(c, z, xs[0]), xs[1..])
  }

  /** A signal is silent before it starts. */
  function At(xs: seq<real>, n: int): real {
    if 0 <= n < |xs| then xs[n] else 0.0
  }

  /** What the delay line must hold for the past `(x1, x2)` of the input and `(y1, y2)` of
      the output. */
  function Past(c: Coefficients, x1: real, x2: real, y1: real, y2: real): Delay {
    Delay(c.b1 * x1 + c.b2 * x2 - c.a1 * y1 - c.a2 * y2, c.b2 * x1 - c.a2 * y1)
  }

  ghost predicate Equation(c: Coefficients, x: real, x1: real, x2: real, y: real, y1: real, y2: real) {
    y == c.b0 * x + c.b1 * x1 + c.b2 * x2 - c.a1 * y1 - c.a2 * y2
  }

  lemma PastShifts(c: Coefficients, x: real, x1: real, x2: real, y1: real, y2: real)
    ensures var z := Past(c, x1, x2, y1, y2);
      var y := Output(c, z, x);
      Equation(c, x, x1, x2, y, y1, y2) && Shift(c, z, x) == Past(c, x, x1, y, y1)
  {
  }

  /** A signal may be filtered in parts. */
  lemma {:induction false} FilterConcat(c: Coefficients, z: Delay, xs: seq<real>, ys: seq<real>)
    ensures Filter(c, z, xs + ys) == Filter(c, z, xs) + Filter(c, Settled(c, z, xs), ys)
    ensures Settled(c, z, xs + ys) == Settled(c, Settled(c, z, xs), ys)
    decreases |xs|
  {
    if xs == [] {
      assert xs + ys == ys;
    } else {
      assert (xs + ys)[1..] == xs[1..] + ys;
      FilterConcat(c, Shift(c, z, xs[0]), xs[1..], ys);
    }
  }

  /** From any past, each output obeys the difference equation over what came before. */
  lemma {:induction false} FilterFrom(c: Coefficients, x1: real, x2: real, y1: real, y2: real, xs: seq<real>)
    ensures var ys := Filter(c, Past(c, x1, x2, y1, y2), xs);
      var px, py := [x2, x1] + xs, [y2, y1] + ys;
      forall n :: 0 <= n < |xs| ==> Equation(c, px[n + 2], px[n + 1], px[n], py[n + 2], py[n + 1], py[n])
    decreases |xs|
  {
    if xs != [] {
      var x := xs[0];
      var z := Past(c, x1, x2, y1, y2);
      var y := Output(c, z, x);
      PastShifts(c, x, x1, x2, y1, y2);
      FilterFrom(c, x, x1, y, y1, xs[1..]);
      var ys := Filter(c, z, xs);
      var px, py := [x2, x1] + xs, [y2, y1] + ys;
      assert px[1..] == [x1, x] + xs[1..] && py[1..] == [y1, y] + ys[1..];
      forall n | 0 <= n < |xs| ensures Equation(c, px[n + 2], px[n + 1], px[n], py[n + 2], py[n + 1], py[n]) {
        if n > 0 {
          var qx, qy := px[1..], py[1..];
          assert Equation(c, qx[n + 1], qx[n], qx[n - 1], qy[n + 1], qy[n], qy[n - 1]);
        }
      }
    }
  }

  /** From rest, on every finite signal, the transposed form is the difference equation
      y[n] = b0 x[n] + b1 x[n-1] + b2 x[n-2] - a1 y[n-1] - a2 y[n-2]. */
  lemma FilterIsDifferenceEquation(c: Coefficients, xs: seq<real>, n: nat)
    requires n < |xs|
    ensures var ys := Filter(c, REST, xs);
      Equation(c, xs[n], At(xs, n - 1), At(xs, n - 2), ys[n], At(ys, n - 1), At(ys, n - 2))
  {
    assert Past(c, 0.0, 0.0, 0.0, 0.0) == REST;
    FilterFrom(c, 0.0, 0.0, 0.0, 0.0, xs);
    var ys := Filter(c, REST, xs);
    var px, py := [0.0, 0.0] + xs, [0.0, 0.0] + ys;
    assert Equation(c, px[n + 2], px[n + 1], px[n], py[n + 2], py[n + 1], py[n]);
  }

  // ---------------------------------------------------------------------------
  // Linearity
  // ---------------------------------------------------------------------------

  function Combine(p: real, xs: seq<real>, q: real, ys: seq<real>): seq<real>
    requires |xs| == |ys|
  {
    seq(|xs|, i requires 0 <= i < |xs| => Mix(p, xs[i], q, ys[i]))
  }

  function Mix(p: real, x: real, q: real, y: real): real {
    p * x + q * y
  }

  function CombineDelay(p: real, z: Delay, q: real, w: Delay): Delay {
    Delay(Mix(p, z.z1, q, w.z1), Mix(p, z.z2, q, w.z2))
  }

  lemma MixTimes(p: real, x: real, q: real, v: real, k: real)
    ensures Mix(p, x, q, v) * k == Mix(p, x * k, q, v * k)
    ensures k * Mix(p, x, q, v) == Mix(p, k * x, q, k * v)
  {
    assert (p * x) * k == p * (x * k) && (q * v) * k == q * (v * k);
    assert k * (p * x) == p * (k * x) && k * (q * v) == q * (k * v);
  }

  lemma MixPlus(p: real, x: real, q: real, v: real, x': real, v': real)
    ensures Mix(p, x, q, v) + Mix(p, x', q, v') == Mix(p, x + x', q, v + v')
    ensures Mix(p, x, q, v) - Mix(p, x', q, v') == Mix(p, x - x', q, v - v')
  {
  }

  lemma OutputLinear(c: Coefficients, p: real, z: Delay, x: real, q: real, w: Delay, v: real)
    ensures Output(c, CombineDelay(p, z, q, w), Mix(p, x, q, v)) == Mix(p, Output(c, z, x), q, Output(c, w, v))
  {
    MixTimes(p, x, q, v, c.b0);
    MixPlus(p, x * c.b0, q, v * c.b0, z.z1, w.z1);
  }

  lemma StepLinear(c: Coefficients, p: real, z: Delay, x: real, q: real, w: Delay, v: real)
    ensures Output(c, CombineDelay(p, z, q, w), Mix(p, x, q, v)) == Mix(p, Output(c, z, x), q, Output(c, w, v))
    ensures Shift(c, CombineDelay(p, z, q, w), Mix(p, x, q, v)) == CombineDelay(p, Shift(c, z, x), q, Shift(c, w, v))
  {
    var y, u := Output(c, z, x), Output(c, w, v);
    OutputLinear(c, p, z, x, q, w, v);
    MixTimes(p, x, q, v, c.b1);
    MixTimes(p, x, q, v, c.b2);
    MixTimes(p, y, q, u, c.a1);
    MixTimes(p, y, q, u, c.a2);
    MixPlus(p, x * c.b1, q, v * c.b1, z.z2, w.z2);
    MixPlus(p, x * c.b1 + z.z2, q, v * c.b1 + w.z2, c.a1 * y, c.a1 * u);
    MixPlus(p, x * c.b2, q, v * c.b2, c.a2 * y, c.a2 * u);
  }

  lemma CombineTail(p: real, xs: seq<real>, q: real, ys: seq<real>)
    requires |xs| == |ys| > 0
    ensures Combine(p, xs, q, ys) == [Mix(p, xs[0], q, ys[0])] + Combine(p, xs[1..], q, ys[1..])
  {
  }

  /** Superposition, from any pair of states. */
  lemma {:induction false} FilterLinear(c: Coefficients, p: real, z: Delay, xs: seq<real>, q: real, w: Delay, vs: seq<real>)
    requires |xs| == |vs|
    ensures Filter(c, CombineDelay(p, z, q, w), Combine(p, xs, q, vs))
         == Combine(p, Filter(c, z, xs), q, Filter(c, w, vs))
    decreases |xs|
  {
    if xs != [] {
      StepLinear(c, p, z, xs[0], q, w, vs[0]);
      FilterLinear(c, p, Shift(c, z, xs[0]), xs[1..], q, Shift(c, w, vs[0]), vs[1..]);
      CombineTail(p, xs, q, vs);
      CombineTail(p, Filter(c, z, xs), q, Filter(c, w, vs));
    }
  }

  // ---------------------------------------------------------------------------
  // Stability
  // ---------------------------------------------------------------------------

  function Abs(x: real): real {
    if x < 0.0 then -x else x
  }

  /** Strictly inside the stability triangle. */
  predicate Stable(c: Coefficients) {
    Abs(c.a2) < 1.0 && Abs(c.a1) < 1.0 + c.a2
  }

  /** Energy of the ringing that two consecutive outputs carry. */
  function Energy(c: Coefficients, y1: real, y2: real): real {
    (1.0 + c.a2) * (Sq(y1) + Sq(y2)) + c.a1 * (2.0 * (y1 * y2))
  }

  lemma EnergyFalls(c: Coefficients, y: real, y1: real, y2: real)
    requires Stable(c) && y == -c.a1 * y1 - c.a2 * y2
    ensures Energy(c, y, y1) <= Energy(c, y1, y2)
  {
    var s := c.a1 * y1 + (1.0 + c.a2) * y2;
    EnergyDifference(c, y1, y2, y, s);
    Square(s);
    Product(1.0 - c.a2, Sq(s));
  }

  function Times(x: real, y: real): real {
    x * y
  }

  function Sq(x: real): real {
    Times(x, x)
  }

  lemma StrictProduct(x: real, y: real)
    requires x > 0.0 && y > 0.0
    ensures Times(x, y) > 0.0
  {
  }

  lemma Square(x: real)
    ensures Sq(x) >= 0.0
  {
  }

  lemma Product(a: real, b: real)
    requires a >= 0.0 && b >= 0.0
    ensures Times(a, b) >= 0.0
  {
  }

  lemma EnergyDifference(c: Coefficients, y1: real, y2: real, y: real, s: real)
    requires y == -c.a1 * y1 - c.a2 * y2 && s == c.a1 * y1 + (1.0 + c.a2) * y2
    ensures Energy(c, y, y1) == Energy(c, y1, y2) - Times(1.0 - c.a2, Sq(s))
  {
  }

  /** How far inside the triangle: positive for stable coefficients. */
  function Reserve(c: Coefficients): real {
    1.0 + c.a2 - Abs(c.a1)
  }

  lemma CrossBound(y1: real, y2: real)
    ensures -(Sq(y1) + Sq(y2)) <= 2.0 * (y1 * y2) <= Sq(y1) + Sq(y2)
  {
    Square(y1 + y2);
    Square(y1 - y2);
    assert Sq(y1 + y2) == Sq(y1) + 2.0 * (y1 * y2) + Sq(y2);
    assert Sq(y1 - y2) == Sq(y1) - 2.0 * (y1 * y2) + Sq(y2);
  }

  lemma EnergyBoundsOutput(c: Coefficients, y1: real, y2: real)
    requires Stable(c)
    ensures Reserve(c) * Sq(y2) <= Energy(c, y1, y2)
  {
    var e, m := Sq(y1) + Sq(y2), 2.0 * (y1 * y2);
    CrossBound(y1, y2);
    Square(y1);
    EnergySplit(c, e, m);
    assert Energy(c, y1, y2) == (1.0 + c.a2) * e + c.a1 * m;
    Product(Reserve(c), Sq(y1));
    assert Reserve(c) * e == Reserve(c) * Sq(y1) + Reserve(c) * Sq(y2);
  }

  lemma EnergySplit(c: Coefficients, e: real, m: real)
    requires -e <= m <= e
    ensures Reserve(c) * e <= (1.0 + c.a2) * e + c.a1 * m
  {
    if c.a1 >= 0.0 {
      Product(c.a1, e + m);
    } else {
      Product(-c.a1, e - m);
    }
  }

  /** Ringing energy of a state: of the two outputs it will give in silence. */
  function Ringing(c: Coefficients, z: Delay): real {
    Energy(c, z.z2 - c.a1 * z.z1, z.z1)
  }

  lemma SilenceSettles(c: Coefficients, z: Delay)
    requires Stable(c)
    ensures Ringing(c, Shift(c, z, 0.0)) <= Ringing(c, z)
  {
    var next := Shift(c, z, 0.0);
    var y1 := z.z2 - c.a1 * z.z1;
    var y := next.z2 - c.a1 * next.z1;
    NextSilent(c, z, next, y1, y);
    RingingIs(c, z, y1);
    RingingIs(c, next, y);
    EnergyFalls(c, y, y1, z.z1);
  }

  lemma NextSilent(c: Coefficients, z: Delay, next: Delay, y1: real, y: real)
    requires next == Shift(c, z, 0.0) && y1 == z.z2 - c.a1 * z.z1 && y == next.z2 - c.a1 * next.z1
    ensures next.z1 == y1 && y == -c.a1 * y1 - c.a2 * z.z1
  {
    ShiftSilent(c, z);
  }

  lemma RingingIs(c: Coefficients, z: Delay, y: real)
    requires y == z.z2 - c.a1 * z.z1
    ensures Ringing(c, z) == Energy(c, y, z.z1)
  {
  }

  lemma ShiftSilent(c: Coefficients, z: Delay)
    ensures Output(c, z, 0.0) == z.z1
    ensures Shift(c, z, 0.0) == Delay(z.z2 - c.a1 * z.z1, -(c.a2 * z.z1))
  {
  }

  predicate Loudest(c: Coefficients, y: real, bound: real) {
    Reserve(c) * Sq(y) <= bound
  }

  lemma RingingBounds(c: Coefficients, z: Delay)
    requires Stable(c)
    ensures Loudest(c, z.z1, Ringing(c, z))
  {
    var y := z.z2 - c.a1 * z.z1;
    RingingIs(c, z, y);
    EnergyBoundsOutput(c, y, z.z1);
  }

  lemma FirstThenRest(c: Coefficients, y: real, ys: seq<real>, bound: real, lower: real)
    requires Loudest(c, y, bound) && lower <= bound && forall v <- ys :: Loudest(c, v, lower)
    ensures forall v <- [y] + ys :: Loudest(c, v, bound)
  {
    forall v | v in [y] + ys ensures Loudest(c, v, bound) {
      assert v == y || v in ys;
    }
  }

  predicate Silence(xs: seq<real>) {
    forall i :: 0 <= i < |xs| ==> xs[i] == 0.0
  }

  /** Once the input stops, a stable filter's output stays within a bound set by the state
      it was left in, however long one listens. */
  lemma {:induction false} RingingBounded(c: Coefficients, z: Delay, xs: seq<real>)
    requires Stable(c) && Silence(xs)
    ensures Reserve(c) > 0.0
    ensures forall y <- Filter(c, z, xs) :: Loudest(c, y, Ringing(c, z))
    decreases |xs|
  {
    if xs != [] {
      var next := Shift(c, z, 0.0);
      SilenceSettles(c, z);
      RingingBounds(c, z);
      RingingBounded(c, next, xs[1..]);
      ShiftSilent(c, z);
      assert xs[0] == 0.0;
      FirstThenRest(c, z.z1, Filter(c, next, xs[1..]), Ringing(c, z), Ringing(c, next));
    }
  }

  // ---------------------------------------------------------------------------
  // Tuning
  // ---------------------------------------------------------------------------

  function Normalized(b0: real, b1: real, b2: real, a0: real, a1: real, a2: real): Coefficients {
    if Abs(a0) < EPSILON then IDENTITY else Coefficients(b0 / a0, b1 / a0, b2 / a0, a1 / a0, a2 / a0)
  }

  function Alpha(sin: real, q: real): real {
    sin / (2.0 * (if q < 0.001 then 0.001 else q))
  }

  function LowPass(sin: real, cos: real, q: real): Coefficients {
    var alpha := Alpha(sin, q);
    Normalized((1.0 - cos) * 0.5, 1.0 - cos, (1.0 - cos) * 0.5, 1.0 + alpha, -2.0 * cos, 1.0 - alpha)
  }

  function HighPass(sin: real, cos: real, q: real): Coefficients {
    var alpha := Alpha(sin, q);
    Normalized((1.0 + cos) * 0.5, -(1.0 + cos), (1.0 + cos) * 0.5, 1.0 + alpha, -2.0 * cos, 1.0 - alpha)
  }

  /** Sine and cosine of an angle strictly between zero and half a turn. */
  predicate Angle(sin: real, cos: real) {
    sin > 0.0 && Sq(sin) + Sq(cos) == 1.0
  }

  lemma CosineInside(sin: real, cos: real)
    requires Angle(sin, cos)
    ensures -1.0 < cos < 1.0
  {
    Positive(sin);
    BelowOne(cos);
  }

  lemma BelowOne(x: real)
    requires Sq(x) < 1.0
    ensures -1.0 < x < 1.0
  {
    if x >= 1.0 {
      AboveOne(x);
    } else if x <= -1.0 {
      AboveOne(-x);
    }
  }

  lemma Positive(x: real)
    requires x > 0.0
    ensures Sq(x) > 0.0
  {
    StrictProduct(x, x);
  }

  lemma AboveOne(x: real)
    requires x >= 1.0
    ensures Sq(x) >= 1.0 && Sq(-x) == Sq(x)
  {
    Product(x - 1.0, x);
  }

  lemma AlphaPositive(sin: real, q: real)
    requires sin > 0.0
    ensures Alpha(sin, q) > 0.0
  {
  }

  lemma TunedStable(cos: real, alpha: real, b0: real, b1: real, b2: real)
    requires alpha > 0.0 && -1.0 < cos < 1.0
    ensures Stable(Normalized(b0, b1, b2, 1.0 + alpha, -2.0 * cos, 1.0 - alpha))
  {
    var a0 := 1.0 + alpha;
    var c := Normalized(b0, b1, b2, a0, -2.0 * cos, 1.0 - alpha);
    assert c.a2 * a0 == 1.0 - alpha;
    assert c.a1 * a0 == -2.0 * cos;
    assert (1.0 + c.a2) * a0 == 2.0;
    DivideInside(c.a2, a0, 1.0 - alpha);
    DivideBelow(c.a1, 1.0 + c.a2, a0);
    DivideBelow(-c.a1, 1.0 + c.a2, a0);
  }

  lemma DivideInside(r: real, a0: real, top: real)
    requires a0 > 0.0 && r * a0 == top && -a0 < top < a0
    ensures -1.0 < r < 1.0
  {
    DivideBelow(r, 1.0, a0);
    DivideBelow(-r, 1.0, a0);
  }

  lemma DivideBelow(r: real, s: real, a0: real)
    requires a0 > 0.0 && r * a0 < s * a0
    ensures r < s
  {
    assert (r - s) * a0 == r * a0 - s * a0;
    if r >= s {
      Product(r - s, a0);
    }
  }

  /** Every low-pass and high-pass tuning is stable. */
  lemma TuningsStable(sin: real, cos: real, q: real)
    requires Angle(sin, cos)
    ensures Stable(LowPass(sin, cos, q)) && Stable(HighPass(sin, cos, q))
  {
    CosineInside(sin, cos);
    AlphaPositive(sin, q);
    TunedStable(cos, Alpha(sin, q), (1.0 - cos) * 0.5, 1.0 - cos, (1.0 - cos) * 0.5);
    TunedStable(cos, Alpha(sin, q), (1.0 + cos) * 0.5, -(1.0 + cos), (1.0 + cos) * 0.5);
  }

  // ---------------------------------------------------------------------------
  // Gain at the ends of the spectrum
  // ---------------------------------------------------------------------------

  predicate Constant(xs: seq<real>, x: real) {
    forall i :: 0 <= i < |xs| ==> xs[i] == x
  }

  /** A constant input keeps coming out multiplied by the gain at frequency zero. */
  lemma {:induction false} ConstantHolds(c: Coefficients, x: real, y: real, xs: seq<real>)
    requires Constant(xs, x) && Equation(c, x, x, x, y, y, y)
    ensures Constant(Filter(c, Past(c, x, x, y, y), xs), y)
    decreases |xs|
  {
    if xs != [] {
      PastShifts(c, x, x, x, y, y);
      ConstantHolds(c, x, y, xs[1..]);
    }
  }

  lemma LowPassGain(sin: real, cos: real, q: real)
    requires Angle(sin, cos)
    ensures var c := LowPass(sin, cos, q);
      c.b0 + c.b1 + c.b2 == 1.0 + c.a1 + c.a2 && c.b0 - c.b1 + c.b2 == 0.0
  {
    AlphaPositive(sin, q);
    var a0 := 1.0 + Alpha(sin, q);
    var c := LowPass(sin, cos, q);
    assert c.b0 == (1.0 - cos) * 0.5 / a0 && c.b1 == (1.0 - cos) / a0;
    assert c.a1 == -2.0 * cos / a0 && c.a2 == (2.0 - a0) / a0;
    assert 2.0 * c.b0 == c.b1;
    assert (c.b0 + c.b1 + c.b2) * a0 == 2.0 * (1.0 - cos);
    assert (1.0 + c.a1 + c.a2) * a0 == 2.0 - 2.0 * cos;
    SameQuotient(c.b0 + c.b1 + c.b2, 1.0 + c.a1 + c.a2, a0);
  }

  lemma HighPassGain(sin: real, cos: real, q: real)
    requires Angle(sin, cos)
    ensures var c := HighPass(sin, cos, q);
      c.b0 + c.b1 + c.b2 == 0.0 && c.b0 - c.b1 + c.b2 == 1.0 - c.a1 + c.a2
  {
    AlphaPositive(sin, q);
    var a0 := 1.0 + Alpha(sin, q);
    var c := HighPass(sin, cos, q);
    assert c.b0 == (1.0 + cos) * 0.5 / a0 && c.b1 == -(1.0 + cos) / a0;
    assert c.a1 == -2.0 * cos / a0 && c.a2 == (2.0 - a0) / a0;
    assert 2.0 * c.b0 == -c.b1;
    assert (c.b0 - c.b1 + c.b2) * a0 == 2.0 * (1.0 + cos);
    assert (1.0 - c.a1 + c.a2) * a0 == 2.0 + 2.0 * cos;
    SameQuotient(c.b0 - c.b1 + c.b2, 1.0 - c.a1 + c.a2, a0);
  }

  lemma SameQuotient(r: real, s: real, a0: real)
    requires a0 > 0.0 && r * a0 == s * a0
    ensures r == s
  {
    assert (r - s) * a0 == 0.0;
  }

  /** A low-pass passes a constant unchanged; a high-pass takes it away. */
  lemma ConstantsPassOrVanish(sin: real, cos: real, q: real, x: real, xs: seq<real>)
    requires Angle(sin, cos) && Constant(xs, x)
    ensures var low := LowPass(sin, cos, q); Constant(Filter(low, Past(low, x, x, x, x), xs), x)
    ensures var high := HighPass(sin, cos, q); Constant(Filter(high, Past(high, x, x, 0.0, 0.0), xs), 0.0)
  {
    LowPassGain(sin, cos, q);
    HighPassGain(sin, cos, q);
    GainEquation(LowPass(sin, cos, q), x, 1.0);
    GainEquation(HighPass(sin, cos, q), x, 0.0);
    ConstantHolds(LowPass(sin, cos, q), x, x, xs);
    ConstantHolds(HighPass(sin, cos, q), x, 0.0, xs);
  }

  lemma GainEquation(c: Coefficients, x: real, g: real)
    requires c.b0 + c.b1 + c.b2 == g * (1.0 + c.a1 + c.a2)
    ensures Equation(c, x, x, x, g * x, g * x, g * x)
  {
    assert (c.b0 + c.b1 + c.b2) * x == g * (1.0 + c.a1 + c.a2) * x;
  }

  // ---------------------------------------------------------------------------
  // Gain at the tuned frequency
  // ---------------------------------------------------------------------------

  /** A point going round by one angle per sample; its height is the tone, its other
      coordinate the same tone a quarter turn apart. */
  datatype Phasor = Phasor(u: real, v: real)

  function Turned(p: Phasor, sin: real, cos: real): Phasor {
    Phasor(Times(p.u, cos) - Times(p.v, sin), Times(p.v, cos) + Times(p.u, sin))
  }

  function Tone(p: Phasor, sin: real, cos: real, n: nat): (xs: seq<real>)
    ensures |xs| == n
    decreases n
  {
    if n == 0 then [] else [p.u] + Tone(Turned(p, sin, cos), sin, cos, n - 1)
  }

  /** The tone a quarter turn later, `g` times as strong. */
  function Lagging(p: Phasor, sin: real, cos: real, g: real, n: nat): (ys: seq<real>)
    ensures |ys| == n
    decreases n
  {
    if n == 0 then [] else [Times(g, p.v)] + Lagging(Turned(p, sin, cos), sin, cos, g, n - 1)
  }

  function Quality(q: real): real {
    if q < 0.001 then 0.001 else q
  }

  /** Three points in a row. */
  lemma TurnedTwice(p: Phasor, sin: real, cos: real)
    requires Angle(sin, cos)
    ensures var p1 := Turned(p, sin, cos); var p2 := Turned(p1, sin, cos);
      && p2.u + p.u == 2.0 * Times(cos, p1.u)
      && p2.v + p.v == 2.0 * Times(cos, p1.v)
      && p2.v - p.v == 2.0 * Times(sin, p1.u)
  {
    TurnedBack(p.u, p.v, sin, cos);
  }

  lemma TurnedBack(u: real, v: real, sin: real, cos: real)
    requires sin * sin + cos * cos == 1.0
    ensures var u1, v1 := u * cos - v * sin, v * cos + u * sin; u1 * cos + v1 * sin == u && v1 * cos - u1 * sin == v
  {
    var u1, v1 := u * cos - v * sin, v * cos + u * sin;
    assert u1 * cos + v1 * sin == u * (sin * sin + cos * cos);
    assert v1 * cos - u1 * sin == v * (sin * sin + cos * cos);
  }

  /** The recursion times `a0` is the recursion. */
  lemma Denormalized(c: Coefficients, b0: real, b1: real, b2: real, a0: real, a1: real, a2: real,
                     x: real, x1: real, x2: real, y: real, y1: real, y2: real)
    requires a0 >= 1.0 && c == Normalized(b0, b1, b2, a0, a1, a2)
    requires a0 * y == b0 * x + b1 * x1 + b2 * x2 - a1 * y1 - a2 * y2
    ensures Equation(c, x, x1, x2, y, y1, y2)
  {
    var r := c.b0 * x + c.b1 * x1 + c.b2 * x2 - c.a1 * y1 - c.a2 * y2;
    Unscaled(b0, a0, x);
    Unscaled(b1, a0, x1);
    Unscaled(b2, a0, x2);
    Unscaled(a1, a0, y1);
    Unscaled(a2, a0, y2);
    assert r * a0 == y * a0;
    SameQuotient(r, y, a0);
  }

  lemma Unscaled(b: real, a0: real, x: real)
    requires a0 >= 1.0
    ensures b / a0 * x * a0 == b * x
  {
    var r := b / a0;
    assert r * a0 == b;
  }

  /** `side` is +1 for the low-pass and -1 for the high-pass. */
  lemma ToneStep(k: real, side: real, cos: real, alpha: real,
                 x: real, x1: real, x2: real, y: real, y1: real, y2: real)
    requires x + x2 == 2.0 * (cos * x1) && y + y2 == 2.0 * (cos * y1)
    requires alpha * (y - y2) == k * (cos * x1) + side * (k * x1)
    ensures (1.0 + alpha) * y ==
      k * 0.5 * x + side * k * x1 + k * 0.5 * x2 - (-2.0 * cos) * y1 - (1.0 - alpha) * y2
  {
    assert k * 0.5 * x + k * 0.5 * x2 == k * 0.5 * (x + x2);
  }

  /** What the tuning makes of a tone at its own frequency. */
  lemma TunedAlpha(sin: real, cos: real, q: real, x1: real, d: real)
    requires Angle(sin, cos) && d == 2.0 * (sin * x1)
    ensures Alpha(sin, q) * (Quality(q) * d) == sin * sin * x1
    ensures sin * sin * x1 == (1.0 - cos) * (cos * x1) + (1.0 - cos) * x1
    ensures sin * sin * x1 == -((1.0 + cos) * (cos * x1)) + (1.0 + cos) * x1
  {
    var g, a := Quality(q), Alpha(sin, q);
    assert a * (2.0 * g) == sin;
    assert a * (g * d) == a * (2.0 * g) * (sin * x1);
    assert sin * sin == 1.0 - cos * cos;
    assert (1.0 - cos * cos) * x1 == (1.0 - cos) * (cos * x1) + (1.0 - cos) * x1;
    assert (1.0 - cos * cos) * x1 == -((1.0 + cos) * (cos * x1)) + (1.0 + cos) * x1;
  }

  /** Three points in a row of the tone and of its response obey the recursion. */
  ghost predicate Carries(c: Coefficients, p: Phasor, sin: real, cos: real, g: real) {
    var p1 := Turned(p, sin, cos);
    var p2 := Turned(p1, sin, cos);
    Equation(c, p2.u, p1.u, p.u, Times(g, p2.v), Times(g, p1.v), Times(g, p.v))
  }

  lemma LowStep(sin: real, cos: real, q: real, x: real, x1: real, x2: real, y: real, y1: real, y2: real)
    requires sin > 0.0 && x + x2 == 2.0 * (cos * x1) && y + y2 == 2.0 * (cos * y1)
    requires Alpha(sin, q) * (y - y2) == (1.0 - cos) * (cos * x1) + (1.0 - cos) * x1
    ensures Equation(LowPass(sin, cos, q), x, x1, x2, y, y1, y2)
  {
    var alpha, k := Alpha(sin, q), 1.0 - cos;
    AlphaPositive(sin, q);
    ToneStep(k, 1.0, cos, alpha, x, x1, x2, y, y1, y2);
    Denormalized(LowPass(sin, cos, q), k * 0.5, k, k * 0.5, 1.0 + alpha, -2.0 * cos, 1.0 - alpha, x, x1, x2, y, y1, y2);
  }

  lemma HighStep(sin: real, cos: real, q: real, x: real, x1: real, x2: real, y: real, y1: real, y2: real)
    requires sin > 0.0 && x + x2 == 2.0 * (cos * x1) && y + y2 == 2.0 * (cos * y1)
    requires Alpha(sin, q) * (y - y2) == (1.0 + cos) * (cos * x1) - (1.0 + cos) * x1
    ensures Equation(HighPass(sin, cos, q), x, x1, x2, y, y1, y2)
  {
    var alpha, k := Alpha(sin, q), 1.0 + cos;
    AlphaPositive(sin, q);
    ToneStep(k, -1.0, cos, alpha, x, x1, x2, y, y1, y2);
    Denormalized(HighPass(sin, cos, q), k * 0.5, -k, k * 0.5, 1.0 + alpha, -2.0 * cos, 1.0 - alpha, x, x1, x2, y, y1, y2);
  }

  lemma LowTone(p: Phasor, sin: real, cos: real, q: real)
    requires Angle(sin, cos)
    ensures Carries(LowPass(sin, cos, q), p, sin, cos, Quality(q))
  {
    var p1, g := Turned(p, sin, cos), Quality(q);
    var p2 := Turned(p1, sin, cos);
    TurnedTwice(p, sin, cos);
    TunedAlpha(sin, cos, q, p1.u, p2.v - p.v);
    GainOfSum(g, cos, p2.v, p1.v, p.v);
    LowStep(sin, cos, q, p2.u, p1.u, p.u, Times(g, p2.v), Times(g, p1.v), Times(g, p.v));
  }

  lemma HighTone(p: Phasor, sin: real, cos: real, q: real)
    requires Angle(sin, cos)
    ensures Carries(HighPass(sin, cos, q), p, sin, cos, -Quality(q))
  {
    var p1, g := Turned(p, sin, cos), -Quality(q);
    var p2 := Turned(p1, sin, cos);
    TurnedTwice(p, sin, cos);
    TunedAlpha(sin, cos, q, p1.u, p2.v - p.v);
    GainOfSum(g, cos, p2.v, p1.v, p.v);
    HighStep(sin, cos, q, p2.u, p1.u, p.u, Times(g, p2.v), Times(g, p1.v), Times(g, p.v));
  }

  lemma GainOfSum(g: real, cos: real, y: real, y1: real, y2: real)
    requires y + y2 == 2.0 * Times(cos, y1)
    ensures Times(g, y) + Times(g, y2) == 2.0 * (cos * Times(g, y1))
    ensures Times(g, y) - Times(g, y2) == g * (y - y2)
  {
    assert Times(g, y) + Times(g, y2) == g * (y + y2);
    assert g * (cos * y1) == cos * (g * y1);
  }

  /** A coefficient set that carries every three points in a row over keeps doing so. */
  lemma {:induction false} ToneCarries(c: Coefficients, p: Phasor, sin: real, cos: real, g: real, n: nat)
    requires forall p0: Phasor :: Carries(c, p0, sin, cos, g)
    ensures var p1 := Turned(p, sin, cos); var p2 := Turned(p1, sin, cos);
      Filter(c, Past(c, p1.u, p.u, Times(g, p1.v), Times(g, p.v)), Tone(p2, sin, cos, n)) == Lagging(p2, sin, cos, g, n)
    decreases n
  {
    if n > 0 {
      var p1 := Turned(p, sin, cos);
      var p2 := Turned(p1, sin, cos);
      assert Carries(c, p, sin, cos, g);
      PastShifts(c, p2.u, p1.u, p.u, Times(g, p1.v), Times(g, p.v));
      ToneCarries(c, p1, sin, cos, g, n - 1);
      assert Tone(p2, sin, cos, n)[1..] == Tone(Turned(p2, sin, cos), sin, cos, n - 1);
    }
  }

  /** A tone at the tuned frequency leaves both filters `q` times as strong and a quarter
      turn apart from what came in: late from the low-pass, early from the high-pass. */
  lemma ToneGain(p: Phasor, sin: real, cos: real, q: real, n: nat)
    requires Angle(sin, cos)
    ensures var p1 := Turned(p, sin, cos); var p2, g, low := Turned(p1, sin, cos), Quality(q), LowPass(sin, cos, q);
      Filter(low, Past(low, p1.u, p.u, Times(g, p1.v), Times(g, p.v)), Tone(p2, sin, cos, n)) ==
        Lagging(p2, sin, cos, g, n)
    ensures var p1 := Turned(p, sin, cos); var p2, g, high := Turned(p1, sin, cos), -Quality(q), HighPass(sin, cos, q);
      Filter(high, Past(high, p1.u, p.u, Times(g, p1.v), Times(g, p.v)), Tone(p2, sin, cos, n)) ==
        Lagging(p2, sin, cos, g, n)
  {
    forall p0: Phasor ensures Carries(LowPass(sin, cos, q), p0, sin, cos, Quality(q)) {
      LowTone(p0, sin, cos, q);
    }
    var back := -Quality(q);
    forall p0: Phasor ensures Carries(HighPass(sin, cos, q), p0, sin, cos, back) {
      HighTone(p0, sin, cos, q);
    }
    ToneCarries(LowPass(sin, cos, q), p, sin, cos, Quality(q), n);
    ToneCarries(HighPass(sin, cos, q), p, sin, cos, back, n);
  }

  // ---------------------------------------------------------------------------
  // The filter object
  // ---------------------------------------------------------------------------

  class Filtering {
    var c: Coefficients
    var z: Delay

    constructor Identity()
      ensures c == IDENTITY && z == REST
    {
      c, z := IDENTITY, REST;
    }

    /** Retuning keeps the delay line, so that a running signal does not click. */
    method RetuneLowPass(sin: real, cos: real, q: real)
      modifies this`c
      ensures c == LowPass(sin, cos, q)
      ensures Angle(sin, cos) ==> Stable(c)
    {
      var alpha := sin / (2.0 * (if q < 0.001 then 0.001 else q));
      SetNormalized((1.0 - cos) * 0.5, 1.0 - cos, (1.0 - cos) * 0.5, 1.0 + alpha, -2.0 * cos, 1.0 - alpha);
      if Angle(sin, cos) {
        TuningsStable(sin, cos, q);
      }
    }

    method RetuneHighPass(sin: real, cos: real, q: real)
      modifies this`c
      ensures c == HighPass(sin, cos, q)
      ensures Angle(sin, cos) ==> Stable(c)
    {
      var alpha := sin / (2.0 * (if q < 0.001 then 0.001 else q));
      SetNormalized((1.0 + cos) * 0.5, -(1.0 + cos), (1.0 + cos) * 0.5, 1.0 + alpha, -2.0 * cos, 1.0 - alpha);
      if Angle(sin, cos) {
        TuningsStable(sin, cos, q);
      }
    }

    method SetNormalized(b0: real, b1: real, b2: real, a0: real, a1: real, a2: real)
      modifies this`c
      ensures c == Normalized(b0, b1, b2, a0, a1, a2)
      ensures Abs(a0) < 0.00000011920929 ==> c == Coefficients(1.0, 0.0, 0.0, 0.0, 0.0)
      ensures Abs(a0) >= 0.00000011920929 ==>
        && c.b0 * a0 == b0 && c.b1 * a0 == b1 && c.b2 * a0 == b2
        && c.a1 * a0 == a1 && c.a2 * a0 == a2
    {
      if Abs(a0) < EPSILON {
        c := IDENTITY;
        return;
      }
      c := Coefficients(b0 / a0, b1 / a0, b2 / a0, a1 / a0, a2 / a0);
    }

    method Process(x: real) returns (y: real)
      modifies this`z
      ensures y == Output(c, old(z), x) && z == Shift(c, old(z), x)
    {
      y := x * c.b0 + z.z1;
      z := Delay(x * c.b1 + z.z2 - c.a1 * y, x * c.b2 - c.a2 * y);
    }

    /** A whole signal, sample by sample: the response, and a state ready to go on. */
    method ProcessAll(xs: seq<real>) returns (ys: seq<real>)
      modifies this`z
      ensures ys == Filter(c, old(z), xs) && z == Settled(c, old(z), xs)
      ensures old(z) == REST ==> forall n: nat :: n < |xs| ==>
        Equation(c, xs[n], At(xs, n - 1), At(xs, n - 2), ys[n], At(ys, n - 1), At(ys, n - 2))
    {
      ys := [];
      assert xs[0..] == xs;
      for i := 0 to |xs|
        invariant ys + Filter(c, z, xs[i..]) == Filter(c, old(z), xs)
        invariant Settled(c, z, xs[i..]) == Settled(c, old(z), xs)
      {
        assert xs[i..][0] == xs[i] && xs[i..][1..] == xs[i + 1..];
        var y := Process(xs[i]);
        ys := ys + [y];
      }
      assert xs[|xs|..] == [];
      if old(z) == REST {
        forall n: nat | n < |xs|
          ensures Equation(c, xs[n], At(xs, n - 1), At(xs, n - 2), ys[n], At(ys, n - 1), At(ys, n - 2))
        {
          FilterIsDifferenceEquation(c, xs, n);
        }
      }
    }
  }
}
