/**
  In silence the output of a stable second-order filter tends to zero. Every two samples
  take a fixed share of the ringing energy away.
 */
module BiquadDecay {
  import opened Biquad

  // ---------------------------------------------------------------------------
  // Two samples
  // ---------------------------------------------------------------------------

  /** Negative inside the stability triangle. */
  function Margin(a1: real, a2: real): real {
    a1 * a1 - (1.0 + a2) * (1.0 + a2)
  }

  /** What two samples of silence take from the energy determines both outputs. */
  lemma Inverse(a1: real, a2: real, u: real, v: real, w: real, s: real, t: real)
    requires w == -a1 * u - a2 * v && s == a1 * u + (1.0 + a2) * v && t == a1 * w + (1.0 + a2) * u
    ensures Margin(a1, a2) * u == -(a1 * a2) * s + -(1.0 + a2) * t
    ensures Margin(a1, a2) * v == -(1.0 + a2 - a1 * a1) * s + a1 * t
  {
  }

  lemma SquareOfProduct(p: real, x: real)
    ensures Sq(p * x) == Times(Sq(p), Sq(x))
  {
  }

  lemma SquareWithin(p: real, k: real)
    requires -k <= p <= k
    ensures Sq(p) <= Sq(k)
  {
    Product(k - p, k + p);
  }

  lemma TimesMonotone(a: real, b: real, x: real)
    requires a <= b && x >= 0.0
    ensures Times(a, x) <= Times(b, x)
  {
    Product(b - a, x);
  }

  lemma SquareOfSum(x: real, y: real)
    ensures Sq(x + y) <= 2.0 * Sq(x) + 2.0 * Sq(y)
  {
    Square(x - y);
    assert Sq(x + y) + Sq(x - y) == 2.0 * Sq(x) + 2.0 * Sq(y);
  }

  lemma ScaledSquare(p: real, x: real, k: real)
    requires -k <= p <= k
    ensures Sq(p * x) <= Times(Sq(k), Sq(x))
  {
    SquareOfProduct(p, x);
    SquareWithin(p, k);
    Square(x);
    TimesMonotone(Sq(p), Sq(k), Sq(x));
  }

  lemma TwoTerms(p: real, x: real, q: real, y: real, k: real)
    requires -k <= p <= k && -k <= q <= k
    ensures Sq(p * x + q * y) <= 2.0 * Times(Sq(k), Sq(x)) + 2.0 * Times(Sq(k), Sq(y))
  {
    ScaledSquare(p, x, k);
    ScaledSquare(q, y, k);
    SquareOfSum(p * x, q * y);
  }

  lemma SmallCoefficients(c: Coefficients)
    requires Stable(c)
    ensures -2.0 <= c.a1 <= 2.0 && -2.0 <= -(c.a1 * c.a2) <= 2.0
    ensures -2.0 <= -(1.0 + c.a2) <= 2.0 && -4.0 <= -(1.0 + c.a2 - c.a1 * c.a1) <= 4.0
  {
    SquareWithin(c.a1, 2.0);
    Square(c.a1);
    assert c.a1 * c.a1 == Sq(c.a1);
    assert Sq(2.0) == 4.0;
    SmallProduct(c.a1, c.a2);
  }

  lemma SmallProduct(x: real, y: real)
    requires -2.0 <= x <= 2.0 && -1.0 <= y <= 1.0
    ensures -2.0 <= x * y <= 2.0
  {
    Product(2.0 - x, 1.0 + y);
    Product(2.0 + x, 1.0 - y);
    Product(2.0 + x, 1.0 + y);
    Product(2.0 - x, 1.0 - y);
  }

  /** The energy left after two samples is small only if the outputs were. */
  lemma OutputsBounded(c: Coefficients, u: real, v: real, w: real, s: real, t: real)
    requires Stable(c)
    requires w == -c.a1 * u - c.a2 * v && s == c.a1 * u + (1.0 + c.a2) * v && t == c.a1 * w + (1.0 + c.a2) * u
    ensures Times(Sq(Margin(c.a1, c.a2)), Sq(u) + Sq(v)) <= 40.0 * (Sq(s) + Sq(t))
  {
    Inverse(c.a1, c.a2, u, v, w, s, t);
    SmallCoefficients(c);
    Solved(Margin(c.a1, c.a2), u, v, s, t,
           -(c.a1 * c.a2), -(1.0 + c.a2), -(1.0 + c.a2 - c.a1 * c.a1), c.a1);
  }

  lemma Solved(d: real, u: real, v: real, s: real, t: real, p: real, q: real, p': real, q': real)
    requires d * u == p * s + q * t && d * v == p' * s + q' * t
    requires -2.0 <= p <= 2.0 && -2.0 <= q <= 2.0 && -4.0 <= p' <= 4.0 && -4.0 <= q' <= 4.0
    ensures Times(Sq(d), Sq(u) + Sq(v)) <= 40.0 * (Sq(s) + Sq(t))
  {
    TwoTerms(p, s, q, t, 2.0);
    TwoTerms(p', s, q', t, 4.0);
    Square(s);
    Square(t);
    Gather(d, u, v, Sq(s), Sq(t));
  }

  lemma Gather(d: real, u: real, v: real, ss: real, tt: real)
    requires ss >= 0.0 && tt >= 0.0
    requires Sq(d * u) <= 2.0 * Times(Sq(2.0), ss) + 2.0 * Times(Sq(2.0), tt)
    requires Sq(d * v) <= 2.0 * Times(Sq(4.0), ss) + 2.0 * Times(Sq(4.0), tt)
    ensures Times(Sq(d), Sq(u) + Sq(v)) <= 40.0 * (ss + tt)
  {
    SquareOfProduct(d, u);
    SquareOfProduct(d, v);
    TimesPlus(Sq(d), Sq(u), Sq(v));
  }

  lemma TimesPlus(a: real, x: real, y: real)
    ensures Times(a, x + y) == Times(a, x) + Times(a, y)
  {
  }

  lemma EnergyAtMost(c: Coefficients, u: real, v: real)
    requires Stable(c)
    ensures Energy(c, u, v) <= 4.0 * (Sq(u) + Sq(v))
  {
    var e, m := Sq(u) + Sq(v), 2.0 * (u * v);
    CrossBound(u, v);
    Square(u);
    Square(v);
    EnergyTop(c.a1, c.a2, e, m);
  }

  lemma EnergyTop(a1: real, a2: real, e: real, m: real)
    requires Abs(a2) < 1.0 && Abs(a1) < 1.0 + a2 && -e <= m <= e && e >= 0.0
    ensures (1.0 + a2) * e + a1 * m <= 4.0 * e
  {
    Product(1.0 - a2, e);
    if a1 >= 0.0 {
      Product(a1, e - m);
      Product(1.0 + a2 - a1, e);
    } else {
      Product(-a1, e + m);
      Product(1.0 + a2 + a1, e);
    }
  }

  /** The share of its energy a ringing filter loses in two samples of silence. */
  function Rate(c: Coefficients): real {
    Times(1.0 - c.a2, Sq(Margin(c.a1, c.a2))) / 160.0
  }

  lemma RatePositive(c: Coefficients)
    requires Stable(c)
    ensures Rate(c) > 0.0
  {
    var d := Margin(c.a1, c.a2);
    StrictProduct(1.0 + c.a2 - c.a1, 1.0 + c.a2 + c.a1);
    assert -d == Times(1.0 + c.a2 - c.a1, 1.0 + c.a2 + c.a1);
    StrictProduct(-d, -d);
    assert Sq(d) == Times(-d, -d);
    StrictProduct(1.0 - c.a2, Sq(d));
  }

  lemma TwoSamplesTake(c: Coefficients, u: real, v: real, w: real, x: real)
    requires Stable(c) && w == -c.a1 * u - c.a2 * v && x == -c.a1 * w - c.a2 * u
    ensures Energy(c, x, w) <= Energy(c, u, v) - Times(Rate(c), Energy(c, u, v))
  {
    var s, t := c.a1 * u + (1.0 + c.a2) * v, c.a1 * w + (1.0 + c.a2) * u;
    EnergyDifference(c, u, v, w, s);
    EnergyDifference(c, w, u, x, t);
    OutputsBounded(c, u, v, w, s, t);
    EnergyAtMost(c, u, v);
    Square(Margin(c.a1, c.a2));
    Share(1.0 - c.a2, Sq(Margin(c.a1, c.a2)), Energy(c, u, v), Sq(u) + Sq(v), Sq(s), Sq(t));
  }

  lemma Share(b: real, dd: real, energy: real, e: real, ss: real, tt: real)
    requires b > 0.0 && dd >= 0.0 && energy <= 4.0 * e && Times(dd, e) <= 40.0 * (ss + tt)
    ensures Times(Times(b, dd) / 160.0, energy) <= Times(b, ss) + Times(b, tt)
  {
    Product(b, dd);
    TimesMonotone(energy, 4.0 * e, Times(b, dd));
    Product(b, 40.0 * (ss + tt) - Times(dd, e));
    ShareSums(b, dd, energy, e, ss, tt);
  }

  lemma ShareSums(b: real, dd: real, energy: real, e: real, ss: real, tt: real)
    ensures Times(Times(b, dd) / 160.0, energy) == Times(energy, Times(b, dd)) / 160.0
    ensures Times(4.0 * e, Times(b, dd)) == 4.0 * Times(b, Times(dd, e))
    ensures Times(b, 40.0 * (ss + tt) - Times(dd, e)) == 40.0 * Times(b, ss) + 40.0 * Times(b, tt) - Times(b, Times(dd, e))
  {
  }

  // ---------------------------------------------------------------------------
  // Any number of samples
  // ---------------------------------------------------------------------------

  /** The state after `k` samples of silence. */
  function Ring(c: Coefficients, z: Delay, k: nat): Delay {
    if k == 0 then z else Shift(c, Ring(c, z, k - 1), 0.0)
  }

  lemma {:induction false} RingFront(c: Coefficients, z: Delay, k: nat)
    ensures Ring(c, Shift(c, z, 0.0), k) == Ring(c, z, k + 1)
  {
    if k > 0 {
      RingFront(c, z, k - 1);
    }
  }

  lemma {:induction false} OutputAt(c: Coefficients, z: Delay, xs: seq<real>, i: nat)
    requires Silence(xs) && i < |xs|
    ensures Filter(c, z, xs)[i] == Ring(c, z, i).z1
    decreases |xs|
  {
    ShiftSilent(c, z);
    assert xs[0] == 0.0;
    if i > 0 {
      OutputAt(c, Shift(c, z, 0.0), xs[1..], i - 1);
      RingFront(c, z, i - 1);
    }
  }

  lemma RingingPositive(c: Coefficients, z: Delay)
    requires Stable(c)
    ensures Ringing(c, z) >= 0.0
  {
    RingingBounds(c, z);
    Square(z.z1);
    Product(Reserve(c), Sq(z.z1));
  }

  lemma TwoRings(c: Coefficients, z: Delay)
    requires Stable(c)
    ensures var next := Shift(c, Shift(c, z, 0.0), 0.0);
      Ringing(c, next) <= Ringing(c, z) - Times(Rate(c), Ringing(c, z))
  {
    var z1 := Shift(c, z, 0.0);
    var z2 := Shift(c, z1, 0.0);
    var u, w, x := z.z2 - c.a1 * z.z1, z1.z2 - c.a1 * z1.z1, z2.z2 - c.a1 * z2.z1;
    NextSilent(c, z, z1, u, w);
    NextSilent(c, z1, z2, w, x);
    RingingIs(c, z, u);
    RingingIs(c, z2, x);
    TwoSamplesTake(c, u, z.z1, w, x);
  }

  lemma DecayStep(e: real, after: real, rate: real, k: real)
    requires e >= 0.0 && rate > 0.0 && k >= 1.0 && after <= e - Times(rate, e)
    ensures Times(after, 1.0 + k * rate) <= Times(e, 1.0 + (k - 1.0) * rate)
  {
    Product(k, rate);
    TimesMonotone(after, e - Times(rate, e), 1.0 + k * rate);
    Product(rate, e);
    Product(Times(k, rate), Times(rate, e));
    assert Times(e - Times(rate, e), 1.0 + k * rate) ==
      Times(e, 1.0 + (k - 1.0) * rate) - Times(Times(k, rate), Times(rate, e));
  }

  function Grown(e: real, n: nat, rate: real): real {
    Times(e, 1.0 + n as real * rate)
  }

  lemma DecayNext(e: real, after: real, rate: real, n: nat)
    requires e >= 0.0 && rate > 0.0 && n > 0 && after <= e - Times(rate, e)
    ensures Grown(after, n, rate) <= Grown(e, n - 1, rate)
  {
    assert (n - 1) as real == n as real - 1.0;
    DecayStep(e, after, rate, n as real);
  }

  /** After 2n samples of silence the energy is at most the (1 + n rate)-th part. */
  lemma {:induction false} Decays(c: Coefficients, z: Delay, n: nat)
    requires Stable(c)
    ensures Grown(Ringing(c, Ring(c, z, 2 * n)), n, Rate(c)) <= Ringing(c, z)
    decreases n
  {
    if n > 0 {
      var before := Ring(c, z, 2 * (n - 1));
      var middle := Ring(c, z, 2 * n - 1);
      assert middle == Shift(c, before, 0.0);
      assert Ring(c, z, 2 * n) == Shift(c, middle, 0.0);
      Decays(c, z, n - 1);
      TwoRings(c, before);
      RingingPositive(c, before);
      RatePositive(c);
      DecayNext(Ringing(c, before), Ringing(c, Ring(c, z, 2 * n)), Rate(c), n);
    }
  }

  lemma {:induction false} RingingLater(c: Coefficients, z: Delay, i: nat, j: nat)
    requires Stable(c) && i <= j
    ensures Ringing(c, Ring(c, z, j)) <= Ringing(c, Ring(c, z, i))
    decreases j
  {
    if i < j {
      RingingLater(c, z, i, j - 1);
      SilenceSettles(c, Ring(c, z, j - 1));
    }
  }

  /** From sample 2n on, the square of the output is at most the (1 + n rate)-th part of
      the bound. */
  lemma LaterOutputs(c: Coefficients, z: Delay, n: nat, i: nat, e: real)
    requires Stable(c) && 2 * n <= i
    requires Ringing(c, z) <= Grown(e, n, Rate(c))
    ensures Loudest(c, Ring(c, z, i).z1, e)
  {
    var r := Ringing(c, Ring(c, z, 2 * n));
    Decays(c, z, n);
    RingingLater(c, z, 2 * n, i);
    RingingBounds(c, Ring(c, z, i));
    RatePositive(c);
    Product(n as real, Rate(c));
    Cancel(r, e, 1.0 + n as real * Rate(c));
  }

  lemma Cancel(x: real, y: real, k: real)
    requires k > 0.0 && Times(x, k) <= Times(y, k)
    ensures x <= y
  {
    if x > y {
      StrictProduct(x - y, k);
    }
  }

  lemma RootBound(y: real, eps: real)
    requires eps >= 0.0 && Sq(y) <= Sq(eps)
    ensures Abs(y) <= eps
  {
    assert Times(Abs(y) - eps, Abs(y) + eps) == Sq(y) - Sq(eps);
    if Abs(y) > eps {
      StrictProduct(Abs(y) - eps, Abs(y) + eps);
    }
  }

  /** How long to wait. */
  lemma LongEnough(e: real, unit: real, rate: real) returns (n: nat)
    requires e >= 0.0 && unit > 0.0 && rate > 0.0
    ensures e <= Grown(unit, n, rate)
  {
    StrictProduct(unit, rate);
    var k := e / Times(unit, rate);
    assert k >= 0.0 by {
      if k < 0.0 {
        StrictProduct(-k, Times(unit, rate));
      }
    }
    n := k.Floor + 1;
    Product(n as real - k, Times(unit, rate));
    assert Times(n as real - k, Times(unit, rate)) == n as real * Times(unit, rate) - e;
    assert Times(unit, 1.0 + n as real * rate) == unit + n as real * Times(unit, rate);
  }

  /** In silence the output tends to zero: for any bound there is a time from which on no
      sample exceeds it, however long one listens. */
  lemma SilenceVanishes(c: Coefficients, z: Delay, eps: real) returns (start: nat)
    requires Stable(c) && eps > 0.0
    ensures forall xs, i :: Silence(xs) && start <= i < |xs| ==> Abs(Filter(c, z, xs)[i]) <= eps
  {
    StrictProduct(eps, eps);
    StrictProduct(Reserve(c), Sq(eps));
    RingingPositive(c, z);
    RatePositive(c);
    var unit := Times(Reserve(c), Sq(eps));
    var n := LongEnough(Ringing(c, z), unit, Rate(c));
    start := 2 * n;
    forall xs, i | Silence(xs) && start <= i < |xs| ensures Abs(Filter(c, z, xs)[i]) <= eps {
      OutputAt(c, z, xs, i);
      LaterOutputs(c, z, n, i, unit);
      QuietEnough(c, Filter(c, z, xs)[i], eps);
    }
  }

  lemma QuietEnough(c: Coefficients, y: real, eps: real)
    requires Stable(c) && eps > 0.0 && Loudest(c, y, Times(Reserve(c), Sq(eps)))
    ensures Abs(y) <= eps
  {
    Cancel(Sq(y), Sq(eps), Reserve(c));
    RootBound(y, eps);
  }
}
