/**
  Conversion of decoded audio to mono 48 kHz: downmix, then linear interpolation at
  exact rational positions.
 */
module Resample {
  import opened Basics
  import AudioBuffer

  const OUT_RATE: nat := 48_000

  /** Rounds up. */
  function DivCeil(a: nat, b: nat): nat
    requires b > 0
  {
    (a + b - 1) / b
  }

  lemma DivCeilIsCeiling(a: nat, b: nat)
    requires b > 0
    ensures DivCeil(a, b) * b >= a
    ensures DivCeil(a, b) * b < a + b
  {
  }

  /** Input position of output sample `i`. */
  function Position(i: nat, rate: nat): real {
    (i * rate) as real / OUT_RATE as real
  }

  function OutLength(n: nat, rate: nat): nat
    requires rate > 0
  {
    DivCeil(n * OUT_RATE, rate)
  }

  /** Every output sample lies strictly inside the input. */
  lemma PositionInside(n: nat, rate: nat, i: nat)
    requires rate > 0 && i < OutLength(n, rate)
    ensures 0.0 <= Position(i, rate) < n as real
    ensures 0 <= Position(i, rate).Floor < n
  {
    DivCeilIsCeiling(n * OUT_RATE, rate);
    var m := OutLength(n, rate);
    assert i * rate <= (m - 1) * rate by { MulMonotone(i, m - 1, rate); }
    assert (m - 1) * rate == m * rate - rate;
    assert i * rate < n * OUT_RATE;
    assert (i * rate) as real < (n * OUT_RATE) as real;
    assert (n * OUT_RATE) as real == n as real * OUT_RATE as real;
  }

  lemma MulMonotone(a: nat, b: nat, c: nat)
    requires a <= b
    ensures a * c <= b * c
  {
  }

  /** Straight line between the neighbours of a position; the last sample is held. */
  function Interpolate(mono: seq<real>, t: real): real
    requires 0.0 <= t < |mono| as real
  {
    var lo := t.Floor;
    var hi := if lo + 1 < |mono| - 1 then lo + 1 else |mono| - 1;
    var frac := t - lo as real;
    mono[lo] + frac * (mono[hi] - mono[lo])
  }

  predicate Between(lo: real, xs: seq<real>, hi: real) {
    forall i :: 0 <= i < |xs| ==> lo <= xs[i] <= hi
  }

  lemma BlendBetween(a: real, b: real, f: real, lo: real, hi: real)
    requires lo <= a <= hi && lo <= b <= hi && 0.0 <= f <= 1.0
    ensures lo <= a + f * (b - a) <= hi
  {
    BlendStep(a, b - a, f, lo, hi);
  }

  lemma ProductNonNegative(a: real, b: real)
    requires a >= 0.0 && b >= 0.0
    ensures a * b >= 0.0
  {
  }

  lemma ProductSplit(f: real, g: real, x: real)
    requires f + g == 1.0
    ensures f * x + g * x == x
  {
    assert f * x + g * x == (f + g) * x;
  }

  lemma BlendStep(a: real, x: real, f: real, lo: real, hi: real)
    requires lo <= a <= hi && lo <= a + x <= hi && 0.0 <= f <= 1.0
    ensures lo <= a + f * x <= hi
  {
    var g := 1.0 - f;
    if x >= 0.0 {
      ProductNonNegative(f, x);
      ProductNonNegative(g, x);
      ProductSplit(f, g, x);
    } else {
      var y := -x;
      ProductNonNegative(f, y);
      ProductNonNegative(g, y);
      ProductSplit(f, g, y);
      assert f * x == -(f * y);
    }
  }

  lemma InterpolateBetween(mono: seq<real>, t: real, lo: real, hi: real)
    requires 0.0 <= t < |mono| as real && Between(lo, mono, hi)
    ensures lo <= Interpolate(mono, t) <= hi
  {
    var l := t.Floor;
    var h := if l + 1 < |mono| - 1 then l + 1 else |mono| - 1;
    BlendBetween(mono[l], mono[h], t - l as real, lo, hi);
  }

  /** `y` is mixed from the two neighbours of a position `w` parts of 48000 past input `k`;
      past the last input that input is held. */
  predicate OnLine(mono: seq<real>, k: nat, w: nat, y: real) {
    && k < |mono|
    && 48000.0 * y == (48000 - w) as real * mono[k] + w as real * mono[Min(k + 1, |mono| - 1)]
  }

  /** Output `i` stands at `i * rate / 48000` of the input. */
  predicate Interpolates(out: seq<real>, mono: seq<real>, rate: nat) {
    forall i :: 0 <= i < |out| ==> i * rate >= 0 && OnLine(mono, i * rate / 48000, i * rate % 48000, out[i])
  }

  /** So many outputs cover so many inputs, and one fewer would not. */
  predicate Covers(outputs: nat, inputs: nat, rate: nat) {
    48000 * inputs <= outputs * rate < 48000 * inputs + rate
  }

  lemma PositionSplits(i: nat, rate: nat)
    ensures i * rate >= 0
    ensures Position(i, rate).Floor == i * rate / 48000
    ensures 48000.0 * (Position(i, rate) - Position(i, rate).Floor as real) == (i * rate % 48000) as real
  {
    var m := i * rate;
    var k, w := m / 48000, m % 48000;
    assert m as real == 48000.0 * k as real + w as real;
  }

  lemma Blended(a: real, b: real, frac: real, w: real)
    requires 48000.0 * frac == w
    ensures 48000.0 * (a + frac * (b - a)) == (48000.0 - w) * a + w * b
  {
    assert w * (b - a) == 48000.0 * (frac * (b - a));
  }

  lemma InterpolateOnLine(mono: seq<real>, i: nat, rate: nat)
    requires 0.0 <= Position(i, rate) < |mono| as real
    ensures i * rate >= 0
    ensures OnLine(mono, i * rate / 48000, i * rate % 48000, Interpolate(mono, Position(i, rate)))
  {
    PositionSplits(i, rate);
    var t := Position(i, rate);
    var lo, w := t.Floor, i * rate % 48000;
    var hi := Min(lo + 1, |mono| - 1);
    Blended(mono[lo], mono[hi], t - lo as real, w as real);
  }

  /** 48 kHz in is 48 kHz out. */
  lemma SameRate(mono: seq<real>)
    ensures Interpolates(mono, mono, 48000)
  {
    forall i | 0 <= i < |mono| ensures OnLine(mono, i * 48000 / 48000, i * 48000 % 48000, mono[i]) {
      assert i * 48000 / 48000 == i;
    }
  }

  /** A straight line comes out as the same straight line, up to the last input. */
  lemma StraightLine(out: seq<real>, mono: seq<real>, rate: nat, a: real, b: real, i: nat)
    requires Interpolates(out, mono, rate) && forall j :: 0 <= j < |mono| ==> mono[j] == a + b * j as real
    requires i < |out| && i * rate <= (|mono| - 1) * 48000
    ensures 48000.0 * out[i] == 48000.0 * a + b * (i * rate) as real
  {
    var k, w := i * rate / 48000, i * rate % 48000;
    assert OnLine(mono, k, w, out[i]);
    var x, y := k as real, w as real;
    assert (i * rate) as real == 48000.0 * x + y;
    assert mono[k] == a + b * x;
    if k + 1 < |mono| {
      assert mono[k + 1] == a + b * (k + 1) as real;
      LineBetween(a, b, x, y);
    } else {
      assert w == 0;
      assert 48000.0 * (a + b * x) == 48000.0 * a + b * (48000.0 * x);
    }
  }

  lemma LineBetween(a: real, b: real, x: real, y: real)
    ensures (48000.0 - y) * (a + b * x) + y * (a + b * (x + 1.0)) == 48000.0 * a + b * (48000.0 * x + y)
  {
  }

  /** Interpolation at every output position. */
  method ResampleLinear(mono: seq<real>, rate: nat) returns (out: seq<real>)
    requires rate > 0
    ensures forall lo, hi :: Between(lo, mono, hi) ==> Between(lo, out, hi)
    ensures OUT_RATE % rate == 0 ==> Decimates(out, OUT_RATE / rate, mono)
    ensures Interpolates(out, mono, rate)
    ensures Covers(|out|, |mono|, rate)
  {
    out := Resampled(mono, rate);
    DivCeilIsCeiling(|mono| * OUT_RATE, rate);
    AllOnLine(mono, rate, out);
    AllBetween(mono, rate, out);
    if OUT_RATE % rate == 0 {
      InputsComeBack(mono, rate, out);
    }
  }

  /** Every output is the straight line at its position. */
  ghost predicate AtPositions(out: seq<real>, mono: seq<real>, rate: nat) {
    forall i :: 0 <= i < |out| ==>
      0.0 <= Position(i, rate) < |mono| as real && out[i] == Interpolate(mono, Position(i, rate))
  }

  lemma AllOnLine(mono: seq<real>, rate: nat, out: seq<real>)
    requires AtPositions(out, mono, rate)
    ensures Interpolates(out, mono, rate)
  {
    forall i | 0 <= i < |out| ensures i * rate >= 0 && OnLine(mono, i * rate / 48000, i * rate % 48000, out[i]) {
      InterpolateOnLine(mono, i, rate);
    }
  }

  lemma AllBetween(mono: seq<real>, rate: nat, out: seq<real>)
    requires AtPositions(out, mono, rate)
    ensures forall lo, hi :: Between(lo, mono, hi) ==> Between(lo, out, hi)
  {
    forall lo, hi | Between(lo, mono, hi) ensures Between(lo, out, hi) {
      forall i | 0 <= i < |out| ensures lo <= out[i] <= hi {
        InterpolateBetween(mono, Position(i, rate), lo, hi);
      }
    }
  }

  /** The loop over the outputs. */
  method Resampled(mono: seq<real>, rate: nat) returns (out: seq<real>)
    requires rate > 0
    ensures |out| == OutLength(|mono|, rate) && AtPositions(out, mono, rate)
  {
    out := [];
    var outLen := DivCeil(|mono| * OUT_RATE, rate);
    for i := 0 to outLen
      invariant |out| == i
      invariant AtPositions(out, mono, rate)
    {
      var y := SampleAt(mono, rate, i);
      out := out + [y];
    }
  }

  /** One round of the loop. */
  method SampleAt(mono: seq<real>, rate: nat, i: nat) returns (y: real)
    requires rate > 0 && i < OutLength(|mono|, rate)
    ensures 0.0 <= Position(i, rate) < |mono| as real && y == Interpolate(mono, Position(i, rate))
  {
    PositionInside(|mono|, rate, i);
    y := LineAt(mono, Position(i, rate));
  }

  method LineAt(mono: seq<real>, t: real) returns (y: real)
    requires 0.0 <= t < |mono| as real
    ensures y == Interpolate(mono, t)
  {
    var lo := t.Floor;
    var hi := if lo + 1 < |mono| - 1 then lo + 1 else |mono| - 1;
    var frac := t - lo as real;
    y := mono[lo] + frac * (mono[hi] - mono[lo]);
  }

  function MonoOf(samples: seq<real>, channels: nat): seq<real> {
    if channels <= 1 then samples else AudioBuffer.Downmix(samples, channels)
  }

  /** One sample per whole frame, its average; a mono signal is taken as it is. */
  lemma MonoOfIs(samples: seq<real>, channels: nat)
    ensures channels <= 1 ==> MonoOf(samples, channels) == samples
    ensures channels > 1 ==> |MonoOf(samples, channels)| == |samples| / channels
  {
    if channels > 1 {
      AudioBuffer.DownmixLength(samples, channels);
    }
  }

  lemma MonoOfAt(samples: seq<real>, channels: nat, j: nat)
    requires channels > 1 && (j + 1) * channels <= |samples|
    ensures 0 <= j * channels <= (j + 1) * channels && j < |MonoOf(samples, channels)|
    ensures MonoOf(samples, channels)[j] == AudioBuffer.Mono(samples[j * channels..(j + 1) * channels])
  {
    AudioBuffer.DownmixAt(samples, channels, j);
  }

  /** The whole conversion. An input rate of zero yields nothing; any other rate is
      interpolated between the neighbours of each output's position, so that 48 kHz is
      passed on, every output stays in the range of the mono input and, if the rate
      divides 48000, every (48000/rate)-th output is an input. */
  method ConvertAudioFrame(samples: seq<real>, rate: nat, channels: nat) returns (out: seq<real>)
    ensures rate == 0 ==> out == []
    ensures rate == 48000 ==> out == MonoOf(samples, channels)
    ensures forall lo, hi :: Between(lo, MonoOf(samples, channels), hi) ==> Between(lo, out, hi)
    ensures rate > 0 && OUT_RATE % rate == 0 ==> Decimates(out, OUT_RATE / rate, MonoOf(samples, channels))
    ensures rate > 0 ==> Interpolates(out, MonoOf(samples, channels), rate)
    ensures rate > 0 ==> Covers(|out|, |MonoOf(samples, channels)|, rate)
  {
    if rate == 0 {
      return [];
    }
    var mono := if channels <= 1 then samples else AudioBuffer.Downmix(samples, channels);
    if rate == OUT_RATE {
      PassedOn(mono);
      return mono;
    }
    if mono == [] {
      NothingIn(rate);
      return [];
    }
    out := ResampleLinear(mono, rate);
  }

  /** Every k-th sample of `out` gives back `mono`. */
  ghost predicate Decimates(out: seq<real>, k: nat, mono: seq<real>) {
    |out| == k * |mono| && forall j :: 0 <= j < |mono| ==> Pick(out, k * j) == mono[j]
  }

  function Pick(xs: seq<real>, i: nat): real {
    if i < |xs| then xs[i] else 0.0
  }

  /** The path for 48 kHz. */
  lemma PassedOn(mono: seq<real>)
    ensures Decimates(mono, OUT_RATE / 48000, mono) && Interpolates(mono, mono, 48000)
    ensures Covers(|mono|, |mono|, 48000)
  {
    SameRate(mono);
  }

  /** The path for an empty input. */
  lemma NothingIn(rate: nat)
    requires rate > 0
    ensures Decimates([], OUT_RATE / rate, []) && Interpolates([], [], rate) && Covers(0, 0, rate)
  {
  }

  lemma InputsComeBack(mono: seq<real>, rate: nat, out: seq<real>)
    requires rate > 0 && OUT_RATE % rate == 0 && |out| == OutLength(|mono|, rate)
    requires AtPositions(out, mono, rate)
    ensures Decimates(out, OUT_RATE / rate, mono)
  {
    var k := OUT_RATE / rate;
    assert k * rate == OUT_RATE;
    LengthDivides(|mono|, rate, k);
    forall j | 0 <= j < |mono| ensures Pick(out, k * j) == mono[j] {
      PositionAtInput(|mono|, rate, k, j);
    }
  }

  lemma LengthDivides(n: nat, rate: nat, k: nat)
    requires rate > 0 && k * rate == OUT_RATE
    ensures OutLength(n, rate) == k * n
  {
    assert n * OUT_RATE == (k * n) * rate by {
      assert n * (k * rate) == (k * n) * rate;
    }
    AudioBuffer.DivUnique(n * OUT_RATE + rate - 1, rate, k * n, rate - 1);
  }

  lemma PositionAtInput(n: nat, rate: nat, k: nat, j: nat)
    requires rate > 0 && k * rate == OUT_RATE && j < n
    ensures k * j < k * n
    ensures Position(k * j, rate) == j as real
  {
    MulMonotone(j + 1, n, k);
    assert (j + 1) * k == k * j + k;
    assert (k * j) * rate == j * OUT_RATE by {
      assert (k * j) * rate == j * (k * rate);
    }
    assert (j * OUT_RATE) as real == j as real * OUT_RATE as real;
  }
}
