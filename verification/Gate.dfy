/**
  The post-denoise gate: a gain that opens faster than it closes, closes only after a
  short hold, and is applied as a ramp so that it never jumps.
 */
module Gate {
  import opened Basics

  const ATTACK_STEP: real := 0.1
  const RELEASE_STEP: real := 0.2
  const CLOSE_HOLD_FRAMES: nat := 2
  const GAIN_FLOOR: real := 0.01
  const SUBFRAME: nat := 480
  const VAD_PROB_THRESHOLD: real := 0.5
  const RMS_THRESHOLD: real := 150.0

  predicate ShouldGate(vad: real, rms: real) {
    vad < VAD_PROB_THRESHOLD || rms < RMS_THRESHOLD
  }

  /** A sub-frame is kept as speech when the detector is at least even and it is loud
      enough. */
  lemma SpeechIff(vad: real, rms: real)
    ensures !ShouldGate(vad, rms) <==> vad >= 0.5 && rms >= 150.0
  {
  }

  function ComputeGateGain(gain: real, closed: bool): real {
    if closed then
      var g := gain - ATTACK_STEP;
      if g < GAIN_FLOOR then 0.0 else g
    else
      var g := gain + RELEASE_STEP;
      if g > 1.0 then 1.0 else g
  }

  datatype GateState = GateState(gain: real, hold: nat)

  const OPEN := GateState(1.0, 0)

  function Advance(s: GateState, closed: bool): GateState {
    var hold := if closed then s.hold + 1 else 0;
    GateState(ComputeGateGain(s.gain, closed && hold > CLOSE_HOLD_FRAMES), hold)
  }

  function Run(s: GateState, decisions: seq<bool>): GateState {
    if decisions == [] then s else Advance(Run(s, decisions[..|decisions| - 1]), decisions[|decisions| - 1])
  }

  // ---------------------------------------------------------------------------
  // Runs
  // ---------------------------------------------------------------------------

  /** Close decisions at the end of a run. */
  function Trailing(decisions: seq<bool>): nat {
    if decisions == [] || !decisions[|decisions| - 1] then 0
    else 1 + Trailing(decisions[..|decisions| - 1])
  }

  /** The gain moves in tenths. */
  ghost predicate Tenths(gain: real, k: nat) {
    k <= 10 && gain == k as real / 10.0
  }

  function NextTenth(k: nat, closed: bool): nat {
    if closed then (if k == 0 then 0 else k - 1) else (if k + 2 > 10 then 10 else k + 2)
  }

  lemma TenthsStep(gain: real, k: nat, closed: bool)
    requires Tenths(gain, k)
    ensures Tenths(ComputeGateGain(gain, closed), NextTenth(k, closed))
  {
  }

  /** In every reachable state the gain is a whole number of tenths between 0 and 1, and
      the hold counter is the number of close decisions just seen. */
  lemma {:induction false} Reachable(decisions: seq<bool>) returns (k: nat)
    ensures Tenths(Run(OPEN, decisions).gain, k)
    ensures Run(OPEN, decisions).hold == Trailing(decisions)
  {
    if decisions == [] {
      k := 10;
    } else {
      var most, last := decisions[..|decisions| - 1], decisions[|decisions| - 1];
      k := Reachable(most);
      var closed := last && Trailing(most) + 1 > CLOSE_HOLD_FRAMES;
      TenthsStep(Run(OPEN, most).gain, k, closed);
      k := NextTenth(k, closed);
    }
  }

  lemma GainInRange(decisions: seq<bool>)
    ensures 0.0 <= Run(OPEN, decisions).gain <= 1.0
  {
    var k := Reachable(decisions);
  }

  /** The gain falls with a decision if and only if it and the two before it were close
      decisions and the gate was not shut already. */
  lemma FallsIff(decisions: seq<bool>, last: bool)
    ensures Run(OPEN, decisions + [last]).gain < Run(OPEN, decisions).gain <==>
      Trailing(decisions + [last]) >= 3 && Run(OPEN, decisions).gain > 0.0
  {
    var k := Reachable(decisions);
    var all := decisions + [last];
    assert all[..|all| - 1] == decisions;
    var closed := last && Trailing(decisions) + 1 > CLOSE_HOLD_FRAMES;
    TenthsStep(Run(OPEN, decisions).gain, k, closed);
  }

  predicate All(decisions: seq<bool>, d: bool) {
    forall i :: 0 <= i < |decisions| ==> decisions[i] == d
  }

  lemma {:induction false} RunConcat(s: GateState, a: seq<bool>, b: seq<bool>)
    ensures Run(s, a + b) == Run(Run(s, a), b)
    decreases |b|
  {
    if b == [] {
      assert a + b == a;
    } else {
      assert (a + b)[..|a + b| - 1] == a + b[..|b| - 1];
      RunConcat(s, a, b[..|b| - 1]);
    }
  }

  /** n opens in a row: two tenths each, up to fully open. */
  lemma {:induction false} OpensRise(s: GateState, k: nat, opens: seq<bool>)
    requires Tenths(s.gain, k) && All(opens, false)
    ensures Tenths(Run(s, opens).gain, if k + 2 * |opens| > 10 then 10 else k + 2 * |opens|)
    decreases |opens|
  {
    if opens != [] {
      var most := opens[..|opens| - 1];
      OpensRise(s, k, most);
      TenthsStep(Run(s, most).gain, if k + 2 * |most| > 10 then 10 else k + 2 * |most|, false);
    }
  }

  lemma {:induction false} HoldCounts(s: GateState, closes: seq<bool>)
    requires All(closes, true)
    ensures Run(s, closes).hold == s.hold + |closes|
    decreases |closes|
  {
    if closes != [] {
      HoldCounts(s, closes[..|closes| - 1]);
    }
  }

  /** n closes in a row once the hold is over: one tenth each, down to shut. */
  lemma {:induction false} ClosesFall(s: GateState, k: nat, closes: seq<bool>)
    requires Tenths(s.gain, k) && s.hold >= CLOSE_HOLD_FRAMES && All(closes, true)
    ensures Tenths(Run(s, closes).gain, if k < |closes| then 0 else k - |closes|)
    decreases |closes|
  {
    if closes != [] {
      var most := closes[..|closes| - 1];
      ClosesFall(s, k, most);
      HoldCounts(s, most);
      TenthsStep(Run(s, most).gain, if k < |most| then 0 else k - |most|, true);
    }
  }

  /** After any history, five opens open the gate fully and twelve closes shut it. */
  lemma OpensAndShutsInTime(decisions: seq<bool>, more: seq<bool>)
    ensures |more| >= 5 && All(more, false) ==> Run(OPEN, decisions + more).gain == 1.0
    ensures |more| >= 12 && All(more, true) ==> Run(OPEN, decisions + more).gain == 0.0
  {
    var s := Run(OPEN, decisions);
    RunConcat(OPEN, decisions, more);
    if All(more, false) {
      var k := Reachable(decisions);
      OpensRise(s, k, more);
    }
    if |more| >= 12 && All(more, true) {
      var held, rest := more[..2], more[2..];
      assert more == held + rest;
      RunConcat(s, held, rest);
      HoldCounts(s, held);
      RunConcat(OPEN, decisions, held);
      var k := Reachable(decisions + held);
      ClosesFall(Run(s, held), k, rest);
    }
  }

  /** From fully open, eleven closes are not enough. */
  lemma ElevenClosesLeaveAGap(closes: seq<bool>)
    requires |closes| == 11 && All(closes, true)
    ensures Run(OPEN, closes).gain == 0.1
  {
    var held, rest := closes[..2], closes[2..];
    assert closes == held + rest;
    RunConcat(OPEN, held, rest);
    assert held == [true, true];
    assert held[..1] == [true] && held[..1][..0] == [];
    assert Run(OPEN, held[..1]) == GateState(1.0, 1);
    assert Run(OPEN, held) == GateState(1.0, 2);
    ClosesFall(Run(OPEN, held), 10, rest);
  }

  // ---------------------------------------------------------------------------
  // The gain each sample gets
  // ---------------------------------------------------------------------------

  /** Gain of sample `i` of a buffer of `len` ramped from `from` to `to`. */
  function RampGain(from: real, to: real, len: nat, i: nat): real
    requires i < len
  {
    from + (to - from) * (i as real / (if len > 2 then len - 1 else 1) as real)
  }

  /** Equal steps from one end to the other; a single sample gets the first gain. */
  lemma RampIs(from: real, to: real, len: nat, i: nat)
    requires i < len
    ensures RampGain(from, to, len, 0) == from
    ensures len > 1 ==> RampGain(from, to, len, len - 1) == to
    ensures i > 0 ==> (RampGain(from, to, len, i) - RampGain(from, to, len, i - 1)) * (len - 1) as real == to - from
  {
    if len > 1 {
      var d, n := to - from, (len - 1) as real;
      assert (len - 1) as real / n == 1.0;
      if i > 0 {
        RampStep(d, i as real, n);
      }
    }
  }

  lemma RampStep(d: real, i: real, n: real)
    requires n > 0.0
    ensures (d * (i / n) - d * ((i - 1.0) / n)) * n == d
  {
    var a, b := i / n, (i - 1.0) / n;
    assert a * n - b * n == 1.0;
    assert (d * a - d * b) * n == d * (a * n - b * n);
  }

  function Ramp(from: real, to: real): (g: seq<real>)
    ensures |g| == SUBFRAME
  {
    seq(SUBFRAME, i requires 0 <= i < SUBFRAME => RampGain(from, to, SUBFRAME, i))
  }

  /** Gains of all samples of a run, sub-frame after sub-frame. */
  function Envelope(s: GateState, decisions: seq<bool>): seq<real> {
    if decisions == [] then []
    else
      var before := Run(s, decisions[..|decisions| - 1]);
      Envelope(s, decisions[..|decisions| - 1]) + Ramp(before.gain, Run(s, decisions).gain)
  }

  const MAX_STEP: real := 0.2 / 479.0

  predicate Near(a: real, b: real) {
    -MAX_STEP <= b - a <= MAX_STEP
  }

  predicate Smooth(g: seq<real>) {
    forall i :: 0 < i < |g| ==> Near(g[i - 1], g[i])
  }

  lemma RampSteps(from: real, to: real, i: nat)
    requires 0 < i < SUBFRAME
    ensures Ramp(from, to)[i] - Ramp(from, to)[i - 1] == (to - from) / 479.0
    ensures Ramp(from, to)[0] == from && Ramp(from, to)[SUBFRAME - 1] == to
  {
    var d := to - from;
    assert Ramp(from, to)[i] == from + d * (i as real / 479.0);
    assert Ramp(from, to)[i - 1] == from + d * ((i - 1) as real / 479.0);
  }

  lemma RampSmooth(from: real, to: real)
    requires -0.2 <= to - from <= 0.2
    ensures Smooth(Ramp(from, to))
    ensures Ramp(from, to)[0] == from && Ramp(from, to)[SUBFRAME - 1] == to
  {
    RampSteps(from, to, 1);
    forall i | 0 < i < SUBFRAME ensures Near(Ramp(from, to)[i - 1], Ramp(from, to)[i]) {
      RampSteps(from, to, i);
    }
  }

  lemma SmoothConcat(a: seq<real>, b: seq<real>)
    requires Smooth(a) && Smooth(b)
    requires a != [] && b != [] ==> a[|a| - 1] == b[0]
    ensures Smooth(a + b)
  {
    var g := a + b;
    forall i | 0 < i < |g| ensures Near(g[i - 1], g[i]) {
      if i < |a| {
        assert Near(a[i - 1], a[i]);
      } else if i > |a| {
        assert Near(b[i - |a| - 1], b[i - |a|]);
      }
    }
  }

  /** The gain is continuous over all sub-frames of every run from a fresh gate: it ends
      each sub-frame where the next begins, and no two neighbouring samples differ by
      more than 0.2/479. */
  lemma {:induction false} EnvelopeSmooth(decisions: seq<bool>)
    ensures var e := Envelope(OPEN, decisions);
      && |e| == SUBFRAME * |decisions| && Smooth(e)
      && (decisions != [] ==> e[0] == 1.0 && e[|e| - 1] == Run(OPEN, decisions).gain)
    decreases |decisions|
  {
    if decisions != [] {
      var most, last := decisions[..|decisions| - 1], decisions[|decisions| - 1];
      var from, to := Run(OPEN, most).gain, Run(OPEN, decisions).gain;
      EnvelopeSmooth(most);
      var k := Reachable(most);
      TenthsStep(from, k, last && Trailing(most) + 1 > CLOSE_HOLD_FRAMES);
      RampSmooth(from, to);
      SmoothConcat(Envelope(OPEN, most), Ramp(from, to));
    }
  }

  // ---------------------------------------------------------------------------
  // The gate object and its effect on a buffer
  // ---------------------------------------------------------------------------

  class SmoothGate {
    var state: GateState

    constructor ()
      ensures state == OPEN
    {
      state := OPEN;
    }

    method Step(closed: bool) returns (from: real, to: real)
      modifies this
      ensures state == Advance(old(state), closed)
      ensures from == old(state).gain && to == state.gain
      ensures state.hold == if closed then old(state).hold + 1 else 0
      ensures closed && old(state).hold >= 2 ==> to == if from < 0.11 then 0.0 else from - 0.1
      ensures !(closed && old(state).hold >= 2) ==> to == if from > 0.8 then 1.0 else from + 0.2
    {
      from := state.gain;
      var effective := false;
      var hold := 0;
      if closed {
        hold := state.hold + 1;
        effective := hold > CLOSE_HOLD_FRAMES;
      }
      state := GateState(ComputeGateGain(from, effective), hold);
      to := state.gain;
    }
  }

  method ApplyGateGain(buf: array<real>, gain: real)
    modifies buf
    ensures forall i :: 0 <= i < buf.Length ==> buf[i] == Amplified(old(buf[i]), gain)
  {
    if gain == 1.0 {
      return;
    }
    if gain == 0.0 {
      for i := 0 to buf.Length
        invariant forall j :: 0 <= j < i ==> buf[j] == 0.0
      {
        buf[i] := 0.0;
      }
    } else {
      for i := 0 to buf.Length
        invariant forall j :: 0 <= j < i ==> buf[j] == Amplified(old(buf[j]), gain)
        invariant forall j :: i <= j < buf.Length ==> buf[j] == old(buf[j])
      {
        buf[i] := Amplified(buf[i], gain);
      }
    }
  }

  /** Each sample is scaled by the ramp, on the shortcut for a level gain too. */
  method ApplyGateGainRamped(buf: array<real>, from: real, to: real)
    modifies buf
    ensures forall i :: 0 <= i < buf.Length ==> buf[i] == Amplified(old(buf[i]), RampGain(from, to, buf.Length, i))
  {
    if from == to {
      ApplyGateGain(buf, to);
      return;
    }
    for i := 0 to buf.Length
      invariant forall j :: 0 <= j < i ==> buf[j] == Amplified(old(buf[j]), RampGain(from, to, buf.Length, j))
      invariant forall j :: i <= j < buf.Length ==> buf[j] == old(buf[j])
    {
      buf[i] := Amplified(buf[i], RampGain(from, to, buf.Length, i));
    }
  }

  /** The gating of one denoised sub-frame. */
  method GateSubframe(gate: SmoothGate, out: array<real>, vad: real, rms: real)
    requires out.Length == SUBFRAME
    modifies gate, out
    ensures gate.state == Advance(old(gate.state), ShouldGate(vad, rms))
    ensures vad >= 0.5 && rms >= 150.0 ==>
      gate.state == GateState(if old(gate.state).gain > 0.8 then 1.0 else old(gate.state).gain + 0.2, 0)
    ensures vad < 0.5 || rms < 150.0 ==> gate.state.hold == old(gate.state).hold + 1
    ensures forall i :: 0 <= i < SUBFRAME ==>
      out[i] == Amplified(old(out[i]), Ramp(old(gate.state.gain), gate.state.gain)[i])
  {
    var from, to := gate.Step(ShouldGate(vad, rms));
    ApplyGateGainRamped(out, from, to);
  }
}
