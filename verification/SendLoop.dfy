/**
  One tick of the audio send loop: measure the backlog, drop stale frames, read at
  most two. Other threads may write to the capture buffer between any two of its
  calls; `gaps(i)` holds the batches written before the tick's i-th call.
 */
module SendLoop {
  import opened AudioQueue
  import opened Basics
  import opened B = AudioBuffer

  const MAX_FRAMES_PER_TICK: nat := 2

  type Gaps = nat -> seq<seq<real>>

  /** How many frames a tick sends and how many it drops, as the source extracts it. */
  function SenderFrameSelection(available: nat): (nat, nat) {
    if available <= MAX_FRAMES_PER_TICK then (available, 0)
    else (MAX_FRAMES_PER_TICK, available - MAX_FRAMES_PER_TICK)
  }

  datatype Attempt = Attempt(queue: Queue, sent: bool, frame: seq<real>)

  /** Checks for a whole frame, then reads it. */
  function Attempted(q: Queue, gaps: Gaps, k: nat): (a: Attempt)
    requires q.Valid()
    ensures a.queue.Valid() && a.queue.limits == q.limits
  {
    var seen := Interfere(q, gaps(2 + 2 * k));
    if |seen.contents| < FRAME_SAMPLES then Attempt(seen, false, [])
    else
      var now := Interfere(seen, gaps(3 + 2 * k));
      var n := ReadCount(now, FRAME_SAMPLES);
      Attempt(Read(now, FRAME_SAMPLES), n == FRAME_SAMPLES, now.contents[..n])
  }

  /** Reading frames, from the k-th on. */
  function Drain(q: Queue, gaps: Gaps, k: nat): (Queue, seq<seq<real>>)
    requires q.Valid() && k <= MAX_FRAMES_PER_TICK
    decreases MAX_FRAMES_PER_TICK - k
  {
    if k == MAX_FRAMES_PER_TICK then (q, [])
    else
      var a := Attempted(q, gaps, k);
      if !a.sent then (a.queue, [])
      else
        var (rest, frames) := Drain(a.queue, gaps, k + 1);
        (rest, [a.frame] + frames)
  }

  function Shed(q: Queue, gaps: Gaps): (Queue, nat)
    requires q.Valid()
  {
    var seen := Interfere(q, gaps(0));
    var backlog := |seen.contents| / FRAME_SAMPLES;
    if backlog > MAX_FRAMES_PER_TICK then
      var drop := backlog - MAX_FRAMES_PER_TICK;
      (Skip(Interfere(seen, gaps(1)), drop * FRAME_SAMPLES), drop)
    else (seen, 0)
  }

  datatype Tick = Tick(queue: Queue, frames: seq<seq<real>>, dropped: nat)

  function TickOf(q: Queue, gaps: Gaps): Tick
    requires q.Valid()
  {
    var (kept, drop) := Shed(q, gaps);
    var (rest, frames) := Drain(kept, gaps, 0);
    Tick(rest, frames, drop)
  }

  // ---------------------------------------------------------------------------
  // No interleaving
  // ---------------------------------------------------------------------------

  predicate Silent(gaps: Gaps) {
    forall i: nat :: i < 6 ==> gaps(i) == []
  }

  /** The i-th whole frame of a run of samples. */
  function Frame(xs: seq<real>, i: nat): seq<real>
    requires (i + 1) * FRAME_SAMPLES <= |xs|
  {
    xs[i * FRAME_SAMPLES..(i + 1) * FRAME_SAMPLES]
  }

  lemma FrameOfSuffix(xs: seq<real>, d: nat, i: nat)
    requires (d + i + 1) * FRAME_SAMPLES <= |xs|
    ensures Frame(xs[d * FRAME_SAMPLES..], i) == Frame(xs, d + i)
  {
  }

  /** Reading quietly when `backlog` whole frames are there. */
  lemma {:induction false} DrainQuiet(q: Queue, gaps: Gaps, k: nat, backlog: nat)
    requires q.Valid() && k <= MAX_FRAMES_PER_TICK && Silent(gaps)
    requires backlog * FRAME_SAMPLES <= |q.contents| < (backlog + 1) * FRAME_SAMPLES
    ensures var n := Min(MAX_FRAMES_PER_TICK - k, backlog);
      var (rest, frames) := Drain(q, gaps, k);
      && |frames| == n && n * FRAME_SAMPLES <= |q.contents|
      && (forall i :: 0 <= i < n ==> frames[i] == Frame(q.contents, i))
      && rest == q.(contents := q.contents[n * FRAME_SAMPLES..])
    decreases MAX_FRAMES_PER_TICK - k
  {
    if k < MAX_FRAMES_PER_TICK {
      AttemptQuiet(q, gaps, k);
      if backlog > 0 {
        var next := Attempted(q, gaps, k).queue;
        DrainQuiet(next, gaps, k + 1, backlog - 1);
        forall i | 0 <= i < Min(MAX_FRAMES_PER_TICK - k - 1, backlog - 1)
          ensures Frame(next.contents, i) == Frame(q.contents, i + 1)
        {
          FrameOfSuffix(q.contents, 1, i);
        }
      }
    }
  }

  lemma AttemptQuiet(q: Queue, gaps: Gaps, k: nat)
    requires q.Valid() && k < MAX_FRAMES_PER_TICK && Silent(gaps)
    ensures Attempted(q, gaps, k) ==
      if |q.contents| < FRAME_SAMPLES then Attempt(q, false, [])
      else Attempt(q.(contents := q.contents[FRAME_SAMPLES..]), true, Frame(q.contents, 0))
  {
    assert gaps(2 + 2 * k) == [] && gaps(3 + 2 * k) == [];
  }

  /** A tick nobody interrupts sends the newest two whole frames in order, or as many as
      are there, and drops the older ones; less than a frame of 960 samples stays and no
      counter moves. It drops nothing exactly when fewer than three frames are there. */
  lemma QuietTick(q: Queue, gaps: Gaps)
    requires q.Valid() && Silent(gaps)
    ensures var t, n := TickOf(q, gaps), |q.contents| / 960;
      && |t.frames| == Min(2, n) && t.dropped == n - |t.frames|
      && (t.dropped == 0 <==> |q.contents| < 2880)
      && (forall i :: 0 <= i < |t.frames| ==>
            t.frames[i] == q.contents[(t.dropped + i) * 960..(t.dropped + i + 1) * 960])
      && t.queue == q.(contents := q.contents[n * 960..])
  {
    QuietSelection(q, gaps);
    SelectionIs(|q.contents| / 960);
  }

  /** The extracted selection sends two frames, or all of fewer, and drops the others. */
  lemma SelectionIs(available: nat)
    ensures SenderFrameSelection(available) == (Min(2, available), available - Min(2, available))
  {
  }

  /** Whatever is written during it, a tick sends at most two frames and only whole ones. */
  lemma TickSendsWhole(q: Queue, gaps: Gaps)
    requires q.Valid()
    ensures |TickOf(q, gaps).frames| <= 2
    ensures forall f <- TickOf(q, gaps).frames :: |f| == 960
  {
    DrainWhole(Shed(q, gaps).0, gaps, 0);
  }

  lemma {:induction false} DrainWhole(q: Queue, gaps: Gaps, k: nat)
    requires q.Valid() && k <= MAX_FRAMES_PER_TICK
    ensures |Drain(q, gaps, k).1| <= MAX_FRAMES_PER_TICK - k
    ensures forall f <- Drain(q, gaps, k).1 :: |f| == 960
    decreases MAX_FRAMES_PER_TICK - k
  {
    if k < MAX_FRAMES_PER_TICK {
      DrainWhole(Attempted(q, gaps, k).queue, gaps, k + 1);
    }
  }

  /** The same through the extracted frame selection. */
  lemma QuietSelection(q: Queue, gaps: Gaps)
    requires q.Valid() && Silent(gaps)
    ensures var t := TickOf(q, gaps);
      var backlog := |q.contents| / FRAME_SAMPLES;
      var (send, drop) := SenderFrameSelection(backlog);
      && |t.frames| == send && t.dropped == drop
      && (forall i :: 0 <= i < send ==>
            (drop + i + 1) * FRAME_SAMPLES <= |q.contents| && t.frames[i] == Frame(q.contents, drop + i))
      && t.queue == q.(contents := q.contents[backlog * FRAME_SAMPLES..])
      && |t.queue.contents| == |q.contents| % FRAME_SAMPLES
  {
    var drop := SenderFrameSelection(|q.contents| / FRAME_SAMPLES).1;
    var kept := q.(contents := q.contents[drop * FRAME_SAMPLES..]);
    ShedQuiet(q, gaps);
    DrainQuiet(kept, gaps, 0, |kept.contents| / FRAME_SAMPLES);
    var (rest, frames) := Drain(kept, gaps, 0);
    assert TickOf(q, gaps) == Tick(rest, frames, drop);
    QuietFrames(q, kept, rest, frames, drop);
  }

  lemma QuietFrames(q: Queue, kept: Queue, rest: Queue, frames: seq<seq<real>>, drop: nat)
    requires drop == SenderFrameSelection(|q.contents| / FRAME_SAMPLES).1
    requires drop * FRAME_SAMPLES <= |q.contents|
    requires kept == q.(contents := q.contents[drop * FRAME_SAMPLES..])
    requires var n := Min(MAX_FRAMES_PER_TICK, |kept.contents| / FRAME_SAMPLES);
      && |frames| == n && n * FRAME_SAMPLES <= |kept.contents|
      && (forall i :: 0 <= i < n ==> frames[i] == Frame(kept.contents, i))
      && rest == kept.(contents := kept.contents[n * FRAME_SAMPLES..])
    ensures var backlog := |q.contents| / FRAME_SAMPLES;
      var send := SenderFrameSelection(backlog).0;
      && |frames| == send
      && (forall i :: 0 <= i < send ==>
            (drop + i + 1) * FRAME_SAMPLES <= |q.contents| && frames[i] == Frame(q.contents, drop + i))
      && rest == q.(contents := q.contents[backlog * FRAME_SAMPLES..])
      && |rest.contents| == |q.contents| % FRAME_SAMPLES
  {
    var backlog := |q.contents| / FRAME_SAMPLES;
    var send := SenderFrameSelection(backlog).0;
    assert |kept.contents| / FRAME_SAMPLES == backlog - drop;
    forall i | 0 <= i < send ensures frames[i] == Frame(q.contents, drop + i) {
      FrameOfSuffix(q.contents, drop, i);
    }
    assert rest.contents == q.contents[backlog * FRAME_SAMPLES..];
  }

  lemma ShedQuiet(q: Queue, gaps: Gaps)
    requires q.Valid() && Silent(gaps)
    ensures var drop := SenderFrameSelection(|q.contents| / FRAME_SAMPLES).1;
      && drop * FRAME_SAMPLES <= |q.contents|
      && Shed(q, gaps) == (q.(contents := q.contents[drop * FRAME_SAMPLES..]), drop)
  {
    assert q.contents[0..] == q.contents;
  }

  // ---------------------------------------------------------------------------
  // Any interleaving
  // ---------------------------------------------------------------------------

  lemma {:induction false} FrameSurvives(q: Queue, batches: seq<seq<real>>)
    requires q.Valid() && |q.contents| >= FRAME_SAMPLES && q.limits.Threshold() >= FRAME_SAMPLES
    ensures |Interfere(q, batches).contents| >= FRAME_SAMPLES
    decreases |batches|
  {
    if batches != [] {
      WriteKeepsNewest(q, batches[0]);
      FillBounded(q.limits, |q.contents|, |batches[0]|);
      FrameSurvives(Write(q, batches[0]), batches[1..]);
    }
  }

  lemma {:induction false} DrainSafe(q: Queue, gaps: Gaps, k: nat)
    requires q.Valid() && k <= MAX_FRAMES_PER_TICK && HoldsFrame(q.limits)
    ensures Drain(q, gaps, k).0.underruns == q.underruns
    ensures forall f <- Drain(q, gaps, k).1 :: |f| == FRAME_SAMPLES
    decreases MAX_FRAMES_PER_TICK - k
  {
    if k < MAX_FRAMES_PER_TICK {
      var seen := Interfere(q, gaps(2 + 2 * k));
      if |seen.contents| >= FRAME_SAMPLES && q.limits.Threshold() >= FRAME_SAMPLES {
        FrameSurvives(seen, gaps(3 + 2 * k));
      }
      DrainSafe(Attempted(q, gaps, k).queue, gaps, k + 1);
    }
  }

  /** The threshold holds a whole frame, or the buffer never does. */
  predicate HoldsFrame(l: Limits) {
    l.Threshold() >= FRAME_SAMPLES || l.capacity < FRAME_SAMPLES
  }

  /** Whatever is written during a tick, a tick never runs the buffer under, if and only
      if the backlog threshold holds a whole frame, or the buffer is smaller than one. */
  lemma TickNeverUnderrunsIff(l: Limits)
    ensures HoldsFrame(l) <==>
      forall q: Queue, gaps: Gaps :: q.Valid() && q.limits == l ==> TickOf(q, gaps).queue.underruns == q.underruns
  {
    if HoldsFrame(l) {
      forall q: Queue, gaps: Gaps | q.Valid() && q.limits == l
        ensures TickOf(q, gaps).queue.underruns == q.underruns
      {
        DrainSafe(Shed(q, gaps).0, gaps, 0);
      }
    } else {
      StolenFrame(l);
    }
  }

  /** One sample written between the check and the read takes the frame away. */
  lemma StolenFrame(l: Limits)
    requires l.Threshold() < FRAME_SAMPLES <= l.capacity
    ensures var q := Queue(l, seq(FRAME_SAMPLES, _ => 0.0), 0, 0, 0, 0);
      var gaps: Gaps := i => if i == 3 then [[0.0]] else [];
      q.Valid() && TickOf(q, gaps).queue.underruns == 1
  {
    var q := Queue(l, seq(FRAME_SAMPLES, _ => 0.0), 0, 0, 0, 0);
    var gaps: Gaps := i => if i == 3 then [[0.0]] else [];
    WriteKeepsNewest(q, [0.0]);
    assert Shed(q, gaps) == (q, 0);
    assert Interfere(q, gaps(2)) == q;
    assert Interfere(q, [[0.0]]) == Write(q, [0.0]) by {
      assert [[0.0]][1..] == [];
    }
    assert FillAfter(l, FRAME_SAMPLES, 1) < FRAME_SAMPLES;
  }

  // ---------------------------------------------------------------------------
  // The tick body
  // ---------------------------------------------------------------------------

  function ScaledFrames(frames: seq<seq<real>>, gain: real): seq<seq<real>> {
    seq(|frames|, i requires 0 <= i < |frames| => Scaled(frames[i], gain))
  }

  method TryFrame(capture: AudioBuffer, gaps: Gaps, k: nat) returns (sent: bool, frame: seq<real>)
    requires capture.Valid()
    modifies capture`writePos, capture`readPos, capture`overruns, capture`backlogDrops, capture`backlogDropped,
      capture`underruns, capture.buf
    ensures capture.Valid()
    ensures var a := Attempted(old(capture.Value()), gaps, k);
      && capture.Value() == a.queue && sent == a.sent
      && frame == Scaled(a.frame, PerceptualGain(capture.volume))
  {
    OthersWrite(capture, gaps(2 + 2 * k));
    var available := capture.Available();
    if available < FRAME_SAMPLES {
      return false, [];
    }
    OthersWrite(capture, gaps(3 + 2 * k));
    var pcm := new real[FRAME_SAMPLES];
    var count := capture.Read(pcm);
    sent := count == FRAME_SAMPLES;
    frame := pcm[..count];
  }

  method SendFrames(capture: AudioBuffer, gaps: Gaps) returns (frames: seq<seq<real>>)
    requires capture.Valid()
    modifies capture`writePos, capture`readPos, capture`overruns, capture`backlogDrops, capture`backlogDropped,
      capture`underruns, capture.buf
    ensures capture.Valid() && capture.Value() == Drain(old(capture.Value()), gaps, 0).0
    ensures frames == ScaledFrames(Drain(old(capture.Value()), gaps, 0).1, PerceptualGain(capture.volume))
  {
    ghost var start, gain := capture.Value(), PerceptualGain(capture.volume);
    ghost var raw := [];
    frames := [];
    var k := 0;
    NothingSent(start, gaps);
    while k < MAX_FRAMES_PER_TICK
      invariant capture.Valid() && k <= MAX_FRAMES_PER_TICK
      invariant frames == ScaledFrames(raw, gain) && Continues(start, gaps, raw, capture.Value(), k)
    {
      var sent, frame;
      sent, frame, raw := SendNext(capture, gaps, k, start, raw, gain);
      if !sent {
        return;
      }
      frames := frames + [frame];
      k := k + 1;
    }
    AllSent(start, gaps, raw, capture.Value());
  }

  /** One round of the loop, next to what has been sent so far. */
  method SendNext(capture: AudioBuffer, gaps: Gaps, k: nat, ghost start: Queue, ghost raw: seq<seq<real>>,
                  ghost gain: real)
    returns (sent: bool, frame: seq<real>, ghost sofar: seq<seq<real>>)
    requires capture.Valid() && k < MAX_FRAMES_PER_TICK && gain == PerceptualGain(capture.volume)
    requires Continues(start, gaps, raw, capture.Value(), k)
    modifies capture`writePos, capture`readPos, capture`overruns, capture`backlogDrops, capture`backlogDropped,
      capture`underruns, capture.buf
    ensures capture.Valid()
    ensures sent ==> ScaledFrames(sofar, gain) == ScaledFrames(raw, gain) + [frame]
    ensures if sent then Continues(start, gaps, sofar, capture.Value(), k + 1)
      else sofar == raw && Drain(start, gaps, 0) == (capture.Value(), raw)
  {
    ghost var a := Attempted(capture.Value(), gaps, k);
    DrainNext(start, gaps, raw, capture.Value(), k);
    sent, frame := TryFrame(capture, gaps, k);
    sofar := raw;
    if sent {
      ScaledSnoc(raw, a.frame, gain);
      sofar := raw + [a.frame];
    }
  }

  /** What was sent so far followed by what is still to come is all of it. */
  ghost predicate Continues(start: Queue, gaps: Gaps, raw: seq<seq<real>>, now: Queue, k: nat) {
    && start.Valid() && now.Valid() && k <= MAX_FRAMES_PER_TICK
    && Drain(start, gaps, 0) == (Drain(now, gaps, k).0, raw + Drain(now, gaps, k).1)
  }

  lemma NothingSent(start: Queue, gaps: Gaps)
    requires start.Valid()
    ensures Continues(start, gaps, [], start, 0)
  {
    assert [] + Drain(start, gaps, 0).1 == Drain(start, gaps, 0).1;
  }

  lemma AllSent(start: Queue, gaps: Gaps, raw: seq<seq<real>>, now: Queue)
    requires Continues(start, gaps, raw, now, MAX_FRAMES_PER_TICK)
    ensures Drain(start, gaps, 0) == (now, raw)
  {
    assert raw + [] == raw;
  }

  lemma DrainNext(start: Queue, gaps: Gaps, raw: seq<seq<real>>, now: Queue, k: nat)
    requires Continues(start, gaps, raw, now, k) && k < MAX_FRAMES_PER_TICK
    ensures var a := Attempted(now, gaps, k);
      if a.sent then Continues(start, gaps, raw + [a.frame], a.queue, k + 1)
      else Drain(start, gaps, 0) == (a.queue, raw)
  {
    var a := Attempted(now, gaps, k);
    if a.sent {
      var tail := Drain(a.queue, gaps, k + 1).1;
      assert raw + ([a.frame] + tail) == (raw + [a.frame]) + tail;
    } else {
      assert raw + [] == raw;
    }
  }

  lemma ScaledSnoc(raw: seq<seq<real>>, frame: seq<real>, gain: real)
    ensures ScaledFrames(raw + [frame], gain) == ScaledFrames(raw, gain) + [Scaled(frame, gain)]
  {
  }

  /** Measures the backlog and drops what is over two frames. */
  method ShedBacklog(capture: AudioBuffer, gaps: Gaps) returns (dropped: nat)
    requires capture.Valid()
    modifies capture`writePos, capture`readPos, capture`overruns, capture`backlogDrops, capture`backlogDropped,
      capture.buf
    ensures capture.Valid() && Shed(old(capture.Value()), gaps) == (capture.Value(), dropped)
  {
    dropped := 0;
    OthersWrite(capture, gaps(0));
    ghost var seen := capture.Value();
    var available := capture.Available();
    var backlog := available / FRAME_SAMPLES;
    assert backlog == |seen.contents| / FRAME_SAMPLES;
    if backlog > MAX_FRAMES_PER_TICK {
      dropped := backlog - MAX_FRAMES_PER_TICK;
      DropStale(capture, gaps(1), dropped);
    }
  }

  method DropStale(capture: AudioBuffer, batches: seq<seq<real>>, n: nat)
    requires capture.Valid()
    modifies capture`writePos, capture`readPos, capture`overruns, capture`backlogDrops, capture`backlogDropped,
      capture.buf
    ensures capture.Valid() && capture.Value() == Skip(Interfere(old(capture.Value()), batches), n * FRAME_SAMPLES)
  {
    OthersWrite(capture, batches);
    capture.SkipFrames(n, FRAME_SAMPLES);
  }

  /** One tick: at most two frames leave, older ones are dropped. */
  method SendTick(capture: AudioBuffer, gaps: Gaps) returns (frames: seq<seq<real>>, dropped: nat)
    requires capture.Valid()
    modifies capture`writePos, capture`readPos, capture`overruns, capture`backlogDrops, capture`backlogDropped,
      capture`underruns, capture.buf
    ensures capture.Valid()
    ensures var t := TickOf(old(capture.Value()), gaps);
      && capture.Value() == t.queue && dropped == t.dropped
      && frames == ScaledFrames(t.frames, PerceptualGain(capture.volume))
    ensures |frames| <= 2 && forall i :: 0 <= i < |frames| ==> |frames[i]| == 960
    ensures Silent(gaps) ==> var n := |old(capture.Contents())| / 960;
      && |frames| == Min(2, n) && dropped == n - |frames|
      && capture.Contents() == old(capture.Contents())[n * 960..]
  {
    ghost var q := capture.Value();
    dropped := ShedBacklog(capture, gaps);
    frames := SendFrames(capture, gaps);
    TickSendsWhole(q, gaps);
    if Silent(gaps) {
      QuietTick(q, gaps);
    }
  }
}
