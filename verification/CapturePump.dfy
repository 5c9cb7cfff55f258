/**
  The two consumers on the capture side: the pump that paces microphone samples into
  20 ms frames, and the queue that cuts device callbacks into fixed resampler chunks.
 */
module CapturePump {
  import opened AudioQueue
  import opened Basics
  import B = AudioBuffer

  const READ_CHUNK_SAMPLES: nat := FRAME_SAMPLES * 2
  const MAX_PENDING_SAMPLES: nat := FRAME_SAMPLES * 6
  const TARGET_PENDING_SAMPLES: nat := FRAME_SAMPLES * 3
  const PREFILL_SAMPLES: nat := FRAME_SAMPLES * 3

  // ---------------------------------------------------------------------------
  // The pacing pump, as a function of what each tick reads
  // ---------------------------------------------------------------------------

  datatype Pump = Pump(
    pending: seq<real>, primed: bool, last: real,
    totalRead: nat, drops: nat, frames: nat, underruns: nat)

  const IDLE_PUMP := Pump([], false, 0.0, 0, 0, 0, 0)

  function Overflow(n: nat): nat {
    if n > MAX_PENDING_SAMPLES then n - TARGET_PENDING_SAMPLES else 0
  }

  /** Queue what was read, then bound the queue. */
  function Filled(p: Pump, got: seq<real>): Pump {
    var all := p.pending + got;
    p.(pending := all[Overflow(|all|)..],
       totalRead := p.totalRead + |got|, drops := p.drops + Overflow(|all|))
  }

  function Taken(p: Pump): nat {
    Min(FRAME_SAMPLES, |p.pending|)
  }

  function LastOf(p: Pump): real {
    if Taken(p) == 0 then p.last else Clamp(p.pending[Taken(p) - 1])
  }

  /** The next frame: clamped samples, the last one held to fill up. */
  function FrameOf(p: Pump): (f: seq<real>)
    ensures |f| == FRAME_SAMPLES
  {
    seq(FRAME_SAMPLES, i requires 0 <= i < FRAME_SAMPLES =>
      if i < Taken(p) then Clamp(p.pending[i]) else LastOf(p))
  }

  function Sent(p: Pump): Pump {
    p.(pending := p.pending[Taken(p)..], last := LastOf(p), frames := p.frames + 1,
       underruns := if Taken(p) < FRAME_SAMPLES then p.underruns + 1 else p.underruns)
  }

  predicate Ready(p: Pump) {
    p.primed || |p.pending| >= PREFILL_SAMPLES
  }

  function Ticked(p: Pump, got: seq<real>): Pump {
    var q := Filled(p, got);
    if Ready(q) then Sent(q).(primed := true) else q
  }

  function RunPump(batches: seq<seq<real>>): Pump {
    if batches == [] then IDLE_PUMP else Ticked(RunPump(batches[..|batches| - 1]), batches[|batches| - 1])
  }

  function Stream(batches: seq<seq<real>>): seq<real> {
    if batches == [] then [] else Stream(batches[..|batches| - 1]) + batches[|batches| - 1]
  }

  /** Up to 120 ms wait; of more only the newest 60 ms stay, and the rest is counted. */
  lemma FilledTo(p: Pump, got: seq<real>)
    ensures var all, q := p.pending + got, Filled(p, got);
      && (|all| <= 5760 ==> q.pending == all && q.drops == p.drops)
      && (|all| > 5760 ==> q.pending == all[|all| - 2880..] && q.drops == p.drops + |all| - 2880)
  {
  }

  lemma FilledIs(p: Pump, got: seq<real>)
    ensures var q := Filled(p, got);
      && |q.pending| <= MAX_PENDING_SAMPLES
      && |p.pending| + |got| == |q.pending| + (q.drops - p.drops)
      && q.drops >= p.drops && q.totalRead == p.totalRead + |got|
      && q.pending == Newest(p.pending + got, |q.pending|)
  {
  }

  lemma SentIs(p: Pump)
    ensures |p.pending| == |Sent(p).pending| + Taken(p)
    ensures Sent(p).pending == Newest(p.pending, |p.pending| - Taken(p))
  {
  }

  /** Samples the pump put into frames. */
  function Delivered(batches: seq<seq<real>>): nat {
    if batches == [] then 0
    else
      var before := RunPump(batches[..|batches| - 1]);
      var q := Filled(before, batches[|batches| - 1]);
      Delivered(batches[..|batches| - 1]) + (if Ready(q) then Taken(q) else 0)
  }

  /** In every run: total read is delivered plus dropped plus pending; what is pending is
      the newest of everything read; the queue never holds more than 120 ms after its
      trim; no frame leaves before the cushion is there, and from then on one leaves
      every tick. */
  lemma {:induction false} PumpConserves(batches: seq<seq<real>>)
    ensures var p := RunPump(batches);
      && p.totalRead == |Stream(batches)| == Delivered(batches) + p.drops + |p.pending|
      && |p.pending| <= |Stream(batches)| && p.pending == Newest(Stream(batches), |p.pending|)
      && |p.pending| <= 5760
      && (p.primed <==> p.frames > 0)
    decreases |batches|
  {
    if batches != [] {
      var most, got := batches[..|batches| - 1], batches[|batches| - 1];
      PumpConserves(most);
      var p := RunPump(most);
      var q := Filled(p, got);
      FilledIs(p, got);
      SentIs(q);
      NewestOfSuffix(Stream(most), got, |p.pending|);
      NewestOfNewest(Stream(batches), |p.pending| + |got|, |q.pending|);
      NewestOfNewest(Stream(batches), |q.pending|, |q.pending| - Taken(q));
    }
  }

  /** Once primed the pump stays primed and sends a frame every tick; until then none. */
  lemma PrimedForGood(batches: seq<seq<real>>, got: seq<real>)
    ensures var p, q := RunPump(batches), RunPump(batches + [got]);
      && (q.primed <==> p.primed || |Filled(p, got).pending| >= 2880)
      && q.frames == p.frames + (if q.primed then 1 else 0)
      && (q.primed && !p.primed ==> q.underruns == p.underruns)
  {
    assert (batches + [got])[..|batches|] == batches;
    assert (batches + [got])[|batches|] == got;
  }

  /** The frame of a tick is the next stretch of the stream, clamped. */
  lemma FrameIsNext(batches: seq<seq<real>>, got: seq<real>)
    ensures var q := Filled(RunPump(batches), got);
      var all := Stream(batches) + got;
      var n := Taken(q);
      && |q.pending| <= |all|
      && forall i :: 0 <= i < n ==> FrameOf(q)[i] == Clamp(all[|all| - |q.pending| + i])
  {
    PumpConserves(batches);
    var p := RunPump(batches);
    var q := Filled(p, got);
    FilledIs(p, got);
    NewestOfSuffix(Stream(batches), got, |p.pending|);
    NewestOfNewest(Stream(batches) + got, |p.pending| + |got|, |q.pending|);
  }

  // ---------------------------------------------------------------------------
  // Reading while the device writes
  // ---------------------------------------------------------------------------

  /** Asks how much is there and reads so much, at most two frames; the device writes `gap`
      between the two calls. */
  function Pulled(q: Queue, gap: seq<seq<real>>): (Queue, seq<real>)
    requires q.Valid()
  {
    var wanted := Min(READ_CHUNK_SAMPLES, |q.contents|);
    var now := Interfere(q, gap);
    if wanted == 0 then (now, [])
    else (Read(now, wanted), now.contents[..ReadCount(now, wanted)])
  }

  /** Undisturbed, a pull takes the oldest samples and touches no counter. */
  lemma QuietPull(q: Queue)
    requires q.Valid()
    ensures var n := Min(1920, |q.contents|);
      Pulled(q, []) == (q.(contents := q.contents[n..]), q.contents[..n])
  {
    assert q.contents[0..] == q.contents;
  }

  /** No write can take what a pull has seen: the buffer is never cut, or it is cut at a
      threshold of at least one frame to what a pull may want. */
  predicate PullSafe(l: Limits) {
    || l.capacity <= l.Threshold()
    || (l.Threshold() >= FRAME_SAMPLES &&
        (l.Threshold() == FRAME_SAMPLES || l.margin == 0 || l.target >= READ_CHUNK_SAMPLES))
  }

  lemma FillSurvives(l: Limits, fill: nat, incoming: nat)
    requires PullSafe(l) && Attainable(l, fill)
    ensures FillAfter(l, fill, incoming) >= Min(READ_CHUNK_SAMPLES, fill)
  {
  }

  lemma {:induction false} SamplesSurvive(q: Queue, gap: seq<seq<real>>)
    requires q.Valid() && PullSafe(q.limits) && Attainable(q.limits, |q.contents|)
    ensures |Interfere(q, gap).contents| >= Min(READ_CHUNK_SAMPLES, |q.contents|)
    decreases |gap|
  {
    if gap != [] {
      WriteKeepsNewest(q, gap[0]);
      WriteBounded(q, gap[0]);
      FillSurvives(q.limits, |q.contents|, |gap[0]|);
      SamplesSurvive(Write(q, gap[0]), gap[1..]);
    }
  }

  /** A fill and a batch that leaves less than a pull wanted. */
  function Shortfall(l: Limits): (nat, nat) {
    if l.Threshold() >= FRAME_SAMPLES then (l.Threshold(), l.Threshold() + 1)
    else (Min(l.capacity, FRAME_SAMPLES), 0)
  }

  lemma ShortfallStarves(l: Limits)
    requires 0 < l.capacity && !PullSafe(l)
    ensures var (fill, incoming) := Shortfall(l);
      Attainable(l, fill) && FillAfter(l, fill, incoming) < Min(READ_CHUNK_SAMPLES, fill)
  {
  }

  /** The pull does not raise the underrun counter. */
  predicate Unharmed(q: Queue, gap: seq<seq<real>>) {
    q.Valid() && Pulled(q, gap).0.underruns == q.underruns
  }

  /** Whatever the device writes between the two calls, in every state the buffer can be in
      a pull never raises its underrun counter, if and only if its limits are safe. */
  lemma PullNeverUnderrunsIff(l: Limits)
    requires 0 < l.capacity
    ensures PullSafe(l) <==>
      forall ops, h, gap :: Leads(l, ops, h) ==> Unharmed(h.queue, gap)
  {
    if PullSafe(l) {
      forall ops, h, gap | Leads(l, ops, h)
        ensures Unharmed(h.queue, gap)
      {
        RunAttains(Fresh(l), ops, h);
        SamplesSurvive(h.queue, gap);
      }
    } else {
      var (fill, incoming) := Shortfall(l);
      ShortfallStarves(l);
      var ops, h := FillsTo(l, fill);
      assert Leads(l, ops, h);
      RunAttains(Fresh(l), ops, h);
      Starves(h.queue, incoming);
      assert !Unharmed(h.queue, [seq(incoming, _ => 0.0)]);
    }
  }

  lemma Starves(q: Queue, incoming: nat)
    requires q.Valid() && FillAfter(q.limits, |q.contents|, incoming) < Min(READ_CHUNK_SAMPLES, |q.contents|)
    ensures Pulled(q, [seq(incoming, _ => 0.0)]).0.underruns == q.underruns + 1
  {
    var xs: seq<real> := seq(incoming, _ => 0.0);
    WriteKeepsNewest(q, xs);
    var gap := [xs];
    assert gap[1..] == [];
    assert Interfere(q, gap) == Write(q, xs);
  }

  // ---------------------------------------------------------------------------
  // The pump as an object on top of the capture buffer
  // ---------------------------------------------------------------------------

  class MicPump {
    var pending: seq<real>
    var primed: bool
    var last: real
    var totalRead: nat
    var drops: nat
    var frames: nat
    var underruns: nat

    ghost function Value(): Pump
      reads this
    {
      Pump(pending, primed, last, totalRead, drops, frames, underruns)
    }

    constructor ()
      ensures Value() == IDLE_PUMP
    {
      pending, primed, last, totalRead, drops, frames, underruns := [], false, 0.0, 0, 0, 0, 0;
    }

    /** Reads up to two frames from the capture buffer, into which the device writes `gap`
        after it was asked for its fill. */
    method Pull(capture: B.AudioBuffer, gap: seq<seq<real>>) returns (got: seq<real>)
      requires capture.Valid()
      modifies capture`writePos, capture`readPos, capture`overruns, capture`backlogDrops, capture`backlogDropped,
        capture`underruns, capture.buf
      ensures capture.Valid()
      ensures var (after, raw) := Pulled(old(capture.Value()), gap);
        && got == B.Scaled(raw, B.PerceptualGain(capture.volume))
        && capture.Value() == after
    {
      var available := capture.Available();
      var toRead := if available < READ_CHUNK_SAMPLES then available else READ_CHUNK_SAMPLES;
      B.OthersWrite(capture, gap);
      got := [];
      if toRead > 0 {
        var buf := new real[toRead];
        var count := capture.Read(buf);
        got := buf[..count];
      }
    }

    /** Fills one frame from the queue, holding the last sample when it runs dry. */
    method FillFrame() returns (frame: seq<real>)
      modifies this`pending, this`last, this`underruns
      ensures frame == FrameOf(old(Value()))
      ensures Value() == Sent(old(Value())).(frames := old(frames))
      ensures |frame| == 960 && last == frame[959]
      ensures forall i :: 0 <= i < 960 && i < |old(pending)| ==> Cut(old(pending)[i], frame[i])
      ensures forall i :: |old(pending)| <= i < 960 ==>
        frame[i] == if old(pending) == [] then old(last) else frame[|old(pending)| - 1]
      ensures |old(pending)| >= 960 ==> pending == old(pending)[960..] && underruns == old(underruns)
      ensures |old(pending)| < 960 ==> pending == [] && underruns == old(underruns) + 1
    {
      ghost var p := Value();
      frame := [];
      while |frame| < FRAME_SAMPLES && pending != []
        invariant |frame| <= FRAME_SAMPLES && |frame| <= |p.pending|
        invariant pending == p.pending[|frame|..]
        invariant forall i :: 0 <= i < |frame| ==> frame[i] == Clamp(p.pending[i])
        invariant last == if frame == [] then p.last else Clamp(p.pending[|frame| - 1])
        invariant underruns == p.underruns
        decreases |pending|
      {
        last := Clamp(pending[0]);
        frame := frame + [last];
        pending := pending[1..];
      }
      ghost var filled := |frame|;
      assert filled == Taken(p) && last == LastOf(p);
      if |frame| < FRAME_SAMPLES {
        underruns := underruns + 1;
      }
      while |frame| < FRAME_SAMPLES
        invariant filled <= |frame| <= FRAME_SAMPLES
        invariant forall i :: 0 <= i < filled ==> frame[i] == Clamp(p.pending[i])
        invariant forall i :: filled <= i < |frame| ==> frame[i] == last
      {
        frame := frame + [last];
      }
      assert frame == FrameOf(p);
    }

    /** One tick of the pump. */
    method Tick(capture: B.AudioBuffer, gap: seq<seq<real>>)
      returns (ready: bool, frame: seq<real>, ghost got: seq<real>)
      requires capture.Valid()
      modifies this, capture`writePos, capture`readPos, capture`overruns, capture`backlogDrops,
        capture`backlogDropped, capture`underruns, capture.buf
      ensures capture.Valid() && capture.Value() == Pulled(old(capture.Value()), gap).0
      ensures got == B.Scaled(Pulled(old(capture.Value()), gap).1, B.PerceptualGain(capture.volume))
      ensures Value() == Ticked(old(Value()), got)
      ensures ready <==> old(primed) || |Filled(old(Value()), got).pending| >= 2880
      ensures ready == Ready(Filled(old(Value()), got))
      ensures ready ==> frame == FrameOf(Filled(old(Value()), got))
    {
      var batch := Pull(capture, gap);
      got := batch;
      Absorb(batch);
      ready, frame := Pace();
    }

    /** Queues what was read and bounds the queue. */
    method Absorb(batch: seq<real>)
      modifies this`pending, this`totalRead, this`drops
      ensures Value() == Filled(old(Value()), batch)
      ensures |old(pending) + batch| <= 5760 ==> pending == old(pending) + batch && drops == old(drops)
      ensures var n := |old(pending) + batch|;
        n > 5760 ==> pending == (old(pending) + batch)[n - 2880..] && drops == old(drops) + n - 2880
    {
      totalRead := totalRead + |batch|;
      pending := pending + batch;
      if |pending| > MAX_PENDING_SAMPLES {
        var dropN := |pending| - TARGET_PENDING_SAMPLES;
        pending := pending[dropN..];
        drops := drops + dropN;
      }
    }

    /** Waits for the cushion, then sends a frame. */
    method Pace() returns (ready: bool, frame: seq<real>)
      modifies this`pending, this`primed, this`last, this`frames, this`underruns
      ensures ready <==> old(primed) || |old(pending)| >= 2880
      ensures ready == Ready(old(Value()))
      ensures Value() == if ready then Sent(old(Value())).(primed := true) else old(Value())
      ensures ready ==> frame == FrameOf(old(Value()))
    {
      ghost var p := Value();
      if !primed {
        if |pending| < PREFILL_SAMPLES {
          return false, [];
        }
        primed := true;
      }
      PrimedAlike(p);
      frame := FillFrame();
      frames := frames + 1;
      ready := true;
    }
  }

  lemma PrimedAlike(p: Pump)
    ensures FrameOf(p.(primed := true)) == FrameOf(p)
    ensures Sent(p.(primed := true)) == Sent(p).(primed := true)
  {
    var q := p.(primed := true);
    assert Taken(q) == Taken(p) && LastOf(q) == LastOf(p);
    assert forall i :: 0 <= i < FRAME_SAMPLES ==> FrameOf(q)[i] == FrameOf(p)[i];
  }

  // ---------------------------------------------------------------------------
  // Fixed-size chunks from callbacks of any size
  // ---------------------------------------------------------------------------

  /** All whole chunks of a run of samples. */
  function Chunks(xs: seq<real>, needed: nat): seq<seq<real>>
    requires needed > 0
    decreases |xs|
  {
    if |xs| < needed then [] else [xs[..needed]] + Chunks(xs[needed..], needed)
  }

  /** What is left after the whole chunks. */
  function Remainder(xs: seq<real>, needed: nat): (r: seq<real>)
    requires needed > 0
    ensures |r| < needed
    decreases |xs|
  {
    if |xs| < needed then xs else Remainder(xs[needed..], needed)
  }

  /** Chunks of a stream can be cut as it arrives. */
  lemma {:induction false} ChunksConcat(a: seq<real>, b: seq<real>, needed: nat)
    requires needed > 0
    ensures Chunks(a + b, needed) == Chunks(a, needed) + Chunks(Remainder(a, needed) + b, needed)
    ensures Remainder(a + b, needed) == Remainder(Remainder(a, needed) + b, needed)
    decreases |a|
  {
    if |a| >= needed {
      assert (a + b)[..needed] == a[..needed] && (a + b)[needed..] == a[needed..] + b;
      ChunksConcat(a[needed..], b, needed);
    }
  }

  /** Downmixing respects cuts between channel frames. */
  lemma {:induction false} DownmixConcat(a: seq<real>, b: seq<real>, channels: nat)
    requires channels > 0 && |a| % channels == 0
    ensures B.Downmix(a + b, channels) == B.Downmix(a, channels) + B.Downmix(b, channels)
    decreases |a|
  {
    if a == [] {
      assert a + b == b;
    } else {
      if |a| < channels {
        B.DivUnique(|a|, channels, 0, |a|);
      }
      assert (a + b)[..channels] == a[..channels] && (a + b)[channels..] == a[channels..] + b;
      WholeFrames(|a|, channels);
      DownmixConcat(a[channels..], b, channels);
    }
  }

  lemma WholeFrames(n: nat, channels: nat)
    requires 0 < channels <= n && n % channels == 0
    ensures (n - channels) % channels == 0
  {
    B.DivUnique(n - channels, channels, n / channels - 1, 0);
  }

  /** What one callback does to the queue: it feeds chunks until too little is left or the
      resampler fails (after `good` successes; the failing chunk is consumed), then cuts
      the queue to eight chunks. */
  datatype Fed = Fed(chunks: seq<seq<real>>, pending: seq<real>, discarded: nat)

  function FeedAll(pending: seq<real>, needed: nat, good: nat): (seq<seq<real>>, seq<real>)
    requires needed > 0
    decreases |pending|
  {
    if |pending| < needed then ([], pending)
    else if good == 0 then ([pending[..needed]], pending[needed..])
    else
      var (chunks, rest) := FeedAll(pending[needed..], needed, good - 1);
      ([pending[..needed]] + chunks, rest)
  }

  function Callback(pending: seq<real>, mono: seq<real>, needed: nat, good: nat): Fed
    requires needed > 0
  {
    var (chunks, rest) := FeedAll(pending + mono, needed, good);
    var cut := if |rest| > needed * 8 then |rest| - needed * 8 else 0;
    Fed(chunks, rest[cut..], cut)
  }

  /** How many chunks a callback feeds: all whole ones, or up to and with the first that
      the resampler fails on. */
  function Fits(n: nat, needed: nat, good: nat): nat
    requires needed > 0
  {
    if good + 1 < n / needed then good + 1 else n / needed
  }

  lemma FitsNext(n: nat, needed: nat, good: nat)
    requires 0 < needed <= n
    ensures n / needed == (n - needed) / needed + 1
    ensures good > 0 ==> Fits(n, needed, good) == Fits(n - needed, needed, good - 1) + 1
  {
    B.DivUnique(n, needed, (n - needed) / needed + 1, (n - needed) % needed);
  }

  lemma {:induction false} JoinedCons(one: seq<real>, more: seq<seq<real>>)
    ensures Joined([one] + more) == one + Joined(more)
    decreases |more|
  {
    var all := [one] + more;
    if more == [] {
      assert all[..0] == [] && all[0] == one;
    } else {
      assert all[..|all| - 1] == [one] + more[..|more| - 1];
      JoinedCons(one, more[..|more| - 1]);
    }
  }

  /** So many whole chunks that, with the rest behind them, are all the samples. */
  predicate CutsInto(xs: seq<real>, needed: nat, count: nat, chunks: seq<seq<real>>, rest: seq<real>) {
    && |chunks| == count
    && (forall j :: 0 <= j < |chunks| ==> |chunks[j]| == needed)
    && Joined(chunks) + rest == xs
  }

  lemma CutsFirst(xs: seq<real>, needed: nat, count: nat, chunks: seq<seq<real>>, rest: seq<real>)
    requires needed <= |xs| && CutsInto(xs[needed..], needed, count, chunks, rest)
    ensures CutsInto(xs, needed, count + 1, [xs[..needed]] + chunks, rest)
  {
    JoinedCons(xs[..needed], chunks);
    var one, more := xs[..needed], Joined(chunks);
    assert (one + more) + rest == one + (more + rest);
    assert one + xs[needed..] == xs;
  }

  lemma CutsNone(xs: seq<real>, needed: nat)
    ensures CutsInto(xs, needed, 0, [], xs)
  {
    assert [] + xs == xs;
  }

  /** What a callback feeds and what stays queued. */
  lemma {:induction false} FeedAllIs(pending: seq<real>, needed: nat, good: nat)
    requires needed > 0
    ensures var (chunks, rest) := FeedAll(pending, needed, good);
      CutsInto(pending, needed, Fits(|pending|, needed, good), chunks, rest)
    decreases |pending|
  {
    if |pending| < needed {
      FitsNone(|pending|, needed, good);
      CutsNone(pending, needed);
    } else {
      var more := pending[needed..];
      if good == 0 {
        FitsOne(|pending|, needed);
        CutsNone(more, needed);
        CutsFirst(pending, needed, 0, [], more);
        assert [pending[..needed]] + [] == [pending[..needed]];
      } else {
        FitsNext(|pending|, needed, good);
        FeedAllIs(more, needed, good - 1);
        var (chunks, rest) := FeedAll(more, needed, good - 1);
        CutsFirst(pending, needed, Fits(|more|, needed, good - 1), chunks, rest);
      }
    }
  }

  lemma FitsNone(n: nat, needed: nat, good: nat)
    requires n < needed
    ensures Fits(n, needed, good) == 0
  {
    B.DivUnique(n, needed, 0, n);
  }

  lemma FitsOne(n: nat, needed: nat)
    requires 0 < needed <= n
    ensures Fits(n, needed, 0) == 1
  {
    FitsNext(n, needed, 0);
  }

  /** With enough good calls the whole chunks are fed and less than one is left. */
  lemma {:induction false} FeedsWholeChunks(pending: seq<real>, needed: nat, good: nat)
    requires needed > 0 && |pending| < (good + 1) * needed
    ensures FeedAll(pending, needed, good) == (Chunks(pending, needed), Remainder(pending, needed))
    decreases |pending|
  {
    if |pending| >= needed {
      assert (good + 1) * needed == good * needed + needed;
      assert good > 0;
      FeedsWholeChunks(pending[needed..], needed, good - 1);
    }
  }

  /** The guardrail discards samples if and only if the resampler failed with more than
      eight chunks still queued behind the failing one. */
  lemma {:induction false} DiscardsIff(pending: seq<real>, needed: nat, good: nat)
    requires needed > 0
    ensures var rest := FeedAll(pending, needed, good).1;
      |rest| > needed * 8 <==> |pending| > (good + 9) * needed
    decreases |pending|
  {
    assert (good + 9) * needed == good * needed + 9 * needed;
    if |pending| >= needed && good > 0 {
      DiscardsIff(pending[needed..], needed, good - 1);
      assert (good - 1 + 9) * needed == good * needed + 8 * needed;
    }
    assert good * needed >= 0;
  }

  /** Every sample is fed, discarded or still queued, in order; at most eight chunks stay
      queued, and exactly eight when any sample is discarded. */
  lemma CallbackConserves(pending: seq<real>, mono: seq<real>, needed: nat, good: nat)
    requires needed > 0
    ensures var f := Callback(pending, mono, needed, good);
      var fed := Joined(f.chunks);
      && |pending| + |mono| == |fed| + f.discarded + |f.pending|
      && fed == (pending + mono)[..|fed|] && f.pending == Newest(pending + mono, |f.pending|)
      && |f.pending| <= needed * 8 && (f.discarded > 0 ==> |f.pending| == needed * 8)
  {
    FeedAllIs(pending + mono, needed, good);
  }

  /** A run of callbacks with a resampler that does not fail. */
  function RunCallbacks(callbacks: seq<seq<real>>, channels: nat, needed: nat): Fed
    requires channels > 0 && needed > 0
  {
    if callbacks == [] then Fed([], [], 0)
    else
      var before := RunCallbacks(callbacks[..|callbacks| - 1], channels, needed);
      var mono := B.Downmix(callbacks[|callbacks| - 1], channels);
      var now := Callback(before.pending, mono, needed, |before.pending| + |mono|);
      Fed(before.chunks + now.chunks, now.pending, before.discarded + now.discarded)
  }

  function Joined(callbacks: seq<seq<real>>): seq<real> {
    if callbacks == [] then [] else Joined(callbacks[..|callbacks| - 1]) + callbacks[|callbacks| - 1]
  }

  predicate WholeFrameCallbacks(callbacks: seq<seq<real>>, channels: nat)
    requires channels > 0
  {
    forall i :: 0 <= i < |callbacks| ==> |callbacks[i]| % channels == 0
  }

  lemma {:induction false} JoinedWhole(callbacks: seq<seq<real>>, channels: nat)
    requires channels > 0 && WholeFrameCallbacks(callbacks, channels)
    ensures |Joined(callbacks)| % channels == 0
  {
    if callbacks == [] {
      B.DivUnique(0, channels, 0, 0);
    } else {
      var most, one := callbacks[..|callbacks| - 1], callbacks[|callbacks| - 1];
      JoinedWhole(most, channels);
      var a, b := |Joined(most)|, |one|;
      assert a + b == (a / channels + b / channels) * channels;
      B.DivUnique(a + b, channels, a / channels + b / channels, 0);
    }
  }

  lemma EnoughGood(n: nat, needed: nat)
    requires needed > 0
    ensures n < (n + 1) * needed
  {
  }

  /** However the device cuts its callbacks between channel frames, the resampler is fed
      the same chunks, those of the whole downmixed stream, and nothing is discarded. */
  lemma {:induction false} SplitIrrelevant(callbacks: seq<seq<real>>, channels: nat, needed: nat)
    requires channels > 0 && needed > 0 && WholeFrameCallbacks(callbacks, channels)
    ensures var mono := B.Downmix(Joined(callbacks), channels);
      RunCallbacks(callbacks, channels, needed) == Fed(Chunks(mono, needed), Remainder(mono, needed), 0)
    decreases |callbacks|
  {
    if callbacks != [] {
      var most, one := callbacks[..|callbacks| - 1], callbacks[|callbacks| - 1];
      SplitIrrelevant(most, channels, needed);
      JoinedWhole(most, channels);
      DownmixConcat(Joined(most), one, channels);
      var a, b := B.Downmix(Joined(most), channels), B.Downmix(one, channels);
      var pending := Remainder(a, needed);
      ChunksConcat(a, b, needed);
      EnoughGood(|pending| + |b|, needed);
      FeedsWholeChunks(pending + b, needed, |pending| + |b|);
      assert Remainder(pending + b, needed)[0..] == Remainder(pending + b, needed);
    }
  }

  /** Two runs of callbacks with the same samples in them end the same. */
  lemma SameSamplesSameChunks(a: seq<seq<real>>, b: seq<seq<real>>, channels: nat, needed: nat)
    requires channels > 0 && needed > 0
    requires WholeFrameCallbacks(a, channels) && WholeFrameCallbacks(b, channels) && Joined(a) == Joined(b)
    ensures RunCallbacks(a, channels, needed) == RunCallbacks(b, channels, needed)
  {
    SplitIrrelevant(a, channels, needed);
    SplitIrrelevant(b, channels, needed);
  }

  /** The queue kept across callbacks. */
  class ChunkQueue {
    var pending: seq<real>

    constructor ()
      ensures pending == []
    {
      pending := [];
    }

    method OnCallback(data: seq<real>, channels: nat, needed: nat, good: nat) returns (chunks: seq<seq<real>>)
      requires channels > 0 && needed > 0
      modifies this
      ensures var f := Callback(old(pending), B.Downmix(data, channels), needed, good);
        chunks == f.chunks && pending == f.pending
    {
      pending := pending + B.Downmix(data, channels);
      ghost var all := pending;
      chunks := [];
      var left: int := good;
      assert chunks + FeedAll(all, needed, good).0 == FeedAll(all, needed, good).0;
      while |pending| >= needed && left >= 0
        invariant left >= -1
        invariant left >= 0 ==>
          FeedAll(all, needed, good) == (chunks + FeedAll(pending, needed, left).0, FeedAll(pending, needed, left).1)
        invariant left == -1 ==> FeedAll(all, needed, good) == (chunks, pending)
        decreases left + 1
      {
        ghost var next := if left > 0 then FeedAll(pending[needed..], needed, left - 1).0 else [];
        assert chunks + ([pending[..needed]] + next) == (chunks + [pending[..needed]]) + next;
        chunks := chunks + [pending[..needed]];
        pending := pending[needed..];
        left := left - 1;
      }
      assert FeedAll(all, needed, good) == (chunks, pending) by {
        assert chunks + [] == chunks;
      }
      ghost var rest := pending;
      while |pending| > needed * 8
        invariant |pending| <= |rest| && pending == rest[|rest| - |pending|..]
        invariant |rest| > needed * 8 ==> |pending| >= needed * 8
        invariant |rest| <= needed * 8 ==> pending == rest
        decreases |pending|
      {
        pending := pending[1..];
      }
    }
  }
}
