/**
  The ring buffer between the audio device and the network: monotone positions over a
  fixed array. Every call is proved to do what the bounded queue says.
 */
module AudioBuffer {
  import opened AudioQueue
  import opened Basics

  const DEFAULT_VOLUME: nat := 70
  const MAX_VOLUME: nat := 100
  const MAX_GAIN: real := 3.0

  /** Cubic volume curve; see `VolumeCurve`. */
  function PerceptualGain(volume: nat): real {
    var normalized := Min(volume, MAX_VOLUME) as real / 100.0;
    normalized * normalized * normalized * MAX_GAIN
  }

  /** Silence at 0, three times the signal from 100 on, and between them the cube of the
      volume. */
  lemma VolumeCurve(volume: nat)
    ensures volume >= 100 ==> PerceptualGain(volume) == 3.0
    ensures volume <= 100 ==>
      1000000.0 * PerceptualGain(volume) == 3.0 * (volume as real * volume as real * volume as real)
  {
    if volume <= 100 {
      Cubed(volume as real);
    }
  }

  lemma Cubed(v: real)
    ensures 1000000.0 * (v / 100.0 * (v / 100.0) * (v / 100.0) * 3.0) == 3.0 * (v * v * v)
  {
    var n := v / 100.0;
    assert v == n * 100.0;
    assert v * v == (n * n) * 10000.0;
    assert v * v * v == (n * n * n) * 1000000.0;
  }

  function Scaled(xs: seq<real>, gain: real): seq<real> {
    seq(|xs|, i requires 0 <= i < |xs| => Amplified(xs[i], gain))
  }

  // ---------------------------------------------------------------------------
  // Downmix
  // ---------------------------------------------------------------------------

  function Sum(xs: seq<real>): real {
    if xs == [] then 0.0 else Sum(xs[..|xs| - 1]) + xs[|xs| - 1]
  }

  /** One mono sample of one interleaved frame. */
  function Mono(frame: seq<real>): real
    requires frame != []
  {
    Sum(frame) / |frame| as real
  }

  lemma {:induction false} SumJoins(a: seq<real>, b: seq<real>)
    ensures Sum(a + b) == Sum(a) + Sum(b)
    decreases |b|
  {
    if b == [] {
      assert a + b == a;
    } else {
      assert (a + b)[..|a + b| - 1] == a + b[..|b| - 1];
      SumJoins(a, b[..|b| - 1]);
    }
  }

  lemma {:induction false} SumPermutes(a: seq<real>, b: seq<real>)
    requires multiset(a) == multiset(b)
    ensures Sum(a) == Sum(b)
    decreases |a|
  {
    SameLength(a, b);
    if a != [] {
      var k := LastIn(a, b);
      SumPermutes(a[..|a| - 1], b[..k] + b[k + 1..]);
      assert b == (b[..k] + [b[k]]) + b[k + 1..];
      SumJoins(b[..k] + [b[k]], b[k + 1..]);
      SumJoins(b[..k], b[k + 1..]);
    }
  }

  function Blend(p: real, a: seq<real>, q: real, b: seq<real>): seq<real>
    requires |a| == |b|
  {
    seq(|a|, i requires 0 <= i < |a| => Amplified(a[i], p) + Amplified(b[i], q))
  }

  lemma {:induction false} SumBlends(p: real, a: seq<real>, q: real, b: seq<real>)
    requires |a| == |b|
    ensures Sum(Blend(p, a, q, b)) == Amplified(Sum(a), p) + Amplified(Sum(b), q)
    decreases |a|
  {
    if a != [] {
      var n := |a| - 1;
      SumBlends(p, a[..n], q, b[..n]);
      assert Blend(p, a, q, b)[..n] == Blend(p, a[..n], q, b[..n]);
      AmplifiedAdds(Sum(a[..n]), a[n], p);
      AmplifiedAdds(Sum(b[..n]), b[n], q);
    }
  }

  lemma AmplifiedAdds(x: real, y: real, gain: real)
    ensures Amplified(x + y, gain) == Amplified(x, gain) + Amplified(y, gain)
  {
  }

  lemma {:induction false} SumOfEqual(frame: seq<real>, x: real)
    requires forall i :: 0 <= i < |frame| ==> frame[i] == x
    ensures Sum(frame) == |frame| as real * x
  {
    if frame != [] {
      SumOfEqual(frame[..|frame| - 1], x);
    }
  }

  /** The mono sample is the average: a frame of equal samples gives that sample back,
      the order of the channels does not matter, and mixing commutes with it. Only the
      average is all three. */
  lemma MonoOfEqual(frame: seq<real>, x: real)
    requires frame != [] && forall i :: 0 <= i < |frame| ==> frame[i] == x
    ensures Mono(frame) == x
  {
    SumOfEqual(frame, x);
  }

  lemma MonoPermutes(a: seq<real>, b: seq<real>)
    requires a != [] && multiset(a) == multiset(b)
    ensures b != [] && Mono(a) == Mono(b)
  {
    SameLength(a, b);
    SumPermutes(a, b);
  }

  lemma MonoLinear(p: real, a: seq<real>, q: real, b: seq<real>)
    requires a != [] && |a| == |b|
    ensures Mono(Blend(p, a, q, b)) == Amplified(Mono(a), p) + Amplified(Mono(b), q)
  {
    SumBlends(p, a, q, b);
    Shared(Sum(a), p, Sum(b), q, |a| as real);
  }

  lemma Shared(a: real, p: real, b: real, q: real, n: real)
    requires n > 0.0
    ensures (Amplified(a, p) + Amplified(b, q)) / n == Amplified(a / n, p) + Amplified(b / n, q)
  {
    var x, y := a / n, b / n;
    assert a == x * n && b == y * n;
    assert a * p == x * p * n && b * q == y * q * n;
  }

  /** Mono samples of the whole frames; a trailing partial frame is ignored. */
  function Downmix(samples: seq<real>, channels: nat): seq<real>
    requires channels > 0
    decreases |samples|
  {
    if |samples| < channels then []
    else [Mono(samples[..channels])] + Downmix(samples[channels..], channels)
  }

  lemma {:induction false} DownmixLength(samples: seq<real>, channels: nat)
    requires channels > 0
    ensures |Downmix(samples, channels)| == |samples| / channels
    decreases |samples|
  {
    if |samples| >= channels {
      DownmixLength(samples[channels..], channels);
      assert (|samples| - channels) / channels == |samples| / channels - 1 by {
        DivStep(|samples|, channels);
      }
    } else {
      DivSmall(|samples|, channels);
    }
  }

  /** Where frame `j` begins. */
  function Begin(j: nat, channels: nat): nat {
    if j == 0 then 0 else Begin(j - 1, channels) + channels
  }

  lemma {:induction false} BeginIs(j: nat, channels: nat)
    ensures Begin(j, channels) == j * channels
  {
    if j > 0 {
      BeginIs(j - 1, channels);
    }
  }

  /** Frame `j`, counted off from the front. */
  function FrameAt(samples: seq<real>, channels: nat, j: nat): (frame: seq<real>)
    requires Begin(j, channels) + channels <= |samples|
    ensures |frame| == channels
    decreases j
  {
    if j == 0 then samples[..channels] else FrameAt(samples[channels..], channels, j - 1)
  }

  lemma {:induction false} FrameAtIs(samples: seq<real>, channels: nat, j: nat)
    requires Begin(j, channels) + channels <= |samples|
    ensures var at := Begin(j, channels); FrameAt(samples, channels, j) == samples[at..at + channels]
    decreases j
  {
    if j > 0 {
      FrameAtIs(samples[channels..], channels, j - 1);
    }
  }

  lemma {:induction false} DownmixFrames(samples: seq<real>, channels: nat, j: nat)
    requires channels > 0 && Begin(j, channels) + channels <= |samples|
    ensures j < |Downmix(samples, channels)|
    ensures Downmix(samples, channels)[j] == Mono(FrameAt(samples, channels, j))
    decreases j
  {
    if j > 0 {
      DownmixFrames(samples[channels..], channels, j - 1);
    }
  }

  /** Sample `j` is made of frame `j`. */
  lemma DownmixAt(samples: seq<real>, channels: nat, j: nat)
    requires channels > 0 && (j + 1) * channels <= |samples|
    ensures j < |Downmix(samples, channels)|
    ensures 0 <= j * channels <= (j + 1) * channels
    ensures Downmix(samples, channels)[j] == Mono(samples[j * channels..(j + 1) * channels])
  {
    BeginIs(j, channels);
    BeginIs(j + 1, channels);
    FrameAtIs(samples, channels, j);
    DownmixFrames(samples, channels, j);
  }

  /** Two channels: the mean of left and right. */
  lemma StereoAverages(samples: seq<real>, j: nat)
    requires 2 * j + 1 < |samples|
    ensures j < |Downmix(samples, 2)|
    ensures Downmix(samples, 2)[j] == (samples[2 * j] + samples[2 * j + 1]) / 2.0
  {
    DownmixAt(samples, 2, j);
    assert samples[j * 2..(j + 1) * 2] == [samples[2 * j], samples[2 * j + 1]];
    MonoOfTwo(samples[2 * j], samples[2 * j + 1]);
  }

  lemma MonoOfTwo(l: real, r: real)
    ensures Mono([l, r]) == (l + r) / 2.0
  {
    assert [l, r][..1] == [l] && [l][..0] == [];
    assert Sum([l]) == Sum([]) + l;
  }

  /** The whole downmix is what is `done` and the downmix from position `i` on. */
  ghost predicate DownmixedTo(samples: seq<real>, channels: nat, i: nat, done: seq<real>)
    requires channels > 0 && i <= |samples|
  {
    Downmix(samples, channels) == done + Downmix(samples[i..], channels)
  }

  /** One frame on: the next mono sample is the average of the next frame. */
  lemma DownmixNext(samples: seq<real>, channels: nat, i: nat, done: seq<real>)
    requires channels > 0 && i + channels <= |samples| && DownmixedTo(samples, channels, i, done)
    ensures DownmixedTo(samples, channels, i + channels, done + [Mono(samples[i..i + channels])])
  {
    var frame, rest := samples[i..i + channels], Downmix(samples[i + channels..], channels);
    assert samples[i..][..channels] == frame;
    assert samples[i..][channels..] == samples[i + channels..];
    assert done + ([Mono(frame)] + rest) == (done + [Mono(frame)]) + rest;
  }

  lemma DownmixAll(samples: seq<real>, channels: nat, i: nat, done: seq<real>)
    requires channels > 0 && i <= |samples| < i + channels && DownmixedTo(samples, channels, i, done)
    ensures Downmix(samples, channels) == done
  {
    assert done + [] == done;
  }

  lemma MonoOfOne(x: real)
    ensures Mono([x]) == x
  {
    assert [x][..0] == [];
    assert Sum([x]) == Sum([]) + x;
  }

  /** One interleaved frame as a mono sample; a mono frame is taken as it is. */
  method OneFrame(samples: seq<real>, i: nat, channels: nat) returns (mono: real)
    requires channels > 0 && i + channels <= |samples|
    ensures mono == Mono(samples[i..i + channels])
  {
    if channels == 1 {
      assert samples[i..i + 1] == [samples[i]];
      MonoOfOne(samples[i]);
      return samples[i];
    }
    mono := Sum(samples[i..i + channels]) / channels as real;
  }

  lemma PushAllSnoc(q: Queue, xs: seq<real>, x: real)
    requires q.Valid()
    ensures PushAll(q, xs + [x]) == Push(PushAll(q, xs), x)
  {
    assert (xs + [x])[..|xs|] == xs;
  }

  lemma PushIs(q: Queue, x: real)
    requires q.Valid()
    ensures var lost := Max(|q.contents| + 1 - q.limits.capacity, 0);
      Push(q, x) == q.(contents := (q.contents + [x])[lost..], overruns := q.overruns + lost)
  {
  }

  lemma DivSmall(a: nat, c: nat)
    requires a < c
    ensures a / c == 0
  {
  }

  lemma DivStep(a: nat, c: nat)
    requires 0 < c <= a
    ensures (a - c) / c == a / c - 1
  {
    var q, r := (a - c) / c, (a - c) % c;
    assert a == (q + 1) * c + r;
    DivUnique(a, c, q + 1, r);
  }

  lemma DivUnique(a: nat, c: nat, q: nat, r: nat)
    requires 0 < c && r < c && a == q * c + r
    ensures a / c == q && a % c == r
  {
    MultipleApart(a / c - q, c);
    assert (a / c - q) * c == r - a % c;
  }

  /** A multiple of c strictly between -c and c is zero. */
  lemma MultipleApart(d: int, c: nat)
    ensures d >= 1 ==> d * c >= c
    ensures d <= -1 ==> d * c <= -(c as int)
  {
  }

  /** Positions closer than the capacity never share a slot. */
  lemma SlotsDistinct(a: nat, b: nat, capacity: nat)
    requires a < b < a + capacity
    ensures a % capacity != b % capacity
  {
    MultipleApart(b / capacity - a / capacity, capacity);
    assert (b / capacity - a / capacity) * capacity == b - a - (b % capacity - a % capacity);
  }

  /** The samples of the positions from `from` up to `to`. */
  ghost function Window(slots: seq<real>, from: nat, to: nat): seq<real>
    requires |slots| > 0 && from <= to
  {
    seq(to - from, i requires 0 <= i < to - from => slots[(from + i) % |slots|])
  }

  /** A sample went into the slot of position `to`, and no live position lost its own. */
  ghost predicate Stored(slots: seq<real>, slots': seq<real>, from: nat, to: nat, x: real) {
    && |slots| == |slots'| > 0
    && slots'[to % |slots|] == x
    && forall p :: from <= p < to && p + |slots| > to ==> slots'[p % |slots|] == slots[p % |slots|]
  }

  /** The window moves on: the new sample at its end, at most one gone at its front. */
  lemma WindowMoves(slots: seq<real>, slots': seq<real>, from: nat, from': nat, to: nat, x: real)
    requires Stored(slots, slots', from, to, x)
    requires from <= to <= from + |slots| && from' == Max(from, to + 1 - |slots|)
    ensures Window(slots', from', to + 1) == (Window(slots, from, to) + [x])[from' - from..]
  {
    var before, after := Window(slots, from, to), Window(slots', from', to + 1);
    forall i | 0 <= i < |after| ensures after[i] == (before + [x])[from' - from + i] {
      var p := from' + i;
      assert after[i] == slots'[p % |slots|];
      if p < to {
        assert before[p - from] == slots[p % |slots|];
      }
    }
  }

  datatype BufferStats = BufferStats(underruns: nat, overruns: nat, backlogDrops: nat, backlogDroppedSamples: nat)

  class AudioBuffer {
    const buf: array<real>
    const capacity: nat
    const target: nat
    const margin: nat
    var writePos: nat
    var readPos: nat
    var writeChannels: nat
    var underruns: nat
    var overruns: nat
    var backlogDrops: nat
    var backlogDropped: nat
    var volume: nat

    ghost predicate Valid()
      reads this
    {
      && 0 < capacity == buf.Length
      && readPos <= writePos <= readPos + capacity
      && writeChannels > 0
    }

    /** The live window, oldest sample first. */
    ghost function Contents(): seq<real>
      requires Valid()
      reads this, buf
    {
      Window(buf[..], readPos, writePos)
    }

    ghost function Value(): (q: Queue)
      requires Valid()
      reads this, buf
      ensures q.Valid()
    {
      Queue(Limits(capacity, target, margin), Contents(), underruns, overruns, backlogDrops, backlogDropped)
    }

    constructor WithTarget(durationMs: nat, targetMs: nat, marginMs: nat)
      ensures fresh(buf) && (Valid() <==> durationMs > 0)
      ensures durationMs > 0 ==> Value() == Fresh(Limits(48 * durationMs, targetMs * 48, marginMs * 48)).queue
      ensures writeChannels == 1 && volume == 70
    {
      capacity := 48 * durationMs;
      target := targetMs * 48;
      margin := marginMs * 48;
      buf := new real[48 * durationMs](_ => 0.0);
      writePos, readPos := 0, 0;
      writeChannels := 1;
      underruns, overruns, backlogDrops, backlogDropped := 0, 0, 0, 0;
      volume := DEFAULT_VOLUME;
    }

    /** Moves the reader on; the oldest samples are gone. */
    method AdvanceReader(n: nat)
      requires Valid() && readPos + n <= writePos
      modifies this`readPos
      ensures Valid() && readPos == old(readPos) + n
      ensures Value() == old(Value()).(contents := old(Contents())[n..])
    {
      ghost var before := Contents();
      readPos := readPos + n;
      forall i | 0 <= i < |before| - n ensures Contents()[i] == before[n + i] {
        assert (readPos + i) == old(readPos) + (n + i);
      }
      assert Contents() == before[n..];
    }

    /** Counts what is dropped as backlog. */
    method DropOldest(drop: nat)
      requires Valid() && 0 < drop && readPos + drop <= writePos
      modifies this`readPos, this`backlogDrops, this`backlogDropped
      ensures Valid() && Value() == DropBacklog(old(Value()), drop)
    {
      AdvanceReader(drop);
      backlogDrops := backlogDrops + 1;
      backlogDropped := backlogDropped + drop;
    }

    method PreemptForIncoming(incoming: nat)
      requires Valid()
      modifies this`readPos, this`backlogDrops, this`backlogDropped
      ensures Valid() && Value() == Preempt(old(Value()), incoming)
    {
      var fill := writePos - readPos;
      var projected := fill + incoming;
      var threshold := target + margin;
      if projected > threshold {
        var over := projected - threshold;
        var drop := if over < fill then over else fill;
        if drop > 0 {
          DropOldest(drop);
        }
      }
    }

    method EnforceBacklogDrop()
      requires Valid()
      modifies this`readPos, this`backlogDrops, this`backlogDropped
      ensures Valid() && Value() == Enforce(old(Value()))
    {
      var fill := writePos - readPos;
      var threshold := target + margin;
      if fill > threshold {
        var excess := fill - target;
        var maxDrop := if fill > FRAME_SAMPLES then fill - FRAME_SAMPLES else 0;
        var drop := if excess < maxDrop then excess else maxDrop;
        if drop > 0 {
          DropOldest(drop);
        }
      }
    }

    /** Puts a sample in the next slot. No position of the last `capacity` loses its own. */
    method StoreNext(x: real)
      requires Valid()
      modifies this`writePos, buf
      ensures writePos == old(writePos) + 1
      ensures Stored(old(buf[..]), buf[..], readPos, old(writePos), x)
    {
      var idx := writePos % capacity;
      forall p | readPos <= p < writePos && p + capacity > writePos ensures p % capacity != idx {
        SlotsDistinct(p, writePos, capacity);
      }
      buf[idx] := x;
      writePos := writePos + 1;
    }

    /** Stores one sample; when the writer catches up with the reader, the reader is
        pushed on. */
    method PushSample(x: real)
      requires Valid()
      modifies this`writePos, this`readPos, this`overruns, buf
      ensures Valid() && Value() == Push(old(Value()), x)
    {
      AppendNext(x);
      PushIs(old(Value()), x);
    }

    /** Puts a sample in the next slot: the window has it at its end, from the oldest
        position that still has its slot. */
    method ExtendWindow(x: real)
      requires Valid()
      modifies this`writePos, buf
      ensures writePos == old(writePos) + 1
      ensures var from := Max(readPos, writePos - capacity);
        Window(buf[..], from, writePos) == (old(Contents()) + [x])[from - readPos..]
    {
      ghost var slots := buf[..];
      StoreNext(x);
      WindowMoves(slots, buf[..], readPos, Max(readPos, writePos - capacity), writePos - 1, x);
    }

    /** The live window gets the sample at its end and loses one at its front when full. */
    method AppendNext(x: real)
      requires Valid()
      modifies this`writePos, this`readPos, this`overruns, buf
      ensures Valid()
      ensures var lost := Max(|old(Contents())| + 1 - capacity, 0);
        Contents() == (old(Contents()) + [x])[lost..] && overruns == old(overruns) + lost
    {
      ExtendWindow(x);
      PushReader();
    }

    /** Detects that the writer caught up with the reader. */
    method PushReader()
      requires 0 < capacity == buf.Length && writeChannels > 0
      requires readPos <= writePos <= readPos + capacity + 1
      modifies this`readPos, this`overruns
      ensures Valid()
      ensures readPos == Max(old(readPos), writePos - capacity)
      ensures overruns == old(overruns) + readPos - old(readPos)
    {
      if writePos - readPos > capacity {
        readPos := writePos - capacity;
        overruns := overruns + 1;
      }
    }

    method SetWriteChannels(channels: nat)
      requires Valid()
      modifies this`writeChannels
      ensures Valid() && Value() == old(Value())
      ensures writeChannels == Max(channels, 1)
    {
      writeChannels := if channels > 1 then channels else 1;
    }

    method SetVolume(v: nat)
      requires Valid()
      modifies this`volume
      ensures Valid() && Value() == old(Value())
      ensures volume == Min(v, 100)
    {
      volume := if v < MAX_VOLUME then v else MAX_VOLUME;
    }

    /** Interleaved samples from the device, downmixed frame by frame. */
    method Write(samples: seq<real>)
      requires Valid()
      modifies this`writePos, this`readPos, this`overruns, this`backlogDrops, this`backlogDropped, buf
      ensures Valid() && Value() == AudioQueue.Write(old(Value()), Downmix(samples, writeChannels))
    {
      var ch := writeChannels;
      DownmixLength(samples, ch);
      PreemptForIncoming(|samples| / ch);
      PushFrames(samples, ch);
      EnforceBacklogDrop();
    }

    /** Downmixes and stores one frame after the other. */
    method PushFrames(samples: seq<real>, ch: nat)
      requires Valid() && ch > 0
      modifies this`writePos, this`readPos, this`overruns, buf
      ensures Valid() && Value() == PushAll(old(Value()), Downmix(samples, ch))
    {
      ghost var start, done: seq<real> := Value(), [];
      var i := 0;
      assert samples[0..] == samples && [] + Downmix(samples, ch) == Downmix(samples, ch);
      while i + ch <= |samples|
        invariant Valid() && i <= |samples|
        invariant DownmixedTo(samples, ch, i, done) && Value() == PushAll(start, done)
        decreases |samples| - i
      {
        done := PushFrame(samples, i, ch, start, done);
        i := i + ch;
      }
      DownmixAll(samples, ch, i, done);
    }

    /** One frame, next to what has been stored so far. */
    method PushFrame(samples: seq<real>, i: nat, ch: nat, ghost start: Queue, ghost done: seq<real>)
      returns (ghost next: seq<real>)
      requires Valid() && ch > 0 && i + ch <= |samples|
      requires start.Valid() && Value() == PushAll(start, done) && DownmixedTo(samples, ch, i, done)
      modifies this`writePos, this`readPos, this`overruns, buf
      ensures Valid() && Value() == PushAll(start, next) && DownmixedTo(samples, ch, i + ch, next)
    {
      var mono := OneFrame(samples, i, ch);
      DownmixNext(samples, ch, i, done);
      PushAllSnoc(start, done, mono);
      PushSample(mono);
      next := done + [mono];
    }

    /** Samples that are mono already. */
    method WriteMono(samples: seq<real>)
      requires Valid()
      modifies this`writePos, this`readPos, this`overruns, this`backlogDrops, this`backlogDropped, buf
      ensures Valid() && Value() == AudioQueue.Write(old(Value()), samples)
    {
      PreemptForIncoming(|samples|);
      ghost var start := Value();
      for k := 0 to |samples|
        invariant Valid() && Value() == PushAll(start, samples[..k])
      {
        PushSample(samples[k]);
        PushAllSnoc(start, samples[..k], samples[k]);
        assert samples[..k + 1] == samples[..k] + [samples[k]];
      }
      assert samples[..|samples|] == samples;
      EnforceBacklogDrop();
    }

    /** Hands out the oldest samples, scaled by the volume. */
    method Read(out: array<real>) returns (count: nat)
      requires Valid() && out != buf
      modifies this`readPos, this`underruns, out
      ensures Valid() && Value() == AudioQueue.Read(old(Value()), out.Length)
      ensures count == ReadCount(old(Value()), out.Length)
      ensures out[..count] == Scaled(old(Contents())[..count], PerceptualGain(volume))
      ensures count == out.Length <= |old(Contents())| || count == |old(Contents())| < out.Length
      ensures Contents() == old(Contents())[count..]
      ensures underruns == old(underruns) + (if out.Length > |old(Contents())| then 1 else 0)
      ensures forall i :: 0 <= i < count ==> out[i] == old(Contents())[i] * PerceptualGain(volume)
      ensures out[count..] == old(out[..])[count..]
    {
      var gain := PerceptualGain(volume);
      var available := writePos - readPos;
      count := if out.Length < available then out.Length else available;
      CopyOut(out, count, gain, Contents());
      AdvanceReader(count);
      if count < out.Length {
        CountUnderrun();
      }
    }

    method CountUnderrun()
      requires Valid()
      modifies this`underruns
      ensures Valid() && Value() == old(Value()).(underruns := old(underruns) + 1)
    {
      underruns := underruns + 1;
      assert Contents() == old(Contents());
    }

    method CopyOut(out: array<real>, count: nat, gain: real, ghost contents: seq<real>)
      requires Valid() && out != buf && contents == Contents()
      requires count <= out.Length && count <= |contents|
      modifies out
      ensures out[..count] == Scaled(contents[..count], gain)
      ensures forall i :: 0 <= i < count ==> out[i] == contents[i] * gain
      ensures out[count..] == old(out[..])[count..]
    {
      for i := 0 to count
        invariant forall j :: 0 <= j < i ==> out[j] == Amplified(contents[j], gain)
        invariant forall j :: i <= j < out.Length ==> out[j] == old(out[j])
      {
        var x := buf[(readPos + i) % capacity];
        assert x == contents[i];
        out[i] := Amplified(x, gain);
      }
    }

    method Stats() returns (s: BufferStats)
      requires Valid()
      ensures var q := Value();
        s == BufferStats(q.underruns, q.overruns, q.backlogDrops, q.backlogDropped)
    {
      s := BufferStats(underruns, overruns, backlogDrops, backlogDropped);
    }

    method Available() returns (n: nat)
      requires Valid()
      ensures n == |Contents()|
    {
      n := writePos - readPos;
    }

    /** Drops the oldest frames without touching a counter. */
    method SkipFrames(n: nat, frameSamples: nat)
      requires Valid()
      modifies this`readPos
      ensures Valid() && Value() == Skip(old(Value()), n * frameSamples)
      ensures Contents() == old(Contents())[Min(n * frameSamples, |old(Contents())|)..]
      ensures underruns == old(underruns) && overruns == old(overruns) && backlogDropped == old(backlogDropped)
    {
      SkipSamples(n * frameSamples);
    }

    method SkipSamples(skip: nat)
      requires Valid()
      modifies this`readPos
      ensures Valid() && Value() == Skip(old(Value()), skip)
    {
      var available := writePos - readPos;
      var actual := if skip < available then skip else available;
      AdvanceReader(actual);
    }

    /** Shows the newest samples, unscaled and zero-filled, and takes none. */
    method PeekRecent(out: array<real>) returns (count: nat)
      requires Valid() && out != buf
      modifies out
      ensures Valid() && Value() == old(Value())
      ensures count == Min(out.Length, |Contents()|)
      ensures out[..count] == Newest(Contents(), count)
      ensures forall i :: count <= i < out.Length ==> out[i] == 0.0
    {
      var available := writePos - readPos;
      count := if out.Length < available then out.Length else available;
      CopyNewest(out, count, Contents());
      ZeroFrom(out, count);
    }

    method CopyNewest(out: array<real>, count: nat, ghost contents: seq<real>)
      requires Valid() && out != buf && contents == Contents()
      requires count <= out.Length && count <= |contents|
      modifies out
      ensures out[..count] == Newest(contents, count)
    {
      var start := writePos - count;
      ghost var base := |contents| - count;
      for i := 0 to count
        invariant forall j :: 0 <= j < i ==> out[j] == contents[base + j]
      {
        var x := buf[(start + i) % capacity];
        assert x == contents[base + i];
        out[i] := x;
      }
    }
  }

  method ZeroFrom(out: array<real>, count: nat)
    requires count <= out.Length
    modifies out
    ensures out[..count] == old(out[..count])
    ensures forall i :: count <= i < out.Length ==> out[i] == 0.0
  {
    for i := count to out.Length
      invariant forall j :: 0 <= j < count ==> out[j] == old(out[j])
      invariant forall j :: count <= j < i ==> out[j] == 0.0
    {
      out[i] := 0.0;
    }
  }

  /** What other threads do to a buffer while its reader is between two calls. */
  method OthersWrite(capture: AudioBuffer, batches: seq<seq<real>>)
    requires capture.Valid()
    modifies capture`writePos, capture`readPos, capture`overruns, capture`backlogDrops, capture`backlogDropped,
      capture.buf
    ensures capture.Valid() && capture.Value() == Interfere(old(capture.Value()), batches)
    decreases |batches|
  {
    if batches != [] {
      capture.WriteMono(batches[0]);
      OthersWrite(capture, batches[1..]);
    }
  }
}
