/**
  The remote-audio mixer: one queue of samples per track, one mixed 20 ms frame per
  tick, and a bound on how far a queue may fall behind.
 */
module Mixer {
  import opened Basics

  const MAX_QUEUE_SAMPLES: nat := FRAME_SAMPLES * 10
  const TARGET_QUEUE_SAMPLES: nat := FRAME_SAMPLES * 5

  // ---------------------------------------------------------------------------
  // Mixing
  // ---------------------------------------------------------------------------

  /** What a track contributes to sample `i`; a short track is silent past its end. */
  function Part(track: seq<real>, i: nat): real {
    if i < |track| then track[i] else 0.0
  }

  function SumAt(tracks: seq<seq<real>>, i: nat): real {
    if tracks == [] then 0.0 else SumAt(tracks[..|tracks| - 1], i) + Part(tracks[|tracks| - 1], i)
  }

  /** Zeroes the output, adds every track, clamps. */
  method MixAudioTracks(tracks: seq<seq<real>>, output: array<real>)
    modifies output
    ensures forall i :: 0 <= i < output.Length ==> output[i] == Clamp(SumAt(tracks, i))
    ensures forall i :: 0 <= i < output.Length && SumAt(tracks, i) > 1.0 ==> output[i] == 1.0
    ensures forall i :: 0 <= i < output.Length && SumAt(tracks, i) < -1.0 ==> output[i] == -1.0
    ensures forall i :: 0 <= i < output.Length && -1.0 <= SumAt(tracks, i) <= 1.0 ==> output[i] == SumAt(tracks, i)
  {
    for i := 0 to output.Length
      invariant forall j :: 0 <= j < i ==> output[j] == 0.0
    {
      output[i] := 0.0;
    }
    for t := 0 to |tracks|
      invariant forall j :: 0 <= j < output.Length ==> output[j] == SumAt(tracks[..t], j)
    {
      assert tracks[..t + 1][..t] == tracks[..t];
      var len := if |tracks[t]| < output.Length then |tracks[t]| else output.Length;
      for i := 0 to len
        invariant forall j :: 0 <= j < i ==> output[j] == SumAt(tracks[..t + 1], j)
        invariant forall j :: i <= j < output.Length ==> output[j] == SumAt(tracks[..t], j)
      {
        output[i] := output[i] + tracks[t][i];
      }
      assert forall j :: len <= j < output.Length ==> SumAt(tracks[..t + 1], j) == SumAt(tracks[..t], j);
    }
    assert tracks[..|tracks|] == tracks;
    for i := 0 to output.Length
      invariant forall j :: 0 <= j < i ==> output[j] == Clamp(SumAt(tracks, j))
      invariant forall j :: i <= j < output.Length ==> output[j] == SumAt(tracks, j)
    {
      output[i] := Clamp(output[i]);
    }
  }

  /** One track alone is heard as it is, and is silent past its end. */
  lemma SumOfOne(track: seq<real>, i: nat)
    ensures SumAt([track], i) == if i < |track| then track[i] else 0.0
  {
    assert [track][..0] == [];
  }

  /** Tracks mixed together add up to the tracks mixed apart. */
  lemma {:induction false} SumJoins(a: seq<seq<real>>, b: seq<seq<real>>, i: nat)
    ensures SumAt(a + b, i) == SumAt(a, i) + SumAt(b, i)
    decreases |b|
  {
    if b == [] {
      assert a + b == a;
    } else {
      assert (a + b)[..|a + b| - 1] == a + b[..|b| - 1];
      SumJoins(a, b[..|b| - 1], i);
    }
  }

  /** One track may be taken out anywhere. */
  lemma {:induction false} SumWithout(tracks: seq<seq<real>>, k: nat, i: nat)
    requires k < |tracks|
    ensures SumAt(tracks, i) == SumAt(tracks[..k] + tracks[k + 1..], i) + Part(tracks[k], i)
    decreases |tracks|
  {
    var n := |tracks| - 1;
    if k == n {
      assert tracks[..k] + tracks[k + 1..] == tracks[..n];
    } else {
      var most := tracks[..n];
      SumWithout(most, k, i);
      var rest := tracks[..k] + tracks[k + 1..];
      assert rest[..|rest| - 1] == most[..k] + most[k + 1..];
      assert rest[|rest| - 1] == tracks[n];
    }
  }

  /** The sum does not depend on the order of the tracks. */
  lemma {:induction false} SumPermutes(a: seq<seq<real>>, b: seq<seq<real>>, i: nat)
    requires multiset(a) == multiset(b)
    ensures SumAt(a, i) == SumAt(b, i)
    decreases |a|
  {
    SameLength(a, b);
    if a != [] {
      var k := LastIn(a, b);
      SumWithout(b, k, i);
      SumPermutes(a[..|a| - 1], b[..k] + b[k + 1..], i);
    }
  }

  // ---------------------------------------------------------------------------
  // One queue
  // ---------------------------------------------------------------------------

  /** The next frame of a queue: its oldest samples, the last one held to fill up. */
  function FrameOf(q: seq<real>): (f: seq<real>)
    requires q != []
    ensures |f| == FRAME_SAMPLES
  {
    seq(FRAME_SAMPLES, i requires 0 <= i < FRAME_SAMPLES => if i < |q| then q[i] else q[|q| - 1])
  }

  function Taken(q: seq<real>): nat {
    if |q| < FRAME_SAMPLES then |q| else FRAME_SAMPLES
  }

  function Excess(n: nat): nat {
    if n > MAX_QUEUE_SAMPLES then n - TARGET_QUEUE_SAMPLES else 0
  }

  function Rest(q: seq<real>): seq<real> {
    q[Taken(q)..]
  }

  function Trim(q: seq<real>): seq<real> {
    q[Excess(|q|)..]
  }

  /** A queue after a tick. */
  function Ticked(q: seq<real>): seq<real> {
    Trim(Rest(q))
  }

  /** Queues are keyed by participant and track. */
  datatype TrackKey = TrackKey(name: string)

  datatype QueueOp = Enqueue(xs: seq<real>) | TickQueue | Leave

  /** One track's queue with its history. */
  datatype Track = Track(queue: seq<real>, stream: seq<real>, delivered: nat, trimmed: nat, abandoned: nat) {
    function Position(): nat {
      delivered + trimmed + abandoned
    }

    predicate Books() {
      Position() <= |stream| && queue == stream[Position()..]
    }
  }

  const NEW_TRACK := Track([], [], 0, 0, 0)

  function StepTrack(t: Track, op: QueueOp): Track {
    match op
    case Enqueue(xs) => t.(queue := t.queue + xs, stream := t.stream + xs)
    case TickQueue =>
      t.(queue := Ticked(t.queue), delivered := t.delivered + Taken(t.queue),
         trimmed := t.trimmed + Excess(|t.queue| - Taken(t.queue)))
    case Leave => t.(queue := [], abandoned := t.abandoned + |t.queue|)
  }

  function RunTrack(t: Track, ops: seq<QueueOp>): Track {
    if ops == [] then t else StepTrack(RunTrack(t, ops[..|ops| - 1]), ops[|ops| - 1])
  }

  /** In every run: what was enqueued is what was delivered, trimmed, abandoned or is still
      queued, in arrival order; each tick delivers the next samples of the stream; and
      after a tick at most 200 ms are queued. */
  lemma {:induction false} TrackConserves(ops: seq<QueueOp>)
    ensures var t := RunTrack(NEW_TRACK, ops);
      && t.Books()
      && |t.stream| == t.delivered + t.trimmed + t.abandoned + |t.queue|
      && (ops != [] && ops[|ops| - 1].TickQueue? ==> |t.queue| <= 9600)
  {
    RunBooks(ops);
    BooksBalance(RunTrack(NEW_TRACK, ops));
    if ops != [] && ops[|ops| - 1].TickQueue? {
      TickBounds(RunTrack(NEW_TRACK, ops[..|ops| - 1]));
    }
  }

  lemma BooksBalance(t: Track)
    requires t.Books()
    ensures |t.stream| == t.delivered + t.trimmed + t.abandoned + |t.queue|
  {
  }

  lemma TickBounds(t: Track)
    ensures |StepTrack(t, TickQueue).queue| <= MAX_QUEUE_SAMPLES
  {
    TickedBounded(t.queue);
  }

  lemma {:induction false} RunBooks(ops: seq<QueueOp>)
    ensures RunTrack(NEW_TRACK, ops).Books()
  {
    if ops != [] {
      RunBooks(ops[..|ops| - 1]);
      StepBooks(RunTrack(NEW_TRACK, ops[..|ops| - 1]), ops[|ops| - 1]);
    }
  }

  /** A queue after a tick, in samples: a frame is gone, and of more than 200 ms only the
      newest 100 ms stay. */
  lemma TickedIs(q: seq<real>)
    ensures |q| <= 960 ==> Ticked(q) == []
    ensures 960 < |q| <= 10560 ==> Ticked(q) == q[960..]
    ensures 10560 < |q| ==> Ticked(q) == q[|q| - 4800..]
  {
  }

  /** A frame is the oldest 960 samples, or all there are and the last one held. */
  lemma FrameOfIs(q: seq<real>, i: nat)
    requires q != [] && i < 960
    ensures |FrameOf(q)| == 960
    ensures FrameOf(q)[i] == q[Min(i, |q| - 1)]
  {
  }

  lemma TickedBounded(q: seq<real>)
    ensures |Ticked(q)| == |q| - Taken(q) - Excess(|q| - Taken(q))
    ensures |Ticked(q)| <= MAX_QUEUE_SAMPLES
    ensures Ticked(q) != [] <==> |q| > FRAME_SAMPLES
  {
  }

  lemma StepBooks(t: Track, op: QueueOp)
    requires t.Books()
    ensures StepTrack(t, op).Books()
  {
    var u := StepTrack(t, op);
    match op
    case Enqueue(xs) => assert u.queue == u.stream[u.Position()..];
    case TickQueue =>
      TickedBounded(t.queue);
      assert u.queue == t.queue[|t.queue| - |u.queue|..];
      assert u.queue == t.stream[u.Position()..];
    case Leave => assert u.queue == t.stream[u.Position()..];
  }

  /** The real part of a delivered frame is the next stretch of the stream. */
  lemma {:induction false} FrameIsNext(ops: seq<QueueOp>)
    ensures var t := RunTrack(NEW_TRACK, ops);
      var n := Taken(t.queue);
      t.queue != [] ==>
        && t.Position() + n <= |t.stream|
        && FrameOf(t.queue)[..n] == t.stream[t.Position()..t.Position() + n]
        && forall i :: n <= i < FRAME_SAMPLES ==> FrameOf(t.queue)[i] == t.stream[|t.stream| - 1]
  {
    TrackConserves(ops);
  }

  // ---------------------------------------------------------------------------
  // One tick over all queues
  // ---------------------------------------------------------------------------

  /** Frames of the nonempty queues, in the order they are visited. */
  function Frames(queues: map<TrackKey, seq<real>>, order: seq<TrackKey>): seq<seq<real>>
    requires forall k <- order :: k in queues
  {
    if order == [] then []
    else Frames(queues, order[..|order| - 1]) + Piece(queues[order[|order| - 1]])
  }

  function Piece(q: seq<real>): seq<seq<real>> {
    if q == [] then [] else [FrameOf(q)]
  }

  /** The frame sent to playback; with several tracks a gain comes first. */
  function MixedAt(tracks: seq<seq<real>>, gain: real, i: nat): (y: real)
    ensures -1.0 <= y <= 1.0
  {
    var sum := Clamp(SumAt(tracks, i));
    if |tracks| > 1 then Clamp(Amplified(sum, gain)) else sum
  }

  /** What is played of a sum of samples from so many tracks. */
  predicate Heard(sum: real, tracks: nat, gain: real, y: real) {
    if tracks <= 1 then Cut(sum, y)
    else if sum > 1.0 then Cut(gain, y)
    else if sum < -1.0 then Cut(-gain, y)
    else Cut(sum * gain, y)
  }

  lemma MixedHeard(tracks: seq<seq<real>>, gain: real, i: nat)
    ensures Heard(SumAt(tracks, i), |tracks|, gain, MixedAt(tracks, gain, i))
  {
    assert Amplified(1.0, gain) == gain && Amplified(-1.0, gain) == -gain;
  }

  predicate Visits(order: seq<TrackKey>, queues: map<TrackKey, seq<real>>) {
    && (forall k <- order :: k in queues)
    && (forall k <- queues :: k in order)
    && (forall i, j :: 0 <= i < j < |order| ==> order[i] != order[j])
  }

  lemma FramesLast(queues: map<TrackKey, seq<real>>, order: seq<TrackKey>, k: TrackKey)
    requires (forall x <- order :: x in queues) && k in queues
    ensures forall x <- order + [k] :: x in queues
    ensures Frames(queues, order + [k]) == Frames(queues, order) + Piece(queues[k])
  {
    assert (order + [k])[..|order|] == order;
  }

  /** A queue that holds anything gives one frame, an empty one none. */
  lemma FramesOfOne(queues: map<TrackKey, seq<real>>, k: TrackKey)
    requires k in queues
    ensures queues[k] == [] ==> Frames(queues, [k]) == []
    ensures queues[k] != [] ==> Frames(queues, [k]) == [FrameOf(queues[k])]
  {
    assert [k][..0] == [];
  }

  lemma {:induction false} FramesConcat(queues: map<TrackKey, seq<real>>, a: seq<TrackKey>, b: seq<TrackKey>)
    requires (forall k <- a :: k in queues) && (forall k <- b :: k in queues)
    ensures forall k <- a + b :: k in queues
    ensures Frames(queues, a + b) == Frames(queues, a) + Frames(queues, b)
    decreases |b|
  {
    if b == [] {
      assert a + b == a;
    } else {
      var most, k := b[..|b| - 1], b[|b| - 1];
      assert b == most + [k] && a + b == (a + most) + [k];
      FramesConcat(queues, a, most);
      FramesLast(queues, most, k);
      FramesLast(queues, a + most, k);
    }
  }

  lemma FramesWithout(queues: map<TrackKey, seq<real>>, order: seq<TrackKey>, k: nat)
    requires k < |order| && forall x <- order :: x in queues
    ensures var rest := order[..k] + order[k + 1..];
      && (forall x <- rest :: x in queues)
      && multiset(Frames(queues, order)) == multiset(Frames(queues, rest)) + multiset(Piece(queues[order[k]]))
  {
    var p, x, r := order[..k], [order[k]], order[k + 1..];
    assert order == (p + x) + r;
    assert forall y <- p + r :: y in order;
    FramesConcat(queues, p + x, r);
    FramesConcat(queues, p, x);
    FramesConcat(queues, p, r);
    assert Frames(queues, x) == Piece(queues[order[k]]) by {
      assert x[..0] == [];
    }
    MiddleOut(Frames(queues, p), Frames(queues, x), Frames(queues, r));
  }

  /** Frames as a multiset, whatever the order of the visit. */
  lemma {:induction false} FramesPermute(queues: map<TrackKey, seq<real>>, a: seq<TrackKey>, b: seq<TrackKey>)
    requires multiset(a) == multiset(b) && (forall k <- a :: k in queues) && (forall k <- b :: k in queues)
    ensures multiset(Frames(queues, a)) == multiset(Frames(queues, b))
    decreases |a|
  {
    SameLength(a, b);
    if a != [] {
      var k := LastIn(a, b);
      FramesWithout(queues, b, k);
      FramesPermute(queues, a[..|a| - 1], b[..k] + b[k + 1..]);
    }
  }

  lemma DistinctVisits(queues: map<TrackKey, seq<real>>, a: seq<TrackKey>, b: seq<TrackKey>)
    requires Visits(a, queues) && Visits(b, queues)
    ensures multiset(a) == multiset(b)
  {
    forall k ensures multiset(a)[k] == multiset(b)[k] {
      OnceIn(a, k);
      OnceIn(b, k);
    }
  }

  lemma {:induction false} OnceIn(order: seq<TrackKey>, k: TrackKey)
    requires forall i, j :: 0 <= i < j < |order| ==> order[i] != order[j]
    ensures multiset(order)[k] == if k in order then 1 else 0
  {
    if order != [] {
      var most := order[..|order| - 1];
      assert order == most + [order[|order| - 1]];
      OnceIn(most, k);
    }
  }

  /** The mixed frame does not depend on the order in which the queues are visited. */
  lemma MixOrderIrrelevant(queues: map<TrackKey, seq<real>>, a: seq<TrackKey>, b: seq<TrackKey>, gain: real, i: nat)
    requires Visits(a, queues) && Visits(b, queues)
    ensures |Frames(queues, a)| == |Frames(queues, b)|
    ensures MixedAt(Frames(queues, a), gain, i) == MixedAt(Frames(queues, b), gain, i)
  {
    DistinctVisits(queues, a, b);
    FramesPermute(queues, a, b);
    SameLength(Frames(queues, a), Frames(queues, b));
    SumPermutes(Frames(queues, a), Frames(queues, b), i);
    MixedSame(Frames(queues, a), Frames(queues, b), gain, i);
  }

  lemma MixedSame(a: seq<seq<real>>, b: seq<seq<real>>, gain: real, i: nat)
    requires |a| == |b| && SumAt(a, i) == SumAt(b, i)
    ensures MixedAt(a, gain, i) == MixedAt(b, gain, i)
  {
  }

  // ---------------------------------------------------------------------------
  // The queues as an object
  // ---------------------------------------------------------------------------

  /** Pops up to a frame from the front; holds the last sample to fill the frame. */
  method PopFrame(q: seq<real>) returns (frame: seq<real>, rest: seq<real>)
    requires q != []
    ensures frame == FrameOf(q) && rest == Rest(q)
  {
    frame, rest := [], q;
    while |frame| < FRAME_SAMPLES && rest != []
      invariant |frame| <= FRAME_SAMPLES && |frame| <= |q|
      invariant frame == q[..|frame|] && rest == q[|frame|..]
      decreases |rest|
    {
      frame := frame + [rest[0]];
      rest := rest[1..];
    }
    ghost var filled := |frame|;
    var hold := frame[|frame| - 1];
    while |frame| < FRAME_SAMPLES
      invariant filled <= |frame| <= FRAME_SAMPLES && frame[..filled] == q[..filled]
      invariant forall i :: filled <= i < |frame| ==> frame[i] == hold
    {
      frame := frame + [hold];
    }
    forall i | 0 <= i < FRAME_SAMPLES ensures frame[i] == FrameOf(q)[i] {
      if i < filled {
        assert frame[i] == frame[..filled][i];
      }
    }
  }

  lemma FramesSnoc(queues: map<TrackKey, seq<real>>, order: seq<TrackKey>, i: nat)
    requires i < |order| && forall k <- order :: k in queues
    ensures Frames(queues, order[..i + 1]) == Frames(queues, order[..i]) + Piece(queues[order[i]])
  {
    assert order[..i + 1][..i] == order[..i];
  }

  /** Takes one frame from every nonempty queue. */
  method TakeFrames(queues: map<TrackKey, seq<real>>, order: seq<TrackKey>)
    returns (tracks: seq<seq<real>>, left: map<TrackKey, seq<real>>)
    requires Visits(order, queues)
    ensures tracks == Frames(queues, order)
    ensures left.Keys == queues.Keys && forall k <- queues :: left[k] == Rest(queues[k])
  {
    tracks, left := [], queues;
    for i := 0 to |order|
      invariant Worked(Rest, queues, left, Visited(order, i))
      invariant tracks == Frames(queues, order[..i])
    {
      var k := order[i];
      FramesSnoc(queues, order, i);
      VisitedNext(order, i);
      WorkedNext(Rest, queues, left, Visited(order, i), k);
      var piece, rest := TakePiece(left[k]);
      tracks := tracks + piece;
      left := left[k := rest];
    }
    assert order[..|order|] == order;
    AllVisited(queues, order);
  }

  /** The keys visited so far. */
  ghost function Visited(order: seq<TrackKey>, i: nat): set<TrackKey>
    requires i <= |order|
  {
    if i == 0 then {} else Visited(order, i - 1) + {order[i - 1]}
  }

  lemma {:induction false} VisitedIs(order: seq<TrackKey>, i: nat, k: TrackKey)
    requires i <= |order|
    ensures k in Visited(order, i) <==> exists j :: 0 <= j < i && order[j] == k
  {
    if i > 0 {
      VisitedIs(order, i - 1, k);
      assert order[i - 1] == k ==> exists j :: 0 <= j < i && order[j] == k;
    }
  }

  lemma VisitedNext(order: seq<TrackKey>, i: nat)
    requires i < |order| && forall j, k :: 0 <= j < k < |order| ==> order[j] != order[k]
    ensures order[i] !in Visited(order, i) && Visited(order, i + 1) == Visited(order, i) + {order[i]}
  {
    VisitedIs(order, i, order[i]);
  }

  lemma AllVisited(queues: map<TrackKey, seq<real>>, order: seq<TrackKey>)
    requires Visits(order, queues)
    ensures forall k <- queues :: k in Visited(order, |order|)
  {
    forall k | k in queues ensures k in Visited(order, |order|) {
      VisitedIs(order, |order|, k);
    }
  }

  /** The visited queues have been worked on by `f`, the others not yet. */
  ghost predicate Worked(f: seq<real> -> seq<real>, queues: map<TrackKey, seq<real>>,
                         left: map<TrackKey, seq<real>>, done: set<TrackKey>) {
    && left.Keys == queues.Keys
    && forall k <- queues :: left[k] == if k in done then f(queues[k]) else queues[k]
  }

  lemma WorkedNext(f: seq<real> -> seq<real>, queues: map<TrackKey, seq<real>>,
                   left: map<TrackKey, seq<real>>, done: set<TrackKey>, k: TrackKey)
    requires Worked(f, queues, left, done) && k !in done
    ensures k in queues ==> left[k] == queues[k] && Worked(f, queues, left[k := f(queues[k])], done + {k})
    ensures k !in queues ==> Worked(f, queues, left, done + {k})
  {
  }

  method TakePiece(q: seq<real>) returns (piece: seq<seq<real>>, rest: seq<real>)
    ensures piece == Piece(q) && rest == Rest(q)
  {
    if q == [] {
      return [], [];
    }
    var frame;
    frame, rest := PopFrame(q);
    piece := [frame];
  }

  /** Keeps the queues that still hold audio and caps their latency. */
  method RetainAndTrim(queues: map<TrackKey, seq<real>>, order: seq<TrackKey>) returns (left: map<TrackKey, seq<real>>)
    requires Visits(order, queues)
    ensures forall k :: k in left <==> k in queues && queues[k] != []
    ensures forall k <- left :: left[k] == Trim(queues[k])
  {
    var kept := map k | k in queues && queues[k] != [] :: queues[k];
    left := kept;
    for i := 0 to |order|
      invariant Worked(Trim, kept, left, Visited(order, i))
    {
      var k := order[i];
      VisitedNext(order, i);
      WorkedNext(Trim, kept, left, Visited(order, i), k);
      if k in left {
        var trimmed := TrimQueue(left[k]);
        left := left[k := trimmed];
      }
    }
    AllVisited(queues, order);
  }

  method TrimQueue(q: seq<real>) returns (r: seq<real>)
    ensures r == Trim(q)
  {
    r := q;
    if |q| > MAX_QUEUE_SAMPLES {
      var toDrop := |q| - TARGET_QUEUE_SAMPLES;
      r := q[toDrop..];
    }
  }

  class RemoteQueues {
    var queues: map<TrackKey, seq<real>>

    constructor ()
      ensures queues == map[]
    {
      queues := map[];
    }

    function Queued(k: TrackKey): seq<real>
      reads this
    {
      Lookup(queues, k)
    }

    /** Decoded samples of one track. */
    method Extend(k: TrackKey, xs: seq<real>)
      modifies this
      ensures Queued(k) == old(Queued(k)) + xs
      ensures forall x :: x != k ==> Queued(x) == old(Queued(x))
    {
      queues := queues[k := Lookup(queues, k) + xs];
    }

    method Drop(k: TrackKey)
      modifies this
      ensures Queued(k) == []
      ensures forall x :: x != k ==> Queued(x) == old(Queued(x))
    {
      queues := queues - {k};
    }

    /** One tick. `order` is the order the map is visited in, `gain` the attenuation for
        several tracks. Every queue moves on by itself, what is retained holds 1 to 9600
        samples, and the frame played stays within [-1, 1]. */
    method Tick(order: seq<TrackKey>, gain: real) returns (played: bool, mixed: array<real>)
      requires Visits(order, queues)
      modifies this
      ensures fresh(mixed) && mixed.Length == 960
      ensures forall k :: Queued(k) == Ticked(old(Queued(k)))
      ensures forall k <- queues :: 1 <= |queues[k]| <= 9600
      ensures played <==> exists k :: k in old(queues) && old(queues)[k] != []
      ensures played ==> forall i :: 0 <= i < FRAME_SAMPLES ==>
        mixed[i] == MixedAt(Frames(old(queues), order), gain, i)
      ensures played ==> forall i :: 0 <= i < FRAME_SAMPLES ==>
        Heard(SumAt(Frames(old(queues), order), i), |Frames(old(queues), order)|, gain, mixed[i])
    {
      mixed := new real[FRAME_SAMPLES](_ => 0.0);
      var tracks, left := TakeFrames(queues, order);
      SomeFrame(queues, order);
      played := tracks != [];
      left := RetainAndTrim(left, order);
      AllTicked(queues, left);
      queues := left;
      if played {
        MixAudioTracks(tracks, mixed);
        if |tracks| > 1 {
          Attenuate(mixed, gain);
        }
        forall i | 0 <= i < FRAME_SAMPLES ensures Heard(SumAt(tracks, i), |tracks|, gain, MixedAt(tracks, gain, i)) {
          MixedHeard(tracks, gain, i);
        }
      }
    }
  }

  function Lookup(queues: map<TrackKey, seq<real>>, k: TrackKey): seq<real> {
    if k in queues then queues[k] else []
  }

  lemma AllTicked(queues: map<TrackKey, seq<real>>, left: map<TrackKey, seq<real>>)
    requires forall k :: k in left <==> k in queues && Rest(queues[k]) != []
    requires forall k <- left :: left[k] == Trim(Rest(queues[k]))
    ensures forall k :: Lookup(left, k) == Ticked(Lookup(queues, k))
    ensures forall k <- left :: 1 <= |left[k]| <= MAX_QUEUE_SAMPLES
  {
    forall k ensures Lookup(left, k) == Ticked(Lookup(queues, k)) {
      TickedBounded(Lookup(queues, k));
    }
    forall k | k in left ensures 1 <= |left[k]| <= MAX_QUEUE_SAMPLES {
      TickedBounded(queues[k]);
    }
  }

  method Attenuate(mixed: array<real>, gain: real)
    modifies mixed
    ensures forall i :: 0 <= i < mixed.Length ==> mixed[i] == Clamp(Amplified(old(mixed[i]), gain))
  {
    for i := 0 to mixed.Length
      invariant forall j :: 0 <= j < i ==> mixed[j] == Clamp(Amplified(old(mixed[j]), gain))
      invariant forall j :: i <= j < mixed.Length ==> mixed[j] == old(mixed[j])
    {
      mixed[i] := Clamp(Amplified(mixed[i], gain));
    }
  }

  lemma {:induction false} SomeFrame(queues: map<TrackKey, seq<real>>, order: seq<TrackKey>)
    requires forall k <- order :: k in queues
    ensures Frames(queues, order) != [] <==> exists k :: k in order && queues[k] != []
    decreases |order|
  {
    if order != [] {
      var most := order[..|order| - 1];
      SomeFrame(queues, most);
      assert forall k :: k in order <==> k in most || k == order[|order| - 1];
    }
  }
}
