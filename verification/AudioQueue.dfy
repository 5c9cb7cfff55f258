/**
  The audio buffer as a plain bounded queue of samples: what each call does to the
  contents and the counters, and the laws that hold over every run of calls.
 */
module AudioQueue {
  import opened Basics

  datatype Limits = Limits(capacity: nat, target: nat, margin: nat) {
    function Threshold(): nat {
      target + margin
    }
  }

  datatype Queue = Queue(
    limits: Limits, contents: seq<real>,
    underruns: nat, overruns: nat, backlogDrops: nat, backlogDropped: nat)
  {
    predicate Valid() {
      0 < limits.capacity && |contents| <= limits.capacity
    }
  }

  /** Advances the read position by `drop` samples as a backlog drop. */
  function DropBacklog(q: Queue, drop: nat): Queue
    requires drop <= |q.contents|
  {
    if drop == 0 then q
    else q.(contents := q.contents[drop..],
            backlogDrops := q.backlogDrops + 1,
            backlogDropped := q.backlogDropped + drop)
  }

  /** Room is made before a batch of `incoming` samples. */
  function Preempt(q: Queue, incoming: nat): Queue {
    var projected := |q.contents| + incoming;
    if projected > q.limits.Threshold() then
      DropBacklog(q, Min(projected - q.limits.Threshold(), |q.contents|))
    else q
  }

  /** After a batch the fill is brought back to the target, but not below a frame. */
  function Enforce(q: Queue): Queue {
    var fill := |q.contents|;
    if fill > q.limits.Threshold() then
      DropBacklog(q, Min(fill - q.limits.target, Max(fill - FRAME_SAMPLES, 0)))
    else q
  }

  function Push(q: Queue, x: real): Queue
    requires q.Valid()
  {
    var longer := q.contents + [x];
    if |longer| > q.limits.capacity then
      q.(contents := longer[|longer| - q.limits.capacity..], overruns := q.overruns + 1)
    else q.(contents := longer)
  }

  function PushAll(q: Queue, xs: seq<real>): (r: Queue)
    requires q.Valid()
    ensures r.Valid() && r.limits == q.limits
    decreases |xs|
  {
    if xs == [] then q else Push(PushAll(q, xs[..|xs| - 1]), xs[|xs| - 1])
  }

  function Write(q: Queue, xs: seq<real>): Queue
    requires q.Valid()
  {
    Enforce(PushAll(Preempt(q, |xs|), xs))
  }

  function ReadCount(q: Queue, wanted: nat): nat {
    Min(wanted, |q.contents|)
  }

  function Read(q: Queue, wanted: nat): Queue {
    q.(contents := q.contents[ReadCount(q, wanted)..],
       underruns := if ReadCount(q, wanted) < wanted then q.underruns + 1 else q.underruns)
  }

  function Skip(q: Queue, samples: nat): Queue {
    q.(contents := q.contents[Min(samples, |q.contents|)..])
  }

  // ---------------------------------------------------------------------------
  // One write
  // ---------------------------------------------------------------------------

  /** Pushing keeps the newest samples that fit and counts each one lost. */
  lemma {:induction false} PushAllKeepsNewest(q: Queue, xs: seq<real>)
    requires q.Valid()
    ensures var r := PushAll(q, xs);
      var all := q.contents + xs;
      var lost := Max(|all| - q.limits.capacity, 0);
      && r == q.(contents := all[lost..], overruns := q.overruns + lost)
    decreases |xs|
  {
    if xs == [] {
      assert q.contents + xs == q.contents;
    } else {
      var most, x := xs[..|xs| - 1], xs[|xs| - 1];
      PushAllKeepsNewest(q, most);
      PushNext(q, most, x);
      assert most + [x] == xs;
    }
  }

  lemma PushNext(q: Queue, most: seq<real>, x: real)
    requires q.Valid()
    ensures var all, longer := q.contents + most, q.contents + (most + [x]);
      var lost, more := Max(|all| - q.limits.capacity, 0), Max(|longer| - q.limits.capacity, 0);
      Push(q.(contents := all[lost..], overruns := q.overruns + lost), x) ==
        q.(contents := longer[more..], overruns := q.overruns + more)
  {
    var all, longer := q.contents + most, q.contents + (most + [x]);
    var lost := Max(|all| - q.limits.capacity, 0);
    assert all[lost..] + [x] == longer[lost..];
  }

  /** The fill after a write, from the fill before it and the batch size alone. */
  function FillAfter(l: Limits, fill: nat, incoming: nat): nat {
    if fill + incoming <= l.Threshold() then Min(fill + incoming, l.capacity)
    else if incoming <= l.Threshold() then Min(l.Threshold(), l.capacity)
    else
      var landed := Min(incoming, l.capacity);
      if landed > l.Threshold() then Max(l.target, Min(landed, 960)) else landed
  }

  /** The last `n` samples. */
  function Newest(xs: seq<real>, n: nat): seq<real>
    requires n <= |xs|
  {
    xs[|xs| - n..]
  }

  lemma NewestOfNewest(xs: seq<real>, n: nat, k: nat)
    requires k <= n <= |xs|
    ensures Newest(Newest(xs, n), k) == Newest(xs, k)
  {
  }

  lemma NewestOfSuffix(xs: seq<real>, ys: seq<real>, n: nat)
    requires n <= |xs|
    ensures Newest(xs, n) + ys == Newest(xs + ys, n + |ys|)
  {
  }

  ghost predicate OnlyDropped(q: Queue, r: Queue) {
    && |r.contents| <= |q.contents|
    && r.contents == Newest(q.contents, |r.contents|)
    && r.limits == q.limits && r.overruns == q.overruns && r.underruns == q.underruns
    && r.backlogDropped == q.backlogDropped + |q.contents| - |r.contents|
  }

  lemma PreemptDrops(q: Queue, incoming: nat)
    ensures OnlyDropped(q, Preempt(q, incoming))
    ensures |Preempt(q, incoming).contents| ==
      if |q.contents| + incoming <= q.limits.Threshold() then |q.contents|
      else Max(q.limits.Threshold() - incoming, 0)
  {
  }

  lemma EnforceDrops(q: Queue)
    ensures OnlyDropped(q, Enforce(q))
    ensures |Enforce(q).contents| ==
      if |q.contents| <= q.limits.Threshold() then |q.contents|
      else Max(q.limits.target, Min(|q.contents|, FRAME_SAMPLES))
  {
  }

  lemma DropPushDrop(q: Queue, p: Queue, w: Queue, r: Queue, xs: seq<real>)
    requires q.Valid() && OnlyDropped(q, p) && OnlyDropped(w, r)
    requires var lost := Max(|p.contents| + |xs| - q.limits.capacity, 0);
      w == p.(contents := (p.contents + xs)[lost..], overruns := p.overruns + lost)
    ensures var all := q.contents + xs;
      && |r.contents| <= |all|
      && r.contents == Newest(all, |r.contents|)
      && r.limits == q.limits && r.underruns == q.underruns
      && q.overruns <= r.overruns && q.backlogDropped <= r.backlogDropped
      && |all| == |r.contents| + (r.overruns - q.overruns) + (r.backlogDropped - q.backlogDropped)
  {
    var all := q.contents + xs;
    NewestOfSuffix(q.contents, xs, |p.contents|);
    assert w.contents == Newest(p.contents + xs, |w.contents|);
    NewestOfNewest(all, |p.contents| + |xs|, |w.contents|);
    NewestOfNewest(all, |w.contents|, |r.contents|);
  }

  /** What a write leaves: the newest samples of the old contents followed by the
      batch, as many as the fill law says; every sample gone is counted once, as a
      backlog drop or as an overrun. */
  lemma {:induction false} WriteKeepsNewest(q: Queue, xs: seq<real>)
    requires q.Valid()
    ensures var r := Write(q, xs);
      var all := q.contents + xs;
      && r.Valid() && r.limits == q.limits && r.underruns == q.underruns
      && |r.contents| == FillAfter(q.limits, |q.contents|, |xs|) <= |all|
      && r.contents == Newest(all, |r.contents|)
      && q.overruns <= r.overruns && q.backlogDropped <= r.backlogDropped
      && |all| == |r.contents| + (r.overruns - q.overruns) + (r.backlogDropped - q.backlogDropped)
  {
    var p := Preempt(q, |xs|);
    var w := PushAll(p, xs);
    PreemptDrops(q, |xs|);
    PushAllKeepsNewest(p, xs);
    EnforceDrops(w);
    WriteLaw(q, p, w, Enforce(w), xs);
  }

  lemma WriteLaw(q: Queue, p: Queue, w: Queue, r: Queue, xs: seq<real>)
    requires q.Valid() && OnlyDropped(q, p) && OnlyDropped(w, r)
    requires |p.contents| == if |q.contents| + |xs| <= q.limits.Threshold() then |q.contents|
      else Max(q.limits.Threshold() - |xs|, 0)
    requires var lost := Max(|p.contents| + |xs| - q.limits.capacity, 0);
      w == p.(contents := (p.contents + xs)[lost..], overruns := p.overruns + lost)
    requires |r.contents| == if |w.contents| <= q.limits.Threshold() then |w.contents|
      else Max(q.limits.target, Min(|w.contents|, FRAME_SAMPLES))
    ensures var all := q.contents + xs;
      && r.Valid() && r.limits == q.limits && r.underruns == q.underruns
      && |r.contents| == FillAfter(q.limits, |q.contents|, |xs|) <= |all|
      && r.contents == Newest(all, |r.contents|)
      && q.overruns <= r.overruns && q.backlogDropped <= r.backlogDropped
      && |all| == |r.contents| + (r.overruns - q.overruns) + (r.backlogDropped - q.backlogDropped)
  {
    DropPushDrop(q, p, w, r, xs);
    FillLaw(q.limits, |q.contents|, |xs|, |p.contents|, |w.contents|, |r.contents|);
  }

  /** The sizes through preemption, pushing and enforcement. */
  lemma FillLaw(l: Limits, fill: nat, incoming: nat, kept: nat, landed: nat, left: nat)
    requires 0 < l.capacity && fill <= l.capacity
    requires kept == if fill + incoming <= l.Threshold() then fill else Max(l.Threshold() - incoming, 0)
    requires landed == Min(kept + incoming, l.capacity)
    requires left == if landed <= l.Threshold() then landed else Max(l.target, Min(landed, FRAME_SAMPLES))
    ensures left == FillAfter(l, fill, incoming)
  {
  }

  /** Overruns count exactly the samples that do not fit after preemption; with the
      threshold within the capacity only a batch larger than the buffer overruns. */
  lemma WriteOverruns(q: Queue, xs: seq<real>)
    requires q.Valid()
    ensures var kept := |Preempt(q, |xs|).contents|;
      Write(q, xs).overruns == q.overruns + Max(kept + |xs| - q.limits.capacity, 0)
    ensures q.limits.Threshold() <= q.limits.capacity ==>
      Write(q, xs).overruns == q.overruns + Max(|xs| - q.limits.capacity, 0)
  {
    PreemptDrops(q, |xs|);
    PushAllKeepsNewest(Preempt(q, |xs|), xs);
    EnforceDrops(PushAll(Preempt(q, |xs|), xs));
  }

  /** How often a write counts a backlog drop: once when samples were there and the batch
      takes the fill over the threshold, and once more when what lands of the batch alone
      is over the threshold and over a frame. */
  lemma WriteDropEvents(q: Queue, xs: seq<real>)
    requires q.Valid()
    ensures var l := q.limits; var landed := Min(|xs|, l.capacity);
      Write(q, xs).backlogDrops == q.backlogDrops
        + (if |q.contents| > 0 && |q.contents| + |xs| > l.target + l.margin then 1 else 0)
        + (if landed > l.target + l.margin && landed > 960 then 1 else 0)
  {
    var p := Preempt(q, |xs|);
    var w := PushAll(p, xs);
    PreemptEvents(q, |xs|);
    PushAllKeepsNewest(p, xs);
    EnforceEvents(w);
    Landed(q.limits, |q.contents|, |xs|, |p.contents|, |w.contents|);
  }

  lemma PreemptEvents(q: Queue, incoming: nat)
    ensures var p := Preempt(q, incoming);
      && p.limits == q.limits
      && |p.contents| == (if |q.contents| + incoming <= q.limits.Threshold() then |q.contents|
         else Max(q.limits.Threshold() - incoming, 0))
      && p.backlogDrops == q.backlogDrops
         + (if |q.contents| > 0 && |q.contents| + incoming > q.limits.Threshold() then 1 else 0)
  {
  }

  lemma EnforceEvents(q: Queue)
    ensures Enforce(q).backlogDrops == q.backlogDrops
      + (if |q.contents| > q.limits.Threshold() && |q.contents| > 960 then 1 else 0)
  {
  }

  /** More than the threshold lands only of a batch that exceeds it by itself. */
  lemma Landed(l: Limits, fill: nat, incoming: nat, kept: nat, landed: nat)
    requires fill <= l.capacity
    requires kept == if fill + incoming <= l.Threshold() then fill else Max(l.Threshold() - incoming, 0)
    requires landed == kept + incoming - Max(kept + incoming - l.capacity, 0)
    ensures landed > l.Threshold() <==> Min(incoming, l.capacity) > l.Threshold()
    ensures landed > l.Threshold() ==> landed == Min(incoming, l.capacity)
  {
  }

  /** Bounds on the fill after any write. */
  lemma FillBounded(l: Limits, fill: nat, incoming: nat)
    requires fill <= l.capacity
    ensures FillAfter(l, fill, incoming) <= Min(l.capacity, Max(l.Threshold(), FRAME_SAMPLES))
    ensures l.Threshold() >= FRAME_SAMPLES ==>
      FillAfter(l, fill, incoming) >= Min(FRAME_SAMPLES, Min(fill + incoming, l.capacity))
  {
  }

  /** After any write to any buffer. */
  lemma WriteBounded(q: Queue, xs: seq<real>)
    requires q.Valid()
    ensures var fill := |Write(q, xs).contents|; var l := q.limits;
      && fill <= Min(l.capacity, Max(l.Threshold(), FRAME_SAMPLES))
      && (l.Threshold() >= FRAME_SAMPLES ==> fill >= Min(FRAME_SAMPLES, Min(|q.contents| + |xs|, l.capacity)))
  {
    WriteKeepsNewest(q, xs);
    FillBounded(q.limits, |q.contents|, |xs|);
  }

  /** A backlog is promised to end at the target fill. It does so exactly when the batch
      alone exceeds a threshold below the capacity and the target holds a frame, or when
      there is nothing between the target and where the fill is cut. */
  lemma BacklogReachesTargetIff(q: Queue, xs: seq<real>)
    requires q.Valid() && |q.contents| + |xs| > q.limits.Threshold()
    ensures var l := q.limits;
      |Write(q, xs).contents| == l.target <==>
        if |xs| > l.Threshold() && l.Threshold() < l.capacity then FRAME_SAMPLES <= l.target
        else l.target == l.capacity || (l.margin == 0 && l.target <= l.capacity)
  {
    WriteKeepsNewest(q, xs);
  }

  /** The 200 ms buffer of the tests, at its threshold: one more sample leaves the fill
      at the threshold of 5760 instead of the target of 3840. */
  lemma BacklogStaysAboveTarget()
    ensures var q := Queue(Limits(9600, 3840, 1920), seq(5760, _ => 0.5), 0, 0, 0, 0);
      q.Valid() && |Write(q, [0.5]).contents| == 5760
  {
    var q := Queue(Limits(9600, 3840, 1920), seq(5760, _ => 0.5), 0, 0, 0, 0);
    WriteKeepsNewest(q, [0.5]);
  }

  ghost predicate FramesStay(l: Limits) {
    forall fill: nat, incoming: nat :: FRAME_SAMPLES <= fill <= l.capacity ==>
      FillAfter(l, fill, incoming) >= FRAME_SAMPLES
  }

  /** No write can take away a whole frame that is already there, if and only if the
      threshold holds a frame (or the buffer cannot). */
  lemma FramesStayIff(l: Limits)
    ensures FramesStay(l) <==> l.Threshold() >= FRAME_SAMPLES || l.capacity < FRAME_SAMPLES
  {
    if l.Threshold() < FRAME_SAMPLES <= l.capacity {
      assert FillAfter(l, FRAME_SAMPLES, 1) < FRAME_SAMPLES;
    }
  }

  /** What other threads leave of the queue that write these batches. */
  function Interfere(q: Queue, batches: seq<seq<real>>): (r: Queue)
    requires q.Valid()
    ensures r.Valid() && r.limits == q.limits && r.underruns == q.underruns
    decreases |batches|
  {
    if batches == [] then q
    else
      var w := Write(q, batches[0]);
      assert w.Valid() && w.limits == q.limits && w.underruns == q.underruns by {
        WriteKeepsNewest(q, batches[0]);
      }
      Interfere(w, batches[1..])
  }

  // ---------------------------------------------------------------------------
  // Reads one after another
  // ---------------------------------------------------------------------------

  function Asked(wants: seq<nat>): nat
    decreases |wants|
  {
    if wants == [] then 0 else wants[0] + Asked(wants[1..])
  }

  /** How many of the reads ask for more than is left to them. */
  function Short(fill: nat, wants: seq<nat>): nat
    decreases |wants|
  {
    if wants == [] then 0
    else (if wants[0] > fill then 1 else 0) + Short(if wants[0] > fill then 0 else fill - wants[0], wants[1..])
  }

  /** The queue after reads of these lengths, and what they hand out together. */
  function Drawn(q: Queue, wants: seq<nat>): (Queue, seq<real>)
    decreases |wants|
  {
    if wants == [] then (q, [])
    else
      var (left, out) := Drawn(Read(q, wants[0]), wants[1..]);
      (left, q.contents[..ReadCount(q, wants[0])] + out)
  }

  /** One read hands out as much as is asked for, or all there is when that is less, and
      then counts an underrun. */
  lemma ReadIs(q: Queue, wanted: nat)
    ensures wanted <= |q.contents| ==>
      ReadCount(q, wanted) == wanted && Read(q, wanted) == q.(contents := q.contents[wanted..])
    ensures wanted > |q.contents| ==>
      ReadCount(q, wanted) == |q.contents| && Read(q, wanted) == q.(contents := [], underruns := q.underruns + 1)
  {
  }

  /** The oldest `n` samples have been handed out, and so many reads came up short. */
  predicate HandsOut(q: Queue, n: nat, short: nat, left: Queue, out: seq<real>) {
    && n <= |q.contents|
    && out == q.contents[..n]
    && left == q.(contents := q.contents[n..], underruns := q.underruns + short)
  }

  lemma HandsOutFirst(q: Queue, wanted: nat, n: nat, short: nat, left: Queue, out: seq<real>)
    requires HandsOut(Read(q, wanted), n, short, left, out)
    ensures var k := Min(wanted, |q.contents|);
      HandsOut(q, k + n, short + (if wanted > |q.contents| then 1 else 0), left,
               q.contents[..ReadCount(q, wanted)] + out)
  {
    ReadIs(q, wanted);
    var xs, k := q.contents, ReadCount(q, wanted);
    assert xs[..k] + xs[k..][..n] == xs[..k + n];
    assert xs[k..][n..] == xs[k + n..];
  }

  lemma ReadLeaves(q: Queue, wanted: nat)
    ensures |Read(q, wanted).contents| == |q.contents| - Min(wanted, |q.contents|)
  {
    ReadIs(q, wanted);
  }

  lemma FirstAsked(fill: nat, wants: seq<nat>)
    requires wants != []
    ensures var k, rest := Min(wants[0], fill), wants[1..];
      && Min(Asked(wants), fill) == k + Min(Asked(rest), fill - k)
      && Short(fill, wants) == Short(fill - k, rest) + (if wants[0] > fill then 1 else 0)
  {
  }

  /** However the asking is split up: reads hand out the oldest samples in order, all of
      them once as many have been asked for, and each read that comes up short counts an
      underrun. */
  lemma {:induction false} DrawnInOrder(q: Queue, wants: seq<nat>)
    ensures var (left, out) := Drawn(q, wants);
      HandsOut(q, Min(Asked(wants), |q.contents|), Short(|q.contents|, wants), left, out)
    decreases |wants|
  {
    if wants == [] {
      assert q.contents[0..] == q.contents;
    } else {
      var one, rest := Read(q, wants[0]), wants[1..];
      var (left, out) := Drawn(one, rest);
      ReadLeaves(q, wants[0]);
      DrawnInOrder(one, rest);
      HandsOutFirst(q, wants[0], Min(Asked(rest), |one.contents|), Short(|one.contents|, rest), left, out);
      FirstAsked(|q.contents|, wants);
    }
  }

  /** A batch written to a fresh buffer is read back whole, by any reads that ask for as
      much, if and only if the buffer can be so full. */
  lemma ReadsBackIff(l: Limits, xs: seq<real>, wants: seq<nat>)
    requires 0 < l.capacity && Asked(wants) >= |xs|
    ensures Drawn(Write(Fresh(l).queue, xs), wants).1 == xs <==> Attainable(l, |xs|)
  {
    var q := Write(Fresh(l).queue, xs);
    WriteKeepsNewest(Fresh(l).queue, xs);
    assert [] + xs == xs;
    DrawnInOrder(q, wants);
    assert q.contents[..|q.contents|] == q.contents;
    FillBounded(l, 0, |xs|);
  }

  /** 5761 samples fit a buffer for 9600 with the default threshold and are not read back. */
  lemma RoundTripCut(xs: seq<real>)
    requires |xs| == 5761
    ensures var l := Limits(9600, 3840, 1920);
      |xs| <= l.capacity && Drawn(Write(Fresh(l).queue, xs), [5761]).1 != xs
  {
    var wants: seq<nat> := [5761];
    assert wants[1..] == [];
    assert Asked(wants) == 5761;
    ReadsBackIff(Limits(9600, 3840, 1920), xs, wants);
  }

  // ---------------------------------------------------------------------------
  // Runs
  // ---------------------------------------------------------------------------

  datatype Op = OpWrite(xs: seq<real>) | OpRead(wanted: nat) | OpSkip(samples: nat)

  /** A queue with the history of the calls made on it: everything written, everything
      read (unscaled) with the stream positions it came from, and how much was skipped. */
  datatype Ledger = Ledger(queue: Queue, stream: seq<real>, out: seq<real>, from: seq<nat>, skipped: nat) {
    function Position(): nat {
      |out| + skipped + queue.overruns + queue.backlogDropped
    }

    /** What is available is all of the stream from the read position on. */
    predicate Tail() {
      && queue.Valid()
      && Position() <= |stream|
      && queue.contents == stream[Position()..]
    }

    /** What was delivered came from increasing positions behind the read position. */
    predicate InOrder() {
      && |from| == |out|
      && (forall i :: 0 <= i < |out| ==> from[i] < Position() && from[i] < |stream| && out[i] == stream[from[i]])
      && (forall i, j :: 0 <= i < j < |from| ==> from[i] < from[j])
    }

    /** Nothing is lost uncounted, reordered or delivered twice. */
    predicate Books() {
      Tail() && InOrder()
    }
  }

  function StepLedger(g: Ledger, op: Op): Ledger
    requires g.queue.Valid()
  {
    match op
    case OpWrite(xs) => g.(queue := Write(g.queue, xs), stream := g.stream + xs)
    case OpRead(wanted) =>
      var n := ReadCount(g.queue, wanted);
      g.(queue := Read(g.queue, wanted), out := g.out + g.queue.contents[..n],
         from := g.from + seq(n, i => g.Position() + i))
    case OpSkip(samples) =>
      g.(queue := Skip(g.queue, samples), skipped := g.skipped + Min(samples, |g.queue.contents|))
  }

  lemma WriteBooks(g: Ledger, xs: seq<real>)
    requires g.Books()
    ensures StepLedger(g, OpWrite(xs)).Books()
  {
    var h := StepLedger(g, OpWrite(xs));
    var all := g.queue.contents + xs;
    WriteKeepsNewest(g.queue, xs);
    assert all == Newest(h.stream, |all|);
    NewestOfNewest(h.stream, |all|, |h.queue.contents|);
    assert h.Position() == |h.stream| - |h.queue.contents|;
    assert h.Tail();
    assert g.Position() <= h.Position();
    assert forall i :: 0 <= i < |g.stream| ==> h.stream[i] == g.stream[i];
  }

  lemma ReadBooks(g: Ledger, wanted: nat)
    requires g.Books()
    ensures StepLedger(g, OpRead(wanted)).Books()
  {
    var h := StepLedger(g, OpRead(wanted));
    var n := ReadCount(g.queue, wanted);
    assert h.Position() == g.Position() + n;
    assert h.queue.contents == g.stream[g.Position() + n..];
    assert forall i :: 0 <= i < n ==> g.queue.contents[i] == g.stream[g.Position() + i];
  }

  lemma StepBooks(g: Ledger, op: Op)
    requires g.Books()
    ensures StepLedger(g, op).Books()
  {
    match op
    case OpWrite(xs) => WriteBooks(g, xs);
    case OpRead(wanted) => ReadBooks(g, wanted);
    case OpSkip(samples) =>
      assert StepLedger(g, op).queue.contents == g.stream[StepLedger(g, op).Position()..];
  }

  ghost predicate Reaches(g: Ledger, ops: seq<Op>, h: Ledger)
    decreases |ops|
  {
    g.queue.Valid() && if ops == [] then h == g else Reaches(StepLedger(g, ops[0]), ops[1..], h)
  }

  function Fresh(l: Limits): Ledger {
    Ledger(Queue(l, [], 0, 0, 0, 0), [], [], [], 0)
  }

  lemma {:induction false} RunBooks(g: Ledger, ops: seq<Op>, h: Ledger)
    requires g.Books() && Reaches(g, ops, h)
    ensures h.Books()
    decreases |ops|
  {
    if ops != [] {
      StepBooks(g, ops[0]);
      RunBooks(StepLedger(g, ops[0]), ops[1..], h);
    }
  }

  /** In every state a run of calls can reach: total written is read plus skipped plus
      backlog-dropped plus overrun plus available; what is available is the newest part
      of everything written; what was read is a subsequence of it, in order, no sample
      twice. */
  lemma Conservation(l: Limits, ops: seq<Op>, h: Ledger)
    requires 0 < l.capacity && Reaches(Fresh(l), ops, h)
    ensures |h.stream| ==
      |h.out| + h.skipped + h.queue.backlogDropped + h.queue.overruns + |h.queue.contents|
    ensures h.Books()
  {
    RunBooks(Fresh(l), ops, h);
  }

  /** Backlog drops are counted as events: never more of them than samples dropped, and
      none only when none was. */
  predicate EventsCounted(q: Queue) {
    q.backlogDrops <= q.backlogDropped && (q.backlogDrops == 0 ==> q.backlogDropped == 0)
  }

  lemma WriteCounted(q: Queue, xs: seq<real>)
    requires q.Valid() && EventsCounted(q)
    ensures EventsCounted(Write(q, xs))
  {
    var p := Preempt(q, |xs|);
    var w := PushAll(p, xs);
    assert EventsCounted(p);
    PushAllKeepsNewest(p, xs);
    assert EventsCounted(w);
  }

  lemma {:induction false} DropEventsCounted(g: Ledger, ops: seq<Op>, h: Ledger)
    requires Reaches(g, ops, h) && EventsCounted(g.queue)
    ensures EventsCounted(h.queue)
    decreases |ops|
  {
    if ops != [] {
      if ops[0].OpWrite? {
        WriteCounted(g.queue, ops[0].xs);
      }
      DropEventsCounted(StepLedger(g, ops[0]), ops[1..], h);
    }
  }

  // ---------------------------------------------------------------------------
  // Reachable fills
  // ---------------------------------------------------------------------------

  predicate Attainable(l: Limits, fill: nat) {
    fill <= Min(l.capacity, Max(l.Threshold(), FRAME_SAMPLES))
  }

  lemma StepAttains(g: Ledger, op: Op)
    requires g.queue.Valid() && Attainable(g.queue.limits, |g.queue.contents|)
    ensures var h := StepLedger(g, op);
      h.queue.Valid() && h.queue.limits == g.queue.limits && Attainable(h.queue.limits, |h.queue.contents|)
  {
    if op.OpWrite? {
      WriteKeepsNewest(g.queue, op.xs);
      WriteBounded(g.queue, op.xs);
    }
  }

  lemma {:induction false} RunAttains(g: Ledger, ops: seq<Op>, h: Ledger)
    requires Reaches(g, ops, h) && Attainable(g.queue.limits, |g.queue.contents|)
    ensures h.queue.Valid() && h.queue.limits == g.queue.limits && Attainable(h.queue.limits, |h.queue.contents|)
    decreases |ops|
  {
    if ops != [] {
      StepAttains(g, ops[0]);
      RunAttains(StepLedger(g, ops[0]), ops[1..], h);
    }
  }

  /** One write fills a fresh buffer so far. */
  lemma FillsTo(l: Limits, fill: nat) returns (ops: seq<Op>, h: Ledger)
    requires 0 < l.capacity && Attainable(l, fill)
    ensures Reaches(Fresh(l), ops, h) && |h.queue.contents| == fill && h.queue.limits == l
  {
    var xs := seq(fill, _ => 0.0);
    WriteKeepsNewest(Fresh(l).queue, xs);
    ops, h := [OpWrite(xs)], StepLedger(Fresh(l), OpWrite(xs));
    assert ops[1..] == [];
  }

  /** The calls take a fresh buffer to this state. */
  ghost predicate Leads(l: Limits, ops: seq<Op>, h: Ledger) {
    Reaches(Fresh(l), ops, h)
  }

  /** The fills a buffer can have: up to the threshold, or one frame if that is more. */
  lemma AttainableIff(l: Limits, fill: nat)
    requires 0 < l.capacity
    ensures Attainable(l, fill) <==> exists ops, h :: Leads(l, ops, h) && |h.queue.contents| == fill
  {
    if Attainable(l, fill) {
      var ops, h := FillsTo(l, fill);
      assert Leads(l, ops, h);
    }
    forall ops, h | Leads(l, ops, h) && |h.queue.contents| == fill ensures Attainable(l, fill) {
      RunAttains(Fresh(l), ops, h);
    }
  }
}
