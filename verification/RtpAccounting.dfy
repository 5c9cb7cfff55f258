/**
  Packet accounting from 16-bit RTP sequence numbers. Packets carry their true,
  unbounded number here; the monitor only ever looks at its low 16 bits.
 */
module RtpAccounting {

  const WRAP: nat := 0x1_0000
  const HALF: nat := 0x7FFF
  const JITTER_WINDOW_SIZE: nat := 100

  datatype Option<T> = None | Some(value: T)

  datatype Packet = Packet(number: nat, at: real)

  /** The 16 bits that are on the wire. */
  function Wire(p: Packet): nat {
    p.number % WRAP
  }

  /** The counters behind the loss ratio. */
  datatype Totals = Totals(maxSeq: Option<nat>, expected: nat, received: nat)

  const ZERO := Totals(None, 0, 0)

  function WrappingSub(a: nat, b: nat): nat {
    (a - b) % WRAP
  }

  function Count(t: Totals, wire: nat): Totals {
    match t.maxSeq
    case None => Totals(Some(wire), 1, t.received + 1)
    case Some(prev) =>
      var diff := WrappingSub(wire, prev);
      if 0 < diff <= HALF then Totals(Some(wire), t.expected + diff, t.received + 1)
      else t.(received := t.received + 1)
  }

  function CountAll(t: Totals, ps: seq<Packet>): Totals
    decreases |ps|
  {
    if ps == [] then t else CountAll(Count(t, Wire(ps[0])), ps[1..])
  }

  // ---------------------------------------------------------------------------
  // Stable sort by wire number
  // ---------------------------------------------------------------------------

  predicate Ordered(ps: seq<Packet>) {
    forall i, j :: 0 <= i < j < |ps| ==> Wire(ps[i]) <= Wire(ps[j])
  }

  function Insert(p: Packet, ps: seq<Packet>): seq<Packet> {
    if ps == [] || Wire(p) < Wire(ps[0]) then [p] + ps else [ps[0]] + Insert(p, ps[1..])
  }

  /** Equal wire numbers keep their order of arrival. */
  function Sorted(ps: seq<Packet>): seq<Packet> {
    if ps == [] then [] else Insert(ps[|ps| - 1], Sorted(ps[..|ps| - 1]))
  }

  lemma {:induction false} InsertAdds(p: Packet, ps: seq<Packet>)
    ensures multiset(Insert(p, ps)) == multiset(ps) + multiset{p}
    decreases |ps|
  {
    if ps != [] && Wire(p) >= Wire(ps[0]) {
      InsertAdds(p, ps[1..]);
      assert ps == [ps[0]] + ps[1..];
    }
  }

  /** Every packet is at least `low` on the wire. */
  predicate AtLeast(low: nat, ps: seq<Packet>) {
    forall i :: 0 <= i < |ps| ==> low <= Wire(ps[i])
  }

  lemma OrderedCons(p: Packet, ps: seq<Packet>)
    ensures Ordered([p] + ps) <==> AtLeast(Wire(p), ps) && Ordered(ps)
  {
    var all := [p] + ps;
    if Ordered(all) {
      forall i | 0 <= i < |ps| ensures Wire(p) <= Wire(ps[i]) {
        assert all[i + 1] == ps[i] && all[0] == p;
      }
      forall i, j | 0 <= i < j < |ps| ensures Wire(ps[i]) <= Wire(ps[j]) {
        assert all[i + 1] == ps[i] && all[j + 1] == ps[j];
      }
    }
  }

  lemma {:induction false} InsertOrdered(p: Packet, ps: seq<Packet>, low: nat)
    requires Ordered(ps) && AtLeast(low, ps) && low <= Wire(p)
    ensures Ordered(Insert(p, ps)) && AtLeast(low, Insert(p, ps))
    decreases |ps|
  {
    if ps == [] || Wire(p) < Wire(ps[0]) {
      OrderedCons(p, ps);
    } else {
      assert ps == [ps[0]] + ps[1..];
      OrderedCons(ps[0], ps[1..]);
      InsertOrdered(p, ps[1..], Wire(ps[0]));
      OrderedCons(ps[0], Insert(p, ps[1..]));
    }
  }

  lemma {:induction false} SortedIsSort(ps: seq<Packet>)
    ensures Ordered(Sorted(ps)) && multiset(Sorted(ps)) == multiset(ps)
    decreases |ps|
  {
    if ps != [] {
      var most := ps[..|ps| - 1];
      SortedIsSort(most);
      InsertOrdered(ps[|ps| - 1], Sorted(most), 0);
      InsertAdds(ps[|ps| - 1], Sorted(most));
      assert ps == most + [ps[|ps| - 1]];
    }
  }

  /** The packets with this wire number, in order. */
  function Of(ps: seq<Packet>, wire: nat): seq<Packet>
    decreases |ps|
  {
    if ps == [] then []
    else (if Wire(ps[0]) == wire then [ps[0]] else []) + Of(ps[1..], wire)
  }

  lemma {:induction false} OfConcat(a: seq<Packet>, b: seq<Packet>, wire: nat)
    ensures Of(a + b, wire) == Of(a, wire) + Of(b, wire)
    decreases |a|
  {
    if a == [] {
      assert a + b == b;
    } else {
      assert (a + b)[1..] == a[1..] + b;
      OfConcat(a[1..], b, wire);
    }
  }

  lemma {:induction false} OfNone(ps: seq<Packet>, wire: nat)
    requires forall i :: 0 <= i < |ps| ==> Wire(ps[i]) > wire
    ensures Of(ps, wire) == []
    decreases |ps|
  {
    if ps != [] {
      OfNone(ps[1..], wire);
    }
  }

  lemma OfOne(p: Packet, wire: nat)
    ensures Of([p], wire) == if Wire(p) == wire then [p] else []
  {
    assert [p][1..] == [];
  }

  lemma {:induction false} InsertStable(p: Packet, ps: seq<Packet>, wire: nat)
    requires Ordered(ps)
    ensures Of(Insert(p, ps), wire) == Of(ps, wire) + Of([p], wire)
    decreases |ps|
  {
    OfOne(p, wire);
    if ps == [] || Wire(p) < Wire(ps[0]) {
      OfConcat([p], ps, wire);
      if Wire(p) == wire {
        OfNone(ps, wire);
      }
    } else {
      assert ps == [ps[0]] + ps[1..];
      OrderedCons(ps[0], ps[1..]);
      InsertStable(p, ps[1..], wire);
      OfConcat([ps[0]], Insert(p, ps[1..]), wire);
      OfConcat([ps[0]], ps[1..], wire);
    }
  }

  /** Packets with the same wire number stay in order of arrival. */
  lemma {:induction false} SortedStable(ps: seq<Packet>, wire: nat)
    ensures Of(Sorted(ps), wire) == Of(ps, wire)
    decreases |ps|
  {
    if ps != [] {
      var most, last := ps[..|ps| - 1], ps[|ps| - 1];
      SortedStable(most, wire);
      SortedIsSort(most);
      InsertStable(last, Sorted(most), wire);
      assert ps == most + [last];
      OfConcat(most, [last], wire);
    }
  }

  lemma SortedKeeps(ps: seq<Packet>)
    ensures |Sorted(ps)| == |ps|
    ensures forall p :: p in Sorted(ps) <==> p in ps
  {
    SortedIsSort(ps);
    assert |multiset(Sorted(ps))| == |multiset(ps)|;
    assert forall p :: p in Sorted(ps) <==> p in multiset(Sorted(ps));
  }

  // ---------------------------------------------------------------------------
  // 16 bits follow the true numbers
  // ---------------------------------------------------------------------------

  function Top(a: nat, b: nat): nat {
    if a < b then b else a
  }

  /** The counters stand for: the first packet counted, the highest true number, and how
      many packets came. */
  predicate Tracks(t: Totals, first: nat, top: nat, received: nat) {
    && first <= top
    && t == Totals(Some(top % WRAP), top - first + 1, received)
  }

  predicate Close(a: nat, b: nat) {
    -32767 <= a - b <= 32767
  }

  lemma WireDiff(a: nat, b: nat)
    ensures WrappingSub(a % WRAP, b % WRAP) == (a - b) % WRAP
  {
  }

  /** One packet is counted right if and only if it is at most half the number space
      ahead, or behind by a distance that does not look like being ahead. */
  lemma StepTracksIff(t: Totals, first: nat, top: nat, n: nat, p: Packet)
    requires Tracks(t, first, top, n)
    ensures var d := p.number - top;
      Tracks(Count(t, Wire(p)), first, Top(top, p.number), n + 1) <==>
        (if d > 0 then d <= 32767 else d % 65536 == 0 || d % 65536 > 32767)
  {
    WireDiff(p.number, top);
  }

  predicate Within(ps: seq<Packet>, top: nat) {
    forall p <- ps :: Close(p.number, top)
  }

  /** No two packets of a batch are more than half the number space apart. */
  predicate Compact(ps: seq<Packet>) {
    forall p <- ps, q <- ps :: Close(p.number, q.number)
  }

  function TopOf(top: nat, ps: seq<Packet>): nat
    decreases |ps|
  {
    if ps == [] then top else TopOf(Top(top, ps[0].number), ps[1..])
  }

  lemma {:induction false} TopOfIsMax(top: nat, ps: seq<Packet>)
    ensures TopOf(top, ps) >= top && forall p <- ps :: p.number <= TopOf(top, ps)
    ensures TopOf(top, ps) == top || exists p :: p in ps && p.number == TopOf(top, ps)
    decreases |ps|
  {
    if ps != [] {
      TopOfIsMax(Top(top, ps[0].number), ps[1..]);
      assert forall p <- ps :: p == ps[0] || p in ps[1..];
    }
  }

  /** Whatever order a batch is counted in, the highest true number comes out. */
  lemma {:induction false} BatchTracks(t: Totals, first: nat, top: nat, n: nat, ps: seq<Packet>)
    requires Tracks(t, first, top, n) && Within(ps, top) && Compact(ps)
    ensures Tracks(CountAll(t, ps), first, TopOf(top, ps), n + |ps|)
    decreases |ps|
  {
    if ps != [] {
      var p := ps[0];
      assert Close(p.number, top);
      StepTracksIff(t, first, top, n, p);
      var rest := ps[1..];
      forall q | q in rest ensures Close(q.number, Top(top, p.number)) {
        assert q in ps && p in ps;
      }
      forall q, r | q in rest && r in rest ensures Close(q.number, r.number) {
        assert q in ps && r in ps;
      }
      BatchTracks(Count(t, Wire(p)), first, Top(top, p.number), n + 1, rest);
    }
  }

  // ---------------------------------------------------------------------------
  // Runs of polls
  // ---------------------------------------------------------------------------

  /** The counters after each poll has ingested its batch. */
  function Polled(t: Totals, batches: seq<seq<Packet>>): Totals
    decreases |batches|
  {
    if batches == [] then t else Polled(CountAll(t, Sorted(batches[0])), batches[1..])
  }

  function Flatten(batches: seq<seq<Packet>>): seq<Packet>
    decreases |batches|
  {
    if batches == [] then [] else batches[0] + Flatten(batches[1..])
  }

  /** Every batch, together with the highest number before it, spans at most 0x7FFF. */
  predicate Spanning(top: nat, batches: seq<seq<Packet>>)
    decreases |batches|
  {
    batches == [] ||
    (Within(batches[0], top) && Compact(batches[0]) && Spanning(TopOf(top, batches[0]), batches[1..]))
  }

  lemma TopOfSorted(top: nat, ps: seq<Packet>)
    ensures TopOf(top, Sorted(ps)) == TopOf(top, ps)
  {
    SortedKeeps(ps);
    TopOfIsMax(top, ps);
    TopOfIsMax(top, Sorted(ps));
  }

  lemma {:induction false} TopOfConcat(top: nat, a: seq<Packet>, b: seq<Packet>)
    ensures TopOf(top, a + b) == TopOf(TopOf(top, a), b)
    decreases |a|
  {
    if a == [] {
      assert a + b == b;
    } else {
      assert (a + b)[1..] == a[1..] + b;
      TopOfConcat(Top(top, a[0].number), a[1..], b);
    }
  }

  lemma {:induction false} PolledTracks(t: Totals, first: nat, top: nat, n: nat, batches: seq<seq<Packet>>)
    requires Tracks(t, first, top, n) && Spanning(top, batches)
    ensures Tracks(Polled(t, batches), first, TopOf(top, Flatten(batches)), n + |Flatten(batches)|)
    decreases |batches|
  {
    if batches != [] {
      var b := Sorted(batches[0]);
      SortedKeeps(batches[0]);
      TopOfSorted(top, batches[0]);
      TopOfConcat(top, batches[0], Flatten(batches[1..]));
      BatchTracks(t, first, top, n, b);
      PolledTracks(CountAll(t, b), first, TopOf(top, b), n + |b|, batches[1..]);
    }
  }

  /** The packet ingested first is the one with the least wire number of its batch. */
  lemma FirstIsLeast(batch: seq<Packet>)
    requires batch != []
    ensures |Sorted(batch)| == |batch|
    ensures Sorted(batch)[0] in batch && forall p <- batch :: Wire(Sorted(batch)[0]) <= Wire(p)
  {
    var b := Sorted(batch);
    SortedKeeps(batch);
    SortedIsSort(batch);
    forall q | q in batch ensures Wire(b[0]) <= Wire(q) {
      var i :| 0 <= i < |b| && b[i] == q;
    }
  }

  lemma SubCompact(ps: seq<Packet>, p: Packet, all: seq<Packet>)
    requires Compact(all) && p in all && forall q <- ps :: q in all
    ensures Compact(ps) && Within(ps, p.number)
  {
  }

  lemma {:induction false} FirstBatchTracks(batch: seq<Packet>)
    requires batch != [] && Compact(batch)
    ensures |Sorted(batch)| == |batch|
    ensures Tracks(CountAll(ZERO, Sorted(batch)), Sorted(batch)[0].number, TopOf(0, batch), |batch|)
  {
    var b := Sorted(batch);
    SortedKeeps(batch);
    TopOfSorted(0, batch);
    var p, rest := b[0], b[1..];
    SubCompact(rest, p, batch);
    BatchTracks(Count(ZERO, Wire(p)), p.number, p.number, 1, rest);
  }

  /** From the first packet on: the tracker holds the true maximum, whatever the order
      inside each batch; expected is that maximum minus the number ingested first plus
      one; received counts every packet. */
  lemma MonitorTracks(batch: seq<Packet>, batches: seq<seq<Packet>>)
    requires batch != [] && Compact(batch)
    requires Spanning(TopOf(0, batch), batches)
    ensures |Sorted(batch)| == |batch|
    ensures var all := batch + Flatten(batches);
      Tracks(Polled(ZERO, [batch] + batches), Sorted(batch)[0].number, TopOf(0, all), |all|)
  {
    FirstBatchTracks(batch);
    TopOfConcat(0, batch, Flatten(batches));
    assert ([batch] + batches)[1..] == batches;
    PolledTracks(CountAll(ZERO, Sorted(batch)), Sorted(batch)[0].number, TopOf(0, batch), |batch|, batches);
  }

  // ---------------------------------------------------------------------------
  // Loss
  // ---------------------------------------------------------------------------

  function Numbers(ps: seq<Packet>): set<nat> {
    set p | p in ps :: p.number
  }

  function Range(lo: nat, hi: nat): (r: set<nat>)
    ensures forall x :: x in r <==> lo <= x <= hi
    ensures |r| == if lo <= hi then hi + 1 - lo else 0
    decreases hi + 1 - lo
  {
    if lo > hi then {} else {lo} + Range(lo + 1, hi)
  }

  /** Numbers between the first and the highest that no packet carried. */
  function Missing(first: nat, top: nat, ps: seq<Packet>): set<nat> {
    Range(first, top) - Numbers(ps)
  }

  predicate NoDuplicates(ps: seq<Packet>) {
    forall i, j :: 0 <= i < j < |ps| ==> ps[i].number != ps[j].number
  }

  lemma NoDuplicatesCons(ps: seq<Packet>)
    requires ps != []
    ensures NoDuplicates(ps) <==> ps[0].number !in Numbers(ps[1..]) && NoDuplicates(ps[1..])
  {
    var rest := ps[1..];
    assert forall i :: 0 <= i < |rest| ==> rest[i] == ps[i + 1];
    if ps[0].number in Numbers(rest) {
      var q :| q in rest && q.number == ps[0].number;
      var i :| 0 <= i < |rest| && rest[i] == q;
      assert ps[i + 1].number == ps[0].number;
    } else {
      forall i | 0 < i < |ps| ensures ps[i].number != ps[0].number {
        assert rest[i - 1] in rest;
      }
      if NoDuplicates(rest) {
        forall i, j | 0 < i < j < |ps| ensures ps[i].number != ps[j].number {
          assert rest[i - 1] == ps[i] && rest[j - 1] == ps[j];
        }
      }
    }
  }

  lemma NumbersCons(ps: seq<Packet>)
    requires ps != []
    ensures Numbers(ps) == {ps[0].number} + Numbers(ps[1..])
  {
    assert ps == [ps[0]] + ps[1..];
  }

  lemma {:induction false} NumbersSizeIff(ps: seq<Packet>)
    ensures |Numbers(ps)| <= |ps|
    ensures |Numbers(ps)| == |ps| <==> NoDuplicates(ps)
    decreases |ps|
  {
    if ps != [] {
      NumbersCons(ps);
      NoDuplicatesCons(ps);
      NumbersSizeIff(ps[1..]);
    }
  }

  function LossRatio(t: Totals): real {
    if t.expected == 0 then 0.0
    else (if t.expected < t.received then 0 else t.expected - t.received) as real / t.expected as real
  }

  /** Expected minus received is the number of missing packets if and only if no packet
      came twice and none came from before the first. */
  lemma LossIsMissingIff(t: Totals, first: nat, top: nat, ps: seq<Packet>)
    requires Tracks(t, first, top, |ps|) && forall p <- ps :: p.number <= top
    ensures t.expected - t.received == |Missing(first, top, ps)| <==>
      NoDuplicates(ps) && forall p <- ps :: first <= p.number
  {
    var all, range := Numbers(ps), Range(first, top);
    NumbersSizeIff(ps);
    SplitSize(range, all);
    SplitSize(all, range);
    assert all * range == range * all;
    if forall p <- ps :: first <= p.number {
      assert all - range == {};
    } else {
      var p :| p in ps && p.number < first;
      assert p.number in all - range;
    }
  }

  lemma SplitSize(a: set<nat>, b: set<nat>)
    ensures |a| == |a * b| + |a - b|
  {
    assert a == (a * b) + (a - b);
  }

  /** Then the reported ratio is their share of the span. */
  lemma RatioIsMissingShare(t: Totals, first: nat, top: nat, ps: seq<Packet>)
    requires Tracks(t, first, top, |ps|) && NoDuplicates(ps)
    requires forall p <- ps :: first <= p.number <= top
    ensures LossRatio(t) == |Missing(first, top, ps)| as real / (top - first + 1) as real
  {
    LossIsMissingIff(t, first, top, ps);
  }

  // The true first packet

  function LeastOf(ps: seq<Packet>): (low: nat)
    requires ps != []
    ensures forall p <- ps :: low <= p.number
    ensures exists p :: p in ps && p.number == low
    decreases |ps|
  {
    if |ps| == 1 then ps[0].number
    else
      var rest := LeastOf(ps[1..]);
      assert forall p <- ps :: p == ps[0] || p in ps[1..];
      assert ps[0] in ps;
      if ps[0].number < rest then ps[0].number else rest
  }

  /** All numbers have the same high part: the 16 bits do not wrap between them. */
  predicate OneRound(ps: seq<Packet>) {
    forall p <- ps, q <- ps :: p.number / WRAP == q.number / WRAP
  }

  lemma SameRound(a: nat, b: nat)
    requires a <= b <= a + HALF && a % WRAP <= b % WRAP
    ensures a / WRAP == b / WRAP
  {
  }

  lemma WireOrder(a: nat, b: nat)
    requires a / WRAP == b / WRAP && a % WRAP <= b % WRAP
    ensures a <= b
  {
  }

  /** What the first poll ingests first is the true first of its packets if and only if
      the 16 bits do not wrap among them. */
  lemma FirstIsTrueFirstIff(batch: seq<Packet>)
    requires batch != [] && Compact(batch)
    ensures |Sorted(batch)| == |batch|
    ensures Sorted(batch)[0].number == LeastOf(batch) <==> OneRound(batch)
  {
    FirstIsLeast(batch);
    var first := Sorted(batch)[0];
    if first.number == LeastOf(batch) {
      forall p | p in batch ensures p.number / WRAP == first.number / WRAP {
        assert Close(p.number, first.number);
        SameRound(first.number, p.number);
      }
    }
    if OneRound(batch) {
      var p :| p in batch && p.number == LeastOf(batch);
      WireOrder(first.number, p.number);
    }
  }

  /** Against any first packet at or before the one the counters start from. */
  lemma LossFromIff(t: Totals, first: nat, low: nat, top: nat, ps: seq<Packet>)
    requires Tracks(t, first, top, |ps|) && low <= first && forall p <- ps :: low <= p.number <= top
    ensures t.expected - t.received == |Missing(low, top, ps)| <==> NoDuplicates(ps) && first == low
  {
    var all, range := Numbers(ps), Range(low, top);
    NumbersSizeIff(ps);
    SplitSize(range, all);
    assert range * all == all;
  }

  /** Over every run of polls from a fresh monitor: expected minus received is the number
      of packets missing between the true first and the true last one if and only if no
      packet came twice, the 16 bits do not wrap within the first poll, and nothing later
      is older than what that poll brought. */
  lemma RunLossIff(batch: seq<Packet>, batches: seq<seq<Packet>>)
    requires batch != [] && Compact(batch)
    requires Spanning(TopOf(0, batch), batches)
    ensures var t, all := Polled(ZERO, [batch] + batches), batch + Flatten(batches);
      t.expected - t.received == |Missing(LeastOf(all), TopOf(0, all), all)| <==>
        NoDuplicates(all) && OneRound(batch) && forall p <- Flatten(batches) :: LeastOf(batch) <= p.number
  {
    var t, later := Polled(ZERO, [batch] + batches), Flatten(batches);
    var all, first := batch + later, Sorted(batch)[0].number;
    MonitorTracks(batch, batches);
    TopOfIsMax(0, all);
    FirstIsLeast(batch);
    FirstIsTrueFirstIff(batch);
    assert Sorted(batch)[0] in all;
    LossFromIff(t, first, LeastOf(all), TopOf(0, all), all);
    LeastOfBoth(batch, later);
  }

  lemma LeastOfBoth(a: seq<Packet>, b: seq<Packet>)
    requires a != []
    ensures LeastOf(a + b) <= LeastOf(a)
    ensures LeastOf(a + b) == LeastOf(a) <==> forall p <- b :: LeastOf(a) <= p.number
  {
    var least, both := LeastOf(a), LeastOf(a + b);
    var p :| p in a && p.number == least;
    assert p in a + b;
    var q :| q in a + b && q.number == both;
    assert forall x <- b :: x in a + b;
  }

  lemma SameFraction(a: nat, b: nat, c: nat, d: nat)
    requires b > 0 && d > 0
    ensures a as real / b as real == c as real / d as real <==> a * d == c * b
  {
    var x, y := a as real / b as real, c as real / d as real;
    assert x * b as real == a as real && y * d as real == c as real;
    assert (a * d) as real == x * (b as real * d as real) && (c * b) as real == y * (b as real * d as real);
    if a * d == c * b {
      SameFactor(x, y, b as real * d as real);
    }
  }

  lemma SameFactor(x: real, y: real, k: real)
    requires k > 0.0 && x * k == y * k
    ensures x == y
  {
  }

  /** Of a span, `d` numbers before the first counted, `u` different packets among `n`. */
  lemma ShareIff(span: nat, d: nat, u: nat, n: nat)
    requires d < span && 0 < u <= n && u <= span
    ensures var seen := span - d;
      var lost := if seen < n then 0 else seen - n;
      lost * span == (span - u) * seen <==> u == span || (n == u && d == 0)
  {
    var seen := span - d;
    if u < span && seen > n {
      assert (seen - n) * span - (span - u) * seen == -((n - u) * span + u * d);
      NoneLeft(n - u, span, u, d);
    } else if u < span {
      Factors(span - u, seen);
    }
  }

  lemma NoneLeft(a: nat, b: nat, c: nat, d: nat)
    requires b > 0 && c > 0
    ensures a * b + c * d == 0 <==> a == 0 && d == 0
  {
    if a > 0 {
      Factors(a, b);
    }
    if d > 0 {
      Factors(c, d);
    }
  }

  lemma Factors(a: nat, b: nat)
    requires a > 0 && b > 0
    ensures a * b > 0
  {
  }

  lemma RatioFromIff(t: Totals, first: nat, low: nat, top: nat, ps: seq<Packet>)
    requires ps != [] && Tracks(t, first, top, |ps|) && low <= first && forall p <- ps :: low <= p.number <= top
    ensures LossRatio(t) == |Missing(low, top, ps)| as real / (top - low + 1) as real <==>
      Missing(low, top, ps) == {} || (NoDuplicates(ps) && first == low)
  {
    var all, range := Numbers(ps), Range(low, top);
    var span, d := top - low + 1, first - low;
    NumbersSizeIff(ps);
    SplitSize(range, all);
    assert range * all == all;
    assert ps[0].number in all;
    ShareIff(span, d, |all|, |ps|);
    SameFraction(if t.expected < t.received then 0 else t.expected - t.received, t.expected, span - |all|, span);
  }

  /** Over every run of polls from a fresh monitor: the reported ratio is the share of the
      true span that is missing if and only if nothing is missing or the counters are right
      by the condition above. */
  lemma RunRatioIff(batch: seq<Packet>, batches: seq<seq<Packet>>)
    requires batch != [] && Compact(batch)
    requires Spanning(TopOf(0, batch), batches)
    ensures var t, all := Polled(ZERO, [batch] + batches), batch + Flatten(batches);
      var low, top := LeastOf(all), TopOf(0, all);
      && low <= top
      && (LossRatio(t) == |Missing(low, top, all)| as real / (top - low + 1) as real <==>
          || Missing(low, top, all) == {}
          || (NoDuplicates(all) && OneRound(batch) && forall p <- Flatten(batches) :: LeastOf(batch) <= p.number))
  {
    var t, later := Polled(ZERO, [batch] + batches), Flatten(batches);
    var all, first := batch + later, Sorted(batch)[0].number;
    MonitorTracks(batch, batches);
    TopOfIsMax(0, all);
    FirstIsLeast(batch);
    FirstIsTrueFirstIff(batch);
    assert Sorted(batch)[0] in all;
    RatioFromIff(t, first, LeastOf(all), TopOf(0, all), all);
    LeastOfBoth(batch, later);
  }

  /** A wrap within the first poll: packets 65535 and 65536 are all there, yet two are
      received where one is expected. */
  lemma FirstPollWraps()
    ensures var ps := [Packet(65535, 0.0), Packet(65536, 0.0)];
      var t := Polled(ZERO, [ps]);
      t.expected == 1 && t.received == 2 && Missing(65535, 65536, ps) == {} && LossRatio(t) == 0.0
  {
    var p, q := Packet(65535, 0.0), Packet(65536, 0.0);
    WrappedPair(p, q);
    assert p in [p, q] && q in [p, q];
  }

  /** And so a loss goes unreported: of 65535, 65536 and 65537 the middle one is missing,
      and the ratio is zero. */
  lemma WrapHidesLoss()
    ensures var ps := [Packet(65535, 0.0), Packet(65537, 0.0)];
      LossRatio(Polled(ZERO, [ps])) == 0.0 && 65536 in Missing(65535, 65537, ps)
  {
    WrappedPair(Packet(65535, 0.0), Packet(65537, 0.0));
  }

  lemma WrappedPair(p: Packet, q: Packet)
    requires p.number < q.number <= p.number + HALF && Wire(q) < Wire(p)
    ensures Polled(ZERO, [[p, q]]) == Totals(Some(Wire(q)), 1, 2)
  {
    var batch := [p, q];
    assert p in batch && q in batch;
    FirstIsLeast(batch);
    assert Sorted(batch)[0] == q;
    FirstBatchTracks(batch);
    TopOfIsMax(0, batch);
    assert [batch][1..] == [];
  }

  /** Duplicates hide losses: packets 0, 2, 2 are counted as no loss at all. */
  lemma DuplicateHidesLoss()
    ensures var ps := [Packet(0, 0.0), Packet(2, 0.0), Packet(2, 0.0)];
      var t := CountAll(ZERO, Sorted(ps));
      t.expected == 3 && t.received == 3 && 1 in Missing(0, 2, ps)
  {
    var p, q := Packet(0, 0.0), Packet(2, 0.0);
    var ps := [p, q, q];
    SortedAlready(ps);
    CountThree(ZERO, p, q, q);
    assert forall x <- ps :: x.number != 1;
  }

  lemma CountThree(t: Totals, p: Packet, q: Packet, r: Packet)
    ensures CountAll(t, [p, q, r]) == Count(Count(Count(t, Wire(p)), Wire(q)), Wire(r))
  {
    assert [p, q, r] == [p] + [q, r] && [q, r] == [q] + [r] && [r] == [r] + [];
    CountAllCons(t, p, [q, r]);
    CountAllCons(Count(t, Wire(p)), q, [r]);
    CountAllCons(Count(Count(t, Wire(p)), Wire(q)), r, []);
  }

  lemma CountAllCons(t: Totals, p: Packet, ps: seq<Packet>)
    ensures CountAll(t, [p] + ps) == CountAll(Count(t, Wire(p)), ps)
  {
    assert ([p] + ps)[1..] == ps;
  }

  lemma {:induction false} InsertLast(p: Packet, ps: seq<Packet>)
    requires forall i :: 0 <= i < |ps| ==> Wire(ps[i]) <= Wire(p)
    ensures Insert(p, ps) == ps + [p]
    decreases |ps|
  {
    if ps != [] {
      InsertLast(p, ps[1..]);
    }
  }

  /** Sorting leaves what is in order alone. */
  lemma {:induction false} SortedAlready(ps: seq<Packet>)
    requires Ordered(ps)
    ensures Sorted(ps) == ps
    decreases |ps|
  {
    if ps != [] {
      SortedAlready(ps[..|ps| - 1]);
      InsertLast(ps[|ps| - 1], ps[..|ps| - 1]);
    }
  }

  // ---------------------------------------------------------------------------
  // The monitor
  // ---------------------------------------------------------------------------

  /** Milliseconds between two arrivals; a clock that seems to run back counts as none. */
  function Elapsed(from: real, to: real): real {
    if to < from then 0.0 else to - from
  }

  function JitterSample(prev: real, at: real): (j: real)
    ensures j >= 0.0
  {
    var d := Elapsed(prev, at) - 20.0;
    if d < 0.0 then -d else d
  }

  function Last(xs: seq<real>, n: nat): seq<real> {
    if |xs| <= n then xs else xs[|xs| - n..]
  }

  function FirstJitter(prev: Option<real>, p: Packet): seq<real> {
    if prev.Some? then [JitterSample(prev.value, p.at)] else []
  }

  /** Jitter samples of packets counted in this order after an arrival at `prev`. */
  function Jitters(prev: Option<real>, ps: seq<Packet>): seq<real>
    decreases |ps|
  {
    if ps == [] then []
    else FirstJitter(prev, ps[0]) + Jitters(Some(ps[0].at), ps[1..])
  }

  function Ema(start: real, samples: seq<real>): real
    decreases |samples|
  {
    if samples == [] then start else Ema(start + (samples[0] - start) / 16.0, samples[1..])
  }

  /** A packet `d` ms off the 20 ms pace has that much jitter, early or late. */
  lemma JitterIs(prev: real, d: real)
    requires d >= -20.0
    ensures JitterSample(prev, prev + 20.0 + d) == if d < 0.0 then -d else d
  {
  }

  /** A clock that runs back is one packet off the pace. */
  lemma JitterBackwards(prev: real, at: real)
    requires at <= prev
    ensures JitterSample(prev, at) == 20.0
  {
  }

  /** Packets every 20 ms. */
  predicate Paced(prev: real, ps: seq<Packet>)
    decreases |ps|
  {
    ps == [] || (ps[0].at == prev + 20.0 && Paced(ps[0].at, ps[1..]))
  }

  predicate AllAre(xs: seq<real>, x: real) {
    forall i :: 0 <= i < |xs| ==> xs[i] == x
  }

  /** A paced stream has no jitter. */
  lemma {:induction false} PacedIsSteady(prev: real, ps: seq<Packet>)
    requires Paced(prev, ps)
    ensures |Jitters(Some(prev), ps)| == |ps| && AllAre(Jitters(Some(prev), ps), 0.0)
    decreases |ps|
  {
    if ps != [] {
      JitterIs(prev, 0.0);
      PacedIsSteady(ps[0].at, ps[1..]);
    }
  }

  /** What is left of a difference after `n` samples. */
  function Faded(d: real, n: nat): real {
    if n == 0 then d else Faded(d, n - 1) * 15.0 / 16.0
  }

  lemma {:induction false} FadedFirst(d: real, n: nat)
    ensures Faded(d * 15.0 / 16.0, n) == Faded(d, n + 1)
  {
    if n > 0 {
      FadedFirst(d, n - 1);
    }
  }

  /** While the jitter stays at `x`, the average closes one sixteenth of the distance to it
      with every packet. */
  lemma {:induction false} EmaFades(start: real, samples: seq<real>, x: real)
    requires AllAre(samples, x)
    ensures Ema(start, samples) == x + Faded(start - x, |samples|)
    decreases |samples|
  {
    if samples != [] {
      var next := start + (samples[0] - start) / 16.0;
      assert next - x == (start - x) * 15.0 / 16.0;
      EmaFades(next, samples[1..], x);
      FadedFirst(start - x, |samples| - 1);
    }
  }

  /** The moving average never leaves the range of what it averages. */
  lemma {:induction false} EmaBounded(start: real, samples: seq<real>, hi: real)
    requires 0.0 <= start <= hi && forall x <- samples :: 0.0 <= x <= hi
    ensures 0.0 <= Ema(start, samples) <= hi
    decreases |samples|
  {
    if samples != [] {
      assert samples[0] in samples && forall x <- samples[1..] :: x in samples;
      EmaBounded(start + (samples[0] - start) / 16.0, samples[1..], hi);
    }
  }

  datatype Stats = Stats(packetLoss: real, jitter: real)

  lemma JittersNext(prev: Option<real>, ps: seq<Packet>, i: nat, before: seq<real>)
    requires i < |ps|
    ensures before + Jitters(prev, ps[i..]) == before + FirstJitter(prev, ps[i]) + Jitters(Some(ps[i].at), ps[i + 1..])
  {
    assert ps[i..][1..] == ps[i + 1..];
  }

  class RealNetworkMonitor {
    var pending: seq<Packet>
    var totals: Totals
    var prevArrival: Option<real>
    var ema: real
    var window: seq<real>
    ghost var samples: seq<real>

    ghost predicate Valid()
      reads this
    {
      && window == Last(samples, JITTER_WINDOW_SIZE) && ema == Ema(0.0, samples)
      && (totals.maxSeq.None? ==> totals == ZERO && samples == [])
    }

    constructor ()
      ensures Valid() && totals == ZERO && pending == [] && samples == []
    {
      pending, totals, prevArrival, ema, window, samples := [], ZERO, None, 0.0, [], [];
    }

    method RecordPacket(p: Packet)
      requires Valid()
      modifies this`pending
      ensures Valid() && pending == old(pending) + [p]
    {
      pending := pending + [p];
    }

    method NoteJitter(sample: real)
      requires Valid() && totals.maxSeq.Some?
      modifies this`ema, this`window, this`samples
      ensures Valid() && samples == old(samples) + [sample]
    {
      EmaSnoc(0.0, samples, sample);
      ema := ema + (sample - ema) / 16.0;
      if |window| >= JITTER_WINDOW_SIZE {
        window := window[1..];
      }
      window := window + [sample];
      samples := samples + [sample];
    }

    /** One packet: the counters, and its jitter if another came before it. */
    method IngestOne(p: Packet)
      requires Valid()
      modifies this`totals, this`prevArrival, this`ema, this`window, this`samples
      ensures Valid() && totals == Count(old(totals), Wire(p)) && prevArrival == Some(p.at)
      ensures samples == old(samples) + FirstJitter(old(prevArrival), p)
    {
      totals := Count(totals, Wire(p));
      if prevArrival.Some? {
        NoteJitter(JitterSample(prevArrival.value, p.at));
      }
      prevArrival := Some(p.at);
    }

    /** Counts one batch, lowest wire number first. */
    method Ingest(batch: seq<Packet>)
      requires Valid()
      modifies this`totals, this`prevArrival, this`ema, this`window, this`samples
      ensures Valid()
      ensures totals == CountAll(old(totals), Sorted(batch))
      ensures samples == old(samples) + Jitters(old(prevArrival), Sorted(batch))
      ensures |window| <= 100 && |window| <= |samples| && window == samples[|samples| - |window|..]
      ensures |window| < 100 ==> window == samples
    {
      var arrivals := Sorted(batch);
      ghost var before, prev := samples, prevArrival;
      assert arrivals[0..] == arrivals;
      for i := 0 to |arrivals|
        invariant Valid()
        invariant CountAll(totals, arrivals[i..]) == CountAll(old(totals), arrivals)
        invariant samples + Jitters(prevArrival, arrivals[i..]) == before + Jitters(prev, arrivals)
      {
        JittersNext(prevArrival, arrivals, i, samples);
        IngestOne(arrivals[i]);
      }
      assert arrivals[|arrivals|..] == [];
    }

    method PollStats() returns (s: Stats)
      requires Valid()
      modifies this
      ensures Valid() && pending == []
      ensures totals == CountAll(old(totals), Sorted(old(pending)))
      ensures s.packetLoss == LossRatio(totals) && s.jitter == Ema(0.0, samples)
      ensures samples == old(samples) + Jitters(old(prevArrival), Sorted(old(pending)))
    {
      var arrivals := pending;
      pending := [];
      if arrivals == [] && totals.maxSeq.None? {
        return Stats(0.0, 0.0);
      }
      Ingest(arrivals);
      s := Stats(LossRatio(totals), ema);
    }
  }

  lemma {:induction false} EmaSnoc(start: real, samples: seq<real>, x: real)
    ensures Ema(start, samples + [x]) == Ema(start, samples) + (x - Ema(start, samples)) / 16.0
    decreases |samples|
  {
    if samples == [] {
      assert (samples + [x])[1..] == [];
    } else {
      assert (samples + [x])[1..] == samples[1..] + [x];
      EmaSnoc(start + (samples[0] - start) / 16.0, samples[1..], x);
    }
  }
}
