/**
  What is left of the agreement between the two indexes when methods overlap: as long as
  no removing body runs, one direction holds at every moment, and once all calls have
  returned both do, unless a peer was let into two rooms.
 */
module RegistryOverlaps {
  import opened RegistrySteps
  import opened RegistryRuns
  import opened RegistryAtomic
  import Registry

  /** The bodies that take a peer or a room out. */
  predicate Removing(a: Action) {
    a.Unlink? || a.MoveUnlink? || a.MoveRetain? || a.LeaveRetain? || a.IndexRemove?
  }

  predicate RemovesNow(s: State, e: Event)
    requires Enabled(s, e)
  {
    e.Move? && s.threads[e.t].code.Do? && Removing(s.threads[e.t].code.act)
  }

  predicate NeverRemoves(s: State, es: seq<Event>)
    requires Legal(s, es)
    decreases es
  {
    es == [] || (!RemovesNow(s, es[0]) && NeverRemoves(Apply(s, es[0]), es[1..]))
  }

  /** The room of that name lists the peer. */
  predicate Listed(m: Memory, p: PeerId, r: RoomId) {
    r in m.rooms && m.rooms[r] < |m.heap| && p in m.heap[m.rooms[r]].peers
  }

  predicate Linked(m: Memory, r: RoomId, o: RoomRef) {
    r in m.rooms && m.rooms[r] == o
  }

  /** What a body relies on: the object it holds is the one of that name, and a peer is
      listed before it is indexed. */
  predicate Backed(m: Memory, a: Action) {
    && (a.JoinCheck? || a.JoinClosure? || a.JoinPush? || a.AddReadIndex? || a.AddPush? ==> Linked(m, a.room, a.ref))
    && (a.IndexInsert? ==> Listed(m, a.peer, a.room))
  }

  predicate CodeBacked(m: Memory, code: Code) {
    Target(code).Do? ==> Backed(m, Target(code).act)
  }

  /** The thread is to enter the peer in the reverse index. */
  predicate Entering(code: Code, p: PeerId) {
    Target(code).Do? && Target(code).act.IndexInsert? && Target(code).act.peer == p
  }

  /** A listed peer is indexed, or about to be. */
  ghost predicate Covered(s: State, p: PeerId) {
    p in s.mem.index || exists t :: 0 <= t < |s.threads| && Entering(s.threads[t].code, p)
  }

  ghost predicate Overlapping(s: State) {
    && MapRefs(s.mem)
    && (forall p <- s.mem.index :: Listed(s.mem, p, s.mem.index[p]))
    && (forall t :: 0 <= t < |s.threads| ==> CodeBacked(s.mem, s.threads[t].code))
    && (forall p, r :: Listed(s.mem, p, r) ==> Covered(s, p))
  }

  /** Nothing that is linked, listed or indexed goes. */
  ghost predicate Kept(m: Memory, m': Memory) {
    && (forall r, o :: Linked(m, r, o) ==> Linked(m', r, o))
    && (forall p, r :: Listed(m, p, r) ==> Listed(m', p, r))
    && m.index.Keys <= m'.index.Keys
  }

  lemma BackedKept(m: Memory, m': Memory, a: Action)
    requires Backed(m, a) && Kept(m, m')
    ensures Backed(m', a)
  {
  }

  lemma ExecKeeps(m: Memory, a: Action, c: Choice)
    requires MapRefs(m) && ActionRefs(a, |m.heap|) && ValidChoice(m, a, c) && !Removing(a)
    ensures Kept(m, Exec(m, a, c).0)
  {
    var m' := Exec(m, a, c).0;
    forall p, r | Listed(m, p, r) ensures Listed(m', p, r) {
      ExecKeepsPeers(m, a, c, m.rooms[r], p);
    }
  }

  lemma ExecKeepsPeers(m: Memory, a: Action, c: Choice, o: RoomRef, p: PeerId)
    requires MapRefs(m) && ActionRefs(a, |m.heap|) && ValidChoice(m, a, c) && !Removing(a)
    requires o < |m.heap| && p in m.heap[o].peers
    ensures o < |Exec(m, a, c).0.heap| && p in Exec(m, a, c).0.heap[o].peers
  {
  }

  predicate Seating(a: Action) {
    || a.JoinLookup? || a.JoinCheck? || a.JoinClosure? || a.JoinPush?
    || a.AddLookup? || a.AddReadIndex? || a.MoveLookupNew? || a.AddPush?
  }

  lemma ExecUnseated(m: Memory, a: Action, c: Choice)
    requires MapRefs(m) && ActionRefs(a, |m.heap|) && ValidChoice(m, a, c) && !Removing(a) && !Seating(a)
    ensures CodeBacked(Exec(m, a, c).0, Exec(m, a, c).1)
  {
    TargetIs(Exec(m, a, c).1);
  }

  /** Where a body leads, once the locks in between are taken and released. */
  lemma ExecBacked(m: Memory, a: Action, c: Choice)
    requires MapRefs(m) && ActionRefs(a, |m.heap|) && ValidChoice(m, a, c) && !Removing(a) && Backed(m, a)
    ensures CodeBacked(Exec(m, a, c).0, Exec(m, a, c).1)
  {
    if Seating(a) {
      TargetIs(Exec(m, a, c).1);
    } else {
      ExecUnseated(m, a, c);
    }
  }

  /** A peer comes to be listed by a push into that room, and the thread goes on to index
      it. */
  lemma ExecLists(m: Memory, a: Action, c: Choice, p: PeerId, r: RoomId)
    requires MapRefs(m) && ActionRefs(a, |m.heap|) && ValidChoice(m, a, c) && !Removing(a)
    requires Listed(Exec(m, a, c).0, p, r) && !Listed(m, p, r)
    ensures Entering(Exec(m, a, c).1, p)
    ensures (a.JoinPush? || a.AddPush?) && a.peer == p && Linked(m, r, a.ref)
  {
    TargetIs(Exec(m, a, c).1);
  }

  lemma StepIndexed(s: State, e: Event)
    requires Overlapping(s) && Enabled(s, e) && e.Move? && s.threads[e.t].code.Do? && !RemovesNow(s, e)
    ensures var s' := Apply(s, e);
      && Kept(s.mem, s'.mem)
      && (forall p <- s'.mem.index :: Listed(s'.mem, p, s'.mem.index[p]))
      && (forall t :: 0 <= t < |s'.threads| ==> CodeBacked(s'.mem, s'.threads[t].code))
  {
    var a, s' := s.threads[e.t].code.act, Apply(s, e);
    assert CodeBacked(s.mem, s.threads[e.t].code);
    ExecKeeps(s.mem, a, e.choice);
    ExecIndex(s.mem, a, e.choice);
    ExecBacked(s.mem, a, e.choice);
    forall t | 0 <= t < |s.threads| && t != e.t ensures CodeBacked(s'.mem, s'.threads[t].code) {
      assert CodeBacked(s.mem, s.threads[t].code);
      if Target(s.threads[t].code).Do? {
        BackedKept(s.mem, s'.mem, Target(s.threads[t].code).act);
      }
    }
  }

  lemma StepCovers(s: State, e: Event, p: PeerId, r: RoomId)
    requires Overlapping(s) && Enabled(s, e) && e.Move? && s.threads[e.t].code.Do? && !RemovesNow(s, e)
    requires Listed(Apply(s, e).mem, p, r)
    ensures Covered(Apply(s, e), p)
  {
    var a, s' := s.threads[e.t].code.act, Apply(s, e);
    ExecIndex(s.mem, a, e.choice);
    if !Listed(s.mem, p, r) {
      ExecLists(s.mem, a, e.choice, p, r);
      assert Entering(s'.threads[e.t].code, p);
    } else if p !in s.mem.index {
      assert Covered(s, p);
      var t :| 0 <= t < |s.threads| && Entering(s.threads[t].code, p);
      if t != e.t {
        assert Entering(s'.threads[t].code, p);
      }
    }
  }

  lemma LockStepCovers(s: State, e: Event, p: PeerId)
    requires Enabled(s, e) && !(e.Move? && s.threads[e.t].code.Do?) && Covered(s, p)
    ensures Covered(Apply(s, e), p)
  {
    if p !in s.mem.index {
      var t :| 0 <= t < |s.threads| && Entering(s.threads[t].code, p);
      assert Entering(Apply(s, e).threads[t].code, p);
    }
  }

  lemma StartBacked(m: Memory, op: Op)
    ensures CodeBacked(m, Program(op))
  {
    TargetIs(Program(op));
  }

  lemma StepOverlaps(s: State, e: Event)
    requires Invariant(s) && Overlapping(s) && Enabled(s, e) && !RemovesNow(s, e)
    ensures Overlapping(Apply(s, e))
  {
    var s' := Apply(s, e);
    if e.Move? && s.threads[e.t].code.Do? {
      ExecRefs(s.mem, s.threads[e.t].code.act, e.choice);
      StepIndexed(s, e);
      forall p, r | Listed(s'.mem, p, r) ensures Covered(s', p) {
        StepCovers(s, e, p, r);
      }
    } else {
      LockStepBacked(s, e);
      forall p, r | Listed(s'.mem, p, r) ensures Covered(s', p) {
        LockStepCovers(s, e, p);
      }
    }
  }

  lemma LockStepBacked(s: State, e: Event)
    requires Overlapping(s) && Enabled(s, e) && !(e.Move? && s.threads[e.t].code.Do?)
    ensures Apply(s, e).mem == s.mem
    ensures forall t :: 0 <= t < |s.threads| ==> CodeBacked(s.mem, Apply(s, e).threads[t].code)
  {
    assert CodeBacked(s.mem, s.threads[e.t].code);
    if e.Start? {
      StartBacked(s.mem, e.op);
    }
  }

  lemma {:induction false} RunOverlaps(s: State, es: seq<Event>)
    requires Invariant(s) && Overlapping(s) && Legal(s, es) && NeverRemoves(s, es)
    ensures Overlapping(Final(s, es))
    decreases es
  {
    if es != [] {
      StepOverlaps(s, es[0]);
      StepInvariant(s, es[0]);
      RunOverlaps(Apply(s, es[0]), es[1..]);
    }
  }

  predicate AllIdle(s: State) {
    forall t :: 0 <= t < |s.threads| ==> s.threads[t].code.Idle?
  }

  /** No peer is listed in two rooms. */
  ghost predicate Single(m: Memory) {
    forall p, q, r :: Listed(m, p, q) && Listed(m, p, r) ==> q == r
  }

  // ---------------------------------------------------------------------------
  // Let into two rooms
  // ---------------------------------------------------------------------------

  /** A push of a peer that another room of the map lists. */
  ghost predicate StraysNow(s: State, e: Event)
    requires Enabled(s, e)
  {
    && e.Move? && s.threads[e.t].code.Do?
    && var a := s.threads[e.t].code.act;
       (a.JoinPush? || a.AddPush?) && exists r :: Listed(s.mem, a.peer, r) && s.mem.rooms[r] != a.ref
  }

  ghost predicate NeverStrays(s: State, es: seq<Event>)
    requires Legal(s, es)
    decreases es
  {
    es == [] || (!StraysNow(s, es[0]) && NeverStrays(Apply(s, es[0]), es[1..]))
  }

  lemma StraySplits(s: State, e: Event)
    requires Overlapping(s) && Enabled(s, e) && !RemovesNow(s, e) && StraysNow(s, e)
    ensures !Single(Apply(s, e).mem)
  {
    var a, m' := s.threads[e.t].code.act, Apply(s, e).mem;
    assert CodeBacked(s.mem, s.threads[e.t].code);
    var r :| Listed(s.mem, a.peer, r) && s.mem.rooms[r] != a.ref;
    ExecKeeps(s.mem, a, e.choice);
    assert Listed(m', a.peer, r) && Linked(m', a.room, a.ref);
    assert Listed(m', a.peer, a.room);
  }

  lemma NoStrayKeeps(s: State, e: Event)
    requires Overlapping(s) && Unshared(s.mem) && Enabled(s, e) && !RemovesNow(s, e) && !StraysNow(s, e)
    requires Single(s.mem)
    ensures Single(Apply(s, e).mem)
  {
    var m, m' := s.mem, Apply(s, e).mem;
    if e.Move? && s.threads[e.t].code.Do? {
      var a := s.threads[e.t].code.act;
      forall p, q, r | Listed(m', p, q) && Listed(m', p, r) ensures q == r {
        if !Listed(m, p, q) {
          ExecLists(m, a, e.choice, p, q);
        }
        if !Listed(m, p, r) {
          ExecLists(m, a, e.choice, p, r);
        }
      }
    }
  }

  lemma SplitStays(s: State, e: Event)
    requires Overlapping(s) && Enabled(s, e) && !RemovesNow(s, e) && !Single(s.mem)
    ensures !Single(Apply(s, e).mem)
  {
    if e.Move? && s.threads[e.t].code.Do? {
      ExecKeeps(s.mem, s.threads[e.t].code.act, e.choice);
    }
    var p, q, r :| Listed(s.mem, p, q) && Listed(s.mem, p, r) && q != r;
    assert Listed(Apply(s, e).mem, p, q) && Listed(Apply(s, e).mem, p, r);
  }

  lemma {:induction false} RunSingleIff(s: State, es: seq<Event>)
    requires Invariant(s) && Unshared(s.mem) && Overlapping(s) && Legal(s, es) && NeverRemoves(s, es)
    ensures Single(Final(s, es).mem) <==> Single(s.mem) && NeverStrays(s, es)
    decreases es
  {
    if es != [] {
      var e := es[0];
      StepOverlaps(s, e);
      StepInvariant(s, e);
      StepUnshared(s, e);
      RunSingleIff(Apply(s, e), es[1..]);
      if !Single(s.mem) {
        SplitStays(s, e);
      } else if StraysNow(s, e) {
        StraySplits(s, e);
      } else {
        NoStrayKeeps(s, e);
      }
    }
  }

  /** However calls overlap, while no removing body runs: whoever is indexed in a room is
      listed in it, and once all calls have returned the indexes agree if and only if no
      step pushed a peer into a room while another room listed it. */
  lemma OverlappedAgreesIff(s: State, es: seq<Event>)
    requires Initial(s) && Legal(s, es) && NeverRemoves(s, es)
    ensures MapRefs(Final(s, es).mem)
    ensures var m := Final(s, es).mem; forall p <- m.index :: Listed(m, p, m.index[p])
    ensures AllIdle(Final(s, es)) ==> (Registry.Agree(View(Final(s, es).mem)) <==> NeverStrays(s, es))
  {
    InitialInvariant(s);
    RunOverlaps(s, es);
    RunInvariant(s, es);
    RunSingleIff(s, es);
    if AllIdle(Final(s, es)) {
      IdleAgreesIff(Final(s, es));
    }
  }

  lemma IdleAgreesIff(s: State)
    requires Overlapping(s) && AllIdle(s)
    requires forall o :: 0 <= o < |s.mem.heap| ==> RoomSound(s.mem.heap[o])
    ensures Registry.Agree(View(s.mem)) <==> Single(s.mem)
  {
    var v := View(s.mem);
    assert forall p, r :: Registry.Member(v, p, r) <==> Listed(s.mem, p, r);
    forall p, r | Listed(s.mem, p, r) ensures p in s.mem.index && Listed(s.mem, p, s.mem.index[p]) {
      assert Covered(s, p);
    }
    forall r | r in v.rooms ensures Distinct(v.rooms[r].peers) {
      assert RoomSound(s.mem.heap[s.mem.rooms[r]]);
    }
    if Single(s.mem) {
      forall p, r | Registry.Member(v, p, r) ensures p in v.index && v.index[p] == r {
        assert Listed(s.mem, p, r);
      }
    }
    if Registry.Agree(v) {
      forall p, q, r | Listed(s.mem, p, q) && Listed(s.mem, p, r) ensures q == r {
        assert Registry.Member(v, p, q) && Registry.Member(v, p, r);
      }
    }
  }
}
