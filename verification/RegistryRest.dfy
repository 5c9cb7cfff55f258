/**
  Agreement of the two indexes under interleaving, removals included. While a call on a
  peer is under way the indexes may differ about it. Between its calls they are to agree
  on it, and this says by which steps that comes to fail.
 */
module RegistryRest {
  import opened RegistrySteps
  import opened RegistryRuns
  import opened RegistryUnlinks
  import opened RegistryAtomic
  import opened RegistryOverlaps
  import Registry

  // ---------------------------------------------------------------------------
  // Calls on one peer
  // ---------------------------------------------------------------------------

  predicate Joining(a: Action) {
    a.JoinLookup? || a.JoinCheck? || a.JoinClosure? || a.JoinPush?
  }

  predicate AddsPeer(a: Action) {
    || a.AddEnsure? || a.AddLookup? || a.AddReadIndex? || a.AddPush?
    || a.MoveLookupOld? || a.MoveRetain? || a.MoveUnlink? || a.MoveLookupNew?
  }

  predicate Indexing(a: Action) {
    a.IndexInsert? || a.IndexRemove? || a.LeaveLookup? || a.LeaveRetain?
  }

  /** The body belongs to a call on the peer. */
  predicate On(a: Action, p: PeerId) {
    (Joining(a) || AddsPeer(a) || Indexing(a)) && a.peer == p
  }

  predicate Working(code: Code, p: PeerId) {
    Target(code).Do? && On(Target(code).act, p)
  }

  /** No call on the peer is under way. */
  predicate AtRest(s: State, p: PeerId) {
    forall t :: 0 <= t < |s.threads| ==> !Working(s.threads[t].code, p)
  }

  predicate Concerns(op: Op, p: PeerId) {
    (op.TryAddPeerWith? || op.AddPeer? || op.RemovePeer?) && op.peer == p
  }

  /** Calls on this peer do not overlap each other; those on others may overlap anything. */
  predicate OneCall(s: State, es: seq<Event>, p: PeerId)
    requires Legal(s, es)
    decreases es
  {
    || es == []
    || (&& (es[0].Start? && Concerns(es[0].op, p) ==> AtRest(s, p))
        && OneCall(Apply(s, es[0]), es[1..], p))
  }

  // ---------------------------------------------------------------------------
  // Agreement on one peer
  // ---------------------------------------------------------------------------

  predicate Indexed(m: Memory, p: PeerId, r: RoomId) {
    p in m.index && m.index[p] == r
  }

  ghost predicate AgreesOn(m: Memory, p: PeerId) {
    forall r :: Indexed(m, p, r) <==> Listed(m, p, r)
  }

  /** In every state of the run, between calls on the peer. */
  ghost predicate AgreesBetween(s: State, es: seq<Event>, p: PeerId)
    requires Legal(s, es)
    decreases es
  {
    && (AtRest(s, p) ==> AgreesOn(s.mem, p))
    && (es != [] ==> AgreesBetween(Apply(s, es[0]), es[1..], p))
  }

  /** An unlink takes away a room that lists the peer. */
  predicate Unmoors(m: Memory, a: Action, p: PeerId) {
    (a.Unlink? && Listed(m, p, a.room)) || (a.MoveUnlink? && Listed(m, p, a.prev))
  }

  /** The peer is indexed in a room that does not list it (any more), or while another
      room lists it. */
  ghost predicate Misenters(m: Memory, a: Action, p: PeerId) {
    && a.IndexInsert? && a.peer == p
    && (!Listed(m, p, a.room) || exists r :: r != a.room && Listed(m, p, r))
  }

  /** A call ends early: no such room, room full, join refused. */
  predicate GivesUp(m: Memory, a: Action, c: Choice)
    requires ActionRefs(a, |m.heap|)
  {
    || ((a.JoinLookup? || a.AddLookup? || a.MoveLookupNew?) && a.room !in m.rooms)
    || (a.JoinCheck? && a.peer !in m.heap[a.ref].peers && |m.heap[a.ref].peers| >= m.heap[a.ref].max)
    || (a.JoinClosure? && !c.admitted)
  }

  /** A call ends early although the room the peer is indexed in does not list it. */
  predicate LeavesDangling(m: Memory, a: Action, c: Choice, p: PeerId)
    requires ActionRefs(a, |m.heap|)
  {
    On(a, p) && GivesUp(m, a, c) && p in m.index && !Listed(m, p, m.index[p])
  }

  /** The steps after which the indexes differ about a peer at rest. */
  ghost predicate Harms(s: State, e: Event, p: PeerId)
    requires Enabled(s, e)
  {
    && e.Move? && s.threads[e.t].code.Do?
    && var a := s.threads[e.t].code.act;
       || (AtRest(s, p) && Unmoors(s.mem, a, p))
       || Misenters(s.mem, a, p)
       || LeavesDangling(s.mem, a, e.choice, p)
  }

  ghost predicate NeverHarms(s: State, es: seq<Event>, p: PeerId)
    requires Legal(s, es)
    decreases es
  {
    es == [] || (!Harms(s, es[0], p) && NeverHarms(Apply(s, es[0]), es[1..], p))
  }

  // ---------------------------------------------------------------------------
  // Where the peer may be listed during its call
  // ---------------------------------------------------------------------------

  /** An object is under no other name. */
  ghost predicate Named(m: Memory, o: RoomRef, r: RoomId) {
    forall y :: Linked(m, y, o) ==> y == r
  }

  predicate HoldsRef(a: Action) {
    a.JoinCheck? || a.JoinClosure? || a.JoinPush? || a.AddReadIndex? || a.AddPush?
  }

  ghost predicate Phase(m: Memory, a: Action, p: PeerId)
    requires On(a, p)
  {
    && (HoldsRef(a) ==> a.ref < |m.heap| && Named(m, a.ref, a.room))
    && (a.LeaveLookup? || a.LeaveRetain? ==> p !in m.index)
    && (a.MoveRetain? || a.LeaveRetain? ==> a.ref < |m.heap|)
    && forall x :: Listed(m, p, x) ==> MayList(m, a, p, x)
  }

  predicate MayList(m: Memory, a: Action, p: PeerId, x: RoomId)
    requires On(a, p)
  {
    if a.IndexInsert? then x == a.room || Indexed(m, p, x)
    else if a.AddPush? || a.LeaveLookup? then x == a.room
    else if a.MoveLookupOld? then x == a.prev
    else if a.MoveRetain? || a.LeaveRetain? then Linked(m, x, a.ref)
    else if a.MoveUnlink? || a.MoveLookupNew? then false
    else Indexed(m, p, x)
  }

  /** What a step of another call leaves of the peer. */
  ghost predicate Away(m: Memory, m': Memory, a: Action, p: PeerId) {
    && |m.heap| <= |m'.heap|
    && (forall x :: Listed(m', p, x) <==> Listed(m, p, x) && !Unlinks(a, x))
    && (forall x :: Indexed(m', p, x) <==> Indexed(m, p, x))
    && (p in m'.index <==> p in m.index)
    && (forall x, o: RoomRef :: o < |m.heap| && Linked(m', x, o) ==> Linked(m, x, o))
    && (forall x, o: RoomRef :: Linked(m, x, o) && !Unlinks(a, x) ==> Linked(m', x, o))
  }

  lemma ExecNames(m: Memory, a: Action, c: Choice, x: RoomId)
    requires MapRefs(m) && ActionRefs(a, |m.heap|) && ValidChoice(m, a, c)
    ensures var m' := Exec(m, a, c).0;
      && (x in m.rooms && !Unlinks(a, x) ==> x in m'.rooms && m'.rooms[x] == m.rooms[x])
      && (Unlinks(a, x) ==> x !in m'.rooms)
  {
    ExecRooms(m, a, c);
  }

  lemma ExecElsewhere(m: Memory, a: Action, c: Choice, p: PeerId)
    requires MapRefs(m) && ActionRefs(a, |m.heap|) && ValidChoice(m, a, c) && !On(a, p)
    ensures var m' := Exec(m, a, c).0;
      (p in m'.index <==> p in m.index) && (p in m.index ==> m'.index[p] == m.index[p])
  {
    ExecIndex(m, a, c);
  }

  lemma ExecListed(m: Memory, a: Action, c: Choice, p: PeerId, x: RoomId)
    requires MapRefs(m) && ActionRefs(a, |m.heap|) && ValidChoice(m, a, c) && !On(a, p)
    ensures MapRefs(Exec(m, a, c).0)
    ensures Listed(Exec(m, a, c).0, p, x) <==> Listed(m, p, x) && !Unlinks(a, x)
  {
    var m' := Exec(m, a, c).0;
    ExecRefs(m, a, c);
    ExecNames(m, a, c, x);
    ExecLinks(m, a, c, x);
    if x in m'.rooms {
      ExecMembers(m, a, c, p, m'.rooms[x]);
    }
  }

  lemma ExecAway(m: Memory, a: Action, c: Choice, p: PeerId)
    requires MapRefs(m) && ActionRefs(a, |m.heap|) && ValidChoice(m, a, c) && !On(a, p)
    ensures Away(m, Exec(m, a, c).0, a, p)
  {
    ExecElsewhere(m, a, c, p);
    ExecRefs(m, a, c);
    forall x ensures Listed(Exec(m, a, c).0, p, x) <==> Listed(m, p, x) && !Unlinks(a, x) {
      ExecListed(m, a, c, p, x);
    }
    forall x, o: RoomRef | o < |m.heap| && Linked(Exec(m, a, c).0, x, o) ensures Linked(m, x, o) {
      ExecLinks(m, a, c, x);
    }
    forall x, o: RoomRef | Linked(m, x, o) && !Unlinks(a, x) ensures Linked(Exec(m, a, c).0, x, o) {
      ExecNames(m, a, c, x);
    }
  }

  lemma PhaseAway(m: Memory, m': Memory, a: Action, b: Action, p: PeerId)
    requires Away(m, m', a, p) && On(b, p) && Phase(m, b, p)
    ensures Phase(m', b, p)
  {
    forall x | Listed(m', p, x) ensures MayList(m', b, p, x) {
      assert Listed(m, p, x) && !Unlinks(a, x) && MayList(m, b, p, x);
    }
  }

  // ---------------------------------------------------------------------------
  // A step of the peer's own call
  // ---------------------------------------------------------------------------

  /** The call goes on in its phase, or ends well exactly when it does no harm. */
  ghost predicate Proceeds(m: Memory, a: Action, c: Choice, p: PeerId)
    requires MapRefs(m) && ActionRefs(a, |m.heap|) && ValidChoice(m, a, c) && On(a, p)
  {
    var (m', code) := Exec(m, a, c);
    var harm := Misenters(m, a, p) || LeavesDangling(m, a, c, p);
    if Working(code, p) then !harm && Phase(m', Target(code).act, p)
    else AgreesOn(m', p) <==> !harm
  }

  ghost predicate Ready(m: Memory, a: Action, c: Choice, p: PeerId) {
    && MapRefs(m) && Unshared(m) && ActionRefs(a, |m.heap|) && ValidChoice(m, a, c)
    && On(a, p) && Phase(m, a, p)
  }

  /** What a push or an eviction of the peer does to where it is listed. */
  lemma OwnListed(m: Memory, a: Action, c: Choice, p: PeerId, x: RoomId)
    requires MapRefs(m) && ActionRefs(a, |m.heap|) && ValidChoice(m, a, c)
    ensures MapRefs(Exec(m, a, c).0)
    ensures var m' := Exec(m, a, c).0;
      Listed(m', p, x) ==> x in m'.rooms && (Puts(a, p, m'.rooms[x]) || (Listed(m, p, x) && !Takes(a, p, m'.rooms[x])))
  {
    var m' := Exec(m, a, c).0;
    ExecRefs(m, a, c);
    ExecLinks(m, a, c, x);
    if x in m'.rooms {
      ExecMembers(m, a, c, p, m'.rooms[x]);
    }
  }

  lemma OwnNamed(m: Memory, a: Action, c: Choice, o: RoomRef, r: RoomId)
    requires MapRefs(m) && ActionRefs(a, |m.heap|) && ValidChoice(m, a, c)
    requires o < |m.heap| && Named(m, o, r)
    ensures Named(Exec(m, a, c).0, o, r)
  {
    forall y | Linked(Exec(m, a, c).0, y, o) ensures y == r {
      ExecLinks(m, a, c, y);
      assert Linked(m, y, o);
    }
  }

  lemma FoundNamed(m: Memory, r: RoomId)
    requires MapRefs(m) && Unshared(m) && r in m.rooms
    ensures m.rooms[r] < |m.heap| && Named(m, m.rooms[r], r)
  {
  }

  lemma LookupProceeds(m: Memory, a: Action, c: Choice, p: PeerId)
    requires Ready(m, a, c, p) && (a.JoinLookup? || a.AddLookup?)
    ensures Proceeds(m, a, c, p)
  {
    TargetIs(Exec(m, a, c).1);
    if a.room in m.rooms {
      FoundNamed(m, a.room);
    }
  }

  lemma CheckProceeds(m: Memory, a: Action, c: Choice, p: PeerId)
    requires Ready(m, a, c, p) && (a.JoinCheck? || a.AddReadIndex?)
    ensures Proceeds(m, a, c, p)
  {
    TargetIs(Exec(m, a, c).1);
  }

  lemma ClosureProceeds(m: Memory, a: Action, c: Choice, p: PeerId)
    requires Ready(m, a, c, p) && a.JoinClosure?
    ensures Proceeds(m, a, c, p)
  {
    TargetIs(Exec(m, a, c).1);
    OwnNamed(m, a, c, a.ref, a.room);
    assert forall x :: Listed(Exec(m, a, c).0, p, x) <==> Listed(m, p, x);
  }

  lemma EnsureProceeds(m: Memory, a: Action, c: Choice, p: PeerId)
    requires Ready(m, a, c, p) && a.AddEnsure?
    ensures Proceeds(m, a, c, p)
  {
    TargetIs(Exec(m, a, c).1);
    forall x | Listed(Exec(m, a, c).0, p, x) ensures Listed(m, p, x) {
      OwnListed(m, a, c, p, x);
    }
  }

  lemma PushProceeds(m: Memory, a: Action, c: Choice, p: PeerId)
    requires Ready(m, a, c, p) && (a.JoinPush? || a.AddPush?)
    ensures Proceeds(m, a, c, p)
  {
    TargetIs(Exec(m, a, c).1);
    forall x | Listed(Exec(m, a, c).0, p, x) ensures x == a.room || Listed(m, p, x) {
      OwnListed(m, a, c, p, x);
      ExecLinks(m, a, c, x);
      if !Listed(m, p, x) {
        assert Linked(m, x, a.ref);
      }
    }
  }

  lemma MoveLookupProceeds(m: Memory, a: Action, c: Choice, p: PeerId)
    requires Ready(m, a, c, p) && (a.MoveLookupOld? || a.MoveLookupNew?)
    ensures Proceeds(m, a, c, p)
  {
    TargetIs(Exec(m, a, c).1);
    if a.MoveLookupNew? && a.room in m.rooms {
      FoundNamed(m, a.room);
    }
  }

  lemma MoveOutProceeds(m: Memory, a: Action, c: Choice, p: PeerId)
    requires Ready(m, a, c, p) && (a.MoveRetain? || a.MoveUnlink?)
    ensures Proceeds(m, a, c, p)
  {
    TargetIs(Exec(m, a, c).1);
    forall x ensures !Listed(Exec(m, a, c).0, p, x) {
      OwnListed(m, a, c, p, x);
    }
  }

  lemma InsertProceeds(m: Memory, a: Action, c: Choice, p: PeerId)
    requires Ready(m, a, c, p) && a.IndexInsert?
    ensures Proceeds(m, a, c, p)
  {
    TargetIs(Exec(m, a, c).1);
    var m' := Exec(m, a, c).0;
    assert forall x :: Listed(m', p, x) <==> Listed(m, p, x);
    assert forall x :: Indexed(m', p, x) <==> x == a.room;
  }

  lemma IndexProceeds(m: Memory, a: Action, c: Choice, p: PeerId)
    requires Ready(m, a, c, p) && (a.IndexRemove? || a.LeaveLookup? || a.LeaveRetain?)
    ensures Proceeds(m, a, c, p)
  {
    TargetIs(Exec(m, a, c).1);
    forall x ensures Listed(Exec(m, a, c).0, p, x) ==> Listed(m, p, x) && !a.LeaveRetain? {
      OwnListed(m, a, c, p, x);
    }
  }

  lemma OwnProceeds(m: Memory, a: Action, c: Choice, p: PeerId)
    requires Ready(m, a, c, p)
    ensures Proceeds(m, a, c, p)
  {
    if a.JoinLookup? || a.AddLookup? {
      LookupProceeds(m, a, c, p);
    } else if a.JoinCheck? || a.AddReadIndex? {
      CheckProceeds(m, a, c, p);
    } else if a.JoinClosure? {
      ClosureProceeds(m, a, c, p);
    } else if a.AddEnsure? {
      EnsureProceeds(m, a, c, p);
    } else if a.JoinPush? || a.AddPush? {
      PushProceeds(m, a, c, p);
    } else if a.IndexInsert? {
      InsertProceeds(m, a, c, p);
    } else if Indexing(a) {
      IndexProceeds(m, a, c, p);
    } else if a.MoveLookupOld? || a.MoveLookupNew? {
      MoveLookupProceeds(m, a, c, p);
    } else {
      MoveOutProceeds(m, a, c, p);
    }
  }

  // ---------------------------------------------------------------------------
  // Steps and runs
  // ---------------------------------------------------------------------------

  /** At most one call on the peer; during it the phase holds, and between calls the
      indexes agree on the peer. */
  ghost predicate Orderly(s: State, p: PeerId) {
    && (AtRest(s, p) ==> AgreesOn(s.mem, p))
    && (forall t :: 0 <= t < |s.threads| && Working(s.threads[t].code, p) ==>
          Phase(s.mem, Target(s.threads[t].code).act, p))
    && (forall t, u :: 0 <= t < u < |s.threads| ==>
          !(Working(s.threads[t].code, p) && Working(s.threads[u].code, p)))
  }

  predicate Sound(s: State) {
    Invariant(s) && Unshared(s.mem)
  }

  lemma StepSound(s: State, e: Event)
    requires Sound(s) && Enabled(s, e)
    ensures Sound(Apply(s, e))
  {
    StepInvariant(s, e);
    StepUnshared(s, e);
  }

  lemma StartPhase(m: Memory, op: Op, p: PeerId)
    requires AgreesOn(m, p)
    ensures Working(Program(op), p) <==> Concerns(op, p)
    ensures Working(Program(op), p) ==> Phase(m, Target(Program(op)).act, p)
  {
    TargetIs(Program(op));
  }

  lemma StartElsewhere(op: Op, p: PeerId)
    ensures Working(Program(op), p) <==> Concerns(op, p)
  {
    TargetIs(Program(op));
  }

  /** Starting a call, taking a lock, releasing one. */
  lemma LockStepOrderly(s: State, e: Event, p: PeerId)
    requires Orderly(s, p) && Enabled(s, e) && !(e.Move? && s.threads[e.t].code.Do?)
    requires e.Start? && Concerns(e.op, p) ==> AtRest(s, p)
    ensures Orderly(Apply(s, e), p)
  {
    var s' := Apply(s, e);
    if e.Start? {
      StartElsewhere(e.op, p);
      if Concerns(e.op, p) {
        StartPhase(s.mem, e.op, p);
      }
      assert !Working(s.threads[e.t].code, p);
    } else {
      assert Target(s'.threads[e.t].code) == Target(s.threads[e.t].code);
    }
    assert forall t :: 0 <= t < |s.threads| && t != e.t ==> s'.threads[t] == s.threads[t];
    if AtRest(s', p) {
      forall t | 0 <= t < |s.threads| ensures !Working(s.threads[t].code, p) {
        assert !Working(s'.threads[t].code, p);
      }
    }
  }

  /** A body that is not of a call on the peer. */
  lemma OtherStep(s: State, e: Event, p: PeerId)
    requires Sound(s) && Orderly(s, p) && Enabled(s, e) && e.Move? && s.threads[e.t].code.Do?
    requires !On(s.threads[e.t].code.act, p)
    ensures !Harms(s, e, p) ==> Orderly(Apply(s, e), p)
    ensures Harms(s, e, p) ==> AtRest(Apply(s, e), p) && !AgreesOn(Apply(s, e).mem, p)
  {
    var a, s' := s.threads[e.t].code.act, Apply(s, e);
    ExecAway(s.mem, a, e.choice, p);
    NextNotOn(s.mem, a, e.choice, p);
    SameWorkers(s, e, p);
    forall t | 0 <= t < |s.threads| && Working(s'.threads[t].code, p)
      ensures Phase(s'.mem, Target(s'.threads[t].code).act, p)
    {
      PhaseAway(s.mem, s'.mem, a, Target(s.threads[t].code).act, p);
    }
    if AtRest(s, p) {
      if Unmoors(s.mem, a, p) {
        var r := if a.Unlink? then a.room else a.prev;
        assert Indexed(s'.mem, p, r) && !Listed(s'.mem, p, r);
      } else {
        assert forall x :: Listed(s.mem, p, x) ==> !Unlinks(a, x);
      }
    }
  }

  lemma NextNotOn(m: Memory, a: Action, c: Choice, p: PeerId)
    requires MapRefs(m) && ActionRefs(a, |m.heap|) && ValidChoice(m, a, c) && !On(a, p)
    ensures !Working(Exec(m, a, c).1, p)
  {
    TargetIs(Exec(m, a, c).1);
  }

  lemma SameWorkers(s: State, e: Event, p: PeerId)
    requires Enabled(s, e) && e.Move? && s.threads[e.t].code.Do?
    requires !Working(s.threads[e.t].code, p) && !Working(Apply(s, e).threads[e.t].code, p)
    ensures forall t :: 0 <= t < |s.threads| ==>
      (Working(s.threads[t].code, p) <==> Working(Apply(s, e).threads[t].code, p))
    ensures forall t :: 0 <= t < |s.threads| && Working(s.threads[t].code, p) ==>
      Apply(s, e).threads[t] == s.threads[t]
    ensures AtRest(s, p) <==> AtRest(Apply(s, e), p)
  {
    forall t | 0 <= t < |s.threads|
      ensures Working(s.threads[t].code, p) <==> Working(Apply(s, e).threads[t].code, p)
    {
    }
  }

  /** A body of the call on the peer. */
  lemma OwnStep(s: State, e: Event, p: PeerId)
    requires Sound(s) && Orderly(s, p) && Enabled(s, e) && e.Move? && s.threads[e.t].code.Do?
    requires On(s.threads[e.t].code.act, p)
    ensures !Harms(s, e, p) ==> Orderly(Apply(s, e), p)
    ensures Harms(s, e, p) ==> AtRest(Apply(s, e), p) && !AgreesOn(Apply(s, e).mem, p)
  {
    var a, s' := s.threads[e.t].code.act, Apply(s, e);
    assert Working(s.threads[e.t].code, p);
    OwnProceeds(s.mem, a, e.choice, p);
    assert !AtRest(s, p);
    forall t | 0 <= t < |s.threads| && t != e.t ensures !Working(s'.threads[t].code, p) {
      assert s'.threads[t] == s.threads[t];
    }
    if AtRest(s', p) {
      assert !Working(s'.threads[e.t].code, p);
    }
  }

  lemma StepOrderly(s: State, e: Event, p: PeerId)
    requires Sound(s) && Orderly(s, p) && Enabled(s, e)
    requires e.Start? && Concerns(e.op, p) ==> AtRest(s, p)
    ensures !Harms(s, e, p) ==> Orderly(Apply(s, e), p)
    ensures Harms(s, e, p) ==> AtRest(Apply(s, e), p) && !AgreesOn(Apply(s, e).mem, p)
  {
    if !(e.Move? && s.threads[e.t].code.Do?) {
      LockStepOrderly(s, e, p);
    } else if On(s.threads[e.t].code.act, p) {
      OwnStep(s, e, p);
    } else {
      OtherStep(s, e, p);
    }
  }

  lemma {:induction false} RunAgreesBetweenIff(s: State, es: seq<Event>, p: PeerId)
    requires Sound(s) && Orderly(s, p) && Legal(s, es) && OneCall(s, es, p)
    ensures AgreesBetween(s, es, p) <==> NeverHarms(s, es, p)
    decreases es
  {
    if es != [] {
      StepOrderly(s, es[0], p);
      StepSound(s, es[0]);
      if !Harms(s, es[0], p) {
        RunAgreesBetweenIff(Apply(s, es[0]), es[1..], p);
      } else {
        assert !AgreesBetween(Apply(s, es[0]), es[1..], p);
      }
    }
  }

  lemma InitialOrderly(s: State, p: PeerId)
    requires Initial(s)
    ensures Sound(s) && Orderly(s, p)
  {
    InitialInvariant(s);
  }

  /** However calls on other peers interleave with them, as long as calls on this peer do
      not overlap each other: between its calls the two indexes agree on the peer
      throughout the run if and only if no step unlinks a room that lists it at rest,
      indexes it in a room that does not list it or while another room does, or gives its
      call up while the room it is indexed in does not list it. */
  lemma AgreesBetweenIff(s: State, es: seq<Event>, p: PeerId)
    requires Initial(s) && Legal(s, es) && OneCall(s, es, p)
    ensures AgreesBetween(s, es, p) <==> NeverHarms(s, es, p)
  {
    InitialOrderly(s, p);
    RunAgreesBetweenIff(s, es, p);
  }

  lemma {:induction false} BetweenAtEnd(s: State, es: seq<Event>, p: PeerId)
    requires Legal(s, es) && AgreesBetween(s, es, p) && AtRest(Final(s, es), p)
    ensures AgreesOn(Final(s, es).mem, p)
    decreases es
  {
    if es != [] {
      BetweenAtEnd(Apply(s, es[0]), es[1..], p);
    }
  }

  /** So when all calls have returned, of runs without overlap on a peer and without such
      steps, the indexes agree. */
  lemma QuiescentAgrees(s: State, es: seq<Event>)
    requires Initial(s) && Legal(s, es) && AllIdle(Final(s, es))
    requires forall p :: OneCall(s, es, p) && NeverHarms(s, es, p)
    ensures MapRefs(Final(s, es).mem) && Registry.Agree(View(Final(s, es).mem))
  {
    var f := Final(s, es);
    InitialInvariant(s);
    RunInvariant(s, es);
    forall p ensures AgreesOn(f.mem, p) {
      AgreesBetweenIff(s, es, p);
      BetweenAtEnd(s, es, p);
    }
    AgreesOnAll(f.mem);
  }

  lemma AgreesOnAll(m: Memory)
    requires MapRefs(m) && forall o :: 0 <= o < |m.heap| ==> RoomSound(m.heap[o])
    requires forall p :: AgreesOn(m, p)
    ensures Registry.Agree(View(m))
  {
    var v := View(m);
    assert forall p, r :: Registry.Member(v, p, r) <==> Listed(m, p, r);
    forall p | p in v.index ensures Registry.Member(v, p, v.index[p]) {
      assert AgreesOn(m, p) && Indexed(m, p, m.index[p]);
    }
    forall p, r | Registry.Member(v, p, r) ensures p in v.index && v.index[p] == r {
      assert AgreesOn(m, p) && Indexed(m, p, r);
    }
    forall r | r in v.rooms ensures Distinct(v.rooms[r].peers) {
      assert RoomSound(m.heap[m.rooms[r]]);
    }
  }
}
