/**
  The two models of the registry meet: a method whose steps no other thread
  interrupts changes the step system's memory exactly as the atomic call changes
  the indexes.
 */
module RegistryAtomic {
  import opened RegistrySteps
  import opened RegistryRuns
  import Registry

  /** The indexes a memory stands for. Unlinked room objects are not part of them. */
  ghost function View(m: Memory): Registry.Indexes
    requires MapRefs(m)
  {
    Registry.Indexes(
      map r | r in m.rooms :: Registry.Room(m.heap[m.rooms[r]].peers, m.heap[m.rooms[r]].max),
      m.index)
  }

  /** No two rooms of the map are the same object. */
  predicate Unshared(m: Memory) {
    forall q, r :: q in m.rooms && r in m.rooms && q != r ==> m.rooms[q] != m.rooms[r]
  }

  // ---------------------------------------------------------------------------
  // Running one thread alone
  // ---------------------------------------------------------------------------

  /** Bounds the steps a body and its continuations take. */
  function Stage(a: Action, c: Choice): nat {
    match a
    case Create(_, _) => 2
    case EmptyLookup(_) => 8
    case EmptyTest(_, _) => 6
    case Unlink(_) => 2
    case ReadLookup(_) => 5
    case ReadRoom(_) => 3
    case UpdateLookup(_, _) => 5
    case UpdateInfo(_, _) => 3
    case WriteLookup(_, _) => 5
    case WriteInfo(_, _) => 2
    case SweepStart => 4 * |c.order| + 3
    case SweepNext(todo) => 4 * |todo| + 2
    case SweepRead(_, todo) => 4 * |todo| + 4
    case ReadRooms => 2
    case ReadIndex => 2
    case JoinLookup(_, _) => 10
    case JoinCheck(_, _, _) => 7
    case JoinClosure(_, _, _) => 6
    case JoinPush(_, _, _) => 5
    case AddEnsure(_, _) => 28
    case AddLookup(_, _) => 25
    case AddReadIndex(_, _, _) => 21
    case MoveLookupOld(_, _, _) => 17
    case MoveRetain(_, _, _, _) => 14
    case MoveUnlink(_, _, _) => 11
    case MoveLookupNew(_, _) => 8
    case AddPush(_, _, _) => 5
    case IndexInsert(_, _) => 2
    case IndexRemove(_, _) => 11
    case LeaveLookup(_, _, _) => 8
    case LeaveRetain(_, _, _, _) => 5
  }

  function Weight(code: Code, c: Choice): nat {
    match code
    case Idle => 0
    case Acquire(_, _, next) => 1 + Weight(next, c)
    case Release(_, next) => 1 + Weight(next, c)
    case Do(a) => Stage(a, c)
  }

  /** The environment's choice is one the next body can be given. */
  predicate Fits(m: Memory, code: Code, c: Choice) {
    match code
    case Idle => true
    case Acquire(_, _, next) => Fits(m, next, c)
    case Release(_, next) => Fits(m, next, c)
    case Do(a) => ValidChoice(m, a, c)
  }

  function Locks(code: Code): nat {
    match code
    case Acquire(_, _, next) => 1 + Locks(next)
    case Release(_, next) => 1 + Locks(next)
    case _ => 0
  }

  lemma {:induction false} WeightSplits(m: Memory, code: Code, c: Choice)
    ensures Target(code).Idle? || Target(code).Do?
    ensures Weight(code, c) == Locks(code) + Weight(Target(code), c)
    ensures Fits(m, code, c) <==> Fits(m, Target(code), c)
    decreases code
  {
    if code.Acquire? || code.Release? {
      WeightSplits(m, code.next, c);
    }
  }

  /** Lock operations and a body that together weigh less than `n`. */
  predicate Lighter(code: Code, c: Choice, n: nat) {
    && !(Target(code).Do? && Target(code).act.SweepStart?)
    && Locks(code) + (if Target(code).Do? then Stage(Target(code).act, c) else 0) < n
  }

  lemma LocksAre(code: Code)
    ensures !Locked(code) ==> Locks(code) == 0
    ensures Locked(code) && !Locked(code.next) ==> Locks(code) == 1
    ensures Locked(code) && Locked(code.next) && !Locked(code.next.next) ==> Locks(code) == 2
    ensures Locked(code) && Locked(code.next) && Locked(code.next.next) && !Locked(code.next.next.next) ==>
      Locks(code) == 3
  {
    if Locked(code) && Locked(code.next) {
      assert Locks(code) == 1 + Locks(code.next) == 2 + Locks(code.next.next);
    }
  }

  /** The bodies of `add_peer` that lead to another body through locks. */
  predicate Adding(a: Action) {
    a.AddEnsure? || a.AddLookup? || a.AddReadIndex? || a.MoveLookupOld? || a.MoveRetain? || a.MoveUnlink?
    || a.MoveLookupNew?
  }

  lemma AddingTarget(m: Memory, a: Action, c: Choice)
    requires MapRefs(m) && ActionRefs(a, |m.heap|) && ValidChoice(m, a, c) && Adding(a)
    ensures Lighter(Exec(m, a, c).1, c, Stage(a, c))
  {
    TargetIs(Exec(m, a, c).1);
    LocksAre(Exec(m, a, c).1);
  }

  lemma ExecTarget(m: Memory, a: Action, c: Choice)
    requires MapRefs(m) && ActionRefs(a, |m.heap|) && ValidChoice(m, a, c)
    ensures Lighter(Exec(m, a, c).1, c, Stage(a, c))
  {
    if Adding(a) {
      AddingTarget(m, a, c);
    } else {
      TargetIs(Exec(m, a, c).1);
      LocksAre(Exec(m, a, c).1);
    }
  }

  lemma ExecShrinks(m: Memory, a: Action, c: Choice)
    requires MapRefs(m) && ActionRefs(a, |m.heap|) && ValidChoice(m, a, c)
    ensures Weight(Exec(m, a, c).1, c) < Stage(a, c)
    ensures Fits(Exec(m, a, c).0, Exec(m, a, c).1, c)
  {
    ExecTarget(m, a, c);
    WeightSplits(Exec(m, a, c).0, Exec(m, a, c).1, c);
  }

  /** The memory once the rest of a method has run without interruption. */
  function Drive(m: Memory, code: Code, c: Choice): Memory
    requires MapRefs(m) && CodeRefs(code, |m.heap|) && Fits(m, code, c)
    decreases Weight(code, c)
  {
    match code
    case Idle => m
    case Acquire(_, _, next) => Drive(m, next, c)
    case Release(_, next) => Drive(m, next, c)
    case Do(a) =>
      var (m', next) := Exec(m, a, c);
      assert MapRefs(m') && CodeRefs(next, |m'.heap|) by { ExecRefs(m, a, c); }
      assert Weight(next, c) < Stage(a, c) && Fits(m', next, c) by { ExecShrinks(m, a, c); }
      Drive(m', next, c)
  }

  lemma {:induction false} DriveRefs(m: Memory, code: Code, c: Choice)
    requires MapRefs(m) && CodeRefs(code, |m.heap|) && Fits(m, code, c)
    ensures MapRefs(Drive(m, code, c))
    decreases Weight(code, c)
  {
    match code
    case Idle =>
    case Acquire(_, _, next) => DriveRefs(m, next, c);
    case Release(_, next) => DriveRefs(m, next, c);
    case Do(a) =>
      ExecRefs(m, a, c);
      ExecShrinks(m, a, c);
      DriveRefs(Exec(m, a, c).0, Exec(m, a, c).1, c);
  }

  predicate OthersFree(s: State, t: nat) {
    forall u :: 0 <= u < |s.threads| && u != t ==> s.threads[u].held == map[]
  }

  /** While no other thread holds a lock, thread `t` alone can finish its method. */
  lemma {:induction false} AloneFinishes(s: State, t: nat, c: Choice) returns (es: seq<Event>)
    requires t < |s.threads| && OthersFree(s, t)
    requires Disciplined(s.threads[t].held, s.threads[t].code)
    requires MapRefs(s.mem) && CodeRefs(s.threads[t].code, |s.mem.heap|) && Fits(s.mem, s.threads[t].code, c)
    ensures Legal(s, es)
    ensures Final(s, es) ==
      State(Drive(s.mem, s.threads[t].code, c), s.threads[t := Thread(map[], Idle)])
    decreases Weight(s.threads[t].code, c)
  {
    var th := s.threads[t];
    if th.code.Idle? {
      es := [];
      assert s.threads == s.threads[t := Thread(map[], Idle)];
    } else {
      var e := Move(t, c);
      if th.code.Do? {
        ExecRefs(s.mem, th.code.act, c);
        ExecShrinks(s.mem, th.code.act, c);
        ExecDisciplined(s.mem, th.code.act, c);
      }
      assert Enabled(s, e);
      var s' := Apply(s, e);
      var rest := AloneFinishes(s', t, c);
      es := [e] + rest;
      assert es[1..] == rest;
      assert s'.threads[t := Thread(map[], Idle)] == s.threads[t := Thread(map[], Idle)];
    }
  }

  // ---------------------------------------------------------------------------
  // Each method alone is its atomic call
  // ---------------------------------------------------------------------------

  /** Run without interruption, the rest of a method leaves these indexes. */
  ghost predicate Does(m: Memory, code: Code, c: Choice, after: Registry.Indexes)
    requires MapRefs(m) && CodeRefs(code, |m.heap|) && Fits(m, code, c)
  {
    var m' := Drive(m, code, c);
    MapRefs(m') && Unshared(m') && View(m') == after
  }

  lemma {:induction false} Skip(m: Memory, code: Code, c: Choice)
    requires MapRefs(m) && CodeRefs(code, |m.heap|) && Fits(m, code, c)
    ensures CodeRefs(Target(code), |m.heap|) && Fits(m, Target(code), c)
    ensures Drive(m, code, c) == Drive(m, Target(code), c)
    decreases code
  {
    if code.Acquire? || code.Release? {
      Skip(m, code.next, c);
    }
  }

  /** A body, then the next body after its lock operations. */
  lemma Then(m: Memory, a: Action, c: Choice, m': Memory, next: Code)
    requires MapRefs(m) && ActionRefs(a, |m.heap|) && ValidChoice(m, a, c)
    requires Exec(m, a, c).0 == m' && Target(Exec(m, a, c).1) == next
    ensures MapRefs(m') && CodeRefs(next, |m'.heap|) && Fits(m', next, c)
    ensures Drive(m, Do(a), c) == Drive(m', next, c)
  {
    ExecRefs(m, a, c);
    ExecShrinks(m, a, c);
    Skip(Exec(m, a, c).0, Exec(m, a, c).1, c);
  }

  lemma IndexInsertAlone(m: Memory, p: PeerId, r: RoomId, c: Choice)
    requires MapRefs(m) && Unshared(m)
    ensures Does(m, Do(IndexInsert(p, r)), c, View(m).(index := m.index[p := r]))
  {
    Then(m, IndexInsert(p, r), c, m.(index := m.index[p := r]), Idle);
  }

  lemma UnlinkView(m: Memory, r: RoomId)
    requires MapRefs(m) && Unshared(m)
    ensures var m' := m.(rooms := m.rooms - {r});
      && MapRefs(m') && Unshared(m') && View(m') == View(m).(rooms := View(m).rooms - {r})
  {
    assert View(m).rooms - {r} == View(m.(rooms := m.rooms - {r})).rooms;
  }

  /** Overwriting one linked room object changes that room of the view only. */
  lemma PutView(m: Memory, r: RoomId, room: RoomObject)
    requires MapRefs(m) && Unshared(m) && r in m.rooms
    ensures var m' := Put(m, m.rooms[r], room);
      && MapRefs(m') && Unshared(m')
      && View(m') == View(m).(rooms := View(m).rooms[r := Registry.Room(room.peers, room.max)])
  {
    var m' := Put(m, m.rooms[r], room);
    assert View(m').rooms == View(m).rooms[r := Registry.Room(room.peers, room.max)];
  }

  lemma CreateView(m: Memory, r: RoomId, cap: nat)
    requires MapRefs(m) && Unshared(m) && r !in m.rooms
    ensures var m' := m.(rooms := m.rooms[r := |m.heap|], heap := m.heap + [EmptyRoom(cap)]);
      && MapRefs(m') && Unshared(m') && View(m') == Registry.Created(View(m), r, cap)
  {
    var longer := m.(heap := m.heap + [EmptyRoom(cap)]);
    assert View(longer).rooms == View(m).rooms;
    LinkUnshared(longer, r, |m.heap|);
    LinkView(longer, r, |m.heap|);
  }

  lemma LinkUnshared(m: Memory, r: RoomId, o: RoomRef)
    requires MapRefs(m) && Unshared(m) && o < |m.heap| && forall x <- m.rooms :: m.rooms[x] != o
    ensures var m' := m.(rooms := m.rooms[r := o]); MapRefs(m') && Unshared(m')
  {
  }

  /** Linking an object under a new name adds that room to the view. */
  lemma LinkView(m: Memory, r: RoomId, o: RoomRef)
    requires MapRefs(m) && r !in m.rooms && o < |m.heap| && MapRefs(m.(rooms := m.rooms[r := o]))
    ensures View(m.(rooms := m.rooms[r := o])).rooms ==
      View(m).rooms[r := Registry.Room(m.heap[o].peers, m.heap[o].max)]
  {
  }

  lemma CreateAlone(m: Memory, r: RoomId, cap: nat, c: Choice)
    requires MapRefs(m) && Unshared(m)
    ensures Does(m, Do(Create(r, cap)), c, Registry.Created(View(m), r, cap))
    ensures r !in m.rooms ==>
      Does(m, Do(Create(r, cap)), c, Registry.Indexes(View(m).rooms[r := Registry.Room([], cap)], m.index))
    ensures r in m.rooms ==> Does(m, Do(Create(r, cap)), c, View(m))
  {
    Then(m, Create(r, cap), c, Exec(m, Create(r, cap), c).0, Idle);
    if r !in m.rooms {
      CreateView(m, r, cap);
    }
  }

  lemma RemoveEmptyAlone(m: Memory, r: RoomId, c: Choice)
    requires MapRefs(m) && Unshared(m)
    ensures Does(m, Do(EmptyLookup(r)), c, Registry.EmptyRemoved(View(m), r))
  {
    if r !in m.rooms {
      Then(m, EmptyLookup(r), c, m, Idle);
    } else {
      var o := m.rooms[r];
      Then(m, EmptyLookup(r), c, m, Do(EmptyTest(r, o)));
      if m.heap[o].peers == [] {
        var last := Unlink(r);
        assert Target(Exec(m, EmptyTest(r, o), c).1.next.next) == Do(last);
        Then(m, EmptyTest(r, o), c, m, Do(last));
        Then(m, last, c, m.(rooms := m.rooms - {r}), Idle);
        UnlinkView(m, r);
      } else {
        assert Target(Exec(m, EmptyTest(r, o), c).1.next.next) == Idle;
        Then(m, EmptyTest(r, o), c, m, Idle);
      }
    }
  }

  function Answer(c: Choice, reason: Registry.Reason): Registry.Verdict {
    if c.admitted then Registry.Accept else Registry.Refuse(reason)
  }

  lemma IndexTailTarget(p: PeerId, r: RoomId, o: RoomRef)
    ensures Target(IndexTail(p, r, o)) == Do(IndexInsert(p, r))
  {
    assert Target(IndexTail(p, r, o).next) == Do(IndexInsert(p, r));
  }

  lemma SeatView(m: Memory, p: PeerId, r: RoomId, room: RoomObject)
    requires MapRefs(m) && Unshared(m) && r in m.rooms
    requires p !in m.heap[m.rooms[r]].peers && room.peers == m.heap[m.rooms[r]].peers + [p]
    requires room.max == m.heap[m.rooms[r]].max
    ensures var m' := Put(m, m.rooms[r], room);
      && MapRefs(m') && Unshared(m') && m'.index == m.index
      && View(m').rooms == Registry.Seated(View(m).rooms, p, r)
  {
    PutView(m, r, room);
  }

  lemma JoinPushAlone(m: Memory, p: PeerId, r: RoomId, c: Choice)
    requires MapRefs(m) && Unshared(m) && r in m.rooms && p !in m.heap[m.rooms[r]].peers
    ensures Does(m, Do(JoinPush(p, r, m.rooms[r])), c,
      Registry.Indexes(Registry.Seated(View(m).rooms, p, r), m.index[p := r]))
  {
    var o := m.rooms[r];
    var room := m.heap[o].(peers := m.heap[o].peers + [p], joins := m.heap[o].joins + 1);
    IndexTailTarget(p, r, o);
    Then(m, JoinPush(p, r, o), c, Put(m, o, room), Do(IndexInsert(p, r)));
    SeatView(m, p, r, room);
    IndexInsertAlone(Put(m, o, room), p, r, c);
  }

  lemma JoinInsertAlone(m: Memory, p: PeerId, r: RoomId, c: Choice)
    requires MapRefs(m) && Unshared(m) && r in m.rooms && p !in m.heap[m.rooms[r]].peers && c.admitted
    ensures Does(m, Do(JoinClosure(p, r, m.rooms[r])), c,
      Registry.Indexes(Registry.Seated(View(m).rooms, p, r), m.index[p := r]))
  {
    var o := m.rooms[r];
    var room := m.heap[o].(admits := m.heap[o].admits + 1);
    Then(m, JoinClosure(p, r, o), c, Put(m, o, room), Do(JoinPush(p, r, o)));
    PutView(m, r, room);
    assert View(Put(m, o, room)).rooms == View(m).rooms;
    JoinPushAlone(Put(m, o, room), p, r, c);
  }

  lemma JoinAlone(m: Memory, p: PeerId, r: RoomId, c: Choice, reason: Registry.Reason)
    requires MapRefs(m) && Unshared(m)
    ensures Does(m, Do(JoinLookup(p, r)), c, Registry.JoinedTo(View(m), p, r, Answer(c, reason)))
  {
    if r !in m.rooms {
      Then(m, JoinLookup(p, r), c, m, Idle);
    } else {
      var o := m.rooms[r];
      assert Target(Exec(m, JoinLookup(p, r), c).1.next) == Do(JoinCheck(p, r, o));
      Then(m, JoinLookup(p, r), c, m, Do(JoinCheck(p, r, o)));
      JoinCheckAlone(m, p, r, c, reason);
    }
  }

  lemma JoinCheckAlone(m: Memory, p: PeerId, r: RoomId, c: Choice, reason: Registry.Reason)
    requires MapRefs(m) && Unshared(m) && r in m.rooms
    ensures Does(m, Do(JoinCheck(p, r, m.rooms[r])), c, Registry.JoinedTo(View(m), p, r, Answer(c, reason)))
  {
    var o := m.rooms[r];
    if p in m.heap[o].peers {
      IndexTailTarget(p, r, o);
      Then(m, JoinCheck(p, r, o), c, m, Do(IndexInsert(p, r)));
      IndexInsertAlone(m, p, r, c);
    } else if |m.heap[o].peers| >= m.heap[o].max {
      Then(m, JoinCheck(p, r, o), c, m, Idle);
    } else {
      Then(m, JoinCheck(p, r, o), c, m, Do(JoinClosure(p, r, o)));
      if c.admitted {
        JoinInsertAlone(m, p, r, c);
      } else {
        Then(m, JoinClosure(p, r, o), c, m, Idle);
      }
    }
  }

  /** Taking a peer out of a linked room, and the room out of the map when asked to. */
  lemma EvictView(m: Memory, p: PeerId, r: RoomId, u: bool)
    requires MapRefs(m) && Unshared(m) && r in m.rooms
    ensures var room := Evict(m.heap[m.rooms[r]], p);
      var m1 := Put(m, m.rooms[r], room);
      var m2 := if u && room.peers == [] then m1.(rooms := m1.rooms - {r}) else m1;
      && MapRefs(m2) && Unshared(m2) && m2.index == m.index
      && View(m2).rooms == Registry.Evicted(View(m).rooms, p, r, u)
  {
    var room := Evict(m.heap[m.rooms[r]], p);
    var m1 := Put(m, m.rooms[r], room);
    PutView(m, r, room);
    UnlinkView(m1, r);
    assert View(m).rooms[r].(peers := room.peers) == Registry.Room(room.peers, room.max);
    assert View(m).rooms[r := Registry.Room(room.peers, room.max)] - {r} == View(m).rooms - {r};
  }

  lemma LeaveRetainNext(m: Memory, p: PeerId, r: RoomId, u: bool, c: Choice)
    requires MapRefs(m) && r in m.rooms
    ensures var o := m.rooms[r];
      var room := Evict(m.heap[o], p);
      && Exec(m, LeaveRetain(p, r, o, u), c).0 == Put(m, o, room)
      && Target(Exec(m, LeaveRetain(p, r, o, u), c).1) ==
           if u && room.peers == [] then Do(Unlink(r)) else Idle
  {
    var next := Exec(m, LeaveRetain(p, r, m.rooms[r], u), c).1.next;
    assert next.Acquire? ==> Target(next) == next.next;
  }

  lemma LeaveRetainAlone(m: Memory, p: PeerId, r: RoomId, u: bool, c: Choice)
    requires MapRefs(m) && Unshared(m) && r in m.rooms
    ensures Does(m, Do(LeaveRetain(p, r, m.rooms[r], u)), c,
      Registry.Indexes(Registry.Evicted(View(m).rooms, p, r, u), m.index))
  {
    var o := m.rooms[r];
    var room := Evict(m.heap[o], p);
    var m1 := Put(m, o, room);
    LeaveRetainNext(m, p, r, u, c);
    EvictView(m, p, r, u);
    if u && room.peers == [] {
      var last := Unlink(r);
      Then(m, LeaveRetain(p, r, o, u), c, m1, Do(last));
      Then(m1, last, c, m1.(rooms := m1.rooms - {r}), Idle);
    } else {
      Then(m, LeaveRetain(p, r, o, u), c, m1, Idle);
    }
  }

  lemma LeaveLookupAlone(m: Memory, p: PeerId, r: RoomId, u: bool, c: Choice)
    requires MapRefs(m) && Unshared(m)
    ensures Does(m, Do(LeaveLookup(p, r, u)), c,
      if r in m.rooms then Registry.Indexes(Registry.Evicted(View(m).rooms, p, r, u), m.index) else View(m))
  {
    if r !in m.rooms {
      Then(m, LeaveLookup(p, r, u), c, m, Idle);
    } else {
      assert Target(Exec(m, LeaveLookup(p, r, u), c).1.next) == Do(LeaveRetain(p, r, m.rooms[r], u));
      Then(m, LeaveLookup(p, r, u), c, m, Do(LeaveRetain(p, r, m.rooms[r], u)));
      LeaveRetainAlone(m, p, r, u, c);
    }
  }

  lemma LeaveAlone(m: Memory, p: PeerId, u: bool, c: Choice)
    requires MapRefs(m) && Unshared(m)
    ensures Does(m, Do(IndexRemove(p, u)), c, Registry.Removed(View(m), p, u))
  {
    var m1 := m.(index := m.index - {p});
    if p !in m.index {
      assert m1 == m;
      Then(m, IndexRemove(p, u), c, m, Idle);
    } else {
      var r := m.index[p];
      assert Target(Exec(m, IndexRemove(p, u), c).1.next) == Do(LeaveLookup(p, r, u));
      Then(m, IndexRemove(p, u), c, m1, Do(LeaveLookup(p, r, u)));
      assert View(m1).rooms == View(m).rooms;
      LeaveLookupAlone(m1, p, r, u, c);
    }
  }

  lemma AddPushAlone(m: Memory, p: PeerId, r: RoomId, c: Choice)
    requires MapRefs(m) && Unshared(m) && r in m.rooms
    ensures Does(m, Do(AddPush(p, r, m.rooms[r])), c,
      Registry.Indexes(Registry.Seated(View(m).rooms, p, r), m.index[p := r]))
  {
    var o := m.rooms[r];
    IndexTailTarget(p, r, o);
    if p in m.heap[o].peers {
      Then(m, AddPush(p, r, o), c, m, Do(IndexInsert(p, r)));
      IndexInsertAlone(m, p, r, c);
    } else {
      var room := m.heap[o].(peers := m.heap[o].peers + [p], unchecked := m.heap[o].unchecked + 1);
      Then(m, AddPush(p, r, o), c, Put(m, o, room), Do(IndexInsert(p, r)));
      SeatView(m, p, r, room);
      IndexInsertAlone(Put(m, o, room), p, r, c);
    }
  }

  lemma MoveTailAlone(m: Memory, p: PeerId, r: RoomId, c: Choice)
    requires MapRefs(m) && Unshared(m) && r in m.rooms
    ensures Does(m, Do(MoveLookupNew(p, r)), c,
      Registry.Indexes(Registry.Seated(View(m).rooms, p, r), m.index[p := r]))
  {
    var o := m.rooms[r];
    assert Target(Exec(m, MoveLookupNew(p, r), c).1.next) == Do(AddPush(p, r, o));
    Then(m, MoveLookupNew(p, r), c, m, Do(AddPush(p, r, o)));
    AddPushAlone(m, p, r, c);
  }

  lemma MoveUnlinkAlone(m: Memory, p: PeerId, r: RoomId, prev: RoomId, c: Choice)
    requires MapRefs(m) && Unshared(m) && r in m.rooms && prev != r
    ensures Does(m, Do(MoveUnlink(p, r, prev)), c,
      Registry.Indexes(Registry.Seated(View(m).rooms - {prev}, p, r), m.index[p := r]))
  {
    var m' := m.(rooms := m.rooms - {prev});
    UnlinkView(m, prev);
    assert Target(MoveTail(p, r)) == Do(MoveLookupNew(p, r));
    Then(m, MoveUnlink(p, r, prev), c, m', Do(MoveLookupNew(p, r)));
    MoveTailAlone(m', p, r, c);
  }

  lemma MoveRetainNext(m: Memory, p: PeerId, r: RoomId, prev: RoomId, c: Choice)
    requires MapRefs(m) && prev in m.rooms
    ensures var a := MoveRetain(p, r, prev, m.rooms[prev]);
      var room := Evict(m.heap[m.rooms[prev]], p);
      && Exec(m, a, c).0 == Put(m, m.rooms[prev], room)
      && Target(Exec(m, a, c).1) ==
           if room.peers == [] then Do(MoveUnlink(p, r, prev)) else Do(MoveLookupNew(p, r))
  {
    var next := Exec(m, MoveRetain(p, r, prev, m.rooms[prev]), c).1.next;
    assert Target(next) == Target(next.next);
  }

  lemma MoveRetainAlone(m: Memory, p: PeerId, r: RoomId, prev: RoomId, c: Choice)
    requires MapRefs(m) && Unshared(m) && r in m.rooms && prev in m.rooms && prev != r
    ensures Does(m, Do(MoveRetain(p, r, prev, m.rooms[prev])), c,
      Registry.Indexes(Registry.Seated(Registry.Evicted(View(m).rooms, p, prev, true), p, r), m.index[p := r]))
  {
    var o := m.rooms[prev];
    var room := Evict(m.heap[o], p);
    var m1 := Put(m, o, room);
    PutView(m, prev, room);
    MoveRetainNext(m, p, r, prev, c);
    var kept := View(m).rooms[prev := Registry.Room(room.peers, room.max)];
    if room.peers == [] {
      Then(m, MoveRetain(p, r, prev, o), c, m1, Do(MoveUnlink(p, r, prev)));
      MoveUnlinkAlone(m1, p, r, prev, c);
      assert kept - {prev} == View(m).rooms - {prev};
    } else {
      Then(m, MoveRetain(p, r, prev, o), c, m1, Do(MoveLookupNew(p, r)));
      MoveTailAlone(m1, p, r, c);
    }
  }

  lemma MoveAlone(m: Memory, p: PeerId, r: RoomId, prev: RoomId, c: Choice)
    requires MapRefs(m) && Unshared(m) && r in m.rooms && prev != r
    ensures Does(m, Do(MoveLookupOld(p, r, prev)), c,
      Registry.Indexes(Registry.Seated(Registry.Evicted(View(m).rooms, p, prev, true), p, r), m.index[p := r]))
  {
    var a := MoveLookupOld(p, r, prev);
    if prev in m.rooms {
      assert Target(Exec(m, a, c).1.next) == Do(MoveRetain(p, r, prev, m.rooms[prev]));
      Then(m, a, c, m, Do(MoveRetain(p, r, prev, m.rooms[prev])));
      MoveRetainAlone(m, p, r, prev, c);
    } else {
      assert Target(Exec(m, a, c).1.next) == Do(MoveLookupNew(p, r));
      Then(m, a, c, m, Do(MoveLookupNew(p, r)));
      MoveTailAlone(m, p, r, c);
    }
  }

  ghost function Moved(m: Memory, p: PeerId, r: RoomId): Registry.Indexes
    requires MapRefs(m) && r in m.rooms
  {
    var cleared := if p in m.index && m.index[p] != r
      then Registry.Evicted(View(m).rooms, p, m.index[p], true) else View(m).rooms;
    Registry.Indexes(Registry.Seated(cleared, p, r), m.index[p := r])
  }

  lemma AddReadAlone(m: Memory, p: PeerId, r: RoomId, c: Choice)
    requires MapRefs(m) && Unshared(m) && r in m.rooms
    ensures Does(m, Do(AddReadIndex(p, r, m.rooms[r])), c, Moved(m, p, r))
  {
    var a := AddReadIndex(p, r, m.rooms[r]);
    if p in m.index && m.index[p] != r {
      var next := Do(MoveLookupOld(p, r, m.index[p]));
      assert Target(Exec(m, a, c).1.next.next) == next;
      Then(m, a, c, m, next);
      MoveAlone(m, p, r, m.index[p], c);
    } else {
      Then(m, a, c, m, Do(AddPush(p, r, m.rooms[r])));
      AddPushAlone(m, p, r, c);
    }
  }

  lemma AddLookupAlone(m: Memory, p: PeerId, r: RoomId, c: Choice)
    requires MapRefs(m) && Unshared(m) && r in m.rooms
    ensures Does(m, Do(AddLookup(p, r)), c, Moved(m, p, r))
  {
    var next := Do(AddReadIndex(p, r, m.rooms[r]));
    assert Target(Exec(m, AddLookup(p, r), c).1.next.next) == next;
    Then(m, AddLookup(p, r), c, m, next);
    AddReadAlone(m, p, r, c);
  }

  lemma AddAlone(m: Memory, p: PeerId, r: RoomId, c: Choice)
    requires MapRefs(m) && Unshared(m)
    ensures Does(m, Do(AddEnsure(p, r)), c, Registry.Added(View(m), p, r))
  {
    var m1 := Exec(m, AddEnsure(p, r), c).0;
    assert Target(Exec(m, AddEnsure(p, r), c).1.next) == Do(AddLookup(p, r));
    Then(m, AddEnsure(p, r), c, m1, Do(AddLookup(p, r)));
    if r !in m.rooms {
      CreateView(m, r, P2P_MAX);
    }
    AddLookupAlone(m1, p, r, c);
  }

  /** What each method does to the indexes when nothing interrupts it. */
  ghost function Atomic(s: Registry.Indexes, op: Op, c: Choice, reason: Registry.Reason): Registry.Indexes
  {
    match op
    case CreateRoom(r, cap) => Registry.Created(s, r, cap)
    case RemoveEmptyRoom(r) => Registry.EmptyRemoved(s, r)
    case TryAddPeerWith(p, r) => Registry.JoinedTo(s, p, r, Answer(c, reason))
    case AddPeer(p, r) => Registry.Added(s, p, r)
    case RemovePeer(p, u) => Registry.Removed(s, p, u)
    case UpdateRoomInfo(r, k) => Raised(s, r, k)
    case WithRoomWrite(r, k) => Raised(s, r, k)
    case _ => s
  }

  /** A metadata closure as the registry sees it: it may raise the maximum. */
  ghost function Raised(s: Registry.Indexes, r: RoomId, k: nat): Registry.Indexes {
    if r in s.rooms then s.(rooms := s.rooms[r := s.rooms[r].(max := s.rooms[r].max + k)]) else s
  }

  lemma UpdateAlone(m: Memory, r: RoomId, k: nat, c: Choice)
    requires MapRefs(m) && Unshared(m)
    ensures Does(m, Do(UpdateLookup(r, k)), c, Raised(View(m), r, k))
  {
    if r in m.rooms {
      var o := m.rooms[r];
      var room := m.heap[o].(max := m.heap[o].max + k);
      Then(m, UpdateLookup(r, k), c, m, Do(UpdateInfo(o, k)));
      assert Target(Exec(m, UpdateInfo(o, k), c).1.next) == Idle;
      Then(m, UpdateInfo(o, k), c, Put(m, o, room), Idle);
      PutView(m, r, room);
    } else {
      Then(m, UpdateLookup(r, k), c, m, Idle);
    }
  }

  lemma WriteAlone(m: Memory, r: RoomId, k: nat, c: Choice)
    requires MapRefs(m) && Unshared(m)
    ensures Does(m, Do(WriteLookup(r, k)), c, Raised(View(m), r, k))
  {
    if r in m.rooms {
      var o := m.rooms[r];
      var room := m.heap[o].(max := m.heap[o].max + k);
      assert Target(Exec(m, WriteLookup(r, k), c).1.next) == Do(WriteInfo(o, k));
      Then(m, WriteLookup(r, k), c, m, Do(WriteInfo(o, k)));
      Then(m, WriteInfo(o, k), c, Put(m, o, room), Idle);
      PutView(m, r, room);
    } else {
      Then(m, WriteLookup(r, k), c, m, Idle);
    }
  }

  lemma {:induction false} SweepAlone(m: Memory, todo: seq<RoomRef>, c: Choice)
    requires MapRefs(m) && Unshared(m) && ActionRefs(SweepNext(todo), |m.heap|)
    ensures Does(m, Do(SweepNext(todo)), c, View(m))
    decreases |todo|
  {
    if todo == [] {
      Then(m, SweepNext(todo), c, m, Idle);
    } else {
      Then(m, SweepNext(todo), c, m, Do(SweepRead(todo[0], todo[1..])));
      Then(m, SweepRead(todo[0], todo[1..]), c, m, Do(SweepNext(todo[1..])));
      SweepAlone(m, todo[1..], c);
    }
  }

  lemma InspectAlone(m: Memory, r: RoomId, c: Choice)
    requires MapRefs(m) && Unshared(m)
    ensures Does(m, Do(ReadLookup(r)), c, View(m))
  {
    if r in m.rooms {
      Then(m, ReadLookup(r), c, m, Do(ReadRoom(m.rooms[r])));
      assert Target(Exec(m, ReadRoom(m.rooms[r]), c).1.next) == Idle;
      Then(m, ReadRoom(m.rooms[r]), c, m, Idle);
    } else {
      Then(m, ReadLookup(r), c, m, Idle);
    }
  }

  lemma MethodAlone(m: Memory, op: Op, c: Choice, reason: Registry.Reason)
    requires MapRefs(m) && Unshared(m)
    requires op.SweepRooms? ==> ValidChoice(m, SweepStart, c)
    ensures CodeRefs(Program(op), |m.heap|) && Fits(m, Program(op), c)
    ensures Does(m, Program(op), c, Atomic(View(m), op, c, reason))
  {
    FirstBody(m, op, c);
    match op
    case CreateRoom(r, cap) => CreateAlone(m, r, cap, c);
    case RemoveEmptyRoom(r) => RemoveEmptyAlone(m, r, c);
    case InspectRoom(r) => InspectAlone(m, r, c);
    case CountRooms => Then(m, ReadRooms, c, m, Idle);
    case TryAddPeerWith(p, r) => JoinAlone(m, p, r, c, reason);
    case AddPeer(p, r) => AddAlone(m, p, r, c);
    case RemovePeer(p, u) => LeaveAlone(m, p, u, c);
    case RoomForPeer(_) => Then(m, ReadIndex, c, m, Idle);
    case UpdateRoomInfo(r, k) => UpdateAlone(m, r, k, c);
    case WithRoomWrite(r, k) => WriteAlone(m, r, k, c);
    case SweepRooms => SweepAllAlone(m, c);
  }

  lemma SweepAllAlone(m: Memory, c: Choice)
    requires MapRefs(m) && Unshared(m) && ValidChoice(m, SweepStart, c)
    ensures Does(m, Do(SweepStart), c, View(m))
  {
    Then(m, SweepStart, c, m, Do(SweepNext(c.order)));
    SweepAlone(m, c.order, c);
  }

  /** Every method starts with one lock and one body. */
  lemma FirstBody(m: Memory, op: Op, c: Choice)
    requires MapRefs(m) && (op.SweepRooms? ==> ValidChoice(m, SweepStart, c))
    ensures Program(op).Acquire? && Program(op).next.Do?
    ensures var code := Program(op);
      && CodeRefs(code, |m.heap|) && Fits(m, code, c)
      && CodeRefs(code.next, |m.heap|) && Fits(m, code.next, c)
      && Drive(m, code, c) == Drive(m, code.next, c)
  {
  }

  lemma StartedFinishes(s: State, t: nat, op: Op, c: Choice) returns (es: seq<Event>)
    requires t < |s.threads| && s.threads[t] == Thread(map[], Idle) && OthersFree(s, t)
    requires MapRefs(s.mem) && CodeRefs(Program(op), |s.mem.heap|) && Fits(s.mem, Program(op), c)
    ensures Legal(s, es)
    ensures Final(s, es) == State(Drive(s.mem, Program(op), c), s.threads)
  {
    StartDisciplined(op);
    var s' := State(s.mem, s.threads[t := Thread(map[], Program(op))]);
    assert Apply(s, Start(t, op)) == s';
    var rest := AloneFinishes(s', t, c);
    es := [Start(t, op)] + rest;
    assert es[1..] == rest;
    assert s'.threads[t := Thread(map[], Idle)] == s.threads;
  }

  lemma StartDisciplined(op: Op)
    ensures Disciplined(map[], Program(op))
  {
    AcquireFirst(Program(op).lock, Program(op).mode, Program(op).next.act);
  }

  /** In every state in which no thread holds a lock and thread `t` is idle, thread
      `t` can run a method from start to end, and doing so without interruption takes
      the indexes to exactly what the atomic call says, leaving every other thread
      as it was. */
  lemma UninterruptedIsAtomic(s: State, t: nat, op: Op, c: Choice, reason: Registry.Reason) returns (es: seq<Event>)
    requires t < |s.threads| && s.threads[t] == Thread(map[], Idle) && OthersFree(s, t)
    requires MapRefs(s.mem) && Unshared(s.mem)
    requires op.SweepRooms? ==> ValidChoice(s.mem, SweepStart, c)
    ensures Legal(s, es)
    ensures Final(s, es).threads == s.threads
    ensures MapRefs(Final(s, es).mem) && Unshared(Final(s, es).mem)
    ensures View(Final(s, es).mem) == Atomic(View(s.mem), op, c, reason)
  {
    MethodAlone(s.mem, op, c, reason);
    es := StartedFinishes(s, t, op, c);
  }

  // ---------------------------------------------------------------------------
  // Every reachable map is unshared
  // ---------------------------------------------------------------------------

  lemma StepUnshared(s: State, e: Event)
    requires Invariant(s) && Unshared(s.mem) && Enabled(s, e)
    ensures Unshared(Apply(s, e).mem)
  {
    if e.Move? && s.threads[e.t].code.Do? {
      ExecRooms(s.mem, s.threads[e.t].code.act, e.choice);
    }
  }

  lemma {:induction false} RunUnshared(s: State, es: seq<Event>)
    requires Invariant(s) && Unshared(s.mem) && Legal(s, es)
    ensures Unshared(Final(s, es).mem)
    decreases es
  {
    if es != [] {
      StepInvariant(s, es[0]);
      StepUnshared(s, es[0]);
      RunUnshared(Apply(s, es[0]), es[1..]);
    }
  }

  lemma ReachableUnshared(s: State, es: seq<Event>)
    requires Initial(s) && Legal(s, es)
    ensures MapRefs(Final(s, es).mem) && Unshared(Final(s, es).mem)
  {
    InitialInvariant(s);
    RunInvariant(s, es);
    RunUnshared(s, es);
  }
}
