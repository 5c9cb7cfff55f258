/**
  Whole runs of the registry's step system: lock discipline, mutual exclusion,
  capacity accounting and freedom from deadlock, for any number of threads and any
  interleaving.
 */
module RegistryRuns {
  import opened RegistrySteps

  datatype Thread = Thread(held: Guards, code: Code)
  datatype State = State(mem: Memory, threads: seq<Thread>)
  datatype Event = Start(t: nat, op: Op) | Move(t: nat, choice: Choice)

  predicate Initial(s: State) {
    && s.mem == Memory(map[], [], map[])
    && forall t :: 0 <= t < |s.threads| ==> s.threads[t] == Thread(map[], Idle)
  }

  /** A lock request conflicts with no living guard, the requester's own included. */
  predicate Grantable(s: State, l: Lock, m: Mode) {
    forall u :: 0 <= u < |s.threads| && l in s.threads[u].held ==> !Conflict(m, s.threads[u].held[l])
  }

  predicate Enabled(s: State, e: Event) {
    && e.t < |s.threads|
    && var code := s.threads[e.t].code;
       match e
       case Start(_, _) => code.Idle?
       case Move(_, c) =>
         match code
         case Idle => false
         case Acquire(l, m, _) => Grantable(s, l, m)
         case Release(l, _) => l in s.threads[e.t].held
         case Do(a) => MapRefs(s.mem) && ActionRefs(a, |s.mem.heap|) && ValidChoice(s.mem, a, c)
  }

  function Apply(s: State, e: Event): State
    requires Enabled(s, e)
  {
    var th := s.threads[e.t];
    match e
    case Start(t, op) => s.(threads := s.threads[t := th.(code := Program(op))])
    case Move(t, c) =>
      match th.code
      case Acquire(l, m, next) => s.(threads := s.threads[t := Thread(th.held[l := m], next)])
      case Release(l, next) => s.(threads := s.threads[t := Thread(th.held - {l}, next)])
      case Do(a) =>
        var (mem, code) := Exec(s.mem, a, c);
        State(mem, s.threads[t := th.(code := code)])
  }

  predicate Legal(s: State, es: seq<Event>)
    decreases es
  {
    es == [] || (Enabled(s, es[0]) && Legal(Apply(s, es[0]), es[1..]))
  }

  function Final(s: State, es: seq<Event>): State
    requires Legal(s, es)
    decreases es
  {
    if es == [] then s else Final(Apply(s, es[0]), es[1..])
  }

  // ---------------------------------------------------------------------------
  // Lock discipline
  // ---------------------------------------------------------------------------

  /** Code that, run from these guards, takes locks in strictly increasing rank,
      runs every body under exactly the guards it needs and ends holding none. */
  predicate Disciplined(held: Guards, code: Code)
    decreases code
  {
    match code
    case Idle => held == map[]
    case Acquire(l, m, next) =>
      && (forall h <- held :: Rank(h) < Rank(l))
      && Disciplined(held[l := m], next)
    case Release(l, next) => l in held && Disciplined(held - {l}, next)
    case Do(a) => held == Needs(a)
  }

  predicate AllDisciplined(s: State) {
    forall t :: 0 <= t < |s.threads| ==> Disciplined(s.threads[t].held, s.threads[t].code)
  }

  predicate Exclusion(s: State) {
    forall t, u, l ::
      0 <= t < u < |s.threads| && l in s.threads[t].held && l in s.threads[u].held ==>
        !Conflict(s.threads[t].held[l], s.threads[u].held[l])
  }

  predicate RefsValid(s: State) {
    && MapRefs(s.mem)
    && forall t :: 0 <= t < |s.threads| ==> CodeRefs(s.threads[t].code, |s.mem.heap|)
  }

  lemma ReleaseLast(l: Lock, m: Mode, next: Code)
    requires Disciplined(map[], next)
    ensures Disciplined(map[l := m], Release(l, next))
  {
    assert map[l := m] - {l} == map[];
  }

  lemma ReleaseInner(k: Lock, l: Lock, m: Mode, n: Mode, next: Code)
    requires k != l && Disciplined(map[k := m], next)
    ensures Disciplined(map[k := m, l := n], Release(l, next))
  {
    assert map[k := m, l := n] - {l} == map[k := m];
  }

  lemma AcquireFirst(l: Lock, m: Mode, a: Action)
    requires Needs(a) == map[l := m]
    ensures Disciplined(map[], Acquire(l, m, Do(a)))
  {
  }

  lemma AcquireInner(k: Lock, l: Lock, m: Mode, n: Mode, a: Action)
    requires Rank(k) < Rank(l) && Needs(a) == map[k := m, l := n]
    ensures Disciplined(map[k := m], Acquire(l, n, Do(a)))
  {
    assert map[k := m][l := n] == map[k := m, l := n];
  }

  /** After its map section a thread holds nothing and goes on in order. */
  lemma MapSectionTail(m: Memory, a: Action, c: Choice)
    requires MapRefs(m) && ActionRefs(a, |m.heap|) && ValidChoice(m, a, c)
    requires Exec(m, a, c).1.Release? && Exec(m, a, c).1.lock == RoomsLock
    ensures Disciplined(map[], Exec(m, a, c).1.next)
    ensures RoomsLock in Needs(a) && Needs(a) == map[RoomsLock := Needs(a)[RoomsLock]]
  {
    match Exec(m, a, c).1.next
    case Idle =>
    case Acquire(l, n, Do(b)) => AcquireFirst(l, n, b);
    case Acquire(k, n, Acquire(l, n', Do(b))) => AcquireInner(k, l, n, n', b);
  }

  /** After its per-room section a thread holds at most the map and goes on in order. */
  lemma RoomSectionTail(m: Memory, a: Action, c: Choice)
    requires MapRefs(m) && ActionRefs(a, |m.heap|) && ValidChoice(m, a, c)
    requires Exec(m, a, c).1.Release? && Exec(m, a, c).1.lock.RoomLock?
    ensures Disciplined(Needs(a), Exec(m, a, c).1)
  {
    var l, next := Exec(m, a, c).1.lock, Exec(m, a, c).1.next;
    if a.EmptyTest? || a.ReadRoom? || a.UpdateInfo? {
      if next.next.Acquire? {
        AcquireFirst(RoomsLock, Exclusive, next.next.next.act);
      }
      ReleaseLast(RoomsLock, Shared, next.next);
      ReleaseInner(RoomsLock, l, Shared, Needs(a)[l], next);
    } else if a.SweepRead? {
      ReleaseInner(RoomsLock, l, Shared, Shared, next);
    } else {
      if next.Acquire? {
        AcquireFirst(next.lock, next.mode, next.next.act);
      }
      ReleaseLast(l, Exclusive, next);
    }
  }

  lemma IndexSectionTail(m: Memory, a: Action, c: Choice)
    requires MapRefs(m) && ActionRefs(a, |m.heap|) && ValidChoice(m, a, c)
    requires Exec(m, a, c).1.Release? && Exec(m, a, c).1.lock == IndexLock
    ensures Disciplined(Needs(a), Exec(m, a, c).1)
  {
    var next := Exec(m, a, c).1.next;
    if a.AddReadIndex? {
      if next.Release? {
        AcquireFirst(RoomsLock, Shared, next.next.next.act);
        ReleaseLast(RoomLock(a.ref), Exclusive, next.next);
      }
      ReleaseInner(RoomLock(a.ref), IndexLock, Exclusive, Shared, next);
    } else {
      if next.Acquire? {
        AcquireFirst(next.lock, next.mode, next.next.act);
      }
      ReleaseLast(IndexLock, Needs(a)[IndexLock], next);
    }
  }

  /** Whatever a body decides to do next keeps the discipline. */
  lemma ExecDisciplined(m: Memory, a: Action, c: Choice)
    requires MapRefs(m) && ActionRefs(a, |m.heap|) && ValidChoice(m, a, c)
    ensures Disciplined(Needs(a), Exec(m, a, c).1)
  {
    match Exec(m, a, c).1
    case Do(_) =>
    case Acquire(l, n, Do(b)) =>
      AcquireInner(RoomsLock, l, Shared, n, b);
    case Release(RoomsLock, next) =>
      MapSectionTail(m, a, c);
      ReleaseLast(RoomsLock, Needs(a)[RoomsLock], next);
    case Release(RoomLock(_), _) => RoomSectionTail(m, a, c);
    case Release(IndexLock, _) => IndexSectionTail(m, a, c);
  }

  lemma ExecRefs(m: Memory, a: Action, c: Choice)
    requires MapRefs(m) && ActionRefs(a, |m.heap|) && ValidChoice(m, a, c)
    ensures var (m', code) := Exec(m, a, c);
      MapRefs(m') && CodeRefs(code, |m'.heap|) && |m.heap| <= |m'.heap|
  {
    var (m', c0) := Exec(m, a, c);
    if a.SweepStart? {
      forall i | 0 <= i < |c.order| ensures c.order[i] < |m.heap| {
        assert c.order[i] in (set o | o in c.order);
        assert c.order[i] in m.rooms.Values;
      }
    }
    if c0.Acquire? || c0.Release? {
      if c0.next.Acquire? || c0.next.Release? {
        assert CodeRefs(c0.next.next, |m'.heap|);
      }
      assert CodeRefs(c0.next, |m'.heap|);
    }
  }

  /** What a body does to the room map. */
  lemma ExecRooms(m: Memory, a: Action, c: Choice)
    requires MapRefs(m) && ActionRefs(a, |m.heap|) && ValidChoice(m, a, c)
    ensures Exec(m, a, c).0.rooms ==
      if a.Unlink? then m.rooms - {a.room}
      else if a.MoveUnlink? then m.rooms - {a.prev}
      else if (a.Create? || a.AddEnsure?) && a.room !in m.rooms then m.rooms[a.room := |m.heap|]
      else m.rooms
  {
  }

  /** A new room object is linked under its name, empty and with the maximum asked for, or
      with two places when `add_peer` makes it; no other object is touched. */
  lemma CreateLinks(m: Memory, a: Action, c: Choice)
    requires MapRefs(m) && (a.Create? || a.AddEnsure?) && a.room !in m.rooms
    ensures var m' := Exec(m, a, c).0; var o := |m.heap|;
      && m'.rooms == m.rooms[a.room := o] && m'.index == m.index
      && |m'.heap| == o + 1 && m'.heap[..o] == m.heap
      && m'.heap[o].peers == [] && m'.heap[o].max == (if a.Create? then a.cap else 2)
  {
  }

  /** What a body does to the reverse index. */
  lemma ExecIndex(m: Memory, a: Action, c: Choice)
    requires MapRefs(m) && ActionRefs(a, |m.heap|) && ValidChoice(m, a, c)
    ensures Exec(m, a, c).0.index ==
      if a.IndexInsert? then m.index[a.peer := a.room]
      else if a.IndexRemove? then m.index - {a.peer}
      else m.index
  {
  }

  // ---------------------------------------------------------------------------
  // Capacity accounting
  // ---------------------------------------------------------------------------

  /** Holds of every room object ever created, linked in the map or not. */
  predicate RoomSound(r: RoomObject) {
    && Distinct(r.peers)
    && |r.peers| <= r.max + r.unchecked
    && r.joins + r.unchecked == |r.peers| + r.removals
  }

  predicate Pushing(code: Code, o: RoomRef) {
    code.Do? && code.act.JoinPush? && code.act.ref == o
  }

  /** The bodies between the capacity check of a join and its insertion. */
  predicate Admitting(a: Action) {
    a.JoinClosure? || a.JoinPush?
  }

  /** No lock operation separates the capacity check of a join from its insertion. */
  predicate Calm(code: Code) {
    match code
    case Idle => true
    case Acquire(_, _, next) => Calm(next)
    case Release(_, next) => Calm(next)
    case Do(a) => !Admitting(a)
  }

  /** What the per-room write lock guarantees a thread between its capacity check
      and its insertion. */
  predicate Facts(m: Memory, code: Code) {
    if code.Do? && Admitting(code.act) then
      && code.act.ref < |m.heap|
      && var room := m.heap[code.act.ref];
         && code.act.peer !in room.peers
         && |room.peers| < room.max
         && room.admits == room.joins + (if code.act.JoinPush? then 1 else 0)
    else Calm(code)
  }

  /** Nobody pushes to the room. */
  predicate Quiet(s: State, o: RoomRef) {
    forall t :: 0 <= t < |s.threads| ==> !Pushing(s.threads[t].code, o)
  }

  predicate Settled(s: State) {
    forall o :: 0 <= o < |s.mem.heap| && Quiet(s, o) ==> s.mem.heap[o].admits == s.mem.heap[o].joins
  }

  predicate Invariant(s: State) {
    && AllDisciplined(s)
    && Exclusion(s)
    && RefsValid(s)
    && (forall o :: 0 <= o < |s.mem.heap| ==> RoomSound(s.mem.heap[o]))
    && (forall t :: 0 <= t < |s.threads| ==> Facts(s.mem, s.threads[t].code))
    && Settled(s)
  }

  predicate Writes(a: Action, o: RoomRef) {
    RoomLock(o) in Needs(a) && Needs(a)[RoomLock(o)] == Exclusive
  }

  /** A body changes only a room it holds the write lock of. */
  lemma ExecFrame(m: Memory, a: Action, c: Choice, o: RoomRef)
    requires MapRefs(m) && ActionRefs(a, |m.heap|) && ValidChoice(m, a, c)
    requires o < |Exec(m, a, c).0.heap| && !Writes(a, o)
    ensures o < |m.heap| ==> Exec(m, a, c).0.heap[o] == m.heap[o]
    ensures o >= |m.heap| ==> exists cap :: Exec(m, a, c).0.heap[o] == EmptyRoom(cap)
  {
  }

  predicate HoldsForWriting(a: Action, l: Lock) {
    l in Needs(a) && Needs(a)[l] == Exclusive
  }

  lemma WritersHold(a: Action)
    ensures a.Unlink? || a.MoveUnlink? || a.Create? || a.AddEnsure? ==> HoldsForWriting(a, RoomsLock)
    ensures a.IndexInsert? || a.IndexRemove? ==> HoldsForWriting(a, IndexLock)
  {
  }

  /** Whatever a body changes, it holds the lock for writing. */
  lemma ExecGuarded(m: Memory, a: Action, c: Choice, o: RoomRef)
    requires MapRefs(m) && ActionRefs(a, |m.heap|) && ValidChoice(m, a, c)
    ensures var m' := Exec(m, a, c).0;
      && (m'.rooms != m.rooms ==> HoldsForWriting(a, RoomsLock))
      && (m'.index != m.index ==> HoldsForWriting(a, IndexLock))
      && (o < |m.heap| && (o >= |m'.heap| || m'.heap[o] != m.heap[o]) ==> HoldsForWriting(a, RoomLock(o)))
  {
    WritersHold(a);
    ExecRooms(m, a, c);
    ExecIndex(m, a, c);
    ExecRefs(m, a, c);
    if o < |m.heap| && !Writes(a, o) {
      ExecFrame(m, a, c, o);
    }
  }

  lemma ExecCalm(m: Memory, a: Action, c: Choice)
    requires MapRefs(m) && ActionRefs(a, |m.heap|) && ValidChoice(m, a, c)
    ensures var code := Exec(m, a, c).1;
      Calm(code) || (code.Do? && Admitting(code.act) && (a.JoinCheck? || a.JoinClosure?))
  {
    var code := Exec(m, a, c).1;
    if code.Acquire? || code.Release? {
      if code.next.Acquire? || code.next.Release? {
        assert Calm(code.next.next);
      }
      assert Calm(code.next);
    }
  }

  lemma ExecSound(m: Memory, a: Action, c: Choice, o: RoomRef)
    requires MapRefs(m) && ActionRefs(a, |m.heap|) && ValidChoice(m, a, c)
    requires Facts(m, Do(a))
    requires o < |m.heap| && RoomSound(m.heap[o])
    ensures o < |Exec(m, a, c).0.heap| && RoomSound(Exec(m, a, c).0.heap[o])
  {
  }

  lemma RefsGrow(code: Code, n: nat, n': nat)
    requires CodeRefs(code, n) && n <= n'
    ensures CodeRefs(code, n')
  {
  }

  lemma StepDisciplined(s: State, e: Event)
    requires AllDisciplined(s) && RefsValid(s) && Enabled(s, e)
    ensures AllDisciplined(Apply(s, e)) && RefsValid(Apply(s, e))
  {
    var th := s.threads[e.t];
    if e.Start? {
      var code := Program(e.op);
      AcquireFirst(code.lock, code.mode, code.next.act);
    } else if th.code.Do? {
      ExecDisciplined(s.mem, th.code.act, e.choice);
      ExecRefs(s.mem, th.code.act, e.choice);
      forall u | 0 <= u < |s.threads| ensures CodeRefs(s.threads[u].code, |Apply(s, e).mem.heap|) {
        RefsGrow(s.threads[u].code, |s.mem.heap|, |Apply(s, e).mem.heap|);
      }
    }
  }

  lemma StepExclusion(s: State, e: Event)
    requires Exclusion(s) && Enabled(s, e)
    ensures Exclusion(Apply(s, e))
  {
  }

  /** No other thread is inside a section that writes the room a body writes. */
  lemma SoleWriter(s: State, t: nat, u: nat, o: RoomRef)
    requires AllDisciplined(s) && Exclusion(s)
    requires t < |s.threads| && u < |s.threads| && t != u
    requires s.threads[t].code.Do? && s.threads[u].code.Do?
    requires Writes(s.threads[u].code.act, o)
    ensures RoomLock(o) !in Needs(s.threads[t].code.act)
  {
    assert s.threads[t].held == Needs(s.threads[t].code.act);
    assert s.threads[u].held == Needs(s.threads[u].code.act);
  }

  lemma StepRooms(s: State, e: Event)
    requires Invariant(s) && Enabled(s, e)
    ensures forall o :: 0 <= o < |Apply(s, e).mem.heap| ==> RoomSound(Apply(s, e).mem.heap[o])
  {
    if e.Move? && s.threads[e.t].code.Do? {
      var a := s.threads[e.t].code.act;
      forall o | 0 <= o < |Apply(s, e).mem.heap| ensures RoomSound(Apply(s, e).mem.heap[o]) {
        if o < |s.mem.heap| {
          ExecSound(s.mem, a, e.choice, o);
        } else {
          ExecFrame(s.mem, a, e.choice, o);
        }
      }
    }
  }

  /** A thread that is to step finds its room settled unless it is the one pushing. */
  lemma OwnRoomSettled(s: State, t: nat, o: RoomRef)
    requires Invariant(s) && t < |s.threads| && s.threads[t].code.Do?
    requires Writes(s.threads[t].code.act, o) && o < |s.mem.heap|
    ensures s.mem.heap[o].admits ==
      s.mem.heap[o].joins + (if Pushing(s.threads[t].code, o) then 1 else 0)
  {
    forall u | 0 <= u < |s.threads| && u != t ensures !Pushing(s.threads[u].code, o) {
      if Pushing(s.threads[u].code, o) {
        SoleWriter(s, t, u, o);
      }
    }
  }

  /** What a body knows of its room is enough for what it goes on to. */
  lemma ExecFacts(m: Memory, a: Action, c: Choice)
    requires MapRefs(m) && ActionRefs(a, |m.heap|) && ValidChoice(m, a, c) && Facts(m, Do(a))
    requires a.JoinCheck? ==> m.heap[a.ref].admits == m.heap[a.ref].joins
    ensures Facts(Exec(m, a, c).0, Exec(m, a, c).1)
  {
    ExecCalm(m, a, c);
  }

  /** A thread between check and insertion finds its room as it left it. */
  lemma OtherFacts(s: State, e: Event, u: nat)
    requires Invariant(s) && Enabled(s, e) && u < |s.threads| && u != e.t
    requires e.Move? && s.threads[e.t].code.Do?
    ensures Facts(Apply(s, e).mem, s.threads[u].code)
  {
    var a, code := s.threads[e.t].code.act, s.threads[u].code;
    assert Facts(s.mem, code);
    if code.Do? && Admitting(code.act) {
      SoleWriter(s, e.t, u, code.act.ref);
      ExecRefs(s.mem, a, e.choice);
      ExecFrame(s.mem, a, e.choice, code.act.ref);
    }
  }

  lemma StepFacts(s: State, e: Event, u: nat)
    requires Invariant(s) && Enabled(s, e) && u < |s.threads|
    ensures Facts(Apply(s, e).mem, Apply(s, e).threads[u].code)
  {
    assert Facts(s.mem, s.threads[u].code);
    if e.Start? {
      assert Calm(Program(e.op));
    } else if !s.threads[e.t].code.Do? {
      if u == e.t {
        assert Calm(s.threads[u].code.next);
      }
    } else if u != e.t {
      OtherFacts(s, e, u);
    } else {
      var a := s.threads[u].code.act;
      if a.JoinCheck? {
        OwnRoomSettled(s, u, a.ref);
      }
      ExecFacts(s.mem, a, e.choice);
    }
  }

  /** The room a body writes, if nobody is left pushing to it. */
  lemma ExecSettles(m: Memory, a: Action, c: Choice, o: RoomRef)
    requires MapRefs(m) && ActionRefs(a, |m.heap|) && ValidChoice(m, a, c)
    requires o < |m.heap| && Writes(a, o)
    requires m.heap[o].admits == m.heap[o].joins + (if Pushing(Do(a), o) then 1 else 0)
    ensures var (m', code) := Exec(m, a, c);
      && o < |m'.heap|
      && (!Pushing(code, o) ==> m'.heap[o].admits == m'.heap[o].joins)
  {
  }

  /** A step that does not write the room starts and ends no push to it. */
  lemma QuietBefore(s: State, e: Event, o: RoomRef)
    requires Enabled(s, e) && Quiet(Apply(s, e), o)
    requires e.Move? && s.threads[e.t].code.Do? ==> !Writes(s.threads[e.t].code.act, o)
    ensures Quiet(s, o)
  {
    forall t | 0 <= t < |s.threads| ensures !Pushing(s.threads[t].code, o) {
      assert !Pushing(Apply(s, e).threads[t].code, o);
    }
  }

  lemma RoomSettles(s: State, e: Event, o: RoomRef)
    requires Invariant(s) && Enabled(s, e) && o < |Apply(s, e).mem.heap| && Quiet(Apply(s, e), o)
    ensures Apply(s, e).mem.heap[o].admits == Apply(s, e).mem.heap[o].joins
  {
    if e.Move? && s.threads[e.t].code.Do? {
      var a := s.threads[e.t].code.act;
      if Writes(a, o) {
        OwnRoomSettled(s, e.t, o);
        ExecSettles(s.mem, a, e.choice, o);
        assert !Pushing(Apply(s, e).threads[e.t].code, o);
      } else {
        QuietBefore(s, e, o);
        ExecFrame(s.mem, a, e.choice, o);
      }
    } else {
      QuietBefore(s, e, o);
    }
  }

  lemma StepSettled(s: State, e: Event)
    requires Invariant(s) && Enabled(s, e)
    ensures Settled(Apply(s, e))
  {
    forall o | 0 <= o < |Apply(s, e).mem.heap| && Quiet(Apply(s, e), o)
      ensures Apply(s, e).mem.heap[o].admits == Apply(s, e).mem.heap[o].joins
    {
      RoomSettles(s, e, o);
    }
  }

  lemma StepInvariant(s: State, e: Event)
    requires Invariant(s) && Enabled(s, e)
    ensures Invariant(Apply(s, e))
  {
    StepDisciplined(s, e);
    StepExclusion(s, e);
    StepRooms(s, e);
    forall u | 0 <= u < |s.threads| ensures Facts(Apply(s, e).mem, Apply(s, e).threads[u].code) {
      StepFacts(s, e, u);
    }
    StepSettled(s, e);
  }

  lemma {:induction false} RunInvariant(s: State, es: seq<Event>)
    requires Invariant(s) && Legal(s, es)
    ensures Invariant(Final(s, es))
    decreases es
  {
    if es != [] {
      StepInvariant(s, es[0]);
      RunInvariant(Apply(s, es[0]), es[1..]);
    }
  }

  lemma InitialInvariant(s: State)
    requires Initial(s)
    ensures Invariant(s)
  {
  }

  /** In every reachable state, and for every room object ever created, linked or
      not: peers are distinct, insertions and removals account for the peers, the
      maximum bounds them up to what `add_peer` inserted unchecked, and successful
      closure calls outnumber capacity-checked insertions by exactly the thread (at
      most one) that is between the two. */
  lemma CapacityHolds(s: State, es: seq<Event>, o: RoomRef)
    requires Initial(s) && Legal(s, es) && o < |Final(s, es).mem.heap|
    ensures var f := Final(s, es); var room := f.mem.heap[o];
      && Distinct(room.peers)
      && (room.unchecked == 0 ==> |room.peers| <= room.max)
      && |room.peers| <= room.max + room.unchecked
      && room.joins + room.unchecked == |room.peers| + room.removals
      && room.admits == room.joins +
           (if exists t :: 0 <= t < |f.threads| && Pushing(f.threads[t].code, o) then 1 else 0)
  {
    InitialInvariant(s);
    RunInvariant(s, es);
  }

  predicate RoomsWithin(m: Memory) {
    forall o :: 0 <= o < |m.heap| ==> |m.heap[o].peers| <= m.heap[o].max
  }

  /** The insertion of `add_peer` meets a full room that does not list the peer. */
  predicate Overfills(s: State, e: Event)
    requires Enabled(s, e)
  {
    && e.Move? && s.threads[e.t].code.Do? && s.threads[e.t].code.act.AddPush?
    && var a := s.threads[e.t].code.act;
       a.peer !in s.mem.heap[a.ref].peers && |s.mem.heap[a.ref].peers| >= s.mem.heap[a.ref].max
  }

  lemma StepWithinIff(s: State, e: Event)
    requires Invariant(s) && Enabled(s, e) && RoomsWithin(s.mem)
    ensures RoomsWithin(Apply(s, e).mem) <==> !Overfills(s, e)
  {
    if e.Move? && s.threads[e.t].code.Do? {
      var a := s.threads[e.t].code.act;
      assert Facts(s.mem, s.threads[e.t].code);
      ExecWithinIff(s.mem, a, e.choice);
    }
  }

  lemma ExecWithinIff(m: Memory, a: Action, c: Choice)
    requires MapRefs(m) && ActionRefs(a, |m.heap|) && ValidChoice(m, a, c)
    requires Facts(m, Do(a)) && RoomsWithin(m)
    ensures RoomsWithin(Exec(m, a, c).0) <==>
      !(a.AddPush? && a.peer !in m.heap[a.ref].peers && |m.heap[a.ref].peers| >= m.heap[a.ref].max)
  {
    if a.AddPush? && a.peer !in m.heap[a.ref].peers {
      assert |Exec(m, a, c).0.heap[a.ref].peers| == |m.heap[a.ref].peers| + 1;
    }
  }

  predicate AlwaysWithin(s: State, es: seq<Event>)
    requires Legal(s, es)
    decreases es
  {
    RoomsWithin(s.mem) && (es != [] ==> AlwaysWithin(Apply(s, es[0]), es[1..]))
  }

  predicate NeverOverfills(s: State, es: seq<Event>)
    requires Legal(s, es)
    decreases es
  {
    es == [] || (!Overfills(s, es[0]) && NeverOverfills(Apply(s, es[0]), es[1..]))
  }

  lemma {:induction false} RunStaysWithinIff(s: State, es: seq<Event>)
    requires Invariant(s) && Legal(s, es) && RoomsWithin(s.mem)
    ensures AlwaysWithin(s, es) <==> NeverOverfills(s, es)
    decreases es
  {
    if es != [] {
      StepWithinIff(s, es[0]);
      StepInvariant(s, es[0]);
      if !Overfills(s, es[0]) {
        RunStaysWithinIff(Apply(s, es[0]), es[1..]);
      }
    }
  }

  /** Under any interleaving every room object stays within its maximum throughout if and
      only if no insertion of `add_peer` meets a full room that does not list the peer. */
  lemma CapacityKeptIff(s: State, es: seq<Event>)
    requires Initial(s) && Legal(s, es)
    ensures AlwaysWithin(s, es) <==> NeverOverfills(s, es)
  {
    InitialInvariant(s);
    RunStaysWithinIff(s, es);
  }

  // ---------------------------------------------------------------------------
  // Deadlock
  // ---------------------------------------------------------------------------

  predicate Waits(s: State, t: nat, l: Lock, m: Mode) {
    && t < |s.threads|
    && s.threads[t].code.Acquire?
    && s.threads[t].code.lock == l
    && s.threads[t].code.mode == m
  }

  /** Thread `t` can step even under the strictest lock: one that turns readers away
      as soon as any writer waits. */
  predicate CanProceed(s: State, t: nat, c: Choice) {
    && Enabled(s, Move(t, c))
    && (s.threads[t].code.Acquire? && s.threads[t].code.mode == Shared ==>
          forall u :: 0 <= u < |s.threads| ==> !Waits(s, u, s.threads[t].code.lock, Exclusive))
  }

  predicate Unfinished(s: State, t: nat) {
    t < |s.threads| && !s.threads[t].code.Idle?
  }

  /** A thread that waits for a lock of the highest rank anyone waits for. */
  lemma {:induction false} HighestWaiter(s: State, n: nat) returns (t: nat)
    requires n <= |s.threads|
    requires exists u :: 0 <= u < n && s.threads[u].code.Acquire?
    ensures t < n && s.threads[t].code.Acquire?
    ensures forall u :: 0 <= u < n && s.threads[u].code.Acquire? ==>
      Rank(s.threads[u].code.lock) <= Rank(s.threads[t].code.lock)
  {
    if exists u :: 0 <= u < n - 1 && s.threads[u].code.Acquire? {
      t := HighestWaiter(s, n - 1);
      if s.threads[n - 1].code.Acquire? && Rank(s.threads[n - 1].code.lock) > Rank(s.threads[t].code.lock) {
        t := n - 1;
      }
    } else {
      t := n - 1;
    }
  }

  lemma {:induction false} Enumerate(refs: set<RoomRef>) returns (order: seq<RoomRef>)
    ensures forall o :: o in order <==> o in refs
  {
    if refs == {} {
      order := [];
    } else {
      var o :| o in refs;
      var rest := Enumerate(refs - {o});
      order := [o] + rest;
    }
  }

  /** The holder of a lock that is waited for at the highest rank would have to wait
      for a lock of a higher rank still. */
  lemma TopLockFree(s: State, t: nat)
    requires AllDisciplined(s)
    requires t < |s.threads| && s.threads[t].code.Acquire?
    requires forall u :: 0 <= u < |s.threads| ==> s.threads[u].code.Idle? || s.threads[u].code.Acquire?
    requires forall u :: 0 <= u < |s.threads| && s.threads[u].code.Acquire? ==>
      Rank(s.threads[u].code.lock) <= Rank(s.threads[t].code.lock)
    ensures forall u :: 0 <= u < |s.threads| ==> s.threads[t].code.lock !in s.threads[u].held
  {
    forall u | 0 <= u < |s.threads| ensures s.threads[t].code.lock !in s.threads[u].held {
      assert Disciplined(s.threads[u].held, s.threads[u].code);
    }
  }

  /** Every reachable state with an unfinished thread has a thread that can step. */
  lemma NoDeadlock(s: State, es: seq<Event>)
    requires Initial(s) && Legal(s, es)
    ensures var f := Final(s, es);
      (exists t :: Unfinished(f, t)) ==> exists t, c :: CanProceed(f, t, c)
  {
    InitialInvariant(s);
    RunInvariant(s, es);
    var f := Final(s, es);
    if t :| Unfinished(f, t) {
      if u :| 0 <= u < |f.threads| && (f.threads[u].code.Do? || f.threads[u].code.Release?) {
        var order := Enumerate(f.mem.rooms.Values);
        assert CanProceed(f, u, Choice(true, order));
      } else {
        var w := HighestWaiter(f, |f.threads|);
        TopLockFree(f, w);
        var l := f.threads[w].code.lock;
        var pick := if v :| Waits(f, v, l, Exclusive) then v else w;
        assert CanProceed(f, pick, Choice(true, []));
      }
    }
  }
}
