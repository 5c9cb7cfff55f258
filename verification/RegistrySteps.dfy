/**
  The room registry as a step system: any number of threads run the registry's
  methods, and every lock acquisition, lock release and body between two of them
  is one step. Room objects live in a heap of their own, because a thread that
  cloned the pointer of a room keeps it after the room has left the map.
 */
module RegistrySteps {

  type PeerId = string
  type RoomId = string
  type RoomRef = nat

  // ---------------------------------------------------------------------------
  // Locks
  // ---------------------------------------------------------------------------

  datatype Lock = RoomsLock | RoomLock(ref: RoomRef) | IndexLock
  datatype Mode = Shared | Exclusive
  type Guards = map<Lock, Mode>

  /** Position in the documented lock order: map, then one room, then reverse index. */
  function Rank(l: Lock): nat {
    match l
    case RoomsLock => 0
    case RoomLock(_) => 1
    case IndexLock => 2
  }

  predicate Conflict(a: Mode, b: Mode) {
    a == Exclusive || b == Exclusive
  }

  // ---------------------------------------------------------------------------
  // Memory
  // ---------------------------------------------------------------------------

  /** A room object. The last four fields are history counters: successful join
      closures, capacity-checked joins, unchecked insertions by `add_peer`, and
      peers taken out again. */
  datatype RoomObject = RoomObject(
    peers: seq<PeerId>, max: nat,
    admits: nat, joins: nat, unchecked: nat, removals: nat)

  datatype Memory = Memory(rooms: map<RoomId, RoomRef>, heap: seq<RoomObject>, index: map<PeerId, RoomId>)

  const P2P_MAX: nat := 2

  function EmptyRoom(max: nat): RoomObject {
    RoomObject([], max, 0, 0, 0, 0)
  }

  predicate Distinct(s: seq<PeerId>) {
    forall i, j :: 0 <= i < j < |s| ==> s[i] != s[j]
  }

  function Without(s: seq<PeerId>, p: PeerId): (r: seq<PeerId>)
    ensures |r| <= |s|
    ensures forall q :: q in r <==> q in s && q != p
    ensures Distinct(s) ==> Distinct(r)
  {
    if s == [] then []
    else
      var rest := Without(s[1..], p);
      assert Distinct(s) ==> Distinct(s[1..]) && s[0] !in s[1..];
      if s[0] == p then rest else [s[0]] + rest
  }

  /** Taking a peer out goes through the list front to back, one entry by itself after
      another: the others keep their order and their number. */
  lemma {:induction false} WithoutJoins(a: seq<PeerId>, b: seq<PeerId>, p: PeerId)
    ensures Without(a + b, p) == Without(a, p) + Without(b, p)
    decreases |a|
  {
    if a == [] {
      assert a + b == b;
    } else {
      assert (a + b)[1..] == a[1..] + b;
      WithoutJoins(a[1..], b, p);
    }
  }

  lemma WithoutOne(q: PeerId, p: PeerId)
    ensures Without([q], p) == if q == p then [] else [q]
  {
    assert [q][1..] == [];
  }

  lemma {:induction false} NobodyLeftIff(s: seq<PeerId>, p: PeerId)
    ensures Without(s, p) == [] <==> forall q <- s :: q == p
  {
    if s != [] {
      assert s[0] in s && forall q :: q in s <==> q == s[0] || q in s[1..];
      NobodyLeftIff(s[1..], p);
    }
  }

  // ---------------------------------------------------------------------------
  // Method bodies
  // ---------------------------------------------------------------------------

  /** The bodies that run between two lock operations. */
  datatype Action =
    | Create(room: RoomId, cap: nat)
    | EmptyLookup(room: RoomId)
    | EmptyTest(room: RoomId, ref: RoomRef)
    | Unlink(room: RoomId)
    | ReadLookup(room: RoomId)
    | ReadRoom(ref: RoomRef)
    | UpdateLookup(room: RoomId, raise: nat)
    | UpdateInfo(ref: RoomRef, raise: nat)
    | WriteLookup(room: RoomId, raise: nat)
    | WriteInfo(ref: RoomRef, raise: nat)
    | SweepStart
    | SweepNext(todo: seq<RoomRef>)
    | SweepRead(ref: RoomRef, todo: seq<RoomRef>)
    | ReadRooms
    | ReadIndex
    | JoinLookup(peer: PeerId, room: RoomId)
    | JoinCheck(peer: PeerId, room: RoomId, ref: RoomRef)
    | JoinClosure(peer: PeerId, room: RoomId, ref: RoomRef)
    | JoinPush(peer: PeerId, room: RoomId, ref: RoomRef)
    | AddEnsure(peer: PeerId, room: RoomId)
    | AddLookup(peer: PeerId, room: RoomId)
    | AddReadIndex(peer: PeerId, room: RoomId, ref: RoomRef)
    | MoveLookupOld(peer: PeerId, room: RoomId, prev: RoomId)
    | MoveRetain(peer: PeerId, room: RoomId, prev: RoomId, ref: RoomRef)
    | MoveUnlink(peer: PeerId, room: RoomId, prev: RoomId)
    | MoveLookupNew(peer: PeerId, room: RoomId)
    | AddPush(peer: PeerId, room: RoomId, ref: RoomRef)
    | IndexInsert(peer: PeerId, room: RoomId)
    | IndexRemove(peer: PeerId, unlinkEmpty: bool)
    | LeaveLookup(peer: PeerId, room: RoomId, unlinkEmpty: bool)
    | LeaveRetain(peer: PeerId, room: RoomId, ref: RoomRef, unlinkEmpty: bool)

  /** What a thread still has to do. A body decides what follows it. */
  datatype Code =
    | Idle
    | Acquire(lock: Lock, mode: Mode, next: Code)
    | Release(lock: Lock, next: Code)
    | Do(act: Action)

  /** The body a chain of lock operations leads to. */
  function Target(code: Code): Code {
    match code
    case Acquire(_, _, next) => Target(next)
    case Release(_, next) => Target(next)
    case _ => code
  }

  predicate Locked(code: Code) {
    code.Acquire? || code.Release?
  }

  /** Where up to three lock operations lead. */
  lemma TargetIs(code: Code)
    ensures !Locked(code) ==> Target(code) == code
    ensures Locked(code) && !Locked(code.next) ==> Target(code) == code.next
    ensures Locked(code) && Locked(code.next) && !Locked(code.next.next) ==> Target(code) == code.next.next
    ensures Locked(code) && Locked(code.next) && Locked(code.next.next) && !Locked(code.next.next.next) ==>
      Target(code) == code.next.next.next
  {
    if Locked(code) && Locked(code.next) {
      assert Target(code) == Target(code.next) == Target(code.next.next);
    }
  }

  /** The guards alive while a body runs. */
  function Needs(a: Action): Guards {
    match a
    case Create(_, _) => map[RoomsLock := Exclusive]
    case Unlink(_) => map[RoomsLock := Exclusive]
    case AddEnsure(_, _) => map[RoomsLock := Exclusive]
    case MoveUnlink(_, _, _) => map[RoomsLock := Exclusive]
    case EmptyLookup(_) => map[RoomsLock := Shared]
    case ReadLookup(_) => map[RoomsLock := Shared]
    case UpdateLookup(_, _) => map[RoomsLock := Shared]
    case WriteLookup(_, _) => map[RoomsLock := Shared]
    case SweepStart => map[RoomsLock := Shared]
    case SweepNext(_) => map[RoomsLock := Shared]
    case ReadRooms => map[RoomsLock := Shared]
    case JoinLookup(_, _) => map[RoomsLock := Shared]
    case AddLookup(_, _) => map[RoomsLock := Shared]
    case MoveLookupOld(_, _, _) => map[RoomsLock := Shared]
    case MoveLookupNew(_, _) => map[RoomsLock := Shared]
    case LeaveLookup(_, _, _) => map[RoomsLock := Shared]
    case EmptyTest(_, o) => map[RoomsLock := Shared, RoomLock(o) := Shared]
    case ReadRoom(o) => map[RoomsLock := Shared, RoomLock(o) := Shared]
    case SweepRead(o, _) => map[RoomsLock := Shared, RoomLock(o) := Shared]
    case UpdateInfo(o, _) => map[RoomsLock := Shared, RoomLock(o) := Exclusive]
    case WriteInfo(o, _) => map[RoomLock(o) := Exclusive]
    case JoinCheck(_, _, o) => map[RoomLock(o) := Exclusive]
    case JoinClosure(_, _, o) => map[RoomLock(o) := Exclusive]
    case JoinPush(_, _, o) => map[RoomLock(o) := Exclusive]
    case MoveRetain(_, _, _, o) => map[RoomLock(o) := Exclusive]
    case AddPush(_, _, o) => map[RoomLock(o) := Exclusive]
    case LeaveRetain(_, _, o, _) => map[RoomLock(o) := Exclusive]
    case AddReadIndex(_, _, o) => map[RoomLock(o) := Exclusive, IndexLock := Shared]
    case ReadIndex => map[IndexLock := Shared]
    case IndexInsert(_, _) => map[IndexLock := Exclusive]
    case IndexRemove(_, _) => map[IndexLock := Exclusive]
  }

  datatype Op =
    | CreateRoom(room: RoomId, cap: nat)
    | RemoveEmptyRoom(room: RoomId)
    | InspectRoom(room: RoomId)
    | UpdateRoomInfo(room: RoomId, raise: nat)
    | WithRoomWrite(room: RoomId, raise: nat)
    | SweepRooms
    | CountRooms
    | TryAddPeerWith(peer: PeerId, room: RoomId)
    | AddPeer(peer: PeerId, room: RoomId)
    | RemovePeer(peer: PeerId, unlinkEmpty: bool)
    | RoomForPeer(peer: PeerId)

  /** The first lock and the first body of every public method. */
  function Program(op: Op): Code {
    match op
    case CreateRoom(r, cap) => Acquire(RoomsLock, Exclusive, Do(Create(r, cap)))
    case RemoveEmptyRoom(r) => Acquire(RoomsLock, Shared, Do(EmptyLookup(r)))
    case InspectRoom(r) => Acquire(RoomsLock, Shared, Do(ReadLookup(r)))
    case UpdateRoomInfo(r, k) => Acquire(RoomsLock, Shared, Do(UpdateLookup(r, k)))
    case WithRoomWrite(r, k) => Acquire(RoomsLock, Shared, Do(WriteLookup(r, k)))
    case SweepRooms => Acquire(RoomsLock, Shared, Do(SweepStart))
    case CountRooms => Acquire(RoomsLock, Shared, Do(ReadRooms))
    case TryAddPeerWith(p, r) => Acquire(RoomsLock, Shared, Do(JoinLookup(p, r)))
    case AddPeer(p, r) => Acquire(RoomsLock, Exclusive, Do(AddEnsure(p, r)))
    case RemovePeer(p, u) => Acquire(IndexLock, Exclusive, Do(IndexRemove(p, u)))
    case RoomForPeer(_) => Acquire(IndexLock, Shared, Do(ReadIndex))
  }

  /** What the environment decides: the answer of the join closure and the order
      in which the room map is visited. */
  datatype Choice = Choice(admitted: bool, order: seq<RoomRef>)

  predicate ValidChoice(m: Memory, a: Action, c: Choice) {
    a.SweepStart? ==> (set o | o in c.order) == m.rooms.Values
  }

  /** Every room reference of a body points into the heap. */
  predicate ActionRefs(a: Action, n: nat) {
    match a
    case EmptyTest(_, o) => o < n
    case ReadRoom(o) => o < n
    case UpdateInfo(o, _) => o < n
    case WriteInfo(o, _) => o < n
    case SweepNext(todo) => forall i :: 0 <= i < |todo| ==> todo[i] < n
    case SweepRead(o, todo) => o < n && forall i :: 0 <= i < |todo| ==> todo[i] < n
    case JoinCheck(_, _, o) => o < n
    case JoinClosure(_, _, o) => o < n
    case JoinPush(_, _, o) => o < n
    case AddReadIndex(_, _, o) => o < n
    case MoveRetain(_, _, _, o) => o < n
    case AddPush(_, _, o) => o < n
    case LeaveRetain(_, _, o, _) => o < n
    case _ => true
  }

  predicate CodeRefs(c: Code, n: nat) {
    match c
    case Idle => true
    case Acquire(_, _, next) => CodeRefs(next, n)
    case Release(_, next) => CodeRefs(next, n)
    case Do(a) => ActionRefs(a, n)
  }

  predicate MapRefs(m: Memory) {
    forall r <- m.rooms :: m.rooms[r] < |m.heap|
  }

  /** The move branch of `add_peer` once the old room has been dealt with. */
  function MoveTail(p: PeerId, r: RoomId): Code {
    Acquire(RoomsLock, Shared, Do(MoveLookupNew(p, r)))
  }

  /** Leaving the per-room section of a join: update the reverse index. */
  function IndexTail(p: PeerId, r: RoomId, o: RoomRef): Code {
    Release(RoomLock(o), Acquire(IndexLock, Exclusive, Do(IndexInsert(p, r))))
  }

  function Put(m: Memory, o: RoomRef, room: RoomObject): Memory
    requires o < |m.heap|
  {
    m.(heap := m.heap[o := room])
  }

  /** `peers.retain(|p| p != peer)`, counting what it takes out. */
  function Evict(room: RoomObject, p: PeerId): RoomObject {
    var left := Without(room.peers, p);
    room.(peers := left, removals := room.removals + |room.peers| - |left|)
  }

  /** Runs one body and says what the thread does next. An `unwrap` on a room that
      has been unlinked meanwhile panics: the thread drops its guards and ends. */
  function Exec(m: Memory, a: Action, c: Choice): (Memory, Code)
    requires MapRefs(m) && ActionRefs(a, |m.heap|) && ValidChoice(m, a, c)
  {
    match a
    case Create(r, cap) =>
      (if r in m.rooms then m
       else m.(rooms := m.rooms[r := |m.heap|], heap := m.heap + [EmptyRoom(cap)]),
       Release(RoomsLock, Idle))
    case EmptyLookup(r) =>
      (m, if r in m.rooms then Acquire(RoomLock(m.rooms[r]), Shared, Do(EmptyTest(r, m.rooms[r])))
          else Release(RoomsLock, Idle))
    case EmptyTest(r, o) =>
      (m, Release(RoomLock(o), Release(RoomsLock,
          if m.heap[o].peers != [] then Idle
          else Acquire(RoomsLock, Exclusive, Do(Unlink(r))))))
    case Unlink(r) =>
      (m.(rooms := m.rooms - {r}), Release(RoomsLock, Idle))
    case ReadLookup(r) =>
      (m, if r in m.rooms then Acquire(RoomLock(m.rooms[r]), Shared, Do(ReadRoom(m.rooms[r])))
          else Release(RoomsLock, Idle))
    case ReadRoom(o) =>
      (m, Release(RoomLock(o), Release(RoomsLock, Idle)))
    case UpdateLookup(r, k) =>
      (m, if r in m.rooms then Acquire(RoomLock(m.rooms[r]), Exclusive, Do(UpdateInfo(m.rooms[r], k)))
          else Release(RoomsLock, Idle))
    case UpdateInfo(o, k) =>
      (Put(m, o, m.heap[o].(max := m.heap[o].max + k)), Release(RoomLock(o), Release(RoomsLock, Idle)))
    case WriteLookup(r, k) =>
      (m, Release(RoomsLock,
          if r in m.rooms then Acquire(RoomLock(m.rooms[r]), Exclusive, Do(WriteInfo(m.rooms[r], k))) else Idle))
    case WriteInfo(o, k) =>
      (Put(m, o, m.heap[o].(max := m.heap[o].max + k)), Release(RoomLock(o), Idle))
    case SweepStart =>
      (m, Do(SweepNext(c.order)))
    case SweepNext(todo) =>
      (m, if todo == [] then Release(RoomsLock, Idle)
          else Acquire(RoomLock(todo[0]), Shared, Do(SweepRead(todo[0], todo[1..]))))
    case SweepRead(o, todo) =>
      (m, Release(RoomLock(o), Do(SweepNext(todo))))
    case ReadRooms => (m, Release(RoomsLock, Idle))
    case ReadIndex => (m, Release(IndexLock, Idle))
    case JoinLookup(p, r) =>
      (m, Release(RoomsLock,
          if r in m.rooms then Acquire(RoomLock(m.rooms[r]), Exclusive, Do(JoinCheck(p, r, m.rooms[r]))) else Idle))
    case JoinCheck(p, r, o) =>
      (m, if p in m.heap[o].peers then IndexTail(p, r, o)
          else if |m.heap[o].peers| >= m.heap[o].max then Release(RoomLock(o), Idle)
          else Do(JoinClosure(p, r, o)))
    case JoinClosure(p, r, o) =>
      if c.admitted then
        (Put(m, o, m.heap[o].(admits := m.heap[o].admits + 1)), Do(JoinPush(p, r, o)))
      else
        (m, Release(RoomLock(o), Idle))
    case JoinPush(p, r, o) =>
      (Put(m, o, m.heap[o].(peers := m.heap[o].peers + [p], joins := m.heap[o].joins + 1)), IndexTail(p, r, o))
    case AddEnsure(p, r) =>
      (if r in m.rooms then m
       else m.(rooms := m.rooms[r := |m.heap|], heap := m.heap + [EmptyRoom(P2P_MAX)]),
       Release(RoomsLock, Acquire(RoomsLock, Shared, Do(AddLookup(p, r)))))
    case AddLookup(p, r) =>
      (m, Release(RoomsLock,
          if r in m.rooms then
            Acquire(RoomLock(m.rooms[r]), Exclusive,
                    Acquire(IndexLock, Shared, Do(AddReadIndex(p, r, m.rooms[r]))))
          else Idle))
    case AddReadIndex(p, r, o) =>
      (m, Release(IndexLock,
          if p in m.index && m.index[p] != r then
            Release(RoomLock(o), Acquire(RoomsLock, Shared, Do(MoveLookupOld(p, r, m.index[p]))))
          else Do(AddPush(p, r, o))))
    case MoveLookupOld(p, r, prev) =>
      (m, Release(RoomsLock,
          if prev in m.rooms then Acquire(RoomLock(m.rooms[prev]), Exclusive, Do(MoveRetain(p, r, prev, m.rooms[prev])))
          else MoveTail(p, r)))
    case MoveRetain(p, r, prev, o) =>
      var room := Evict(m.heap[o], p);
      (Put(m, o, room), Release(RoomLock(o),
          if room.peers == [] then Acquire(RoomsLock, Exclusive, Do(MoveUnlink(p, r, prev))) else MoveTail(p, r)))
    case MoveUnlink(p, r, prev) =>
      (m.(rooms := m.rooms - {prev}), Release(RoomsLock, MoveTail(p, r)))
    case MoveLookupNew(p, r) =>
      (m, Release(RoomsLock,
          if r in m.rooms then Acquire(RoomLock(m.rooms[r]), Exclusive, Do(AddPush(p, r, m.rooms[r]))) else Idle))
    case AddPush(p, r, o) =>
      (if p in m.heap[o].peers then m
       else Put(m, o, m.heap[o].(peers := m.heap[o].peers + [p], unchecked := m.heap[o].unchecked + 1)),
       IndexTail(p, r, o))
    case IndexInsert(p, r) =>
      (m.(index := m.index[p := r]), Release(IndexLock, Idle))
    case IndexRemove(p, u) =>
      (m.(index := m.index - {p}), Release(IndexLock,
          if p in m.index then Acquire(RoomsLock, Shared, Do(LeaveLookup(p, m.index[p], u))) else Idle))
    case LeaveLookup(p, r, u) =>
      (m, Release(RoomsLock,
          if r in m.rooms then Acquire(RoomLock(m.rooms[r]), Exclusive, Do(LeaveRetain(p, r, m.rooms[r], u)))
          else Idle))
    case LeaveRetain(p, r, o, u) =>
      var room := Evict(m.heap[o], p);
      (Put(m, o, room), Release(RoomLock(o),
          if u && room.peers == [] then Acquire(RoomsLock, Exclusive, Do(Unlink(r))) else Idle))
  }
}
