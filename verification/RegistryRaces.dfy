/**
  Concrete runs of the registry's step system in which a documented promise fails.
 */
module RegistryRaces {
  import opened RegistrySteps
  import opened RegistryRuns
  import opened RegistryAtomic
  import opened RegistryUnlinks
  import opened RegistryOverlaps
  import Registry

  const ROOM := "r"
  const YES := Choice(true, [])
  const FREE := Thread(map[], Idle)

  /** Found the room empty and is to unlink its name. */
  const WAITING := Acquire(RoomsLock, Exclusive, Do(Unlink(ROOM)))

  lemma {:induction false} LegalConcat(s: State, es: seq<Event>, fs: seq<Event>)
    requires Legal(s, es) && Legal(Final(s, es), fs)
    ensures Legal(s, es + fs) && Final(s, es + fs) == Final(Final(s, es), fs)
    decreases es
  {
    if es == [] {
      assert es + fs == fs;
    } else {
      assert (es + fs)[1..] == es[1..] + fs;
      LegalConcat(Apply(s, es[0]), es[1..], fs);
    }
  }

  /** Whatever is linked under the name was linked under it before, or is new. */
  predicate LinkedNewly(m: Memory, m': Memory) {
    ROOM in m'.rooms && m'.rooms[ROOM] < |m.heap| ==> ROOM in m.rooms && m.rooms[ROOM] == m'.rooms[ROOM]
  }

  /** A method run to its end while no thread holds a lock. */
  lemma Call(s: State, es0: seq<Event>, t: nat, op: Op) returns (es: seq<Event>)
    requires Legal(s, es0) && !op.SweepRooms?
    requires var f := Final(s, es0);
      && t < |f.threads| && f.threads[t] == FREE && OthersFree(f, t) && MapRefs(f.mem) && Unshared(f.mem)
    ensures Legal(s, es)
    ensures var f, g := Final(s, es0), Final(s, es);
      && g.threads == f.threads && MapRefs(g.mem) && Unshared(g.mem)
      && View(g.mem) == Atomic(View(f.mem), op, YES, Registry.RoomFull)
      && |f.mem.heap| <= |g.mem.heap|
      && LinkedNewly(f.mem, g.mem)
    ensures es0 <= es
  {
    var fs := UninterruptedIsAtomic(Final(s, es0), t, op, YES, Registry.RoomFull);
    es := es0 + fs;
    LegalConcat(s, es0, fs);
    LinkedBefore(Final(s, es0), fs, ROOM);
  }

  /** One event more. */
  lemma Extend(s: State, es0: seq<Event>, e: Event) returns (es: seq<Event>)
    requires Legal(s, es0) && Enabled(Final(s, es0), e)
    ensures Legal(s, es) && es0 <= es && Final(s, es) == Apply(Final(s, es0), e)
    ensures NeverRemoves(s, es0) && !RemovesNow(Final(s, es0), e) ==> NeverRemoves(s, es)
  {
    var f := Final(s, es0);
    assert Legal(Apply(f, e), []) && Legal(f, [e]);
    es := es0 + [e];
    LegalConcat(s, es0, [e]);
    if NeverRemoves(s, es0) && !RemovesNow(f, e) {
      assert NeverRemoves(Apply(f, e), []) && NeverRemoves(f, [e]);
      NeverRemovesConcat(s, es0, [e]);
    }
  }

  lemma {:induction false} NeverRemovesConcat(s: State, es: seq<Event>, fs: seq<Event>)
    requires Legal(s, es) && Legal(Final(s, es), fs) && Legal(s, es + fs)
    requires NeverRemoves(s, es) && NeverRemoves(Final(s, es), fs)
    ensures NeverRemoves(s, es + fs)
    decreases es
  {
    if es == [] {
      assert es + fs == fs;
    } else {
      assert (es + fs)[1..] == es[1..] + fs;
      NeverRemovesConcat(Apply(s, es[0]), es[1..], fs);
    }
  }

  /** Thread 1 is about to test the room and holds the locks for it. */
  lemma ReachTest(s: State, es0: seq<Event>, m: Memory) returns (es: seq<Event>)
    requires Legal(s, es0) && Final(s, es0) == State(m, [FREE, FREE])
    requires MapRefs(m) && ROOM in m.rooms
    ensures Legal(s, es)
    ensures Final(s, es) == State(m, [FREE,
      Thread(map[RoomsLock := Shared], Acquire(RoomLock(m.rooms[ROOM]), Shared, Do(EmptyTest(ROOM, m.rooms[ROOM]))))])
  {
    es := Extend(s, es0, Start(1, RemoveEmptyRoom(ROOM)));
    es := Extend(s, es, Move(1, YES));
    es := Extend(s, es, Move(1, YES));
    assert Final(s, es).threads == [FREE,
      Thread(map[RoomsLock := Shared], Acquire(RoomLock(m.rooms[ROOM]), Shared, Do(EmptyTest(ROOM, m.rooms[ROOM]))))];
  }

  /** Thread 1 finds the room empty. */
  lemma FindEmpty(s: State, es0: seq<Event>, m: Memory, o: RoomRef) returns (es: seq<Event>)
    requires Legal(s, es0) && MapRefs(m) && o < |m.heap| && m.heap[o].peers == []
    requires Final(s, es0) == State(m, [FREE,
      Thread(map[RoomsLock := Shared], Acquire(RoomLock(o), Shared, Do(EmptyTest(ROOM, o))))])
    ensures Legal(s, es)
    ensures Final(s, es) == State(m, [FREE, Thread(map[RoomsLock := Shared, RoomLock(o) := Shared],
      Release(RoomLock(o), Release(RoomsLock, WAITING)))])
  {
    es := Extend(s, es0, Move(1, YES));
    es := Extend(s, es, Move(1, YES));
    assert Final(s, es).threads == [FREE, Thread(map[RoomsLock := Shared, RoomLock(o) := Shared],
      Release(RoomLock(o), Release(RoomsLock, WAITING)))];
  }

  /** Thread 1 lets go of its locks before it unlinks. */
  lemma LetGo(s: State, es0: seq<Event>, m: Memory, o: RoomRef) returns (es: seq<Event>)
    requires Legal(s, es0) && o < |m.heap|
    requires Final(s, es0) == State(m, [FREE, Thread(map[RoomsLock := Shared, RoomLock(o) := Shared],
      Release(RoomLock(o), Release(RoomsLock, WAITING)))])
    ensures Legal(s, es)
    ensures Final(s, es) == State(m, [FREE, Thread(map[], WAITING)])
  {
    es := Extend(s, es0, Move(1, YES));
    es := Extend(s, es, Move(1, YES));
    assert Final(s, es).threads[1].held == map[];
    assert Final(s, es).threads == [FREE, Thread(map[], WAITING)];
  }

  /** The waiting thread unlinks the room by its name, whatever is in it now. */
  lemma UnlinkNow(s: State, es0: seq<Event>, m: Memory) returns (es: seq<Event>)
    requires Legal(s, es0) && MapRefs(m)
    requires Final(s, es0) == State(m, [FREE, Thread(map[], WAITING)])
    ensures Legal(s, es) && es0 <= es
    ensures Final(s, es) == State(m.(rooms := m.rooms - {ROOM}), [FREE, FREE])
  {
    es := Extend(s, es0, Move(1, YES));
    es := Extend(s, es, Move(1, YES));
    es := Extend(s, es, Move(1, YES));
    assert Final(s, es).threads[1].held == map[];
    assert Final(s, es).threads == [FREE, FREE];
  }

  /** `remove_empty_room` is to remove a room only if it has no peers. Two threads can make
      it unlink an occupied one: the member then is in the reverse index of a room that is
      gone, and in a room object that nothing leads to. */
  lemma RemovedWhileOccupied() returns (s: State, es: seq<Event>, o: RoomRef)
    ensures Initial(s) && Legal(s, es)
    ensures var f := Final(s, es);
      && f.threads == [FREE, FREE]
      && f.mem.index == map["h" := ROOM] && ROOM !in f.mem.rooms
      && o < |f.mem.heap| && f.mem.heap[o].peers == ["h"]
      && MapRefs(f.mem) && !Registry.Agree(View(f.mem))
  {
    var m;
    s := State(Memory(map[], [], map[]), [FREE, FREE]);
    es, m := CreatedOne(s);
    assert ROOM in View(m).rooms && View(m).rooms[ROOM].peers == [];
    es := TestedEmpty(s, es, m);
    es, m := JoinedMeanwhile(s, es, m);
    o := m.rooms[ROOM];
    assert View(m).rooms[ROOM].peers == ["h"];
    es := UnlinkNow(s, es, m);
    assert "h" in View(Final(s, es).mem).index && ROOM !in View(Final(s, es).mem).rooms;
  }

  /** The object that is lost need not be the one that was tested: after the test another
      thread removes the empty room, creates it anew and joins it. */
  lemma RemovedAfterRecreation() returns (s: State, test: seq<Event>, es: seq<Event>, tested: RoomRef, lost: RoomRef)
    ensures Initial(s) && Legal(s, test) && Legal(s, es) && test <= es && tested != lost
    ensures var x := Final(s, test);
      && x.threads == [FREE, Thread(map[], WAITING)]
      && ROOM in x.mem.rooms && x.mem.rooms[ROOM] == tested < |x.mem.heap| && x.mem.heap[tested].peers == []
    ensures var f := Final(s, es);
      && f.threads == [FREE, FREE]
      && f.mem.index == map["h" := ROOM] && ROOM !in f.mem.rooms
      && lost < |f.mem.heap| && f.mem.heap[lost].peers == ["h"]
  {
    var m;
    s := State(Memory(map[], [], map[]), [FREE, FREE]);
    es, m := CreatedOne(s);
    assert ROOM in View(m).rooms && View(m).rooms[ROOM].peers == [];
    test := TestedEmpty(s, es, m);
    tested := m.rooms[ROOM];
    es, m := Recreated(s, test, m);
    es, m := JoinedMeanwhile(s, es, m);
    lost := m.rooms[ROOM];
    assert View(m).rooms[ROOM].peers == ["h"];
    es := UnlinkNow(s, es, m);
  }

  lemma Recreated(s: State, es0: seq<Event>, m: Memory) returns (es: seq<Event>, m': Memory)
    requires Legal(s, es0) && Final(s, es0) == State(m, [FREE, Thread(map[], WAITING)])
    requires MapRefs(m) && Unshared(m)
    requires View(m) == Registry.Indexes(map[ROOM := Registry.Room([], 2)], map[])
    ensures Legal(s, es) && es0 <= es && Final(s, es) == State(m', [FREE, Thread(map[], WAITING)])
    ensures MapRefs(m') && Unshared(m') && ROOM in m'.rooms && |m.heap| <= m'.rooms[ROOM]
    ensures View(m') == View(m)
  {
    var es1 := Call(s, es0, 0, RemoveEmptyRoom(ROOM));
    var m1 := Final(s, es1).mem;
    assert View(m1) == Registry.Indexes(map[], map[]);
    assert ROOM !in View(m1).rooms;
    es := Call(s, es1, 0, CreateRoom(ROOM, 2));
    m' := Final(s, es).mem;
    assert ROOM in View(m').rooms;
  }

  lemma CreatedOne(s: State) returns (es: seq<Event>, m: Memory)
    requires s == State(Memory(map[], [], map[]), [FREE, FREE])
    ensures Legal(s, es) && Final(s, es) == State(m, [FREE, FREE])
    ensures MapRefs(m) && Unshared(m)
    ensures View(m) == Registry.Indexes(map[ROOM := Registry.Room([], 2)], map[])
  {
    es := Call(s, [], 0, CreateRoom(ROOM, 2));
    m := Final(s, es).mem;
    assert View(s.mem) == Registry.Indexes(map[], map[]);
  }

  lemma TestedEmpty(s: State, es0: seq<Event>, m: Memory) returns (es: seq<Event>)
    requires Legal(s, es0) && Final(s, es0) == State(m, [FREE, FREE])
    requires MapRefs(m) && ROOM in m.rooms && m.heap[m.rooms[ROOM]].peers == []
    ensures Legal(s, es) && Final(s, es) == State(m, [FREE, Thread(map[], WAITING)])
  {
    es := ReachTest(s, es0, m);
    es := FindEmpty(s, es, m, m.rooms[ROOM]);
    es := LetGo(s, es, m, m.rooms[ROOM]);
  }

  lemma JoinedMeanwhile(s: State, es0: seq<Event>, m: Memory) returns (es: seq<Event>, m': Memory)
    requires Legal(s, es0) && Final(s, es0) == State(m, [FREE, Thread(map[], WAITING)])
    requires MapRefs(m) && Unshared(m)
    requires View(m) == Registry.Indexes(map[ROOM := Registry.Room([], 2)], map[])
    ensures Legal(s, es) && es0 <= es && Final(s, es) == State(m', [FREE, Thread(map[], WAITING)])
    ensures MapRefs(m') && ROOM in m'.rooms && LinkedNewly(m, m')
    ensures View(m') == Registry.Indexes(map[ROOM := Registry.Room(["h"], 2)], map["h" := ROOM])
  {
    es := Call(s, es0, 0, TryAddPeerWith("h", ROOM));
    m' := Final(s, es).mem;
    JoinedOne(View(m));
    assert ROOM in View(m').rooms;
  }

  lemma JoinedOne(v: Registry.Indexes)
    requires v == Registry.Indexes(map[ROOM := Registry.Room([], 2)], map[])
    ensures Registry.JoinedTo(v, "h", ROOM, Registry.Accept) ==
      Registry.Indexes(map[ROOM := Registry.Room(["h"], 2)], map["h" := ROOM])
  {
    assert [] + ["h"] == ["h"];
  }

  /** `add_peer` does not check capacity: three calls put three peers in a room for two. */
  lemma AddPeerOverfills() returns (s: State, es: seq<Event>)
    ensures Initial(s) && Legal(s, es)
    ensures var m := Final(s, es).mem;
      MapRefs(m) && View(m).rooms == map[ROOM := Registry.Room(["a", "b", "c"], 2)]
  {
    s := State(Memory(map[], [], map[]), [FREE]);
    es := CreatedAlone(s);
    assert [] + ["a"] == ["a"] && ["a"] + ["b"] == ["a", "b"] && ["a", "b"] + ["c"] == ["a", "b", "c"];
    es := AddOne(s, es, [], "a");
    es := AddOne(s, es, ["a"], "b");
    es := AddOne(s, es, ["a", "b"], "c");
  }

  /** One thread, and one room for two that holds `peers`. */
  ghost predicate Holding(f: State, peers: seq<PeerId>) {
    && f.threads == [FREE] && MapRefs(f.mem) && Unshared(f.mem)
    && View(f.mem).rooms == map[ROOM := Registry.Room(peers, 2)]
    && forall p <- f.mem.index :: p in peers
  }

  lemma CreatedAlone(s: State) returns (es: seq<Event>)
    requires s == State(Memory(map[], [], map[]), [FREE])
    ensures Legal(s, es) && Holding(Final(s, es), [])
  {
    es := Call(s, [], 0, CreateRoom(ROOM, 2));
    assert View(s.mem) == Registry.Indexes(map[], map[]);
    assert View(Final(s, es).mem).index == Final(s, es).mem.index;
  }

  lemma AddOne(s: State, es0: seq<Event>, peers: seq<PeerId>, p: PeerId) returns (es: seq<Event>)
    requires Legal(s, es0) && p !in peers && Holding(Final(s, es0), peers)
    ensures Legal(s, es) && Holding(Final(s, es), peers + [p])
  {
    es := Call(s, es0, 0, AddPeer(p, ROOM));
    AddedOne(View(Final(s, es0).mem), peers, p);
    assert View(Final(s, es).mem).index == Final(s, es).mem.index;
  }

  lemma AddedOne(v: Registry.Indexes, peers: seq<PeerId>, p: PeerId)
    requires v.rooms == map[ROOM := Registry.Room(peers, 2)] && p !in peers && p !in v.index
    ensures var w := Registry.Added(v, p, ROOM);
      && w.rooms == map[ROOM := Registry.Room(peers + [p], 2)] && w.index == v.index[p := ROOM]
  {
  }

  // ---------------------------------------------------------------------------
  // Joined after the room was removed
  // ---------------------------------------------------------------------------

  const GUEST := "h"

  /** Thread 0 has found the room's object and waits for its lock. */
  function Found(o: RoomRef): Thread {
    Thread(map[], Acquire(RoomLock(o), Exclusive, Do(JoinCheck(GUEST, ROOM, o))))
  }

  /** Thread 0 starts a call and takes its first lock. */
  lemma Entered(s: State, es0: seq<Event>, m: Memory, op: Op) returns (es: seq<Event>)
    requires Legal(s, es0) && Final(s, es0) == State(m, [FREE, FREE])
    ensures Program(op).Acquire? && Legal(s, es)
    ensures Final(s, es) == State(m, [Thread(map[Program(op).lock := Program(op).mode], Program(op).next), FREE])
  {
    es := Extend(s, es0, Start(0, op));
    assert Final(s, es) == State(m, [Thread(map[], Program(op)), FREE]);
    es := Extend(s, es, Move(0, YES));
    assert Final(s, es).threads == [Thread(map[Program(op).lock := Program(op).mode], Program(op).next), FREE];
  }

  /** Thread 0 runs a body and lets its only lock go. */
  lemma LeftSection(s: State, es0: seq<Event>, m: Memory, l: Lock, mode: Mode, a: Action, m': Memory, next: Code)
    returns (es: seq<Event>)
    requires Legal(s, es0) && Final(s, es0) == State(m, [Thread(map[l := mode], Do(a)), FREE])
    requires MapRefs(m) && ActionRefs(a, |m.heap|) && ValidChoice(m, a, YES)
    requires Exec(m, a, YES) == (m', Release(l, next))
    ensures Legal(s, es) && Final(s, es) == State(m', [Thread(map[], next), FREE])
  {
    es := Extend(s, es0, Move(0, YES));
    assert Final(s, es) == State(m', [Thread(map[l := mode], Release(l, next)), FREE]);
    es := Extend(s, es, Move(0, YES));
    assert map[l := mode] - {l} == map[];
    assert Final(s, es).threads == [Thread(map[], next), FREE];
  }

  lemma LookedUpFirst(s: State, es0: seq<Event>, m: Memory) returns (es: seq<Event>)
    requires Legal(s, es0) && Final(s, es0) == State(m, [FREE, FREE])
    requires MapRefs(m) && ROOM in m.rooms
    ensures Legal(s, es) && Final(s, es) == State(m, [Found(m.rooms[ROOM]), FREE])
  {
    es := Entered(s, es0, m, TryAddPeerWith(GUEST, ROOM));
    es := LeftSection(s, es, m, RoomsLock, Shared, JoinLookup(GUEST, ROOM), m, Found(m.rooms[ROOM]).code);
  }

  /** What `remove_empty_room` does alone to a memory with the room empty. */
  lemma RemovesAlone(m: Memory)
    requires MapRefs(m) && ROOM in m.rooms && m.heap[m.rooms[ROOM]].peers == []
    ensures CodeRefs(Program(RemoveEmptyRoom(ROOM)), |m.heap|) && Fits(m, Program(RemoveEmptyRoom(ROOM)), YES)
    ensures Drive(m, Program(RemoveEmptyRoom(ROOM)), YES) == m.(rooms := m.rooms - {ROOM})
  {
    var o := m.rooms[ROOM];
    FirstBody(m, RemoveEmptyRoom(ROOM), YES);
    TargetIs(Exec(m, EmptyTest(ROOM, o), YES).1);
    Then(m, EmptyLookup(ROOM), YES, m, Do(EmptyTest(ROOM, o)));
    Then(m, EmptyTest(ROOM, o), YES, m, Do(Unlink(ROOM)));
    Then(m, Unlink(ROOM), YES, m.(rooms := m.rooms - {ROOM}), Idle);
  }

  /** What the rest of the join does alone to the object it found. */
  lemma JoinsAlone(m: Memory, o: RoomRef) returns (m': Memory)
    requires MapRefs(m) && o < |m.heap| && m.heap[o].peers == [] && m.heap[o].max == 2
    ensures CodeRefs(Found(o).code, |m.heap|) && Fits(m, Found(o).code, YES)
    ensures Drive(m, Found(o).code, YES) == m'
    ensures m'.rooms == m.rooms && m'.index == m.index[GUEST := ROOM]
    ensures |m'.heap| == |m.heap| && m'.heap[o].peers == [GUEST]
  {
    Skip(m, Found(o).code, YES);
    var m1 := Exec(m, JoinClosure(GUEST, ROOM, o), YES).0;
    Then(m, JoinCheck(GUEST, ROOM, o), YES, m, Do(JoinClosure(GUEST, ROOM, o)));
    Then(m, JoinClosure(GUEST, ROOM, o), YES, m1, Do(JoinPush(GUEST, ROOM, o)));
    m' := SeatsAlone(m1, o);
  }

  lemma SeatsAlone(m: Memory, o: RoomRef) returns (m': Memory)
    requires MapRefs(m) && o < |m.heap| && m.heap[o].peers == []
    ensures CodeRefs(Do(JoinPush(GUEST, ROOM, o)), |m.heap|) && Fits(m, Do(JoinPush(GUEST, ROOM, o)), YES)
    ensures Drive(m, Do(JoinPush(GUEST, ROOM, o)), YES) == m'
    ensures m'.rooms == m.rooms && m'.index == m.index[GUEST := ROOM]
    ensures |m'.heap| == |m.heap| && m'.heap[o].peers == [GUEST]
  {
    var m1 := Exec(m, JoinPush(GUEST, ROOM, o), YES).0;
    m' := m1.(index := m1.index[GUEST := ROOM]);
    IndexTailTarget(GUEST, ROOM, o);
    Then(m, JoinPush(GUEST, ROOM, o), YES, m1, Do(IndexInsert(GUEST, ROOM)));
    Then(m1, IndexInsert(GUEST, ROOM), YES, m', Idle);
  }

  /** The object that `remove_empty_room` unlinks is empty, and stays so until the unlink is
      done. A join that had looked it up before goes on to push into it and to index the
      peer in a room that is gone. */
  lemma JoinedAfterRemoval() returns (s: State, unlinked: seq<Event>, es: seq<Event>, o: RoomRef)
    ensures Initial(s) && Legal(s, unlinked) && Legal(s, es) && unlinked <= es
    ensures var x := Final(s, unlinked).mem; x.rooms == map[] && o < |x.heap| && x.heap[o].peers == []
    ensures var f := Final(s, es);
      && f.threads == [FREE, FREE]
      && f.mem.rooms == map[] && f.mem.index == map[GUEST := ROOM]
      && o < |f.mem.heap| && f.mem.heap[o].peers == [GUEST]
      && MapRefs(f.mem) && !Registry.Agree(View(f.mem))
  {
    var m;
    s := State(Memory(map[], [], map[]), [FREE, FREE]);
    es, m := CreatedOne(s);
    OneRoom(m);
    o := m.rooms[ROOM];
    es := LookedUpFirst(s, es, m);
    RemovesAlone(m);
    var fs := StartedFinishes(Final(s, es), 1, RemoveEmptyRoom(ROOM), YES);
    LegalConcat(s, es, fs);
    unlinked := es + fs;
    var m1 := m.(rooms := m.rooms - {ROOM});
    assert m1.rooms == map[];
    es := JoinsOn(s, unlinked, m1, o);
    Dangles(Final(s, es).mem);
  }

  lemma OneRoom(m: Memory)
    requires MapRefs(m) && View(m) == Registry.Indexes(map[ROOM := Registry.Room([], 2)], map[])
    ensures ROOM in m.rooms && m.rooms - {ROOM} == map[] && m.index == map[]
    ensures m.heap[m.rooms[ROOM]].peers == [] && m.heap[m.rooms[ROOM]].max == 2
  {
    assert ROOM in View(m).rooms && View(m).rooms[ROOM] == Registry.Room([], 2);
    forall r | r in m.rooms ensures r == ROOM {
      assert r in View(m).rooms;
    }
  }

  lemma JoinsOn(s: State, es0: seq<Event>, m: Memory, o: RoomRef) returns (es: seq<Event>)
    requires Legal(s, es0) && Final(s, es0) == State(m, [Found(o), FREE])
    requires m.rooms == map[] && m.index == map[] && o < |m.heap| && m.heap[o].peers == [] && m.heap[o].max == 2
    ensures Legal(s, es) && es0 <= es
    ensures var f := Final(s, es);
      && f.threads == [FREE, FREE] && f.mem.rooms == map[] && f.mem.index == map[GUEST := ROOM]
      && o < |f.mem.heap| && f.mem.heap[o].peers == [GUEST]
  {
    var m' := JoinsAlone(m, o);
    AcquireFirst(RoomLock(o), Exclusive, JoinCheck(GUEST, ROOM, o));
    var fs := AloneFinishes(Final(s, es0), 0, YES);
    es := es0 + fs;
    LegalConcat(s, es0, fs);
    assert Final(s, es).threads == [FREE, FREE];
  }

  lemma Dangles(m: Memory)
    requires m.rooms == map[] && GUEST in m.index
    ensures MapRefs(m) && !Registry.Agree(View(m))
  {
    assert GUEST in View(m).index && !Registry.Member(View(m), GUEST, View(m).index[GUEST]);
  }

  // ---------------------------------------------------------------------------
  // Added to two rooms at once
  // ---------------------------------------------------------------------------

  /** A legal run without a removing body that ends here. */
  ghost predicate Reached(s: State, es: seq<Event>, m: Memory, threads: seq<Thread>) {
    Legal(s, es) && NeverRemoves(s, es) && Final(s, es) == State(m, threads)
  }

  /** The other thread is in none of the locks thread t is going to take. */
  predicate Apart(threads: seq<Thread>, t: nat, o: RoomRef) {
    && |threads| == 2 && t < 2
    && var held := threads[1 - t].held;
       RoomsLock !in held && IndexLock !in held && RoomLock(o) !in held
  }

  lemma Takes(s: State, es0: seq<Event>, m: Memory, threads: seq<Thread>, t: nat, x: Thread) returns (es: seq<Event>)
    requires t < 2 == |threads| && Reached(s, es0, m, threads[t := x])
    requires x.code.Acquire? && x.code.lock !in x.held && x.code.lock !in threads[1 - t].held
    ensures Reached(s, es, m, threads[t := Thread(x.held[x.code.lock := x.code.mode], x.code.next)])
  {
    es := Extend(s, es0, Move(t, YES));
    assert Final(s, es).threads == threads[t := Thread(x.held[x.code.lock := x.code.mode], x.code.next)];
  }

  lemma Frees(s: State, es0: seq<Event>, m: Memory, threads: seq<Thread>, t: nat, x: Thread) returns (es: seq<Event>)
    requires t < 2 == |threads| && Reached(s, es0, m, threads[t := x])
    requires x.code.Release? && x.code.lock in x.held
    ensures Reached(s, es, m, threads[t := Thread(x.held - {x.code.lock}, x.code.next)])
  {
    es := Extend(s, es0, Move(t, YES));
    assert Final(s, es).threads == threads[t := Thread(x.held - {x.code.lock}, x.code.next)];
  }

  lemma Runs(s: State, es0: seq<Event>, m: Memory, threads: seq<Thread>, t: nat, x: Thread, m': Memory, next: Code)
    returns (es: seq<Event>)
    requires t < 2 == |threads| && Reached(s, es0, m, threads[t := x])
    requires x.code.Do? && MapRefs(m) && ActionRefs(x.code.act, |m.heap|) && ValidChoice(m, x.code.act, YES)
    requires !Removing(x.code.act) && Exec(m, x.code.act, YES) == (m', next)
    ensures Reached(s, es, m', threads[t := Thread(x.held, next)])
  {
    es := Extend(s, es0, Move(t, YES));
    assert Final(s, es).threads == threads[t := Thread(x.held, next)];
  }

  lemma Begins(s: State, es0: seq<Event>, m: Memory, threads: seq<Thread>, t: nat, op: Op) returns (es: seq<Event>)
    requires t < 2 == |threads| && Reached(s, es0, m, threads[t := FREE])
    ensures Reached(s, es, m, threads[t := Thread(map[], Program(op))])
  {
    es := Extend(s, es0, Start(t, op));
    assert Final(s, es).threads == threads[t := Thread(map[], Program(op))];
  }

  function WithRoom(m: Memory, r: RoomId): Memory {
    m.(rooms := m.rooms[r := |m.heap|], heap := m.heap + [EmptyRoom(P2P_MAX)])
  }

  const IN_ROOMS: Guards := map[RoomsLock := Exclusive]
  const READ_ROOMS: Guards := map[RoomsLock := Shared]
  const NONE: Guards := map[]

  function LooksUp(r: RoomId): Code {
    Acquire(RoomsLock, Shared, Do(AddLookup(GUEST, r)))
  }

  function ReadsIndex(r: RoomId, o: RoomRef): Code {
    Acquire(RoomLock(o), Exclusive, Acquire(IndexLock, Shared, Do(AddReadIndex(GUEST, r, o))))
  }

  function Pushes(r: RoomId, o: RoomRef): Thread {
    Thread(map[RoomLock(o) := Exclusive], Do(AddPush(GUEST, r, o)))
  }

  lemma RoomEnsured(s: State, es0: seq<Event>, m: Memory, threads: seq<Thread>, t: nat, r: RoomId)
    returns (es: seq<Event>)
    requires Apart(threads, t, |m.heap|) && Reached(s, es0, m, threads[t := FREE])
    requires MapRefs(m) && r !in m.rooms
    ensures Reached(s, es, WithRoom(m, r), threads[t := Thread(NONE, LooksUp(r))])
  {
    var body := AddEnsure(GUEST, r);
    es := Begins(s, es0, m, threads, t, AddPeer(GUEST, r));
    es := Takes(s, es, m, threads, t, Thread(NONE, Acquire(RoomsLock, Exclusive, Do(body))));
    assert NONE[RoomsLock := Exclusive] == IN_ROOMS && IN_ROOMS - {RoomsLock} == NONE;
    es := Runs(s, es, m, threads, t, Thread(IN_ROOMS, Do(body)), WithRoom(m, r), Release(RoomsLock, LooksUp(r)));
    es := Frees(s, es, WithRoom(m, r), threads, t, Thread(IN_ROOMS, Release(RoomsLock, LooksUp(r))));
  }

  lemma RoomFound(s: State, es0: seq<Event>, m: Memory, threads: seq<Thread>, t: nat, r: RoomId, o: RoomRef)
    returns (es: seq<Event>)
    requires Apart(threads, t, o) && Reached(s, es0, m, threads[t := Thread(NONE, LooksUp(r))])
    requires MapRefs(m) && r in m.rooms && m.rooms[r] == o
    ensures Reached(s, es, m, threads[t := Thread(NONE, ReadsIndex(r, o))])
  {
    es := Takes(s, es0, m, threads, t, Thread(NONE, LooksUp(r)));
    assert NONE[RoomsLock := Shared] == READ_ROOMS && READ_ROOMS - {RoomsLock} == NONE;
    es := Runs(s, es, m, threads, t, Thread(READ_ROOMS, Do(AddLookup(GUEST, r))), m, Release(RoomsLock, ReadsIndex(r, o)));
    es := Frees(s, es, m, threads, t, Thread(READ_ROOMS, Release(RoomsLock, ReadsIndex(r, o))));
  }

  lemma IndexRead(s: State, es0: seq<Event>, m: Memory, threads: seq<Thread>, t: nat, r: RoomId, o: RoomRef)
    returns (es: seq<Event>)
    requires Apart(threads, t, o) && Reached(s, es0, m, threads[t := Thread(NONE, ReadsIndex(r, o))])
    requires MapRefs(m) && o < |m.heap| && GUEST !in m.index
    ensures Reached(s, es, m, threads[t := Pushes(r, o)])
  {
    var one: Guards := map[RoomLock(o) := Exclusive];
    var two := one[IndexLock := Shared];
    assert NONE[RoomLock(o) := Exclusive] == one && two - {IndexLock} == one;
    var body := Do(AddReadIndex(GUEST, r, o));
    es := Takes(s, es0, m, threads, t, Thread(NONE, ReadsIndex(r, o)));
    es := Takes(s, es, m, threads, t, Thread(one, Acquire(IndexLock, Shared, body)));
    es := Runs(s, es, m, threads, t, Thread(two, body), m, Release(IndexLock, Do(AddPush(GUEST, r, o))));
    es := Frees(s, es, m, threads, t, Thread(two, Release(IndexLock, Do(AddPush(GUEST, r, o)))));
  }

  lemma ReadyToPush(s: State, es0: seq<Event>, m: Memory, threads: seq<Thread>, t: nat, r: RoomId)
    returns (es: seq<Event>)
    requires Apart(threads, t, |m.heap|) && Reached(s, es0, m, threads[t := FREE])
    requires MapRefs(m) && r !in m.rooms && GUEST !in m.index
    ensures Reached(s, es, WithRoom(m, r), threads[t := Pushes(r, |m.heap|)])
  {
    var o, m' := |m.heap|, WithRoom(m, r);
    es := RoomEnsured(s, es0, m, threads, t, r);
    es := RoomFound(s, es, m', threads, t, r, o);
    es := IndexRead(s, es, m', threads, t, r, o);
  }

  function Pushed(m: Memory, o: RoomRef): Memory
    requires o < |m.heap|
  {
    m.(heap := m.heap[o := m.heap[o].(peers := [GUEST], unchecked := m.heap[o].unchecked + 1)])
  }

  lemma PushedAndIndexed(s: State, es0: seq<Event>, m: Memory, threads: seq<Thread>, t: nat, r: RoomId, o: RoomRef)
    returns (es: seq<Event>)
    requires Apart(threads, t, o) && Reached(s, es0, m, threads[t := Pushes(r, o)])
    requires MapRefs(m) && o < |m.heap| && m.heap[o].peers == []
    ensures Reached(s, es, Pushed(m, o).(index := m.index[GUEST := r]), threads[t := FREE])
  {
    var one: Guards := map[RoomLock(o) := Exclusive];
    var m' := Pushed(m, o);
    assert m.heap[o].peers + [GUEST] == [GUEST] && one - {RoomLock(o)} == NONE;
    es := Runs(s, es0, m, threads, t, Pushes(r, o), m', IndexTail(GUEST, r, o));
    es := Frees(s, es, m', threads, t, Thread(one, IndexTail(GUEST, r, o)));
    es := Indexed(s, es, m', threads, t, r);
  }

  lemma Indexed(s: State, es0: seq<Event>, m: Memory, threads: seq<Thread>, t: nat, r: RoomId)
    returns (es: seq<Event>)
    requires t < 2 == |threads| && IndexLock !in threads[1 - t].held && MapRefs(m)
    requires Reached(s, es0, m, threads[t := Thread(NONE, Acquire(IndexLock, Exclusive, Do(IndexInsert(GUEST, r))))])
    ensures Reached(s, es, m.(index := m.index[GUEST := r]), threads[t := FREE])
  {
    var one: Guards := map[IndexLock := Exclusive];
    assert NONE[IndexLock := Exclusive] == one && one - {IndexLock} == NONE;
    var body, m' := Do(IndexInsert(GUEST, r)), m.(index := m.index[GUEST := r]);
    es := Takes(s, es0, m, threads, t, Thread(NONE, Acquire(IndexLock, Exclusive, body)));
    es := Runs(s, es, m, threads, t, Thread(one, body), m', Release(IndexLock, Idle));
    es := Frees(s, es, m', threads, t, Thread(one, Release(IndexLock, Idle)));
  }

  /** `add_peer` moves a peer between rooms when nothing interrupts it. Two calls that each
      read the index before the other writes it leave the peer in both rooms. */
  lemma AddedToBoth() returns (s: State, es: seq<Event>)
    ensures Initial(s) && Legal(s, es) && NeverRemoves(s, es)
    ensures var f := Final(s, es);
      && f.threads == [FREE, FREE] && f.mem.index == map[GUEST := "a"]
      && Listed(f.mem, GUEST, "a") && Listed(f.mem, GUEST, "b")
      && MapRefs(f.mem) && !Registry.Agree(View(f.mem)) && !NeverStrays(s, es)
  {
    s := State(Memory(map[], [], map[]), [FREE, FREE]);
    es := BothReady(s);
    es := BothPushed(s, es);
    assert TwoPushed().index == map[GUEST := "a"];
    ListedInBoth(s, es);
  }

  function TwoRooms(): Memory {
    WithRoom(WithRoom(Memory(map[], [], map[]), "a"), "b")
  }

  lemma BothReady(s: State) returns (es: seq<Event>)
    requires s == State(Memory(map[], [], map[]), [FREE, FREE])
    ensures Reached(s, es, TwoRooms(), [Pushes("a", 0), Pushes("b", 1)])
  {
    var a, b := Pushes("a", 0), Pushes("b", 1);
    assert [FREE, FREE][0 := FREE] == [FREE, FREE] && [FREE, FREE][0 := a] == [a, FREE];
    assert [a, FREE][1 := FREE] == [a, FREE] && [a, FREE][1 := b] == [a, b];
    assert Reached(s, [], s.mem, [FREE, FREE]);
    es := ReadyToPush(s, [], s.mem, [FREE, FREE], 0, "a");
    es := ReadyToPush(s, es, WithRoom(s.mem, "a"), [a, FREE], 1, "b");
  }

  function OnePushed(): Memory {
    Pushed(TwoRooms(), 1).(index := TwoRooms().index[GUEST := "b"])
  }

  function TwoPushed(): Memory {
    Pushed(OnePushed(), 0).(index := OnePushed().index[GUEST := "a"])
  }

  lemma BothPushed(s: State, es0: seq<Event>) returns (es: seq<Event>)
    requires Reached(s, es0, TwoRooms(), [Pushes("a", 0), Pushes("b", 1)])
    ensures Reached(s, es, TwoPushed(), [FREE, FREE])
  {
    var a, b := Pushes("a", 0), Pushes("b", 1);
    assert [a, b][1 := b] == [a, b] && [a, b][1 := FREE] == [a, FREE];
    assert [a, FREE][0 := a] == [a, FREE] && [a, FREE][0 := FREE] == [FREE, FREE];
    es := PushedAndIndexed(s, es0, TwoRooms(), [a, b], 1, "b", 1);
    es := PushedAndIndexed(s, es, OnePushed(), [a, FREE], 0, "a", 0);
  }

  lemma ListedInBoth(s: State, es: seq<Event>)
    requires Initial(s) && Legal(s, es) && NeverRemoves(s, es) && Final(s, es).threads == [FREE, FREE]
    requires Listed(Final(s, es).mem, GUEST, "a") && Listed(Final(s, es).mem, GUEST, "b")
    ensures MapRefs(Final(s, es).mem) && !Registry.Agree(View(Final(s, es).mem)) && !NeverStrays(s, es)
  {
    var f := Final(s, es).mem;
    OverlappedAgreesIff(s, es);
    assert Registry.Member(View(f), GUEST, "a") && Registry.Member(View(f), GUEST, "b");
  }

  // ---------------------------------------------------------------------------
  // Left while rejoining
  // ---------------------------------------------------------------------------

  const LEAVING := Acquire(RoomsLock, Shared, Do(LeaveLookup(GUEST, ROOM, false)))

  lemma LeaveBegun(s: State, es0: seq<Event>, m: Memory) returns (es: seq<Event>)
    requires Legal(s, es0) && Final(s, es0) == State(m, [FREE, FREE])
    requires MapRefs(m) && GUEST in m.index && m.index[GUEST] == ROOM
    ensures Legal(s, es) && Final(s, es) == State(m.(index := m.index - {GUEST}), [Thread(map[], LEAVING), FREE])
  {
    es := Entered(s, es0, m, RemovePeer(GUEST, false));
    es := LeftSection(s, es, m, IndexLock, Exclusive, IndexRemove(GUEST, false), m.(index := m.index - {GUEST}), LEAVING);
  }

  lemma LeaveEnded(s: State, es0: seq<Event>, m: Memory) returns (es: seq<Event>)
    requires Legal(s, es0) && Final(s, es0) == State(m, [Thread(map[], LEAVING), FREE])
    requires MapRefs(m) && Unshared(m) && ROOM in m.rooms
    ensures Legal(s, es) && Final(s, es).threads == [FREE, FREE] && MapRefs(Final(s, es).mem)
    ensures View(Final(s, es).mem) ==
      Registry.Indexes(Registry.Evicted(View(m).rooms, GUEST, ROOM, false), m.index)
  {
    LeaveLookupAlone(m, GUEST, ROOM, false, YES);
    Skip(m, LEAVING, YES);
    AcquireFirst(RoomsLock, Shared, LeaveLookup(GUEST, ROOM, false));
    var fs := AloneFinishes(Final(s, es0), 0, YES);
    es := es0 + fs;
    LegalConcat(s, es0, fs);
    assert Final(s, es).threads == [FREE, FREE];
  }

  /** A peer leaves and joins again at the same time: the join still finds it listed and
      indexes it, then the leave takes it out. It ends up indexed in a room that does not
      list it. */
  lemma LeftWhileRejoining() returns (s: State, es: seq<Event>)
    ensures Initial(s) && Legal(s, es)
    ensures var f := Final(s, es);
      && f.threads == [FREE, FREE] && MapRefs(f.mem)
      && View(f.mem) == Registry.Indexes(map[ROOM := Registry.Room([], 2)], map[GUEST := ROOM])
      && !Registry.Agree(View(f.mem))
  {
    var m;
    s := State(Memory(map[], [], map[]), [FREE, FREE]);
    es, m := CreatedOne(s);
    es, m := JoinedFirst(s, es, m);
    es := LeaveBegun(s, es, m);
    es, m := Rejoined(s, es, m);
    es := LeaveEnded(s, es, m);
    EvictedAlone(View(m));
  }

  lemma Rejoined(s: State, es0: seq<Event>, m: Memory) returns (es: seq<Event>, m': Memory)
    requires MapRefs(m) && Unshared(m) && m.index == map[GUEST := ROOM]
    requires View(m) == Registry.Indexes(map[ROOM := Registry.Room([GUEST], 2)], map[GUEST := ROOM])
    requires Legal(s, es0)
    requires Final(s, es0) == State(m.(index := m.index - {GUEST}), [Thread(map[], LEAVING), FREE])
    ensures Legal(s, es) && Final(s, es) == State(m', [Thread(map[], LEAVING), FREE])
    ensures MapRefs(m') && Unshared(m') && ROOM in m'.rooms && View(m') == View(m)
    ensures m'.index == map[GUEST := ROOM]
  {
    var left := m.(index := m.index - {GUEST});
    assert View(left).rooms == View(m).rooms && View(left).index == map[];
    RejoinedOne(View(left));
    es := Call(s, es0, 1, TryAddPeerWith(GUEST, ROOM));
    m' := Final(s, es).mem;
    assert ROOM in View(m').rooms;
  }

  lemma RejoinedOne(v: Registry.Indexes)
    requires v == Registry.Indexes(map[ROOM := Registry.Room([GUEST], 2)], map[])
    ensures Registry.JoinedTo(v, GUEST, ROOM, Registry.Accept) == v.(index := map[GUEST := ROOM])
  {
  }

  lemma JoinedFirst(s: State, es0: seq<Event>, m: Memory) returns (es: seq<Event>, m': Memory)
    requires Legal(s, es0) && Final(s, es0) == State(m, [FREE, FREE]) && MapRefs(m) && Unshared(m)
    requires View(m) == Registry.Indexes(map[ROOM := Registry.Room([], 2)], map[])
    ensures Legal(s, es) && Final(s, es) == State(m', [FREE, FREE]) && MapRefs(m') && Unshared(m')
    ensures View(m') == Registry.Indexes(map[ROOM := Registry.Room([GUEST], 2)], map[GUEST := ROOM])
    ensures m'.index == map[GUEST := ROOM]
  {
    es := Call(s, es0, 0, TryAddPeerWith(GUEST, ROOM));
    m' := Final(s, es).mem;
    JoinedOne(View(m));
  }

  lemma EvictedAlone(v: Registry.Indexes)
    requires v == Registry.Indexes(map[ROOM := Registry.Room([GUEST], 2)], map[GUEST := ROOM])
    ensures Registry.Evicted(v.rooms, GUEST, ROOM, false) == map[ROOM := Registry.Room([], 2)]
    ensures var w := Registry.Indexes(map[ROOM := Registry.Room([], 2)], map[GUEST := ROOM]); !Registry.Agree(w)
  {
    assert Without([GUEST], GUEST) == [];
    var w := Registry.Indexes(map[ROOM := Registry.Room([], 2)], map[GUEST := ROOM]);
    assert GUEST in w.index && !Registry.Member(w, GUEST, w.index[GUEST]);
  }
}
