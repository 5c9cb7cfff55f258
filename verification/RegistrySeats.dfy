/**
  From the lookup of a room to the reverse index: a thread that seats a peer looks the
  room up, pushes the peer into the object it found and enters the peer in the reverse
  index, in three lock sections. Is the peer still in the room of that name by then?
 */
module RegistrySeats {
  import opened RegistrySteps
  import opened RegistryRuns
  import opened RegistryUnlinks
  import opened RegistryOverlaps
  import opened RegistryRest

  // ---------------------------------------------------------------------------
  // The three bodies
  // ---------------------------------------------------------------------------

  /** The lookups of a room to seat a peer in. */
  predicate Seeks(a: Action, p: PeerId, r: RoomId) {
    (a.JoinLookup? || a.AddLookup? || a.MoveLookupNew?) && a.peer == p && a.room == r
  }

  /** The bodies between the lookup and the seat, with the object that was found. */
  predicate Holds(a: Action, p: PeerId, r: RoomId, o: RoomRef) {
    HoldsRef(a) && a.peer == p && a.room == r && a.ref == o
  }

  /** After this body the object lists the peer: it is pushed, or found there. */
  predicate Seats(m: Memory, a: Action, p: PeerId, r: RoomId, o: RoomRef) {
    && Holds(a, p, r, o) && o < |m.heap|
    && (a.JoinPush? || a.AddPush? || (a.JoinCheck? && p in m.heap[o].peers))
  }

  predicate Holding(code: Code, p: PeerId, r: RoomId, o: RoomRef) {
    Target(code).Do? && Holds(Target(code).act, p, r, o)
  }

  /** About to enter the peer in the reverse index. */
  predicate Committing(code: Code, p: PeerId, r: RoomId) {
    Target(code) == Do(IndexInsert(p, r))
  }

  lemma ExecCommits(m: Memory, a: Action, c: Choice, p: PeerId, r: RoomId)
    requires MapRefs(m) && ActionRefs(a, |m.heap|) && ValidChoice(m, a, c)
    requires Committing(Exec(m, a, c).1, p, r)
    ensures HoldsRef(a) && Seats(m, a, p, r, a.ref) && In(Exec(m, a, c).0, p, a.ref)
  {
    TargetIs(Exec(m, a, c).1);
  }

  lemma ExecHolds(m: Memory, a: Action, c: Choice, p: PeerId, r: RoomId, o: RoomRef)
    requires MapRefs(m) && ActionRefs(a, |m.heap|) && ValidChoice(m, a, c)
    requires Holding(Exec(m, a, c).1, p, r, o)
    ensures (Seeks(a, p, r) && Linked(m, r, o)) || Holds(a, p, r, o)
  {
    TargetIs(Exec(m, a, c).1);
  }

  lemma StartSeats(op: Op, p: PeerId, r: RoomId, o: RoomRef)
    ensures !Committing(Program(op), p, r) && !Holding(Program(op), p, r, o)
  {
    TargetIs(Program(op));
  }

  // ---------------------------------------------------------------------------
  // Windows
  // ---------------------------------------------------------------------------

  /** Thread t is between its seat and its commit in every state of the run. */
  predicate AllCommitting(s: State, es: seq<Event>, t: nat, p: PeerId, r: RoomId)
    requires Legal(s, es) && t < |s.threads|
    decreases es
  {
    Committing(s.threads[t].code, p, r) && (es != [] ==> AllCommitting(Apply(s, es[0]), es[1..], t, p, r))
  }

  /** Thread t is between its lookup and its commit in every state of the run. */
  predicate Tracked(s: State, es: seq<Event>, t: nat, p: PeerId, r: RoomId, o: RoomRef)
    requires Legal(s, es) && t < |s.threads|
    decreases es
  {
    && (Holding(s.threads[t].code, p, r, o) || Committing(s.threads[t].code, p, r))
    && (es != [] ==> Tracked(Apply(s, es[0]), es[1..], t, p, r, o))
  }

  lemma {:induction false} CommittingIsTracked(s: State, es: seq<Event>, t: nat, p: PeerId, r: RoomId, o: RoomRef)
    requires Legal(s, es) && t < |s.threads| && AllCommitting(s, es, t, p, r)
    ensures Tracked(s, es, t, p, r, o)
    decreases es
  {
    if es != [] {
      CommittingIsTracked(Apply(s, es[0]), es[1..], t, p, r, o);
    }
  }

  /** Event j seats the peer, and the thread has been about to enter it ever since. */
  predicate SeatedAt(s: State, es: seq<Event>, t: nat, j: nat, p: PeerId, r: RoomId, o: RoomRef)
    requires Legal(s, es)
  {
    && j < |es| && es[j].Move? && es[j].t == t
    && var x := At(s, es, j);
       && t < |x.threads| && x.threads[t].code.Do? && Seats(x.mem, x.threads[t].code.act, p, r, o)
       && var y := At(s, es, j + 1);
          t < |y.threads| && AllCommitting(y, es[j + 1..], t, p, r) && In(y.mem, p, o)
  }

  /** Event k finds the object under the name, and the thread has held it ever since. */
  predicate SoughtAt(s: State, es: seq<Event>, t: nat, k: nat, p: PeerId, r: RoomId, o: RoomRef)
    requires Legal(s, es)
  {
    && k < |es| && es[k].Move? && es[k].t == t
    && var x := At(s, es, k);
       && t < |x.threads| && x.threads[t].code.Do? && Seeks(x.threads[t].code.act, p, r) && Linked(x.mem, r, o)
       && var y := At(s, es, k + 1);
          t < |y.threads| && Tracked(y, es[k + 1..], t, p, r, o)
  }

  lemma LaterSeat(s: State, es: seq<Event>, t: nat, j: nat, p: PeerId, r: RoomId, o: RoomRef)
    requires es != [] && Legal(s, es) && SeatedAt(Apply(s, es[0]), es[1..], t, j, p, r, o)
    ensures SeatedAt(s, es, t, j + 1, p, r, o)
  {
    assert es[1..][j + 1..] == es[j + 2..];
  }

  lemma EarlierSeat(s: State, es: seq<Event>, t: nat, j: nat, p: PeerId, r: RoomId, o: RoomRef)
    requires es != [] && Legal(s, es) && SeatedAt(s, es, t, j + 1, p, r, o)
    ensures SeatedAt(Apply(s, es[0]), es[1..], t, j, p, r, o)
  {
    assert es[1..][j + 1..] == es[j + 2..];
  }

  lemma LaterSought(s: State, es: seq<Event>, t: nat, k: nat, p: PeerId, r: RoomId, o: RoomRef)
    requires es != [] && Legal(s, es) && SoughtAt(Apply(s, es[0]), es[1..], t, k, p, r, o)
    ensures SoughtAt(s, es, t, k + 1, p, r, o)
  {
    assert es[1..][k + 1..] == es[k + 2..];
  }

  lemma CommitStep(s: State, e: Event, t: nat, p: PeerId, r: RoomId)
    requires Enabled(s, e) && t < |s.threads| && Committing(Apply(s, e).threads[t].code, p, r)
    ensures Committing(s.threads[t].code, p, r) ||
      (&& e.Move? && e.t == t && s.threads[t].code.Do? && HoldsRef(s.threads[t].code.act)
       && Seats(s.mem, s.threads[t].code.act, p, r, s.threads[t].code.act.ref)
       && In(Apply(s, e).mem, p, s.threads[t].code.act.ref))
  {
    if e.t == t {
      if e.Start? {
        StartSeats(e.op, p, r, 0);
      } else if s.threads[t].code.Do? {
        ExecCommits(s.mem, s.threads[t].code.act, e.choice, p, r);
      }
    }
  }

  /** A thread about to enter a peer has seated it, in this run or before. */
  lemma {:induction false} SeatBegan(s: State, es: seq<Event>, t: nat, p: PeerId, r: RoomId)
    returns (j: int, o: RoomRef)
    requires Legal(s, es) && t < |s.threads|
    requires t < |Final(s, es).threads| && Committing(Final(s, es).threads[t].code, p, r)
    ensures if j >= 0 then SeatedAt(s, es, t, j, p, r, o) else AllCommitting(s, es, t, p, r)
    decreases es
  {
    if es == [] {
      return -1, 0;
    }
    j, o := SeatBegan(Apply(s, es[0]), es[1..], t, p, r);
    if j >= 0 {
      LaterSeat(s, es, t, j, p, r, o);
      j := j + 1;
    } else {
      CommitStep(s, es[0], t, p, r);
      if !Committing(s.threads[t].code, p, r) {
        FirstEvent(s, es);
        j, o := 0, s.threads[t].code.act.ref;
      }
    }
  }

  lemma FirstEvent(s: State, es: seq<Event>)
    requires es != [] && Legal(s, es)
    ensures At(s, es, 0) == s && At(s, es, 1) == Apply(s, es[0])
  {
    assert At(Apply(s, es[0]), es[1..], 0) == Apply(s, es[0]);
  }

  lemma HoldStep(s: State, e: Event, t: nat, p: PeerId, r: RoomId, o: RoomRef)
    requires Enabled(s, e) && t < |s.threads| && Holding(Apply(s, e).threads[t].code, p, r, o)
    ensures Holding(s.threads[t].code, p, r, o) ||
      (e.Move? && e.t == t && s.threads[t].code.Do? && Seeks(s.threads[t].code.act, p, r) && Linked(s.mem, r, o))
  {
    if e.t == t {
      if e.Start? {
        StartSeats(e.op, p, r, o);
      } else if s.threads[t].code.Do? {
        ExecHolds(s.mem, s.threads[t].code.act, e.choice, p, r, o);
      }
    }
  }

  /** Before the seat came the lookup, in this run or before. */
  lemma {:induction false} SeekBegan(s: State, es: seq<Event>, t: nat, j: nat, p: PeerId, r: RoomId, o: RoomRef)
    returns (k: int)
    requires Legal(s, es) && t < |s.threads| && SeatedAt(s, es, t, j, p, r, o)
    ensures k < j
    ensures if k >= 0 then SoughtAt(s, es, t, k, p, r, o)
      else Holding(s.threads[t].code, p, r, o) && Tracked(s, es, t, p, r, o)
    decreases es
  {
    FirstEvent(s, es);
    if j == 0 {
      CommittingIsTracked(Apply(s, es[0]), es[1..], t, p, r, o);
      return -1;
    }
    EarlierSeat(s, es, t, j - 1, p, r, o);
    k := SeekBegan(Apply(s, es[0]), es[1..], t, j - 1, p, r, o);
    if k >= 0 {
      LaterSought(s, es, t, k, p, r, o);
      k := k + 1;
    } else {
      HoldStep(s, es[0], t, p, r, o);
      if !Holding(s.threads[t].code, p, r, o) {
        k := 0;
      }
    }
  }

  // ---------------------------------------------------------------------------
  // Still under the name, still listed
  // ---------------------------------------------------------------------------

  predicate UnlinksNow(s: State, e: Event, r: RoomId)
    requires Enabled(s, e)
  {
    e.Move? && s.threads[e.t].code.Do? && Unlinks(s.threads[e.t].code.act, r)
  }

  predicate NeverUnlinked(s: State, es: seq<Event>, r: RoomId)
    requires Legal(s, es)
    decreases es
  {
    es == [] || (!UnlinksNow(s, es[0], r) && NeverUnlinked(Apply(s, es[0]), es[1..], r))
  }

  /** An object stays under its name exactly as long as the name is not unlinked. */
  lemma {:induction false} LinkedIff(s: State, es: seq<Event>, r: RoomId, o: RoomRef)
    requires Legal(s, es) && MapRefs(s.mem) && Linked(s.mem, r, o)
    ensures Linked(Final(s, es).mem, r, o) <==> NeverUnlinked(s, es, r)
    decreases es
  {
    if es != [] {
      var e, s' := es[0], Apply(s, es[0]);
      if e.Move? && s.threads[e.t].code.Do? {
        ExecNames(s.mem, s.threads[e.t].code.act, e.choice, r);
        ExecRefs(s.mem, s.threads[e.t].code.act, e.choice);
      }
      if UnlinksNow(s, e, r) {
        LinkedBefore(s', es[1..], r);
      } else {
        LinkedIff(s', es[1..], r, o);
      }
    }
  }

  /** In every reachable state in which a thread is about to enter a peer in the reverse
      index: the object it looked up is still the room of that name if and only if the
      name was not unlinked since the lookup, and it lists the peer if and only if nobody
      took the peer out since the seat, or somebody put it in again. */
  lemma SeatKeptIff(s: State, es: seq<Event>, t: nat, p: PeerId, r: RoomId) returns (k: nat, j: nat, o: RoomRef)
    requires Initial(s) && Legal(s, es) && t < |Final(s, es).threads|
    requires Committing(Final(s, es).threads[t].code, p, r)
    ensures k < j && SoughtAt(s, es, t, k, p, r, o) && SeatedAt(s, es, t, j, p, r, o)
    ensures Linked(Final(s, es).mem, r, o) <==> NeverUnlinked(At(s, es, k), es[k..], r)
    ensures In(Final(s, es).mem, p, o) <==>
      NeverTaken(At(s, es, j + 1), es[j + 1..], p, o) || LeftIn(At(s, es, j + 1), es[j + 1..], p, o)
  {
    SameThreads(s, es);
    var i;
    i, o := SeatBegan(s, es, t, p, r);
    assert i >= 0;
    j := i;
    i := SeekBegan(s, es, t, j, p, r, o);
    assert i >= 0;
    k := i;
    InitialInvariant(s);
    AtMapped(s, es, k);
    LinkedIff(At(s, es, k), es[k..], r, o);
    MembersIff(At(s, es, j + 1), es[j + 1..], p, o);
  }

  // ---------------------------------------------------------------------------
  // With one call at a time on the peer
  // ---------------------------------------------------------------------------

  predicate Sole(s: State, p: PeerId) {
    forall t, u :: 0 <= t < u < |s.threads| ==> !(Working(s.threads[t].code, p) && Working(s.threads[u].code, p))
  }

  lemma WorkingBefore(s: State, e: Event, t: nat, p: PeerId)
    requires Enabled(s, e) && t < |s.threads| && Working(Apply(s, e).threads[t].code, p)
    ensures Working(s.threads[t].code, p) || (e.Start? && e.t == t && Concerns(e.op, p))
  {
    if e.t == t {
      if e.Start? {
        StartElsewhere(e.op, p);
      } else if s.threads[t].code.Do? && !On(s.threads[t].code.act, p) {
        NextNotOn(s.mem, s.threads[t].code.act, e.choice, p);
      }
    }
  }

  lemma StepSole(s: State, e: Event, p: PeerId)
    requires Sole(s, p) && Enabled(s, e)
    requires e.Start? && Concerns(e.op, p) ==> AtRest(s, p)
    ensures Sole(Apply(s, e), p)
  {
    forall t, u | 0 <= t < u < |s.threads|
      ensures !(Working(Apply(s, e).threads[t].code, p) && Working(Apply(s, e).threads[u].code, p))
    {
      if Working(Apply(s, e).threads[t].code, p) {
        WorkingBefore(s, e, t, p);
      }
      if Working(Apply(s, e).threads[u].code, p) {
        WorkingBefore(s, e, u, p);
      }
    }
  }

  lemma {:induction false} SoleAt(s: State, es: seq<Event>, i: nat, p: PeerId)
    requires Legal(s, es) && OneCall(s, es, p) && Sole(s, p) && i <= |es|
    ensures Sole(At(s, es, i), p) && OneCall(At(s, es, i), es[i..], p)
    decreases es
  {
    if i == 0 {
      assert es[0..] == es;
    } else {
      StepSole(s, es[0], p);
      SoleAt(Apply(s, es[0]), es[1..], i - 1, p);
      assert es[1..][i - 1..] == es[i..];
    }
  }

  /** While a call holds an object for a peer, nothing puts the peer in another. */
  lemma {:induction false} PutNowhereElse(s: State, es: seq<Event>, t: nat, p: PeerId, r: RoomId, o: RoomRef, o': RoomRef)
    requires Legal(s, es) && OneCall(s, es, p) && Sole(s, p) && t < |s.threads|
    requires Tracked(s, es, t, p, r, o) && o' != o
    ensures NeverPut(s, es, p, o')
    decreases es
  {
    if es != [] {
      var e := es[0];
      if PutsNow(s, e, p, o') {
        TrackWorks(s.threads[t].code, p, r, o);
        assert Working(s.threads[e.t].code, p);
      }
      StepSole(s, e, p);
      PutNowhereElse(Apply(s, e), es[1..], t, p, r, o, o');
    }
  }

  lemma TrackWorks(code: Code, p: PeerId, r: RoomId, o: RoomRef)
    requires Holding(code, p, r, o) || Committing(code, p, r)
    ensures Working(code, p)
  {
  }

  /** And from the seat on nothing takes it out. */
  lemma {:induction false} TakenByNone(s: State, es: seq<Event>, t: nat, p: PeerId, r: RoomId, o: RoomRef)
    requires Legal(s, es) && OneCall(s, es, p) && Sole(s, p) && t < |s.threads|
    requires AllCommitting(s, es, t, p, r)
    ensures NeverTaken(s, es, p, o)
    decreases es
  {
    if es != [] {
      var e := es[0];
      if TakesNow(s, e, p, o) {
        TrackWorks(s.threads[t].code, p, r, o);
        assert Working(s.threads[e.t].code, p);
      }
      StepSole(s, e, p);
      TakenByNone(Apply(s, e), es[1..], t, p, r, o);
    }
  }

  lemma {:induction false} NeverPutNeverLeft(s: State, es: seq<Event>, p: PeerId, o: RoomRef)
    requires Legal(s, es) && NeverPut(s, es, p, o)
    ensures !LeftIn(s, es, p, o)
    decreases es
  {
    if es != [] {
      NeverPutNeverLeft(Apply(s, es[0]), es[1..], p, o);
    }
  }

  /** Where calls on the peer do not overlap: when a thread is about to enter it, the room
      of that name lists it if and only if the name was not unlinked since the lookup. */
  lemma EntersListedIff(s: State, es: seq<Event>, t: nat, p: PeerId, r: RoomId) returns (k: nat, o: RoomRef)
    requires Initial(s) && Legal(s, es) && OneCall(s, es, p) && t < |Final(s, es).threads|
    requires Committing(Final(s, es).threads[t].code, p, r)
    ensures SoughtAt(s, es, t, k, p, r, o)
    ensures Listed(Final(s, es).mem, p, r) <==> NeverUnlinked(At(s, es, k), es[k..], r)
  {
    var j;
    k, j, o := SeatKeptIff(s, es, t, p, r);
    StaysSeated(s, es, t, j, p, r, o);
    if Listed(Final(s, es).mem, p, r) && Final(s, es).mem.rooms[r] != o {
      SoleAt(s, es, k + 1, p);
      NotElsewhere(s, es, t, k, p, r, o, Final(s, es).mem.rooms[r]);
    }
  }

  lemma StaysSeated(s: State, es: seq<Event>, t: nat, j: nat, p: PeerId, r: RoomId, o: RoomRef)
    requires Initial(s) && Legal(s, es) && OneCall(s, es, p) && SeatedAt(s, es, t, j, p, r, o)
    ensures In(Final(s, es).mem, p, o)
  {
    SoleAt(s, es, j + 1, p);
    TakenByNone(At(s, es, j + 1), es[j + 1..], t, p, r, o);
    MembersIff(At(s, es, j + 1), es[j + 1..], p, o);
  }

  lemma NotElsewhere(s: State, es: seq<Event>, t: nat, k: nat, p: PeerId, r: RoomId, o: RoomRef, o': RoomRef)
    requires Legal(s, es) && SoughtAt(s, es, t, k, p, r, o)
    requires OneCall(At(s, es, k + 1), es[k + 1..], p) && Sole(At(s, es, k + 1), p)
    requires Linked(Final(s, es).mem, r, o') && o' != o
    ensures !In(Final(s, es).mem, p, o')
  {
    var x, y := At(s, es, k), At(s, es, k + 1);
    assert es[k..][1..] == es[k + 1..] && es[k..][0] == es[k];
    LinkedBefore(x, es[k..], r);
    NextState(s, es, k);
    assert y.mem == x.mem by {
      TargetIs(Exec(x.mem, x.threads[t].code.act, es[k].choice).1);
    }
    MembersIff(y, es[k + 1..], p, o');
    PutNowhereElse(y, es[k + 1..], t, p, r, o, o');
    NeverPutNeverLeft(y, es[k + 1..], p, o');
  }

  lemma {:induction false} NextState(s: State, es: seq<Event>, k: nat)
    requires Legal(s, es) && k < |es|
    ensures Enabled(At(s, es, k), es[k]) && At(s, es, k + 1) == Apply(At(s, es, k), es[k])
    decreases es
  {
    if k == 0 {
      FirstEvent(s, es);
    } else {
      NextState(Apply(s, es[0]), es[1..], k - 1);
    }
  }
}
