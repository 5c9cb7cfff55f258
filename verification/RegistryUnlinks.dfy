/**
  What an unlink takes out of the room map. The registry looks a room up by its name,
  tests its object for peers and unlinks the name in three lock sections; between them
  other threads may join, leave, unlink the name or link a new object under it.
 */
module RegistryUnlinks {
  import opened RegistrySteps
  import opened RegistryRuns

  // ---------------------------------------------------------------------------
  // Who is in a room object
  // ---------------------------------------------------------------------------

  predicate Puts(a: Action, p: PeerId, o: RoomRef) {
    (a.JoinPush? || a.AddPush?) && a.peer == p && a.ref == o
  }

  predicate Takes(a: Action, p: PeerId, o: RoomRef) {
    (a.LeaveRetain? || a.MoveRetain?) && a.peer == p && a.ref == o
  }

  /** The event runs a body that puts the peer in the object. */
  predicate PutsNow(s: State, e: Event, p: PeerId, o: RoomRef)
    requires Enabled(s, e)
  {
    e.Move? && s.threads[e.t].code.Do? && Puts(s.threads[e.t].code.act, p, o)
  }

  predicate TakesNow(s: State, e: Event, p: PeerId, o: RoomRef)
    requires Enabled(s, e)
  {
    e.Move? && s.threads[e.t].code.Do? && Takes(s.threads[e.t].code.act, p, o)
  }

  predicate NeverTaken(s: State, es: seq<Event>, p: PeerId, o: RoomRef)
    requires Legal(s, es)
    decreases es
  {
    es == [] || (!TakesNow(s, es[0], p, o) && NeverTaken(Apply(s, es[0]), es[1..], p, o))
  }

  predicate NeverPut(s: State, es: seq<Event>, p: PeerId, o: RoomRef)
    requires Legal(s, es)
    decreases es
  {
    es == [] || (!PutsNow(s, es[0], p, o) && NeverPut(Apply(s, es[0]), es[1..], p, o))
  }

  /** Some event puts the peer in the object and none after it takes the peer out. */
  predicate LeftIn(s: State, es: seq<Event>, p: PeerId, o: RoomRef)
    requires Legal(s, es)
    decreases es
  {
    && es != []
    && var s' := Apply(s, es[0]);
       LeftIn(s', es[1..], p, o) || (PutsNow(s, es[0], p, o) && NeverTaken(s', es[1..], p, o))
  }

  predicate In(m: Memory, p: PeerId, o: RoomRef) {
    o < |m.heap| && p in m.heap[o].peers
  }

  lemma ExecMembers(m: Memory, a: Action, c: Choice, p: PeerId, o: RoomRef)
    requires MapRefs(m) && ActionRefs(a, |m.heap|) && ValidChoice(m, a, c)
    ensures |m.heap| <= |Exec(m, a, c).0.heap|
    ensures In(Exec(m, a, c).0, p, o) <==> Puts(a, p, o) || (In(m, p, o) && !Takes(a, p, o))
  {
  }

  lemma StepMembers(s: State, e: Event, p: PeerId, o: RoomRef)
    requires Enabled(s, e)
    ensures |s.mem.heap| <= |Apply(s, e).mem.heap|
    ensures In(Apply(s, e).mem, p, o) <==> PutsNow(s, e, p, o) || (In(s.mem, p, o) && !TakesNow(s, e, p, o))
  {
    if e.Move? && s.threads[e.t].code.Do? {
      ExecMembers(s.mem, s.threads[e.t].code.act, e.choice, p, o);
    }
  }

  /** Over every run: a peer is in an object at the end if and only if the run left it
      there, or it was there and was never taken out. */
  lemma {:induction false} MembersIff(s: State, es: seq<Event>, p: PeerId, o: RoomRef)
    requires Legal(s, es)
    ensures |s.mem.heap| <= |Final(s, es).mem.heap|
    ensures In(Final(s, es).mem, p, o) <==>
      LeftIn(s, es, p, o) || (In(s.mem, p, o) && NeverTaken(s, es, p, o))
    decreases es
  {
    if es != [] {
      StepMembers(s, es[0], p, o);
      MembersIff(Apply(s, es[0]), es[1..], p, o);
    }
  }

  /** From the start of the registry: linked or not, an object holds exactly the peers
      whose last insertion into it was not followed by an eviction from it. */
  lemma ListedIff(s: State, es: seq<Event>, p: PeerId, o: RoomRef)
    requires Initial(s) && Legal(s, es)
    ensures In(Final(s, es).mem, p, o) <==> LeftIn(s, es, p, o)
  {
    MembersIff(s, es, p, o);
  }

  /** Where nobody is taken out, being left in is having been put in. */
  lemma {:induction false} LeftInIffPut(s: State, es: seq<Event>, p: PeerId, o: RoomRef)
    requires Legal(s, es) && NeverTaken(s, es, p, o)
    ensures LeftIn(s, es, p, o) <==> !NeverPut(s, es, p, o)
    decreases es
  {
    if es != [] {
      LeftInIffPut(Apply(s, es[0]), es[1..], p, o);
    }
  }

  // ---------------------------------------------------------------------------
  // Names
  // ---------------------------------------------------------------------------

  /** A name is only ever linked to a new object. */
  lemma ExecLinks(m: Memory, a: Action, c: Choice, r: RoomId)
    requires MapRefs(m) && ActionRefs(a, |m.heap|) && ValidChoice(m, a, c)
    ensures var m' := Exec(m, a, c).0;
      && |m.heap| <= |m'.heap|
      && (r in m'.rooms && m'.rooms[r] < |m.heap| ==> r in m.rooms && m.rooms[r] == m'.rooms[r])
  {
    ExecRooms(m, a, c);
    ExecRefs(m, a, c);
  }

  lemma {:induction false} LinkedBefore(s: State, es: seq<Event>, r: RoomId)
    requires Legal(s, es)
    ensures |s.mem.heap| <= |Final(s, es).mem.heap|
    ensures var m, m' := s.mem, Final(s, es).mem;
      r in m'.rooms && m'.rooms[r] < |m.heap| ==> r in m.rooms && m.rooms[r] == m'.rooms[r]
    decreases es
  {
    if es != [] {
      var e := es[0];
      if e.Move? && s.threads[e.t].code.Do? {
        ExecLinks(s.mem, s.threads[e.t].code.act, e.choice, r);
      }
      LinkedBefore(Apply(s, e), es[1..], r);
    }
  }

  // ---------------------------------------------------------------------------
  // From the lookup to the unlink
  // ---------------------------------------------------------------------------

  /** The lookups by which `remove_empty_room`, leaving and moving find a room. */
  predicate Looks(a: Action, r: RoomId) {
    || (a.EmptyLookup? && a.room == r)
    || (a.LeaveLookup? && a.room == r)
    || (a.MoveLookupOld? && a.prev == r)
  }

  /** The bodies that see whether the object they found under the name has peers. */
  predicate TestsName(a: Action, r: RoomId) {
    || (a.EmptyTest? && a.room == r)
    || (a.LeaveRetain? && a.room == r)
    || (a.MoveRetain? && a.prev == r)
  }

  predicate Tests(a: Action, r: RoomId, o: RoomRef) {
    TestsName(a, r) && a.ref == o
  }

  /** The bodies that take a name out of the map. */
  predicate Unlinks(a: Action, r: RoomId) {
    || (a.Unlink? && a.room == r)
    || (a.MoveUnlink? && a.prev == r)
  }

  /** Past the test with the name left alone, or past the unlink. */
  predicate Through(code: Code) {
    var d := Target(code);
    d.Idle? || (d.Do? && (d.act.MoveLookupNew? || d.act.AddPush? || d.act.IndexInsert?))
  }

  predicate Testing(code: Code, r: RoomId, o: RoomRef) {
    Target(code).Do? && Tests(Target(code).act, r, o)
  }

  predicate Unlinking(code: Code, r: RoomId) {
    Target(code).Do? && Unlinks(Target(code).act, r)
  }

  predicate Starts(e: Event, t: nat) {
    e.Start? && e.t == t
  }

  predicate NoStart(es: seq<Event>, t: nat) {
    forall i :: 0 <= i < |es| ==> !Starts(es[i], t)
  }

  lemma ExecLooks(m: Memory, a: Action, c: Choice, r: RoomId)
    requires MapRefs(m) && ActionRefs(a, |m.heap|) && ValidChoice(m, a, c) && Looks(a, r)
    ensures Exec(m, a, c).0 == m
    ensures var code := Exec(m, a, c).1;
      if r in m.rooms then Testing(code, r, m.rooms[r]) else Through(code)
  {
    TargetIs(Exec(m, a, c).1);
  }

  lemma ExecTests(m: Memory, a: Action, c: Choice, r: RoomId, o: RoomRef)
    requires MapRefs(m) && ActionRefs(a, |m.heap|) && ValidChoice(m, a, c) && Tests(a, r, o)
    ensures var (m', code) := Exec(m, a, c);
      Through(code) || (Unlinking(code, r) && o < |m'.heap| && m'.heap[o].peers == [])
  {
    TargetIs(Exec(m, a, c).1);
  }

  lemma ExecThrough(m: Memory, a: Action, c: Choice)
    requires MapRefs(m) && ActionRefs(a, |m.heap|) && ValidChoice(m, a, c)
    requires Through(Do(a)) || a.Unlink? || a.MoveUnlink?
    ensures Through(Exec(m, a, c).1)
  {
    TargetIs(Exec(m, a, c).1);
  }

  /** Once through, a call does not come back to an unlink. */
  lemma {:induction false} StaysThrough(s: State, es: seq<Event>, t: nat)
    requires Legal(s, es) && NoStart(es, t) && t < |s.threads| && Through(s.threads[t].code)
    ensures t < |Final(s, es).threads| && Through(Final(s, es).threads[t].code)
    decreases es
  {
    if es != [] {
      var e := es[0];
      assert !Starts(es[0], t);
      if e.t == t && s.threads[t].code.Do? {
        ExecThrough(s.mem, s.threads[t].code.act, e.choice);
      }
      StaysThrough(Apply(s, e), es[1..], t);
    }
  }

  /** An event more at the front of the window changes nothing, once the rest of the
      window accounts for who is in the object. */
  lemma Longer(s: State, es: seq<Event>, p: PeerId, o: RoomRef)
    requires es != [] && Legal(s, es)
    requires In(Final(s, es).mem, p, o) <==> LeftIn(Apply(s, es[0]), es[1..], p, o)
    ensures In(Final(s, es).mem, p, o) <==> LeftIn(s, es, p, o)
  {
    MembersIff(s, es, p, o);
  }

  /** From before the test to the unlink: whoever is in the tested object then was put
      there meanwhile. */
  lemma {:induction false} TestedIff(s: State, es: seq<Event>, t: nat, r: RoomId, o: RoomRef, p: PeerId)
    requires Legal(s, es) && NoStart(es, t) && t < |s.threads| && Testing(s.threads[t].code, r, o)
    requires t < |Final(s, es).threads| && Unlinking(Final(s, es).threads[t].code, r)
    ensures In(Final(s, es).mem, p, o) <==> LeftIn(s, es, p, o)
    decreases es
  {
    NeverBoth(s.threads[t].code, r, o);
    var e, s' := es[0], Apply(s, es[0]);
    assert !Starts(es[0], t);
    if e.t == t && s.threads[t].code.Do? {
      ExecTests(s.mem, s.threads[t].code.act, e.choice, r, o);
      if Through(s'.threads[t].code) {
        StaysThrough(s', es[1..], t);
        NotThrough(Final(s, es).threads[t].code, r);
      }
      MembersIff(s', es[1..], p, o);
    } else {
      TestedIff(s', es[1..], t, r, o, p);
    }
    Longer(s, es, p, o);
  }

  lemma NeverBoth(code: Code, r: RoomId, o: RoomRef)
    requires Testing(code, r, o)
    ensures !Unlinking(code, r)
  {
  }

  lemma NotThrough(code: Code, r: RoomId)
    ensures Unlinking(code, r) ==> !Through(code)
  {
  }

  /** From the lookup to the unlink: the object the map is about to lose holds exactly the
      peers that were left in it meanwhile. */
  lemma WindowIff(s: State, es: seq<Event>, t: nat, r: RoomId, p: PeerId)
    requires MapRefs(s.mem) && Legal(s, es) && es != [] && NoStart(es, t) && es[0].t == t < |s.threads|
    requires s.threads[t].code.Do? && Looks(s.threads[t].code.act, r)
    requires t < |Final(s, es).threads| && Unlinking(Final(s, es).threads[t].code, r)
    requires r in Final(s, es).mem.rooms
    ensures var f := Final(s, es).mem;
      In(f, p, f.rooms[r]) <==> LeftIn(s, es, p, f.rooms[r])
  {
    var s', o := Apply(s, es[0]), Final(s, es).mem.rooms[r];
    assert !Starts(es[0], t);
    LinkedBefore(s, es, r);
    if o < |s.mem.heap| {
      ExecLooks(s.mem, s.threads[t].code.act, es[0].choice, r);
      TestedIff(s', es[1..], t, r, o, p);
      Longer(s, es, p, o);
    } else {
      MembersIff(s, es, p, o);
    }
  }

  // ---------------------------------------------------------------------------
  // Every unlink
  // ---------------------------------------------------------------------------

  /** The state before the i-th event. */
  function At(s: State, es: seq<Event>, i: nat): (x: State)
    requires Legal(s, es) && i <= |es|
    ensures Legal(x, es[i..]) && Final(x, es[i..]) == Final(s, es)
    decreases es
  {
    if i == 0 then
      assert es[0..] == es;
      s
    else
      assert es[1..][i - 1..] == es[i..];
      At(Apply(s, es[0]), es[1..], i - 1)
  }

  /** Event `k` is thread t's lookup of the room, and t is in the same call ever since. */
  predicate LookedUp(s: State, es: seq<Event>, t: nat, k: nat, r: RoomId)
    requires Legal(s, es)
  {
    && k < |es| && es[k].Move? && es[k].t == t && NoStart(es[k + 1..], t)
    && var x := At(s, es, k);
       t < |x.threads| && x.threads[t].code.Do? && Looks(x.threads[t].code.act, r)
  }

  /** Between the lookup and the unlink of a room. */
  predicate Visiting(code: Code, r: RoomId) {
    Unlinking(code, r) || (Target(code).Do? && TestsName(Target(code).act, r))
  }

  lemma ExecVisits(m: Memory, a: Action, c: Choice, r: RoomId)
    requires MapRefs(m) && ActionRefs(a, |m.heap|) && ValidChoice(m, a, c)
    requires Visiting(Exec(m, a, c).1, r)
    ensures Looks(a, r) || Visiting(Do(a), r)
  {
    TargetIs(Exec(m, a, c).1);
  }

  lemma StartVisitsNothing(op: Op, r: RoomId)
    ensures !Visiting(Program(op), r)
  {
    assert Target(Program(op)) == Program(op).next;
  }

  lemma VisitStep(s: State, e: Event, t: nat, r: RoomId)
    requires Enabled(s, e) && t < |s.threads| && Visiting(Apply(s, e).threads[t].code, r)
    ensures !Starts(e, t)
    ensures Visiting(s.threads[t].code, r) ||
      (e.Move? && e.t == t && s.threads[t].code.Do? && Looks(s.threads[t].code.act, r))
  {
    if e.t == t {
      if e.Start? {
        StartVisitsNothing(e.op, r);
      } else if s.threads[t].code.Do? {
        ExecVisits(s.mem, s.threads[t].code.act, e.choice, r);
      }
    }
  }

  /** A visit began with a lookup in this run, or was under way before it. */
  lemma {:induction false} VisitBegan(s: State, es: seq<Event>, t: nat, r: RoomId) returns (k: int)
    requires Legal(s, es) && t < |s.threads|
    requires t < |Final(s, es).threads| && Visiting(Final(s, es).threads[t].code, r)
    ensures if k >= 0 then LookedUp(s, es, t, k, r) else Visiting(s.threads[t].code, r) && NoStart(es, t)
    decreases es
  {
    if es == [] {
      return -1;
    }
    k := VisitBegan(Apply(s, es[0]), es[1..], t, r);
    if k >= 0 {
      LaterLookup(s, es, t, k, r);
      return k + 1;
    }
    VisitStep(s, es[0], t, r);
    assert forall i :: 0 < i < |es| ==> es[i] == es[1..][i - 1];
    if !Visiting(s.threads[t].code, r) {
      k := 0;
    }
  }

  lemma LaterLookup(s: State, es: seq<Event>, t: nat, k: nat, r: RoomId)
    requires es != [] && Legal(s, es) && LookedUp(Apply(s, es[0]), es[1..], t, k, r)
    ensures LookedUp(s, es, t, k + 1, r)
  {
    assert es[1..][k + 1..] == es[k + 2..];
  }

  /** `remove_empty_room` promises to remove a room only if it has no peers, and so does
      the clean-up after leaving or moving. In every reachable state in which a thread is
      about to unlink a name, the object the map loses holds exactly the peers that were
      left in it since the thread looked the name up; so the promise is kept if and only
      if there are none. */
  lemma UnlinkLosesIff(s: State, es: seq<Event>, t: nat, r: RoomId) returns (k: nat)
    requires Initial(s) && Legal(s, es) && t < |Final(s, es).threads|
    requires Final(s, es).threads[t].code.Do? && Unlinks(Final(s, es).threads[t].code.act, r)
    ensures LookedUp(s, es, t, k, r)
    ensures var f, x := Final(s, es).mem, At(s, es, k);
      r in f.rooms ==>
        && f.rooms[r] < |f.heap|
        && (forall p :: p in f.heap[f.rooms[r]].peers <==> LeftIn(x, es[k..], p, f.rooms[r]))
        && (f.heap[f.rooms[r]].peers == [] <==> forall p :: !LeftIn(x, es[k..], p, f.rooms[r]))
  {
    var f := Final(s, es);
    InitialInvariant(s);
    RunInvariant(s, es);
    SameThreads(s, es);
    var n := VisitBegan(s, es, t, r);
    assert n >= 0;
    k := n;
    if r in f.mem.rooms {
      var o := f.mem.rooms[r];
      forall p ensures p in f.mem.heap[o].peers <==> LeftIn(At(s, es, k), es[k..], p, o) {
        assert es[k..][1..] == es[k + 1..];
        AtMapped(s, es, k);
        WindowIff(At(s, es, k), es[k..], t, r, p);
      }
      var peers := f.mem.heap[o].peers;
      assert peers != [] ==> peers[0] in peers;
    }
  }

  lemma {:induction false} SameThreads(s: State, es: seq<Event>)
    requires Legal(s, es)
    ensures |Final(s, es).threads| == |s.threads|
    decreases es
  {
    if es != [] {
      SameThreads(Apply(s, es[0]), es[1..]);
    }
  }

  lemma {:induction false} AtMapped(s: State, es: seq<Event>, k: nat)
    requires Invariant(s) && Legal(s, es) && k <= |es|
    ensures MapRefs(At(s, es, k).mem)
    decreases es
  {
    if k > 0 {
      StepInvariant(s, es[0]);
      AtMapped(Apply(s, es[0]), es[1..], k - 1);
    }
  }
}
