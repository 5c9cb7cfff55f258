/**
  The room registry with each method taken as one atomic call: the forward index
  from rooms to peers, the reverse index from peers to rooms, and when the two agree.
 */
module Registry {
  import opened RegistrySteps

  datatype Room = Room(peers: seq<PeerId>, max: nat)

  /** The value of the registry. */
  datatype Indexes = Indexes(rooms: map<RoomId, Room>, index: map<PeerId, RoomId>)

  datatype Reason = RoomFull | Refused(why: string)
  datatype Verdict = Accept | Refuse(reason: Reason)
  datatype Join = Joined(count: nat) | Rejected(reason: Reason)

  predicate Lists(rooms: map<RoomId, Room>, p: PeerId, r: RoomId) {
    r in rooms && p in rooms[r].peers
  }

  predicate Member(s: Indexes, p: PeerId, r: RoomId) {
    Lists(s.rooms, p, r)
  }

  /** The two indexes say the same, and no room lists a peer twice. */
  ghost predicate Agree(s: Indexes) {
    && (forall p <- s.index :: Member(s, p, s.index[p]))
    && (forall p, r :: Member(s, p, r) ==> p in s.index && s.index[p] == r)
    && (forall r <- s.rooms :: Distinct(s.rooms[r].peers))
  }

  // ---------------------------------------------------------------------------
  // The calls as functions of the indexes
  // ---------------------------------------------------------------------------

  function Created(s: Indexes, r: RoomId, max: nat): Indexes {
    if r in s.rooms then s else s.(rooms := s.rooms[r := Room([], max)])
  }

  function EmptyRemoved(s: Indexes, r: RoomId): Indexes {
    if r in s.rooms && s.rooms[r].peers == [] then s.(rooms := s.rooms - {r}) else s
  }

  function Evicted(rooms: map<RoomId, Room>, p: PeerId, r: RoomId, unlinkEmpty: bool): map<RoomId, Room> {
    if r !in rooms then rooms
    else
      var left := Without(rooms[r].peers, p);
      if unlinkEmpty && left == [] then rooms - {r} else rooms[r := rooms[r].(peers := left)]
  }

  /** The peer is out of the room, which goes too when that leaves nobody in it and it is
      to be unlinked; everything else is as before. */
  ghost predicate Leaves(before: map<RoomId, Room>, after: map<RoomId, Room>, p: PeerId, r: RoomId, unlinkEmpty: bool) {
    && after - {r} == before - {r}
    && (r in after <==> r in before && !(unlinkEmpty && forall q <- before[r].peers :: q == p))
    && (r in after ==> after[r] == Room(Without(before[r].peers, p), before[r].max))
  }

  function Removed(s: Indexes, p: PeerId, unlinkEmpty: bool): Indexes {
    if p !in s.index then s
    else Indexes(Evicted(s.rooms, p, s.index[p], unlinkEmpty), s.index - {p})
  }

  function Seated(rooms: map<RoomId, Room>, p: PeerId, r: RoomId): map<RoomId, Room>
    requires r in rooms
  {
    if p in rooms[r].peers then rooms else rooms[r := rooms[r].(peers := rooms[r].peers + [p])]
  }

  function JoinOutcome(s: Indexes, p: PeerId, r: RoomId, v: Verdict): Join {
    if r !in s.rooms then Rejected(RoomFull)
    else if p in s.rooms[r].peers then Joined(|s.rooms[r].peers|)
    else if |s.rooms[r].peers| >= s.rooms[r].max then Rejected(RoomFull)
    else if v.Refuse? then Rejected(v.reason)
    else Joined(|s.rooms[r].peers| + 1)
  }

  function JoinedTo(s: Indexes, p: PeerId, r: RoomId, v: Verdict): Indexes {
    if JoinOutcome(s, p, r, v).Rejected? then s
    else Indexes(Seated(s.rooms, p, r), s.index[p := r])
  }

  function Added(s: Indexes, p: PeerId, r: RoomId): Indexes {
    var rooms := Created(s, r, P2P_MAX).rooms;
    var cleared := if p in s.index && s.index[p] != r then Evicted(rooms, p, s.index[p], true) else rooms;
    Indexes(Seated(cleared, p, r), s.index[p := r])
  }

  lemma EvictedLeaves(rooms: map<RoomId, Room>, p: PeerId, r: RoomId, u: bool)
    ensures Leaves(rooms, Evicted(rooms, p, r, u), p, r, u)
  {
    if r in rooms {
      NobodyLeftIff(rooms[r].peers, p);
      assert Evicted(rooms, p, r, u) - {r} == rooms - {r};
    }
  }

  /** The room of `add_peer` afterwards: the peer is behind those who were there; a room
      that had to be made has two places. */
  predicate Seats(before: map<RoomId, Room>, after: map<RoomId, Room>, p: PeerId, r: RoomId) {
    && r in after
    && (r in before && p in before[r].peers ==> after[r] == before[r])
    && (r in before && p !in before[r].peers ==> after[r] == Room(before[r].peers + [p], before[r].max))
    && (r !in before ==> after[r] == Room([p], 2))
  }

  /** What `add_peer` does to the room, and what to all the others. */
  lemma AddedSeats(s: Indexes, p: PeerId, r: RoomId)
    ensures var t := Added(s, p, r);
      && t.index == s.index[p := r] && Seats(s.rooms, t.rooms, p, r)
      && (if p in s.index && s.index[p] != r then Leaves(s.rooms - {r}, t.rooms - {r}, p, s.index[p], true)
          else t.rooms - {r} == s.rooms - {r})
  {
    var made := Created(s, r, P2P_MAX).rooms;
    assert made - {r} == s.rooms - {r};
    if p in s.index && s.index[p] != r {
      var prev := s.index[p];
      EvictedLeaves(s.rooms - {r}, p, prev, true);
      EvictedApart(made, p, prev, r);
      SeatedApart(Evicted(made, p, prev, true), p, r);
    } else {
      SeatedApart(made, p, r);
    }
    assert [] + [p] == [p];
  }

  lemma EvictedApart(rooms: map<RoomId, Room>, p: PeerId, r: RoomId, other: RoomId)
    requires other in rooms && other != r
    ensures var left := Evicted(rooms, p, r, true);
      other in left && left[other] == rooms[other] && left - {other} == Evicted(rooms - {other}, p, r, true)
  {
  }

  lemma SeatedApart(rooms: map<RoomId, Room>, p: PeerId, r: RoomId)
    requires r in rooms
    ensures Seated(rooms, p, r) - {r} == rooms - {r}
  {
  }

  // ---------------------------------------------------------------------------
  // Agreement, call by call
  // ---------------------------------------------------------------------------

  lemma CreatedAgrees(s: Indexes, r: RoomId, max: nat)
    requires Agree(s)
    ensures Agree(Created(s, r, max))
    ensures forall p, q :: Member(Created(s, r, max), p, q) <==> Member(s, p, q)
  {
    var t := Created(s, r, max);
    assert forall p, q :: Member(t, p, q) <==> Member(s, p, q);
  }

  lemma EmptyRemovedAgrees(s: Indexes, r: RoomId)
    requires Agree(s)
    ensures Agree(EmptyRemoved(s, r))
  {
    var t := EmptyRemoved(s, r);
    assert forall p, q :: Member(t, p, q) <==> Member(s, p, q);
  }

  ghost predicate AllDistinct(rooms: map<RoomId, Room>) {
    forall r <- rooms :: Distinct(rooms[r].peers)
  }

  lemma EvictedLists(rooms: map<RoomId, Room>, p: PeerId, r: RoomId, u: bool)
    requires AllDistinct(rooms)
    ensures AllDistinct(Evicted(rooms, p, r, u))
    ensures forall q, x :: Lists(Evicted(rooms, p, r, u), q, x) <==> Lists(rooms, q, x) && !(q == p && x == r)
  {
    if r in rooms {
      var left := Without(rooms[r].peers, p);
      assert forall q :: q in left <==> q in rooms[r].peers && q != p;
      assert Distinct(rooms[r].peers);
    }
  }

  lemma SeatedLists(rooms: map<RoomId, Room>, p: PeerId, r: RoomId)
    requires AllDistinct(rooms) && r in rooms
    ensures AllDistinct(Seated(rooms, p, r))
    ensures forall q, x :: Lists(Seated(rooms, p, r), q, x) <==> Lists(rooms, q, x) || (q == p && x == r)
  {
  }

  /** Leaving takes exactly the peer out, wherever it was. */
  lemma RemovedAgrees(s: Indexes, p: PeerId, u: bool)
    requires Agree(s)
    ensures Agree(Removed(s, p, u))
    ensures forall q, r :: Member(Removed(s, p, u), q, r) <==> q != p && Member(s, q, r)
  {
    if p in s.index {
      EvictedLists(s.rooms, p, s.index[p], u);
      var t := Removed(s, p, u);
      forall q, r ensures Member(t, q, r) <==> q != p && Member(s, q, r) {
        assert Member(t, q, r) <==> Member(s, q, r) && !(q == p && r == s.index[p]);
      }
      forall q | q in t.index ensures Member(t, q, t.index[q]) {
        assert Member(s, q, s.index[q]);
      }
    }
  }

  /** A peer seated and indexed in a room: the indexes agree exactly when it was in no
      other. */
  lemma SeatedAgreesIff(s: Indexes, t: Indexes, p: PeerId, r: RoomId)
    requires Agree(s) && AllDistinct(t.rooms) && t.index == s.index[p := r]
    requires forall q, x :: Member(t, q, x) <==> Member(s, q, x) || (q == p && x == r)
    ensures Agree(t) <==> p !in s.index || s.index[p] == r
  {
    if p in s.index && s.index[p] != r {
      assert Member(s, p, s.index[p]);
      assert Member(t, p, s.index[p]);
    } else {
      forall q | q in t.index ensures Member(t, q, t.index[q]) {
        assert q != p ==> Member(s, q, s.index[q]);
      }
    }
  }

  /** A capacity-checked join that is going to succeed for a peer indexed in another room:
      the room exists and has a place, and the closure accepts. */
  predicate LetsIn(s: Indexes, p: PeerId, r: RoomId, v: Verdict) {
    && p in s.index && s.index[p] != r
    && r in s.rooms && |s.rooms[r].peers| < s.rooms[r].max && v.Accept?
  }

  /** A capacity-checked join keeps the indexes in agreement exactly when it does not let a
      peer in from another room. */
  lemma JoinedAgreesIff(s: Indexes, p: PeerId, r: RoomId, v: Verdict)
    requires Agree(s)
    ensures Agree(JoinedTo(s, p, r, v)) <==> !LetsIn(s, p, r, v)
  {
    if JoinOutcome(s, p, r, v).Joined? {
      SeatedLists(s.rooms, p, r);
      SeatedAgreesIff(s, JoinedTo(s, p, r, v), p, r);
      assert Member(s, p, r) ==> p in s.index && s.index[p] == r;
    }
  }

  /** `add_peer` moves: afterwards the peer is in the new room and in no other, and
      every other peer is where it was. */
  lemma AddedMoves(s: Indexes, p: PeerId, r: RoomId)
    requires Agree(s)
    ensures Agree(Added(s, p, r))
    ensures forall q, x :: Member(Added(s, p, r), q, x) <==> (if q == p then x == r else Member(s, q, x))
  {
    AddedIs(s, p, r);
    var left := Cleared(s, p, r);
    CreatedAgrees(s, r, P2P_MAX);
    RemovedAgrees(Created(s, r, P2P_MAX), p, true);
    ThenSeated(s, left, p, r);
  }

  /** The indexes when `add_peer` comes to insert. */
  function Cleared(s: Indexes, p: PeerId, r: RoomId): Indexes {
    var made := Created(s, r, P2P_MAX);
    if p in s.index && s.index[p] != r then Removed(made, p, true) else made
  }

  lemma AddedIs(s: Indexes, p: PeerId, r: RoomId)
    ensures var left := Cleared(s, p, r);
      && r in left.rooms && (p !in left.index || left.index[p] == r)
      && Added(s, p, r) == Indexes(Seated(left.rooms, p, r), left.index[p := r])
  {
    assert (s.index - {p})[p := r] == s.index[p := r];
  }

  /** The last part of `add_peer`, once the peer is in no other room. */
  lemma ThenSeated(s: Indexes, left: Indexes, p: PeerId, r: RoomId)
    requires Agree(s) && Agree(left) && r in left.rooms
    requires Added(s, p, r) == Indexes(Seated(left.rooms, p, r), left.index[p := r])
    requires p !in left.index || left.index[p] == r
    requires forall q, x :: q != p ==> (Member(left, q, x) <==> Member(s, q, x))
    ensures Agree(Added(s, p, r))
    ensures forall q, x :: Member(Added(s, p, r), q, x) <==> (if q == p then x == r else Member(s, q, x))
  {
    SeatedLists(left.rooms, p, r);
    SeatedAgreesIff(left, Added(s, p, r), p, r);
  }

  // ---------------------------------------------------------------------------
  // Runs of calls
  // ---------------------------------------------------------------------------

  datatype Call =
    | CallCreate(room: RoomId, max: nat)
    | CallRemoveEmpty(room: RoomId)
    | CallTryAdd(peer: PeerId, room: RoomId, verdict: Verdict)
    | CallAdd(peer: PeerId, room: RoomId)
    | CallRemove(peer: PeerId, unlinkEmpty: bool)

  function Result(s: Indexes, c: Call): Indexes {
    match c
    case CallCreate(r, max) => Created(s, r, max)
    case CallRemoveEmpty(r) => EmptyRemoved(s, r)
    case CallTryAdd(p, r, v) => JoinedTo(s, p, r, v)
    case CallAdd(p, r) => Added(s, p, r)
    case CallRemove(p, u) => Removed(s, p, u)
  }

  /** A join that lets a peer in from another room. */
  predicate Strays(s: Indexes, c: Call) {
    c.CallTryAdd? && LetsIn(s, c.peer, c.room, c.verdict)
  }

  /** The indexes agree before, between and after all calls. */
  ghost predicate AlwaysAgree(s: Indexes, calls: seq<Call>)
    decreases |calls|
  {
    Agree(s) && (calls != [] ==> AlwaysAgree(Result(s, calls[0]), calls[1..]))
  }

  predicate NeverStrays(s: Indexes, calls: seq<Call>)
    decreases |calls|
  {
    calls == [] || (!Strays(s, calls[0]) && NeverStrays(Result(s, calls[0]), calls[1..]))
  }

  lemma CallAgreesIff(s: Indexes, c: Call)
    requires Agree(s)
    ensures Agree(Result(s, c)) <==> !Strays(s, c)
  {
    match c
    case CallCreate(r, max) => CreatedAgrees(s, r, max);
    case CallRemoveEmpty(r) => EmptyRemovedAgrees(s, r);
    case CallTryAdd(p, r, v) => JoinedAgreesIff(s, p, r, v);
    case CallAdd(p, r) => AddedMoves(s, p, r);
    case CallRemove(p, u) => RemovedAgrees(s, p, u);
  }

  /** Over every run of calls the two indexes agree throughout if and only if no
      capacity-checked join succeeds for a peer that sits in another room. */
  lemma {:induction false} RunAgreesIff(s: Indexes, calls: seq<Call>)
    requires Agree(s)
    ensures AlwaysAgree(s, calls) <==> NeverStrays(s, calls)
    decreases |calls|
  {
    if calls != [] {
      CallAgreesIff(s, calls[0]);
      if !Strays(s, calls[0]) {
        RunAgreesIff(Result(s, calls[0]), calls[1..]);
      }
    }
  }

  lemma FreshAgrees()
    ensures Agree(Indexes(map[], map[]))
  {
  }

  function Results(s: Indexes, calls: seq<Call>): Indexes
    decreases |calls|
  {
    if calls == [] then s else Results(Result(s, calls[0]), calls[1..])
  }

  lemma FirstCall(s: Indexes, c: Call, calls: seq<Call>)
    ensures Results(s, [c] + calls) == Results(Result(s, c), calls)
    ensures NeverStrays(s, [c] + calls) <==> !Strays(s, c) && NeverStrays(Result(s, c), calls)
  {
    assert ([c] + calls)[1..] == calls;
  }

  /** A peer that joins a second room is listed in both. */
  lemma JoinStrays() returns (calls: seq<Call>)
    ensures var s := Indexes(map[], map[]);
      && Agree(s) && !AlwaysAgree(s, calls) && !NeverStrays(s, calls)
      && Results(s, calls) == Indexes(map["a" := Room(["p"], 2), "b" := Room(["p"], 2)], map["p" := "b"])
  {
    var s0 := Indexes(map[], map[]);
    var s1 := Indexes(map["a" := Room([], 2)], map[]);
    var s2 := Indexes(map["a" := Room([], 2), "b" := Room([], 2)], map[]);
    var s3 := Indexes(map["a" := Room(["p"], 2), "b" := Room([], 2)], map["p" := "a"]);
    var s4 := Indexes(map["a" := Room(["p"], 2), "b" := Room(["p"], 2)], map["p" := "b"]);
    assert [] + ["p"] == ["p"];
    var join := CallTryAdd("p", "b", Accept);
    assert Result(s3, join) == s4 && Strays(s3, join);
    FirstCall(s3, join, []);
    calls := [join] + [];
    assert Result(s2, CallTryAdd("p", "a", Accept)) == s3;
    FirstCall(s2, CallTryAdd("p", "a", Accept), calls);
    calls := [CallTryAdd("p", "a", Accept)] + calls;
    assert Result(s1, CallCreate("b", 2)) == s2;
    FirstCall(s1, CallCreate("b", 2), calls);
    calls := [CallCreate("b", 2)] + calls;
    assert Result(s0, CallCreate("a", 2)) == s1;
    FirstCall(s0, CallCreate("a", 2), calls);
    calls := [CallCreate("a", 2)] + calls;
    FreshAgrees();
    RunAgreesIff(s0, calls);
  }

  // ---------------------------------------------------------------------------
  // Capacity
  // ---------------------------------------------------------------------------

  predicate Within(rooms: map<RoomId, Room>) {
    forall r <- rooms :: |rooms[r].peers| <= rooms[r].max
  }

  /** `add_peer` keeps every room within its maximum exactly when the room is new, lists
      the peer already or has a place. */
  lemma AddedWithinIff(s: Indexes, p: PeerId, r: RoomId)
    requires Within(s.rooms)
    ensures Within(Added(s, p, r).rooms) <==>
      r !in s.rooms || p in s.rooms[r].peers || |s.rooms[r].peers| < s.rooms[r].max
  {
    var rooms := Created(s, r, P2P_MAX).rooms;
    var moving := p in s.index && s.index[p] != r;
    var cleared := if moving then Evicted(rooms, p, s.index[p], true) else rooms;
    assert Within(cleared) && cleared[r] == rooms[r];
    var t := Added(s, p, r).rooms;
    assert t == Seated(cleared, p, r);
    if p !in rooms[r].peers {
      assert |t[r].peers| == |rooms[r].peers| + 1;
    }
  }

  /** An `add_peer` of a peer that is not in a room that is full. */
  predicate Overfills(s: Indexes, c: Call) {
    && c.CallAdd?
    && c.room in s.rooms && c.peer !in s.rooms[c.room].peers && |s.rooms[c.room].peers| >= s.rooms[c.room].max
  }

  predicate AlwaysWithin(s: Indexes, calls: seq<Call>)
    decreases |calls|
  {
    Within(s.rooms) && (calls != [] ==> AlwaysWithin(Result(s, calls[0]), calls[1..]))
  }

  predicate NeverOverfills(s: Indexes, calls: seq<Call>)
    decreases |calls|
  {
    calls == [] || (!Overfills(s, calls[0]) && NeverOverfills(Result(s, calls[0]), calls[1..]))
  }

  lemma CallWithinIff(s: Indexes, c: Call)
    requires Within(s.rooms)
    ensures Within(Result(s, c).rooms) <==> !Overfills(s, c)
  {
    match c
    case CallAdd(p, r) => AddedWithinIff(s, p, r);
    case _ =>
  }

  /** Over every run of calls all rooms stay within their maxima if and only if no
      `add_peer` of an unlisted peer meets a full room. */
  lemma {:induction false} RunWithinIff(s: Indexes, calls: seq<Call>)
    requires Within(s.rooms)
    ensures AlwaysWithin(s, calls) <==> NeverOverfills(s, calls)
    decreases |calls|
  {
    if calls != [] {
      CallWithinIff(s, calls[0]);
      if !Overfills(s, calls[0]) {
        RunWithinIff(Result(s, calls[0]), calls[1..]);
      }
    }
  }

  /** The peers join one after another, each accepted by the closure. */
  function AllJoined(s: Indexes, r: RoomId, peers: seq<PeerId>): Indexes {
    if peers == [] then s
    else JoinedTo(AllJoined(s, r, peers[..|peers| - 1]), peers[|peers| - 1], r, Accept)
  }

  /** A room made for `max` takes that many different peers, in the order they come, and
      refuses the next one as full without asking the closure; as long as there is a place
      the closure decides, and its own reason is passed on. */
  lemma {:induction false} FillsUp(s: Indexes, r: RoomId, max: nat, peers: seq<PeerId>, next: PeerId, v: Verdict)
    requires r !in s.rooms && Distinct(peers) && |peers| <= max && next !in peers
    ensures var t := AllJoined(Created(s, r, max), r, peers);
      && r in t.rooms && t.rooms[r] == Room(peers, max)
      && (forall p <- peers :: p in t.index && t.index[p] == r)
      && JoinOutcome(t, next, r, v) ==
           if |peers| == max then Rejected(RoomFull)
           else match v case Accept => Joined(|peers| + 1) case Refuse(reason) => Rejected(reason)
    decreases |peers|
  {
    if peers != [] {
      var most, last := peers[..|peers| - 1], peers[|peers| - 1];
      assert peers == most + [last] && last !in most;
      FillsUp(s, r, max, most, last, Accept);
    }
  }

  // ---------------------------------------------------------------------------
  // Counting
  // ---------------------------------------------------------------------------

  /** Peers over all rooms, in whatever order the rooms are visited. */
  ghost function Total(rooms: map<RoomId, Room>): nat
    decreases |rooms|
  {
    if rooms == map[] then 0
    else
      var r :| r in rooms;
      assert |rooms - {r}| < |rooms| by { MapShrinks(rooms, r); }
      |rooms[r].peers| + Total(rooms - {r})
  }

  lemma MapShrinks<V>(m: map<string, V>, k: string)
    requires k in m
    ensures |m - {k}| == |m| - 1
  {
    assert (m - {k}).Keys == m.Keys - {k};
    assert |m.Keys - {k}| == |m.Keys| - 1;
  }

  /** Any room may be counted first. */
  lemma {:induction false} TotalSplit(rooms: map<RoomId, Room>, r: RoomId)
    requires r in rooms
    ensures Total(rooms) == |rooms[r].peers| + Total(rooms - {r})
    decreases |rooms|
  {
    var q :| q in rooms && Total(rooms) == |rooms[q].peers| + Total(rooms - {q});
    if q != r {
      MapShrinks(rooms, q);
      TotalSplit(rooms - {q}, r);
      MapShrinks(rooms, r);
      TotalSplit(rooms - {r}, q);
      assert (rooms - {q}) - {r} == (rooms - {r}) - {q};
    }
  }

  function Occupants(index: map<PeerId, RoomId>, r: RoomId): set<PeerId> {
    set p | p in index && index[p] == r
  }

  lemma {:induction false} DistinctSize(peers: seq<PeerId>)
    requires Distinct(peers)
    ensures |set p | p in peers| == |peers|
  {
    if peers != [] {
      var rest := peers[1..];
      assert peers == [peers[0]] + rest;
      assert (set p | p in peers) == {peers[0]} + (set p | p in rest);
      DistinctSize(rest);
    }
  }

  /** With agreeing indexes the participant total is the size of the reverse index. */
  lemma {:induction false} TotalIsIndexSize(s: Indexes)
    requires Agree(s)
    ensures Total(s.rooms) == |s.index|
    decreases |s.rooms|
  {
    assert forall p <- s.index :: Member(s, p, s.index[p]);
    if s.rooms == map[] {
      assert s.index == map[];
    } else {
      var r :| r in s.rooms;
      var here := Occupants(s.index, r);
      var rest := Indexes(s.rooms - {r}, s.index - here);
      OccupantsCounted(s, r);
      RestAgrees(s, r);
      MapShrinks(s.rooms, r);
      TotalSplit(s.rooms, r);
      TotalIsIndexSize(rest);
      KeysShrink(s.index, here);
    }
  }

  lemma OccupantsCounted(s: Indexes, r: RoomId)
    requires Agree(s) && r in s.rooms
    ensures |Occupants(s.index, r)| == |s.rooms[r].peers| && Occupants(s.index, r) <= s.index.Keys
  {
    assert forall p :: Member(s, p, r) <==> p in s.rooms[r].peers;
    assert Occupants(s.index, r) == set p | p in s.rooms[r].peers;
    DistinctSize(s.rooms[r].peers);
  }

  lemma RestAgrees(s: Indexes, r: RoomId)
    requires Agree(s) && r in s.rooms
    ensures Agree(Indexes(s.rooms - {r}, s.index - Occupants(s.index, r)))
  {
    var rest := Indexes(s.rooms - {r}, s.index - Occupants(s.index, r));
    assert forall p, x :: Member(rest, p, x) <==> Member(s, p, x) && x != r;
  }

  lemma KeysShrink<V>(m: map<string, V>, gone: set<string>)
    requires gone <= m.Keys
    ensures |m - gone| == |m| - |gone|
  {
    assert (m - gone).Keys == m.Keys - gone;
  }

  // ---------------------------------------------------------------------------
  // The registry object
  // ---------------------------------------------------------------------------

  class InMemoryRoomState {
    var rooms: map<RoomId, Room>
    var index: map<PeerId, RoomId>

    ghost function Value(): Indexes
      reads this
    {
      Indexes(rooms, index)
    }

    constructor ()
      ensures Value() == Indexes(map[], map[]) && Agree(Value())
    {
      rooms, index := map[], map[];
      new;
      FreshAgrees();
    }

    method CreateRoom(r: RoomId, max: nat) returns (created: bool)
      modifies this
      ensures created == (r !in old(rooms))
      ensures Value() == Created(old(Value()), r, max)
      ensures r !in old(rooms) ==> rooms == old(rooms)[r := Room([], max)]
      ensures r in old(rooms) ==> rooms == old(rooms)
      ensures index == old(index)
    {
      if r in rooms {
        return false;
      }
      rooms := rooms[r := Room([], max)];
      created := true;
    }

    method RemoveEmptyRoom(r: RoomId) returns (removed: bool)
      modifies this
      ensures removed == (r in old(rooms) && r !in rooms)
      ensures Value() == EmptyRemoved(old(Value()), r)
      ensures removed <==> r in old(rooms) && |old(rooms)[r].peers| == 0
      ensures rooms == (if removed then old(rooms) - {r} else old(rooms)) && index == old(index)
    {
      if r !in rooms || rooms[r].peers != [] {
        return false;
      }
      rooms := rooms - {r};
      removed := true;
    }

    /** Capacity-checked join. `verdict` is what the closure answers; `asked` says
        whether it was called. */
    method TryAddPeerWith(p: PeerId, r: RoomId, verdict: Verdict) returns (outcome: Join, asked: bool)
      modifies this
      ensures Value() == JoinedTo(old(Value()), p, r, verdict)
      ensures outcome == JoinOutcome(old(Value()), p, r, verdict)
      ensures asked <==> r in old(rooms) && p !in old(rooms)[r].peers && |old(rooms)[r].peers| < old(rooms)[r].max
      ensures asked && verdict.Accept? ==> outcome == Joined(|old(rooms)[r].peers| + 1)
      ensures asked && verdict.Refuse? ==> outcome == Rejected(verdict.reason)
      ensures r in old(rooms) && p in old(rooms)[r].peers ==> outcome == Joined(|old(rooms)[r].peers|)
      ensures !asked && !(r in old(rooms) && p in old(rooms)[r].peers) ==> outcome == Rejected(RoomFull)
      ensures asked && verdict.Accept? ==>
        rooms == old(rooms)[r := Room(old(rooms)[r].peers + [p], old(rooms)[r].max)]
      ensures !(asked && verdict.Accept?) ==> rooms == old(rooms)
      ensures index == if outcome.Joined? then old(index)[p := r] else old(index)
      ensures outcome.Joined? ==> Member(Value(), p, r) && outcome.count == |rooms[r].peers|
      ensures forall x :: x in old(rooms) && |old(rooms)[x].peers| <= old(rooms)[x].max ==>
        x in rooms && |rooms[x].peers| <= rooms[x].max
    {
      asked := false;
      if r !in rooms {
        return Rejected(RoomFull), asked;
      }
      var room := rooms[r];
      if p !in room.peers {
        if |room.peers| >= room.max {
          return Rejected(RoomFull), asked;
        }
        asked := true;
        if verdict.Refuse? {
          return Rejected(verdict.reason), asked;
        }
        room := room.(peers := room.peers + [p]);
        rooms := rooms[r := room];
      }
      outcome := Joined(|room.peers|);
      index := index[p := r];
      assert rooms == Seated(old(rooms), p, r);
    }

    method RemoveFromRoom(p: PeerId, r: RoomId, unlinkEmpty: bool)
      modifies this`rooms
      ensures rooms == Evicted(old(rooms), p, r, unlinkEmpty)
      ensures Leaves(old(rooms), rooms, p, r, unlinkEmpty)
    {
      if r in rooms {
        var left := Without(rooms[r].peers, p);
        rooms := rooms[r := rooms[r].(peers := left)];
        if unlinkEmpty && left == [] {
          rooms := rooms - {r};
        }
      }
      EvictedLeaves(old(rooms), p, r, unlinkEmpty);
    }

    method AddPeer(p: PeerId, r: RoomId)
      modifies this
      ensures Value() == Added(old(Value()), p, r)
      ensures old(Agree(Value())) ==> Agree(Value())
      ensures index == old(index)[p := r] && Seats(old(rooms), rooms, p, r)
      ensures p in old(index) && old(index)[p] != r ==> Leaves(old(rooms) - {r}, rooms - {r}, p, old(index)[p], true)
      ensures p !in old(index) || old(index)[p] == r ==> rooms - {r} == old(rooms) - {r}
      ensures Member(Value(), p, r) && p in index && index[p] == r
      ensures old(Within(rooms)) ==>
        (Within(rooms) <==> r !in old(rooms) || p in old(rooms)[r].peers || |old(rooms)[r].peers| < old(rooms)[r].max)
    {
      if r !in rooms {
        rooms := rooms[r := Room([], P2P_MAX)];
      }
      if p in index && index[p] != r {
        RemoveFromRoom(p, index[p], true);
      }
      if p !in rooms[r].peers {
        rooms := rooms[r := rooms[r].(peers := rooms[r].peers + [p])];
      }
      index := index[p := r];
      ghost var before := old(Value());
      AddedSeats(before, p, r);
      if Agree(before) {
        AddedMoves(before, p, r);
      }
      if Within(before.rooms) {
        AddedWithinIff(before, p, r);
      }
    }

    /** `remove_peer` with true, `remove_peer_preserve_room` with false. */
    method RemovePeer(p: PeerId, unlinkEmpty: bool)
      modifies this
      ensures Value() == Removed(old(Value()), p, unlinkEmpty)
      ensures p !in old(index) ==> Value() == old(Value())
      ensures p in old(index) ==> index == old(index) - {p} && Leaves(old(rooms), rooms, p, old(index)[p], unlinkEmpty)
      ensures old(Agree(Value())) ==> Agree(Value()) && forall r :: !Member(Value(), p, r)
    {
      ghost var before := old(Value());
      if p in index {
        var r := index[p];
        index := index - {p};
        RemoveFromRoom(p, r, unlinkEmpty);
        assert Leaves(before.rooms, rooms, p, r, unlinkEmpty);
      }
      if Agree(before) {
        RemovedAgrees(before, p, unlinkEmpty);
        assert forall r :: Member(Value(), p, r) ==> false;
      }
    }

    method TotalParticipantCount() returns (total: nat)
      ensures total == Total(rooms)
      ensures Agree(Value()) ==> total == |index|
    {
      total := 0;
      var todo := rooms;
      while todo != map[]
        invariant total + Total(todo) == Total(rooms)
        decreases |todo|
      {
        var r :| r in todo;
        TotalSplit(todo, r);
        MapShrinks(todo, r);
        total := total + |todo[r].peers|;
        todo := todo - {r};
      }
      if Agree(Value()) {
        TotalIsIndexSize(Value());
      }
    }
  }
}
