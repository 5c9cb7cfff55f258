/**
  Two tables of a room: participants revoked for a while, and the hidden viewer
  identities handed out to each peer.
 */
module RoomTables {

  // ---------------------------------------------------------------------------
  // Revocations
  // ---------------------------------------------------------------------------

  type Time = nat
  datatype Entry = Entry(id: string, at: Time)

  /** The table keeps the latest revocation of each participant until a query prunes it. */
  function Revoked(table: map<string, Time>, id: string, now: Time): map<string, Time> {
    table[id := now]
  }

  function Age(at: Time, now: Time): nat {
    if now < at then 0 else now - at
  }

  function Pruned(table: map<string, Time>, now: Time, window: nat): map<string, Time> {
    map id | id in table && Age(table[id], now) < window :: table[id]
  }

  /** The full log would say: some revocation of this participant is still fresh. */
  ghost predicate Fresh(log: seq<Entry>, id: string, now: Time, window: nat) {
    exists i :: 0 <= i < |log| && log[i].id == id && Age(log[i].at, now) < window
  }

  datatype Event = Revoke(id: string, now: Time) | Ask(id: string, now: Time, window: nat)
  datatype Query = Query(now: Time, window: nat)

  /** The earliest revocation a query still finds: one at `at` is fresh from there on. */
  function Earliest(now: Time, window: nat): nat {
    if now < window then 0 else now - window + 1
  }

  lemma FreshFromEarliest(at: Time, now: Time, window: nat)
    requires at <= now
    ensures Age(at, now) < window <==> at >= Earliest(now, window)
  {
  }

  /** Clocks run forward. */
  predicate Forward(events: seq<Event>, now: Time)
    decreases |events|
  {
    events == [] || (now <= events[0].now && Forward(events[1..], events[0].now))
  }

  function Queries(events: seq<Event>): seq<Query>
    decreases |events|
  {
    if events == [] then []
    else if events[0].Ask? then [Query(events[0].now, events[0].window)] + Queries(events[1..])
    else Queries(events[1..])
  }

  function From(q: Query): nat {
    Earliest(q.now, q.window)
  }

  /** No query reaches further back than one before it. */
  predicate Advances(qs: seq<Query>) {
    forall i, j :: 0 <= i < j < |qs| ==> From(qs[i]) <= From(qs[j])
  }

  predicate Reaching(qs: seq<Query>, bound: nat) {
    forall i :: 0 <= i < |qs| ==> bound <= From(qs[i])
  }

  /** The answers the table gives. */
  function Answers(table: map<string, Time>, events: seq<Event>): seq<bool>
    decreases |events|
  {
    if events == [] then []
    else match events[0]
      case Revoke(id, now) => Answers(Revoked(table, id, now), events[1..])
      case Ask(id, now, w) =>
        var kept := Pruned(table, now, w);
        [id in kept] + Answers(kept, events[1..])
  }

  /** The answers the unpruned log gives. */
  ghost function LogAnswers(log: seq<Entry>, events: seq<Event>): seq<bool>
    decreases |events|
  {
    if events == [] then []
    else match events[0]
      case Revoke(id, now) => LogAnswers(log + [Entry(id, now)], events[1..])
      case Ask(id, now, w) => [Fresh(log, id, now, w)] + LogAnswers(log, events[1..])
  }

  /** What the table knows about the log: the latest time of every participant it holds,
      and of the others that every entry is from before `bound`. */
  ghost predicate Faithful(table: map<string, Time>, log: seq<Entry>, now: Time, bound: nat) {
    && (forall i :: 0 <= i < |log| ==> log[i].at <= now)
    && (forall i :: 0 <= i < |log| && log[i].id in table ==> log[i].at <= table[log[i].id])
    && (forall i :: 0 <= i < |log| && log[i].id !in table ==> log[i].at < bound)
    && (forall id <- table :: Logged(log, id, table[id]))
  }

  ghost predicate Logged(log: seq<Entry>, id: string, at: Time) {
    Entry(id, at) in log
  }

  lemma RevokeFaithful(table: map<string, Time>, log: seq<Entry>, since: Time, bound: nat, id: string, now: Time)
    requires Faithful(table, log, since, bound) && since <= now
    ensures Faithful(Revoked(table, id, now), log + [Entry(id, now)], now, bound)
  {
    var t, l := Revoked(table, id, now), log + [Entry(id, now)];
    forall k | k in t ensures Logged(l, k, t[k]) {
      if k == id {
        assert l[|log|] == Entry(id, now);
      } else {
        assert Logged(log, k, table[k]);
      }
    }
  }

  /** A query that reaches no further back than what was pruned before. */
  lemma AskFaithful(table: map<string, Time>, log: seq<Entry>, since: Time, bound: nat, id: string, now: Time, w: nat)
    requires Faithful(table, log, since, bound) && since <= now && bound <= Earliest(now, w)
    ensures var kept := Pruned(table, now, w);
      Faithful(kept, log, now, Earliest(now, w)) && (id in kept <==> Fresh(log, id, now, w))
  {
    var kept := Pruned(table, now, w);
    if id in kept {
      assert Logged(log, id, table[id]);
      var i :| 0 <= i < |log| && log[i] == Entry(id, table[id]);
    }
    if Fresh(log, id, now, w) {
      var i :| 0 <= i < |log| && log[i].id == id && Age(log[i].at, now) < w;
      FreshFromEarliest(log[i].at, now, w);
    }
    forall k | k in kept ensures Logged(log, k, kept[k]) {
      assert Logged(log, k, table[k]);
    }
    forall i | 0 <= i < |log| && log[i].id !in kept ensures log[i].at < Earliest(now, w) {
      FreshFromEarliest(log[i].at, now, w);
    }
  }

  /** Whatever was revoked and asked before, the pruned table answers every query exactly
      as the full log would, as long as no query reaches further back than one before it
      (one fixed window is the case the program uses). */
  lemma {:induction false} PruningInvisible(
    table: map<string, Time>, log: seq<Entry>, now: Time, bound: nat, events: seq<Event>)
    requires Faithful(table, log, now, bound) && Forward(events, now)
    requires Advances(Queries(events)) && Reaching(Queries(events), bound)
    ensures Answers(table, events) == LogAnswers(log, events)
    decreases |events|
  {
    if events != [] {
      match events[0]
      case Revoke(id, t) =>
        RevokeFaithful(table, log, now, bound, id, t);
        PruningInvisible(Revoked(table, id, t), log + [Entry(id, t)], t, bound, events[1..]);
      case Ask(id, t, w) =>
        var qs := Queries(events);
        assert qs[0] == Query(t, w) && qs[1..] == Queries(events[1..]);
        AskFaithful(table, log, now, bound, id, t, w);
        FirstIsBound(qs);
        PruningInvisible(Pruned(table, t, w), log, t, Earliest(t, w), events[1..]);
    }
  }

  lemma FirstIsBound(qs: seq<Query>)
    requires qs != [] && Advances(qs)
    ensures Advances(qs[1..]) && Reaching(qs[1..], From(qs[0]))
  {
    assert forall i :: 0 <= i < |qs[1..]| ==> qs[1..][i] == qs[i + 1];
  }

  /** With one window throughout, from an empty room. */
  lemma FixedWindowExact(events: seq<Event>, window: nat)
    requires Forward(events, 0)
    requires forall i :: 0 <= i < |Queries(events)| ==> Queries(events)[i].window == window
    ensures Answers(map[], events) == LogAnswers([], events)
  {
    QueriesForward(events, 0);
    PruningInvisible(map[], [], 0, 0, events);
  }

  predicate Timed(qs: seq<Query>, now: Time) {
    && (forall i :: 0 <= i < |qs| ==> now <= qs[i].now)
    && (forall i, j :: 0 <= i < j < |qs| ==> qs[i].now <= qs[j].now)
  }

  lemma {:induction false} QueriesForward(events: seq<Event>, now: Time)
    requires Forward(events, now)
    ensures Timed(Queries(events), now)
    decreases |events|
  {
    if events != [] {
      QueriesForward(events[1..], events[0].now);
    }
  }

  /** A revoked participant is refused until the window has passed, and not after. */
  lemma RevokedForWindow(id: string, at: Time, now: Time, window: nat)
    requires at <= now
    ensures Answers(map[], [Revoke(id, at), Ask(id, now, window)]) == [now < at + window]
  {
    var events := [Revoke(id, at), Ask(id, now, window)];
    assert events[1..] == [Ask(id, now, window)] && events[1..][1..] == [];
    assert Revoked(map[], id, at) == map[id := at];
    var kept := Pruned(map[id := at], now, window);
    assert id in kept <==> now < at + window;
    assert Answers(kept, []) == [];
    assert Answers(map[id := at], [Ask(id, now, window)]) == [id in kept] + [];
  }

  // A revocation that is forgotten

  /** The same participant is asked about at every query. */
  function AskAll(id: string, qs: seq<Query>): (events: seq<Event>)
    ensures |events| == |qs|
  {
    seq(|qs|, i requires 0 <= i < |qs| => Ask(id, qs[i].now, qs[i].window))
  }

  lemma AskAllCons(id: string, qs: seq<Query>)
    requires qs != []
    ensures AskAll(id, qs)[0] == Ask(id, qs[0].now, qs[0].window)
    ensures AskAll(id, qs)[1..] == AskAll(id, qs[1..])
  {
  }

  lemma {:induction false} AskAllIs(id: string, qs: seq<Query>, now: Time)
    requires Timed(qs, now)
    ensures Queries(AskAll(id, qs)) == qs && Forward(AskAll(id, qs), now)
    decreases |qs|
  {
    if qs != [] {
      AskAllCons(id, qs);
      assert forall i :: 0 <= i < |qs[1..]| ==> qs[1..][i] == qs[i + 1];
      AskAllIs(id, qs[1..], qs[0].now);
    }
  }

  /** An empty table knows nobody. */
  lemma {:induction false} EmptyAnswers(id: string, qs: seq<Query>, j: nat)
    requires j < |qs|
    ensures |Answers(map[], AskAll(id, qs))| == |qs| && !Answers(map[], AskAll(id, qs))[j]
    decreases |qs|
  {
    AskAllCons(id, qs);
    assert Pruned(map[], qs[0].now, qs[0].window) == map[];
    if |qs| > 1 {
      EmptyAnswers(id, qs[1..], if j == 0 then 0 else j - 1);
    }
  }

  lemma {:induction false} LogAnswersAt(log: seq<Entry>, id: string, qs: seq<Query>, j: nat)
    requires j < |qs|
    ensures |LogAnswers(log, AskAll(id, qs))| == |qs|
    ensures LogAnswers(log, AskAll(id, qs))[j] == Fresh(log, id, qs[j].now, qs[j].window)
    decreases |qs|
  {
    AskAllCons(id, qs);
    if |qs| > 1 {
      LogAnswersAt(log, id, qs[1..], if j == 0 then 0 else j - 1);
    }
  }

  /** Pruned by query `i` at the latest, looked for by query `j` after it. */
  lemma {:induction false} Forgotten(id: string, at: Time, qs: seq<Query>, i: nat, j: nat)
    requires Timed(qs, at) && i < j < |qs| && From(qs[j]) <= at < From(qs[i])
    ensures Answers(map[id := at], AskAll(id, qs)) != LogAnswers([Entry(id, at)], AskAll(id, qs))
    decreases |qs|
  {
    var table, log, rest := map[id := at], [Entry(id, at)], qs[1..];
    AskAllCons(id, qs);
    assert forall k :: 0 <= k < |rest| ==> rest[k] == qs[k + 1];
    FreshFromEarliest(at, qs[0].now, qs[0].window);
    if at < From(qs[0]) {
      assert Pruned(table, qs[0].now, qs[0].window) == map[];
      EmptyAnswers(id, rest, j - 1);
      LogAnswersAt(log, id, rest, j - 1);
      FreshFromEarliest(at, qs[j].now, qs[j].window);
      assert log[0].id == id;
      Apart(Answers(map[], AskAll(id, rest)), LogAnswers(log, AskAll(id, rest)), j - 1,
            id in Pruned(table, qs[0].now, qs[0].window), Fresh(log, id, qs[0].now, qs[0].window));
    } else {
      assert Pruned(table, qs[0].now, qs[0].window) == table;
      Forgotten(id, at, rest, i - 1, j - 1);
      Tails(Answers(table, AskAll(id, rest)), LogAnswers(log, AskAll(id, rest)),
            id in table, Fresh(log, id, qs[0].now, qs[0].window));
    }
  }

  lemma Apart(a: seq<bool>, b: seq<bool>, k: nat, x: bool, y: bool)
    requires k < |a| && k < |b| && a[k] != b[k]
    ensures [x] + a != [y] + b
  {
    Tails(a, b, x, y);
  }

  lemma Tails(a: seq<bool>, b: seq<bool>, x: bool, y: bool)
    requires a != b
    ensures [x] + a != [y] + b
  {
    assert ([x] + a)[1..] == a && ([y] + b)[1..] == b;
  }

  /** When a query reaches further back than one before it, some revocation among these
      queries is answered differently: it is made at the last moment the earlier one
      forgets. */
  lemma {:induction false} SomeForgotten(qs: seq<Query>, now: Time, i: nat, j: nat) returns (events: seq<Event>)
    requires Timed(qs, now) && i < j < |qs| && From(qs[i]) > From(qs[j])
    requires now < From(qs[i])
    ensures Forward(events, now) && Queries(events) == qs
    ensures Answers(map[], events) != LogAnswers([], events)
    decreases |qs|
  {
    var at, rest := From(qs[i]) - 1, qs[1..];
    assert forall k :: 0 <= k < |rest| ==> rest[k] == qs[k + 1];
    if qs[0].now < at {
      var later := SomeForgotten(rest, qs[0].now, i - 1, j - 1);
      AskFirst(now, qs[0], later);
      assert qs == [qs[0]] + rest;
      events := [Ask("a", qs[0].now, qs[0].window)] + later;
    } else {
      AskAllIs("a", qs, at);
      Forgotten("a", at, qs, i, j);
      RevokeFirst(now, at, AskAll("a", qs));
      events := [Revoke("a", at)] + AskAll("a", qs);
    }
  }

  lemma AskFirst(now: Time, q: Query, later: seq<Event>)
    requires now <= q.now && Forward(later, q.now) && Answers(map[], later) != LogAnswers([], later)
    ensures var events := [Ask("a", q.now, q.window)] + later;
      && Forward(events, now) && Queries(events) == [q] + Queries(later)
      && Answers(map[], events) != LogAnswers([], events)
  {
    var events := [Ask("a", q.now, q.window)] + later;
    assert events[1..] == later;
    assert Pruned(map[], q.now, q.window) == map[];
    Tails(Answers(map[], later), LogAnswers([], later), false, Fresh([], "a", q.now, q.window));
  }

  lemma RevokeFirst(now: Time, at: Time, later: seq<Event>)
    requires now <= at && Forward(later, at)
    requires Answers(map["a" := at], later) != LogAnswers([Entry("a", at)], later)
    ensures var events := [Revoke("a", at)] + later;
      && Forward(events, now) && Queries(events) == Queries(later)
      && Answers(map[], events) != LogAnswers([], events)
  {
    var events := [Revoke("a", at)] + later;
    assert events[1..] == later;
    assert Revoked(map[], "a", at) == map["a" := at];
    assert [] + [Entry("a", at)] == [Entry("a", at)];
  }

  /** For any schedule of queries: whatever is revoked and asked about at them, the pruned
      table answers as the full log would, if and only if no query reaches further back
      than one before it. */
  lemma PruningInvisibleIff(qs: seq<Query>)
    requires Timed(qs, 0)
    ensures Advances(qs) <==>
      forall events :: Forward(events, 0) && Queries(events) == qs ==> Answers(map[], events) == LogAnswers([], events)
  {
    if Advances(qs) {
      forall events | Forward(events, 0) && Queries(events) == qs
        ensures Answers(map[], events) == LogAnswers([], events)
      {
        PruningInvisible(map[], [], 0, 0, events);
      }
    } else {
      var i, j :| 0 <= i < j < |qs| && From(qs[i]) > From(qs[j]);
      var events := SomeForgotten(qs, 0, i, j);
    }
  }

  /** A growing window can tell: a short query prunes what a longer one would still find. */
  lemma GrowingWindowForgets()
    ensures var events := [Revoke("a", 0), Ask("b", 5, 1), Ask("a", 5, 10)];
      Answers(map[], events) == [false, false] && LogAnswers([], events) == [false, true]
  {
    var events := [Revoke("a", 0), Ask("b", 5, 1), Ask("a", 5, 10)];
    var table: map<string, Time> := map["a" := 0];
    var log := [Entry("a", 0)];
    assert events[1..] == [Ask("b", 5, 1), Ask("a", 5, 10)];
    assert events[1..][1..] == [Ask("a", 5, 10)];
    assert events[1..][1..][1..] == [];
    assert Revoked(map[], "a", 0) == table && [] + [Entry("a", 0)] == log;
    assert Pruned(table, 5, 1) == map[];
    assert Pruned(map[], 5, 10) == map[];
    assert Fresh(log, "a", 5, 10) by {
      assert log[0].id == "a";
    }
    assert !Fresh(log, "b", 5, 1);
    assert Answers(table, events[1..]) == [false] + Answers(map[], events[1..][1..]);
    assert LogAnswers(log, events[1..]) == [false] + LogAnswers(log, events[1..][1..]);
  }

  // ---------------------------------------------------------------------------
  // Viewer identities
  // ---------------------------------------------------------------------------

  const MAX_VIEWER_IDENTITIES: nat := 8
  const MARKER: string := "-vw-"

  predicate MarkerAt(s: string, i: nat) {
    i + |MARKER| <= |s| && s[i..i + |MARKER|] == MARKER
  }

  /** `rfind`: the last marker at or before position `i`. */
  function LastMarker(s: string, i: nat): int {
    if MarkerAt(s, i) then i else if i == 0 then -1 else LastMarker(s, i - 1)
  }

  lemma {:induction false} LastMarkerIsLast(s: string, i: nat)
    ensures var m := LastMarker(s, i);
      && -1 <= m <= i
      && (m >= 0 ==> MarkerAt(s, m))
      && forall j :: m < j <= i ==> !MarkerAt(s, j)
  {
    if !MarkerAt(s, i) && i > 0 {
      LastMarkerIsLast(s, i - 1);
    }
  }

  /** The window an identity belongs to: its text from the last marker on. */
  datatype Window = NoWindow | Window(suffix: string)

  function WindowOf(identity: string): Window {
    var m := LastMarker(identity, |identity|);
    if 0 <= m <= |identity| then Window(identity[m..]) else NoWindow
  }

  predicate Tagged(s: string, j: nat) {
    j + 4 <= |s| && s[j..j + 4] == "-vw-"
  }

  /** The window of an identity is what its last "-vw-" starts. */
  lemma WindowFound(a: string, b: string)
    requires forall j :: 0 < j <= |b| ==> !Tagged("-vw-" + b, j)
    ensures WindowOf(a + ("-vw-" + b)) == Window("-vw-" + b)
  {
    var t := "-vw-" + b;
    var s := a + t;
    var m := LastMarker(s, |s|);
    LastMarkerIsLast(s, |s|);
    assert t[0..4] == "-vw-";
    assert s[|a|..] == t;
    MarkerInSuffix(s, t, 0);
    assert m >= |a|;
    MarkerInSuffix(s, t, m - |a|);
    assert !Tagged(t, m - |a|) || m == |a|;
  }

  /** Without one there is no window. */
  lemma NoWindowIff(s: string)
    ensures WindowOf(s) == NoWindow <==> forall j :: 0 <= j <= |s| ==> !Tagged(s, j)
  {
    LastMarkerIsLast(s, |s|);
    var m := LastMarker(s, |s|);
    if m >= 0 {
      assert Tagged(s, m);
    }
    forall j | 0 <= j <= |s| && Tagged(s, j) ensures m >= 0 {
      assert MarkerAt(s, j);
    }
  }

  predicate EndsWith(s: string, suffix: string) {
    |suffix| <= |s| && s[|s| - |suffix|..] == suffix
  }

  lemma MarkerInSuffix(s: string, suffix: string, j: nat)
    requires EndsWith(s, suffix)
    ensures MarkerAt(suffix, j) <==> MarkerAt(s, |s| - |suffix| + j)
  {
    var d := |s| - |suffix|;
    if j + |MARKER| <= |suffix| {
      assert s[d + j..d + j + |MARKER|] == s[d..][j..j + |MARKER|];
    }
  }

  lemma WindowMarks(identity: string, suffix: string)
    requires WindowOf(identity) == Window(suffix)
    ensures EndsWith(identity, suffix)
    ensures MarkerAt(suffix, 0) && forall j :: 0 < j <= |suffix| ==> !MarkerAt(suffix, j)
  {
    var m := LastMarker(identity, |identity|);
    LastMarkerIsLast(identity, |identity|);
    MarkerInSuffix(identity, suffix, 0);
    forall j | 0 < j <= |suffix| ensures !MarkerAt(suffix, j) {
      MarkerInSuffix(identity, suffix, j);
    }
  }

  /** Ending with a window's suffix is the same as belonging to that window. */
  lemma SameWindowIff(identity: string, other: string, suffix: string)
    requires WindowOf(identity) == Window(suffix)
    ensures EndsWith(other, suffix) <==> WindowOf(other) == Window(suffix)
  {
    WindowMarks(identity, suffix);
    if EndsWith(other, suffix) {
      var d := |other| - |suffix|;
      var m := LastMarker(other, |other|);
      LastMarkerIsLast(other, |other|);
      MarkerInSuffix(other, suffix, 0);
      assert m >= d;
      MarkerInSuffix(other, suffix, m - d);
      assert m == d;
    } else if WindowOf(other) == Window(suffix) {
      WindowMarks(other, suffix);
    }
  }

  /** `retain`: drops what ends with the suffix of the identity's window. */
  function WithoutWindow(held: set<string>, identity: string): set<string> {
    match WindowOf(identity)
    case NoWindow => held
    case Window(suffix) => set x | x in held && !EndsWith(x, suffix)
  }

  function Recorded(held: set<string>, identity: string): set<string> {
    var kept := WithoutWindow(held, identity);
    if |kept| >= MAX_VIEWER_IDENTITIES then kept else kept + {identity}
  }

  predicate Accepted(held: set<string>, identity: string) {
    |WithoutWindow(held, identity)| < MAX_VIEWER_IDENTITIES
  }

  predicate Shares(x: string, y: string) {
    WindowOf(x).Window? && WindowOf(x) == WindowOf(y)
  }

  /** At most eight identities, one a window. */
  ghost predicate Capped(held: set<string>) {
    && |held| <= MAX_VIEWER_IDENTITIES
    && forall x, y :: x in held && y in held && x != y ==> !Shares(x, y)
  }

  lemma WithoutWindowIs(held: set<string>, identity: string)
    ensures forall x :: x in WithoutWindow(held, identity) <==> x in held && !Shares(identity, x)
  {
    if WindowOf(identity).Window? {
      forall x ensures EndsWith(x, WindowOf(identity).suffix) <==> WindowOf(x) == WindowOf(identity) {
        SameWindowIff(identity, x, WindowOf(identity).suffix);
      }
    }
  }

  /** One request: refused exactly when eight identities of other windows are held (so
      re-issuing for a held window succeeds); a refused request changes nothing; an
      accepted one replaces what was held for the same window. */
  lemma RecordedIs(held: set<string>, identity: string)
    requires Capped(held)
    ensures Accepted(held, identity) <==>
      |held| < 8 || exists x :: x in held && Shares(identity, x)
    ensures !Accepted(held, identity) ==> Recorded(held, identity) == held
    ensures Accepted(held, identity) ==> forall x ::
      x in Recorded(held, identity) <==> x == identity || (x in held && !Shares(identity, x))
    ensures Capped(Recorded(held, identity))
  {
    var kept := WithoutWindow(held, identity);
    WithoutWindowIs(held, identity);
    assert kept <= held;
    SubsetSize(kept, held);
    if kept != held {
      var x :| x in held && x !in kept;
      assert Shares(identity, x);
    }
  }

  lemma SubsetSize(a: set<string>, b: set<string>)
    requires a <= b
    ensures |a| <= |b| && (|a| == |b| <==> a == b)
  {
    assert b == a + (b - a);
    assert |b| == |a| + |b - a|;
  }

  /** An identity without a window marker that is held already is refused at the cap,
      although recording it again would not add one. */
  lemma HeldYetRefused(held: set<string>, identity: string)
    requires Capped(held) && identity in held && WindowOf(identity).NoWindow?
    ensures Accepted(held, identity) <==> |held| < 8
  {
    RecordedIs(held, identity);
  }

  // ---------------------------------------------------------------------------
  // The tables as an object
  // ---------------------------------------------------------------------------

  /** Takes out the entries of the same window. */
  method RetainOthers(held: set<string>, identity: string) returns (kept: set<string>)
    ensures kept == WithoutWindow(held, identity)
  {
    var m := LastMarker(identity, |identity|);
    LastMarkerIsLast(identity, |identity|);
    kept := held;
    if m >= 0 {
      var suffix := identity[m..];
      kept := set x | x in held && !EndsWith(x, suffix);
    }
  }

  class RoomInfo {
    var revoked: map<string, Time>
    var viewers: map<string, set<string>>
    ghost var log: seq<Entry>

    /** Every peer's set is capped. */
    ghost predicate Valid()
      reads this
    {
      forall p <- viewers :: Capped(viewers[p])
    }

    constructor ()
      ensures Valid() && revoked == map[] && viewers == map[] && log == []
      ensures Faithful(revoked, log, 0, 0)
    {
      revoked, viewers, log := map[], map[], [];
    }

    function Held(p: string): set<string>
      reads this
    {
      if p in viewers then viewers[p] else {}
    }

    method AddRevokedParticipant(id: string, now: Time)
      modifies this`revoked, this`log
      ensures revoked == Revoked(old(revoked), id, now)
      ensures log == old(log) + [Entry(id, now)]
      ensures forall since: Time, bound: nat :: old(Faithful(revoked, log, since, bound)) && since <= now ==>
        Faithful(revoked, log, now, bound)
    {
      ghost var before, table := log, revoked;
      revoked := revoked[id := now];
      log := log + [Entry(id, now)];
      forall since: Time, bound: nat | Faithful(table, before, since, bound) && since <= now
        ensures Faithful(revoked, log, now, bound)
      {
        RevokeFaithful(table, before, since, bound, id, now);
      }
    }

    /** Prunes, then answers; the answer is the log's whenever the query reaches no
        further back than what was pruned before. */
    method IsParticipantRevoked(id: string, now: Time, window: nat) returns (answer: bool)
      modifies this`revoked
      ensures revoked == Pruned(old(revoked), now, window) && (answer <==> id in revoked)
      ensures id in old(revoked) && old(revoked)[id] <= now ==> (answer <==> now < old(revoked)[id] + window)
      ensures id !in old(revoked) ==> !answer
      ensures forall since: Time, bound: nat ::
        old(Faithful(revoked, log, since, bound)) && since <= now && bound <= Earliest(now, window) ==>
          (answer <==> Fresh(log, id, now, window)) && Faithful(revoked, log, now, Earliest(now, window))
    {
      ghost var table := revoked;
      revoked := map k | k in revoked && Age(revoked[k], now) < window :: revoked[k];
      answer := id in revoked;
      forall since: Time, bound: nat |
        Faithful(table, log, since, bound) && since <= now && bound <= Earliest(now, window)
        ensures (answer <==> Fresh(log, id, now, window)) && Faithful(revoked, log, now, Earliest(now, window))
      {
        AskFaithful(table, log, since, bound, id, now, window);
      }
    }

    method RecordViewerIdentity(p: string, identity: string) returns (ok: bool)
      requires Valid()
      modifies this`viewers
      ensures Valid()
      ensures ok == Accepted(old(Held(p)), identity) && Held(p) == Recorded(old(Held(p)), identity)
      ensures ok <==> |old(Held(p))| < 8 || exists x :: x in old(Held(p)) && Shares(identity, x)
      ensures !ok ==> Held(p) == old(Held(p))
      ensures ok ==> forall x :: x in Held(p) <==> x == identity || (x in old(Held(p)) && !Shares(identity, x))
      ensures forall q :: q != p ==> Held(q) == old(Held(q))
    {
      var entries := if p in viewers then viewers[p] else {};
      RecordedIs(entries, identity);
      entries := RetainOthers(entries, identity);
      if |entries| >= MAX_VIEWER_IDENTITIES {
        viewers := viewers[p := entries];
        return false;
      }
      viewers := viewers[p := entries + {identity}];
      ok := true;
    }

    method TakeViewerIdentities(p: string) returns (taken: set<string>)
      requires Valid()
      modifies this`viewers
      ensures Valid() && taken == old(Held(p)) && Held(p) == {}
      ensures forall q :: q != p ==> Held(q) == old(Held(q))
    {
      taken := if p in viewers then viewers[p] else {};
      viewers := viewers - {p};
    }
  }
}
