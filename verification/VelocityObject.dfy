// The edge form of the velocity signal (apps/edge/src/lib/do/velocity-do.ts): one durable object
// per entity, holding each member's expiry and one alarm; compared with the native event table.
module VelocityObject {
  import opened Basics
  import V = Velocity

  type Members = map<string, nat>

  datatype State = State(record: Option<Members>, alarm: Option<nat>)

  const EMPTY: State := State(None, None)

  function Stored(s: State): Members {
    if s.record.Some? then s.record.value else map[]
  }

  function Pruned(m: Members, now: nat): Members {
    m - (set id | id in m && m[id] <= now)
  }

  lemma {:induction false} FurthestExists(s: set<nat>)
    requires s != {}
    ensures exists x :: x in s && forall y :: y in s ==> y <= x
  {
    var x :| x in s;
    if s - {x} == {} {
      assert s == {x};
    } else {
      FurthestExists(s - {x});
      var z :| z in s - {x} && forall y :: y in s - {x} ==> y <= z;
      var w := Max(x, z);
      forall y | y in s ensures y <= w { assert y == x || y in s - {x}; }
      assert w in s;
    }
  }

  function Furthest(s: set<nat>): (x: nat)
    requires s != {}
    ensures x in s && forall y :: y in s ==> y <= x
  {
    FurthestExists(s);
    var x :| x in s && forall y :: y in s ==> y <= x;
    x
  }

  function Armed(m: Members): State
    requires m != map[]
  {
    Nonempty(m);
    State(Some(m), Some(Furthest(m.Values)))
  }

  lemma Nonempty(m: Members)
    requires m != map[]
    ensures m.Values != {}
  {
    var id :| id in m;
    assert m[id] in m.Values;
  }

  datatype Op = Bump(member: string, now: nat, window: nat) | Alarm(now: nat)

  predicate Enabled(s: State, op: Op) {
    op.Alarm? ==> s.alarm.Some? && op.now >= s.alarm.value
  }

  function Bumped(s: State, member: string, now: nat, window: nat): (m: Members)
    ensures member in m
  {
    Pruned(Stored(s), now)[member := now + window]
  }

  function Step(s: State, op: Op): State {
    match op
    case Bump(member, now, window) => Armed(Bumped(s, member, now, window))
    case Alarm(now) => if Pruned(Stored(s), now) == map[] then EMPTY else Armed(Pruned(Stored(s), now))
  }

  function Run(ops: seq<Op>): State {
    if ops == [] then EMPTY else Step(Run(ops[..|ops| - 1]), ops[|ops| - 1])
  }

  /** A run of one entity: a fixed window, a clock that does not go backwards, alarms only when
      they are due. */
  ghost predicate Life(ops: seq<Op>, window: nat) {
    && (forall i :: 0 <= i < |ops| && ops[i].Bump? ==> ops[i].window == window)
    && (forall i, j :: 0 <= i < j < |ops| ==> ops[i].now <= ops[j].now)
    && (forall i :: 0 <= i < |ops| ==> Enabled(Run(ops[..i]), ops[i]))
  }

  lemma FrontLife(ops: seq<Op>, window: nat)
    requires Life(ops, window) && ops != []
    ensures Life(ops[..|ops| - 1], window)
  {
    var front := ops[..|ops| - 1];
    forall i | 0 <= i < |front| ensures Enabled(Run(front[..i]), front[i]) {
      TakeOfFront(ops, i);
      assert front[i] == ops[i];
    }
  }

  /** A stored record is never empty and always has the alarm armed at its furthest expiry; without
      a record there is no alarm. */
  lemma {:induction false} AlarmAtFurthest(ops: seq<Op>)
    ensures match Run(ops).record
      case Some(m) => m != map[] && Run(ops) == Armed(m)
      case None => Run(ops) == EMPTY
  {
  }

  /** When the alarm of a quiet entity fires, nothing is left of it. */
  lemma QuietEntityIsDeleted(ops: seq<Op>, now: nat)
    requires Enabled(Run(ops), Alarm(now))
    ensures Run(ops + [Alarm(now)]) == EMPTY
  {
    AlarmAtFurthest(ops);
    assert (ops + [Alarm(now)])[..|ops|] == ops;
    var m := Run(ops).record.value;
    forall id | id in m ensures m[id] <= now {
      assert m[id] in m.Values;
    }
    assert Pruned(m, now) == map[];
  }

  // ---- What a bump counts ----

  /** The members bumped within the window ending at `now`, from the bumps alone. */
  ghost function Recent(ops: seq<Op>, window: nat, now: nat): set<string> {
    set i | 0 <= i < |ops| && ops[i].Bump? && ops[i].now + window > now :: ops[i].member
  }

  lemma RecentSnoc(ops: seq<Op>, window: nat, now: nat)
    requires ops != []
    ensures var front, last := ops[..|ops| - 1], ops[|ops| - 1];
      Recent(ops, window, now) ==
      Recent(front, window, now) + if last.Bump? && last.now + window > now then {last.member} else {}
  {
    var front, last := ops[..|ops| - 1], ops[|ops| - 1];
    var more := if last.Bump? && last.now + window > now then {last.member} else {};
    forall id ensures id in Recent(ops, window, now) <==> id in Recent(front, window, now) + more {
      if id in Recent(front, window, now) {
        var i :| 0 <= i < |front| && front[i].Bump? && front[i].now + window > now && front[i].member == id;
        assert ops[i] == front[i];
      }
      if id in Recent(ops, window, now) {
        var i :| 0 <= i < |ops| && ops[i].Bump? && ops[i].now + window > now && ops[i].member == id;
        assert i < |front| ==> front[i] == ops[i];
      }
    }
  }

  /** From the last operation on, the members still alive are those bumped within the window, and
      none expires later than a window from now. */
  lemma {:induction false} AliveAreRecent(ops: seq<Op>, window: nat, now: nat)
    requires Life(ops, window) && (ops != [] ==> ops[|ops| - 1].now <= now)
    ensures Pruned(Stored(Run(ops)), now).Keys == Recent(ops, window, now)
    ensures forall id :: id in Stored(Run(ops)) ==> Stored(Run(ops))[id] <= now + window
  {
    if ops != [] {
      var front, last := ops[..|ops| - 1], ops[|ops| - 1];
      FrontLife(ops, window);
      if front != [] { assert front[|front| - 1] == ops[|ops| - 2]; }
      AliveAreRecent(front, window, now);
      AliveAreRecent(front, window, last.now);
      RecentSnoc(ops, window, now);
      StepAlive(Run(front), last, window, now);
    }
  }

  lemma StepAlive(s: State, op: Op, window: nat, now: nat)
    requires op.now <= now && (op.Bump? ==> op.window == window)
    requires forall id :: id in Stored(s) ==> Stored(s)[id] <= op.now + window
    ensures Pruned(Stored(Step(s, op)), now).Keys ==
      Pruned(Stored(s), now).Keys + if op.Bump? && op.now + window > now then {op.member} else {}
    ensures forall id :: id in Stored(Step(s, op)) ==> Stored(Step(s, op))[id] <= now + window
  {
  }

  /** A bump answers the number of distinct members bumped within the window, itself included, so
      no interleaving of alarms changes any answer. */
  lemma BumpCountsRecent(ops: seq<Op>, window: nat, member: string, now: nat)
    requires Life(ops, window) && (ops != [] ==> ops[|ops| - 1].now <= now)
    ensures |Bumped(Run(ops), member, now, window)| == |Recent(ops, window, now) + {member}|
  {
    AliveAreRecent(ops, window, now);
    var m := Bumped(Run(ops), member, now, window);
    assert m.Keys == Recent(ops, window, now) + {member};
    assert |m| == |m.Keys|;
  }

  // ---- Edge against native ----

  datatype Event = Event(id: string, ms: nat)

  const WINDOW_MS: nat := 3_600_000

  ghost predicate DistinctIds(events: seq<Event>) {
    forall i, j :: 0 <= i < j < |events| ==> events[i].id != events[j].id
  }

  ghost predicate Ordered(events: seq<Event>) {
    forall i, j :: 0 <= i < j < |events| ==> events[i].ms <= events[j].ms
  }

  /** The native table keeps whole seconds. */
  function Secs(events: seq<Event>): seq<nat> {
    if events == [] then [] else Secs(events[..|events| - 1]) + [events[|events| - 1].ms / 1000]
  }

  function EdgeOps(events: seq<Event>): seq<Op> {
    seq(|events|, i requires 0 <= i < |events| => Bump(events[i].id, events[i].ms, WINDOW_MS))
  }

  /** Native counts an event while its whole second is at most 3600 seconds old, inclusive. */
  predicate NativeSees(e: Event, now: nat) {
    e.ms / 1000 >= SatSub(now / 1000, V.WINDOW)
  }

  /** The edge counts it while it is strictly less than 3600 seconds old. */
  predicate EdgeSees(e: Event, now: nat) {
    e.ms + WINDOW_MS > now
  }

  function Seen(events: seq<Event>, now: nat): seq<Event> {
    if events == [] then []
    else
      var last := events[|events| - 1];
      Seen(events[..|events| - 1], now) + if NativeSees(last, now) then [last] else []
  }

  /** The event is in its last native second: 3600 seconds old but not yet 3601, and its millisecond
      within its second is not past that of `now`. */
  predicate InLastSecond(e: Event, now: nat) {
    e.ms <= now && WINDOW_MS <= now - e.ms < WINDOW_MS + 1000 && e.ms % 1000 <= now % 1000
  }

  /** What the edge sees, native sees; what only native sees is exactly what is in its last second. */
  lemma EdgeSeesLess(e: Event, now: nat)
    requires e.ms <= now
    ensures EdgeSees(e, now) ==> NativeSees(e, now)
    ensures NativeSees(e, now) && !EdgeSees(e, now) <==> InLastSecond(e, now)
  {
  }

  ghost function EdgeIds(events: seq<Event>, now: nat): set<string> {
    set e | e in events && EdgeSees(e, now) :: e.id
  }

  lemma {:induction false} SeenMembers(events: seq<Event>, now: nat)
    ensures forall e :: e in Seen(events, now) <==> e in events && NativeSees(e, now)
  {
    if events != [] {
      SeenMembers(events[..|events| - 1], now);
      assert events == events[..|events| - 1] + [events[|events| - 1]];
    }
  }

  ghost function IdsOf(events: seq<Event>): set<string> {
    set e | e in events :: e.id
  }

  /** There are as many ids as events exactly if no id repeats. */
  lemma {:induction false} IdsAtMost(events: seq<Event>)
    ensures |IdsOf(events)| <= |events|
    ensures |IdsOf(events)| == |events| <==> DistinctIds(events)
  {
    if events != [] {
      var front, last := events[..|events| - 1], events[|events| - 1];
      IdsAtMost(front);
      SplitLast(events);
      assert IdsOf(events) == IdsOf(front) + {last.id};
      DistinctSnoc(front, last);
    }
  }

  lemma DistinctSnoc(front: seq<Event>, last: Event)
    ensures DistinctIds(front + [last]) <==> DistinctIds(front) && last.id !in IdsOf(front)
  {
    var events := front + [last];
    assert events[|front|] == last && forall i :: 0 <= i < |front| ==> events[i] == front[i];
    if last.id in IdsOf(front) {
      var i :| 0 <= i < |front| && front[i].id == last.id;
      assert events[i].id == events[|front|].id;
    }
    if DistinctIds(front) && last.id !in IdsOf(front) {
      assert forall i :: 0 <= i < |front| ==> front[i] in front && front[i].id in IdsOf(front);
    }
  }

  /** No id repeats among the events native still counts, and none of them is in its last second. */
  ghost predicate CountAlike(events: seq<Event>, now: nat) {
    DistinctIds(Seen(events, now)) && forall e :: e in events ==> !InLastSecond(e, now)
  }

  lemma SightCompared(events: seq<Event>, now: nat)
    requires forall e :: e in events ==> e.ms <= now
    ensures EdgeIds(events, now) <= IdsOf(Seen(events, now))
    ensures (forall e :: e in events ==> !InLastSecond(e, now)) ==> EdgeIds(events, now) == IdsOf(Seen(events, now))
  {
    SeenMembers(events, now);
    forall e | e in events
      ensures (EdgeSees(e, now) ==> NativeSees(e, now))
      ensures NativeSees(e, now) && !EdgeSees(e, now) <==> InLastSecond(e, now)
    {
      EdgeSeesLess(e, now);
    }
  }

  /** If the edge sees every id that native sees once, it sees every event. */
  lemma AllSeen(events: seq<Event>, e: Event, now: nat)
    requires forall d :: d in events ==> d.ms <= now
    requires DistinctIds(Seen(events, now)) && EdgeIds(events, now) == IdsOf(Seen(events, now))
    requires e in events
    ensures !InLastSecond(e, now)
  {
    SeenMembers(events, now);
    EdgeSeesLess(e, now);
    if InLastSecond(e, now) {
      assert e in Seen(events, now) && e.id in EdgeIds(events, now);
      var d :| d in events && EdgeSees(d, now) && d.id == e.id;
      EdgeSeesLess(d, now);
      OnlyOneWithId(Seen(events, now), d, e);
      assert false;
    }
  }

  lemma OnlyOneWithId(events: seq<Event>, d: Event, e: Event)
    requires DistinctIds(events) && d in events && e in events && d.id == e.id
    ensures d == e
  {
    var i :| 0 <= i < |events| && events[i] == d;
    var j :| 0 <= j < |events| && events[j] == e;
    assert i == j;
  }

  /** The edge's distinct count never exceeds the native event count, and the two are equal exactly when no
      id repeats among the events native still counts and none of them is in its last second. */
  lemma CountsCompared(events: seq<Event>, now: nat)
    requires forall e :: e in events ==> e.ms <= now
    ensures |EdgeIds(events, now)| <= |Seen(events, now)|
    ensures |EdgeIds(events, now)| == |Seen(events, now)| <==> CountAlike(events, now)
  {
    var seen := Seen(events, now);
    SightCompared(events, now);
    IdsAtMost(seen);
    SubsetSize(EdgeIds(events, now), IdsOf(seen));
    if |EdgeIds(events, now)| == |seen| {
      forall e | e in events ensures !InLastSecond(e, now) {
        AllSeen(events, e, now);
      }
    }
  }

  // ---- The two systems compute those counts ----

  /** The naive native count is the number of events native sees. */
  lemma {:induction false} NativeCount(events: seq<Event>, now: nat)
    ensures |V.Since(Secs(events), SatSub(now / 1000, V.WINDOW))| == |Seen(events, now)|
  {
    if events != [] {
      var n := |events| - 1;
      NativeCount(events[..n], now);
      V.SinceSum(Secs(events[..n]), [events[n].ms / 1000], SatSub(now / 1000, V.WINDOW));
    }
  }

  lemma {:induction false} EdgeLife(events: seq<Event>)
    requires Ordered(events)
    ensures Life(EdgeOps(events), WINDOW_MS)
  {
  }

  lemma EdgeRecent(events: seq<Event>, now: nat)
    ensures Recent(EdgeOps(events), WINDOW_MS, now) == EdgeIds(events, now)
  {
    var ops := EdgeOps(events);
    forall id ensures id in Recent(ops, WINDOW_MS, now) <==> id in EdgeIds(events, now) {
      if id in Recent(ops, WINDOW_MS, now) {
        var i :| 0 <= i < |ops| && ops[i].Bump? && ops[i].now + WINDOW_MS > now && ops[i].member == id;
        assert events[i] in events;
      }
      if id in EdgeIds(events, now) {
        var e :| e in events && EdgeSees(e, now) && e.id == id;
        var i :| 0 <= i < |events| && events[i] == e;
        assert ops[i].member == id;
      }
    }
  }

  function EdgeAnswer(events: seq<Event>): nat
    requires events != []
  {
    var last := events[|events| - 1];
    |Bumped(Run(EdgeOps(events[..|events| - 1])), last.id, last.ms, WINDOW_MS)|
  }

  /** The count of the native table after any operations, under any cap. */
  function NativeAnswer(cap: Option<nat>, ops: seq<V.Op>, key: string, now: nat): nat {
    V.Count(V.Run(cap, V.WINDOW, ops), key, now / 1000, V.WINDOW)
  }

  /** A native run, of any keys, whose events under `key` are these, up to the last of them. */
  ghost predicate Records(ops: seq<V.Op>, key: string, events: seq<Event>) {
    && events != [] && V.Monotone(ops) && V.History(ops, key) == Secs(events)
    && (ops != [] ==> ops[|ops| - 1].now <= events[|events| - 1].ms / 1000)
  }

  lemma OrderedFront(events: seq<Event>)
    requires Ordered(events) && events != []
    ensures var front := events[..|events| - 1];
      Ordered(front) && (front != [] ==> front[|front| - 1].ms <= events[|events| - 1].ms)
  {
  }

  lemma EdgeBump(front: seq<Event>, last: Event)
    requires Ordered(front) && (front != [] ==> front[|front| - 1].ms <= last.ms)
    ensures |Bumped(Run(EdgeOps(front)), last.id, last.ms, WINDOW_MS)| == |EdgeIds(front, last.ms) + {last.id}|
  {
    EdgeLife(front);
    BumpCountsRecent(EdgeOps(front), WINDOW_MS, last.id, last.ms);
    EdgeRecent(front, last.ms);
  }

  lemma EdgeAnswers(events: seq<Event>)
    requires Ordered(events) && events != []
    ensures EdgeAnswer(events) == |EdgeIds(events, events[|events| - 1].ms)|
  {
    OrderedFront(events);
    EdgeBump(events[..|events| - 1], events[|events| - 1]);
    EdgeIdsSnoc(events[..|events| - 1], events[|events| - 1]);
    SplitLast(events);
  }

  lemma EdgeIdsSnoc(front: seq<Event>, last: Event)
    ensures EdgeIds(front + [last], last.ms) == EdgeIds(front, last.ms) + {last.id}
  {
  }

  lemma NativeAnswers(cap: Option<nat>, ops: seq<V.Op>, key: string, events: seq<Event>)
    requires Records(ops, key, events)
    ensures var now := events[|events| - 1].ms;
      NativeAnswer(cap, ops, key, now) == if key in V.Run(cap, V.WINDOW, ops).events then |Seen(events, now)| else 0
  {
    var now := events[|events| - 1].ms;
    if key in V.Run(cap, V.WINDOW, ops).events {
      NativeCount(events, now);
      V.CountIsNaive(cap, V.WINDOW, ops, key, now / 1000);
    }
  }

  /** Fed the same new-device events of one key, with the native table capped and used for any other keys
      besides: while native tracks the key, the edge's answer to the last event never exceeds the native
      count, and the two agree exactly when no id repeats among the events native still counts and none of
      them is in its last second; a key beyond the cap counts for nothing natively and for something on the
      edge. */
  lemma EdgeAgainstNative(cap: Option<nat>, ops: seq<V.Op>, key: string, events: seq<Event>)
    requires Ordered(events) && Records(ops, key, events)
    ensures var now := events[|events| - 1].ms;
      var edge, native := EdgeAnswer(events), NativeAnswer(cap, ops, key, now);
      if key in V.Run(cap, V.WINDOW, ops).events then
        && edge <= native
        && (edge == native <==> CountAlike(events, now))
      else native == 0 < edge
  {
    var now := events[|events| - 1].ms;
    EdgeAnswers(events);
    NativeAnswers(cap, ops, key, events);
    CountsCompared(events, now);
    assert events[|events| - 1].id in EdgeIds(events, now);
  }

  lemma TwiceRecorded(key: string, secs: nat)
    ensures var op := V.RecordOp(key, secs);
      V.History([op, op], key) == [secs, secs] && key in V.Run(None, V.WINDOW, [op, op]).events
  {
    var op := V.RecordOp(key, secs);
    Appended(op, op, op, op);
    assert [op, op][..1] == [op] && [op][..0] == [];
    assert key in V.Run(None, V.WINDOW, [op]).events && V.History([op], key) == [secs];
  }

  lemma SeenSnoc(front: seq<Event>, last: Event, now: nat)
    ensures Seen(front + [last], now) == Seen(front, now) + if NativeSees(last, now) then [last] else []
    ensures Secs(front + [last]) == Secs(front) + [last.ms / 1000]
  {
    assert (front + [last])[..|front|] == front;
  }

  lemma TwiceSeen(e: Event)
    ensures Secs([e, e]) == [e.ms / 1000, e.ms / 1000] && Seen([e, e], e.ms) == [e, e]
    ensures EdgeIds([e, e], e.ms) == {e.id}
  {
    SeenSnoc([], e, e.ms);
    SeenSnoc([e], e, e.ms);
    Appended(e, e, e, e);
    Appended(e.ms / 1000, e.ms / 1000, 0, 0);
  }

  lemma CountedTwice(e: Event, key: string, events: seq<Event>, ops: seq<V.Op>)
    requires |events| == 2 && events[1] == e && Ordered(events)
    requires Records(ops, key, events) && key in V.Run(None, V.WINDOW, ops).events
    requires |Seen(events, e.ms)| == 2 && |EdgeIds(events, e.ms)| == 1
    ensures EdgeAnswer(events) == 1 && NativeAnswer(None, ops, key, e.ms) == 2
  {
    EdgeAnswers(events);
    NativeAnswers(None, ops, key, events);
  }

  lemma SameTwice(e: Event, op: V.Op)
    ensures Ordered([e, e]) && V.Monotone([op, op])
  {
  }

  /** An id minted twice counts once on the edge and twice natively. */
  lemma RepeatCounted(e: Event, key: string, events: seq<Event>, ops: seq<V.Op>)
    requires events == [e, e] && ops == [V.RecordOp(key, e.ms / 1000), V.RecordOp(key, e.ms / 1000)]
    ensures Ordered(events) && Records(ops, key, events)
    ensures EdgeAnswer(events) == 1 && NativeAnswer(None, ops, key, e.ms) == 2
  {
    TwiceSeen(e);
    TwiceRecorded(key, e.ms / 1000);
    SameTwice(e, V.RecordOp(key, e.ms / 1000));
    CountedTwice(e, key, events, ops);
  }

  class VelocityDurableObject {
    var record: Option<Members>
    var alarm: Option<nat>

    function View(): State
      reads this
    {
      State(record, alarm)
    }

    constructor ()
      ensures View() == EMPTY
    {
      record, alarm := None, None;
    }

    /** Delete the lapsed members one at a time. */
    static method Prune(m: Members, now: nat) returns (kept: Members)
      ensures kept == Pruned(m, now)
    {
      kept := m;
      var todo := m.Keys;
      while todo != {}
        invariant todo <= m.Keys
        invariant kept == m - (set id | id in m && id !in todo && m[id] <= now)
        decreases todo
      {
        var id :| id in todo;
        if m[id] <= now {
          kept := kept - {id};
        }
        todo := todo - {id};
      }
    }

    method BumpMember(member: string, now: nat, window: nat) returns (distinct: nat)
      modifies this
      ensures View() == Step(old(View()), Bump(member, now, window))
      ensures distinct == |Bumped(old(View()), member, now, window)|
    {
      var members := Prune(Stored(View()), now);
      members := members[member := now + window];
      assert member in members;
      Nonempty(members);
      record := Some(members);
      alarm := Some(Furthest(members.Values));
      distinct := |members|;
    }

    method FireAlarm(now: nat)
      modifies this
      ensures View() == Step(old(View()), Alarm(now))
    {
      alarm := None;
      var members := Prune(Stored(View()), now);
      if members == map[] {
        record := None;
        return;
      }
      Nonempty(members);
      record := Some(members);
      alarm := Some(Furthest(members.Values));
    }
  }
}
