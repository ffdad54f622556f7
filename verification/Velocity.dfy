// New-device events per key (crates/fp-core/src/fuzzy/velocity.rs).
module Velocity {
  import opened Basics

  /** Trailing window in seconds. */
  const WINDOW: nat := 3600
  const MEDIUM: nat := 5
  const HIGH: nat := 20
  const JA4_MEDIUM: nat := 100
  const JA4_HIGH: nat := 400

  datatype Band = BandLow | BandMedium | BandHigh

  function ClassifyWith(count: nat, medium: nat, high: nat): Band {
    if count >= high then BandHigh else if count >= medium then BandMedium else BandLow
  }

  datatype Vel = Vel(events: map<string, seq<nat>>, dropped: nat)

  const EMPTY: Vel := Vel(map[], 0)

  predicate Accepts(v: Vel, cap: Option<nat>, key: string) {
    key in v.events || cap.None? || |v.events| < cap.value
  }

  function Recorded(v: Vel, cap: Option<nat>, key: string, now: nat): Vel {
    if key in v.events then v.(events := v.events[key := v.events[key] + [now]])
    else if Accepts(v, cap, key) then v.(events := v.events[key := [now]])
    else v.(dropped := v.dropped + 1)
  }

  /** The events no older than `cutoff`, in order. */
  function Since(events: seq<nat>, cutoff: nat): seq<nat> {
    if events == [] then []
    else (if events[0] >= cutoff then [events[0]] else []) + Since(events[1..], cutoff)
  }

  function Pruned(v: Vel, key: string, now: nat, window: nat): Vel {
    if key in v.events then v.(events := v.events[key := Since(v.events[key], SatSub(now, window))]) else v
  }

  function Count(v: Vel, key: string, now: nat, window: nat): nat {
    if key in v.events then |Since(v.events[key], SatSub(now, window))| else 0
  }

  // ---- Runs: pruning on access is invisible ----

  datatype Op = RecordOp(key: string, now: nat) | CountOp(key: string, now: nat)

  function Step(v: Vel, cap: Option<nat>, window: nat, op: Op): Vel {
    match op
    case RecordOp(key, now) => Recorded(v, cap, key, now)
    case CountOp(key, now) => Pruned(v, key, now, window)
  }

  function Run(cap: Option<nat>, window: nat, ops: seq<Op>): Vel {
    if ops == [] then EMPTY else Step(Run(cap, window, ops[..|ops| - 1]), cap, window, ops[|ops| - 1])
  }

  /** The full unpruned history of a key: every event ever recorded for it. */
  function History(ops: seq<Op>, key: string): seq<nat> {
    if ops == [] then []
    else
      var last := ops[|ops| - 1];
      History(ops[..|ops| - 1], key) + EventOf(last, key)
  }

  function EventOf(op: Op, key: string): seq<nat> {
    if op.RecordOp? && op.key == key then [op.now] else []
  }

  function Records(ops: seq<Op>): nat {
    if ops == [] then 0
    else Records(ops[..|ops| - 1]) + if ops[|ops| - 1].RecordOp? then 1 else 0
  }

  /** Events appended over the whole run: each recording whose key was accepted. */
  function Appended(cap: Option<nat>, window: nat, ops: seq<Op>): nat {
    if ops == [] then 0
    else
      var front, last := ops[..|ops| - 1], ops[|ops| - 1];
      Appended(cap, window, front)
      + if last.RecordOp? && Accepts(Run(cap, window, front), cap, last.key) then 1 else 0
  }

  /** The clock does not go backwards. */
  ghost predicate Monotone(ops: seq<Op>) {
    forall i, j :: 0 <= i <= j < |ops| ==> ops[i].now <= ops[j].now
  }

  lemma {:induction false} SinceSum(s: seq<nat>, t: seq<nat>, cutoff: nat)
    ensures Since(s + t, cutoff) == Since(s, cutoff) + Since(t, cutoff)
  {
    if s == [] {
      assert s + t == t;
    } else {
      SinceSum(s[1..], t, cutoff);
      var head: seq<nat> := if s[0] >= cutoff then [s[0]] else [];
      assert (s + t)[1..] == s[1..] + t && (s + t)[0] == s[0];
      Assoc(head, Since(s[1..], cutoff), Since(t, cutoff));
    }
  }

  lemma {:induction false} SinceSince(s: seq<nat>, early: nat, late: nat)
    requires early <= late
    ensures Since(Since(s, early), late) == Since(s, late)
  {
    if s != [] {
      SinceSum(if s[0] >= early then [s[0]] else [], Since(s[1..], early), late);
      SinceSince(s[1..], early, late);
    }
  }

  /** A tracked key's list shows the same events in the window as its full history; a key is
      untracked only while it has no history or was turned away at the cap. */
  ghost predicate ShowsWindow(v: Vel, cap: Option<nat>, history: seq<nat>, key: string, cutoff: nat) {
    if key in v.events then Since(v.events[key], cutoff) == Since(history, cutoff)
    else history == [] || (cap.Some? && |v.events| >= cap.value)
  }

  lemma RecordShowsWindow(v: Vel, cap: Option<nat>, history: seq<nat>, key: string, cutoff: nat, k: string, t: nat)
    requires ShowsWindow(v, cap, history, key, cutoff)
    ensures ShowsWindow(Recorded(v, cap, k, t), cap, history + EventOf(RecordOp(k, t), key), key, cutoff)
  {
    assert history + [] == history;
    if k == key && key in v.events {
      SinceSum(v.events[key], [t], cutoff);
      SinceSum(history, [t], cutoff);
    } else if k in v.events {
      SameKeysSameSize(Recorded(v, cap, k, t).events, v.events);
    } else if k == key && history == [] {
      assert history + [t] == [t];
    }
  }

  lemma PruneShowsWindow(v: Vel, cap: Option<nat>, history: seq<nat>, key: string, window: nat, now: nat, k: string,
                         t: nat)
    requires t <= now && ShowsWindow(v, cap, history, key, SatSub(now, window))
    ensures ShowsWindow(Pruned(v, k, t, window), cap, history, key, SatSub(now, window))
  {
    if k in v.events {
      SinceSince(v.events[k], SatSub(t, window), SatSub(now, window));
      SameKeysSameSize(Pruned(v, k, t, window).events, v.events);
    }
  }

  /** From any time at or after the last operation on, pruning has hidden nothing. */
  lemma {:induction false} PruningKeepsWindow(cap: Option<nat>, window: nat, ops: seq<Op>, key: string, now: nat)
    requires Monotone(ops) && (ops != [] ==> ops[|ops| - 1].now <= now)
    ensures ShowsWindow(Run(cap, window, ops), cap, History(ops, key), key, SatSub(now, window))
  {
    if ops != [] {
      var front, last := ops[..|ops| - 1], ops[|ops| - 1];
      assert forall i :: 0 <= i < |front| ==> front[i] == ops[i];
      PruningKeepsWindow(cap, window, front, key, now);
      match last
      case RecordOp(k, t) =>
        RecordShowsWindow(Run(cap, window, front), cap, History(front, key), key, SatSub(now, window), k, t);
      case CountOp(k, t) =>
        assert History(ops, key) == History(front, key);
        PruneShowsWindow(Run(cap, window, front), cap, History(front, key), key, window, now, k, t);
    }
  }

  /** The windowed count of a tracked key is the naive count over its whole history. */
  lemma CountIsNaive(cap: Option<nat>, window: nat, ops: seq<Op>, key: string, now: nat)
    requires Monotone(ops) && (ops != [] ==> ops[|ops| - 1].now <= now)
    requires key in Run(cap, window, ops).events
    ensures Count(Run(cap, window, ops), key, now, window) == |Since(History(ops, key), SatSub(now, window))|
  {
    PruningKeepsWindow(cap, window, ops, key, now);
  }

  /** The number of tracked keys stays within the cap, and every recording is either appended or
      tallied as dropped. */
  lemma {:induction false} TrackedWithinCap(cap: Option<nat>, window: nat, ops: seq<Op>)
    ensures cap.Some? ==> |Run(cap, window, ops).events| <= cap.value
    ensures Appended(cap, window, ops) + Run(cap, window, ops).dropped == Records(ops)
  {
    if ops != [] {
      var v := Run(cap, window, ops[..|ops| - 1]);
      TrackedWithinCap(cap, window, ops[..|ops| - 1]);
      var last := ops[|ops| - 1];
      if last.CountOp? && last.key in v.events {
        assert Pruned(v, last.key, last.now, window).events.Keys == v.events.Keys;
        SameKeysSameSize(Pruned(v, last.key, last.now, window).events, v.events);
      } else if last.RecordOp? && last.key in v.events {
        SameKeysSameSize(Recorded(v, cap, last.key, last.now).events, v.events);
      }
    }
  }

  class VelocityTable {
    var events: map<string, seq<nat>>
    var dropped: nat
    const maxKeys: Option<nat>

    function View(): Vel
      reads this
    {
      Vel(events, dropped)
    }

    constructor (cap: Option<nat>)
      ensures View() == EMPTY && maxKeys == cap
    {
      events, dropped, maxKeys := map[], 0, cap;
    }

    method RecordEvent(key: string, now: nat)
      modifies this
      ensures View() == Recorded(old(View()), maxKeys, key, now)
    {
      if key in events {
        events := events[key := events[key] + [now]];
        return;
      }
      if maxKeys.Some? && |events| >= maxKeys.value {
        dropped := dropped + 1;
        return;
      }
      events := events[key := [now]];
    }

    /** Prune what has aged out of the window, and count the rest. */
    method CountEvents(key: string, now: nat, window: nat) returns (n: nat)
      modifies this
      ensures View() == Pruned(old(View()), key, now, window)
      ensures n == Count(old(View()), key, now, window)
    {
      if key !in events {
        return 0;
      }
      var cutoff := SatSub(now, window);
      var list := events[key];
      var kept: seq<nat> := [];
      for i := 0 to |list|
        invariant View() == old(View()) && kept == Since(list[..i], cutoff)
      {
        assert list[..i + 1] == list[..i] + [list[i]];
        SinceSum(list[..i], [list[i]], cutoff);
        if list[i] >= cutoff {
          kept := kept + [list[i]];
        }
      }
      assert list[..|list|] == list;
      events := events[key := kept];
      n := |kept|;
    }
  }
}
