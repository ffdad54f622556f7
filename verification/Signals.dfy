// The cross-session velocity signal over whole runs (crates/fp-core/src/fuzzy/engine.rs,
// `identify_with_signals`): the bands a new device is given, in terms of the run that led to it.
module Signals {
  import opened Basics
  import opened Scoring
  import opened Engine
  import V = Velocity

  /** What minting a device does under one of its keys. */
  function KeyOps(key: Option<string>, secs: nat): seq<V.Op> {
    if key.None? then [] else [V.RecordOp(key.value, secs), V.CountOp(key.value, secs)]
  }

  function EventUnder(key: Option<string>, k: string, secs: nat): seq<nat> {
    if key == Some(k) then [secs] else []
  }

  ghost predicate Mints(env: Env, s: Store, l: Label) {
    l.Identify? && VerdictOf(env, s, l).decision == NewDevice
  }

  /** The velocity operations of a run. */
  ghost function VelOps(env: Env, pol: Policy, ls: seq<Label>): seq<V.Op> {
    if ls == [] then []
    else
      var front, last := ls[..|ls| - 1], ls[|ls| - 1];
      VelOps(env, pol, front) +
      if Mints(env, Run(env, pol, front), last)
      then KeyOps(last.ip, last.now / 1000) + KeyOps(Ja4Key(last.ja4), last.now / 1000)
      else []
  }

  /** The seconds at which the run minted a device carrying the key `k`, as its IP or as its class. */
  ghost function Minted(env: Env, pol: Policy, ls: seq<Label>, k: string): seq<nat> {
    if ls == [] then []
    else
      var front, last := ls[..|ls| - 1], ls[|ls| - 1];
      Minted(env, pol, front, k) +
      if Mints(env, Run(env, pol, front), last)
      then EventUnder(last.ip, k, last.now / 1000) + EventUnder(Ja4Key(last.ja4), k, last.now / 1000)
      else []
  }

  lemma RunSnoc(cap: Option<nat>, ops: seq<V.Op>, op: V.Op)
    ensures V.Run(cap, V.WINDOW, ops + [op]) == V.Step(V.Run(cap, V.WINDOW, ops), cap, V.WINDOW, op)
    ensures forall k :: V.History(ops + [op], k) == V.History(ops, k) + V.EventOf(op, k)
  {
    assert (ops + [op])[..|ops|] == ops;
  }

  lemma KeyOpsRun(pol: Policy, ops: seq<V.Op>, key: Option<string>, secs: nat)
    ensures V.Run(pol.maxVelocity, V.WINDOW, ops + KeyOps(key, secs)) ==
      Bumped(pol, V.Run(pol.maxVelocity, V.WINDOW, ops), key, secs)
    ensures forall k :: V.History(ops + KeyOps(key, secs), k) == V.History(ops, k) + EventUnder(key, k, secs)
  {
    if key.None? {
      assert ops + [] == ops;
    } else {
      var recorded := ops + [V.RecordOp(key.value, secs)];
      assert ops + KeyOps(key, secs) == recorded + [V.CountOp(key.value, secs)];
      RunSnoc(pol.maxVelocity, ops, V.RecordOp(key.value, secs));
      RunSnoc(pol.maxVelocity, recorded, V.CountOp(key.value, secs));
    }
  }

  /** The velocity table of a reachable store is the run of those operations, and the history of a key
      is the seconds at which devices carrying it were minted. */
  lemma {:induction false} TableOfRun(env: Env, pol: Policy, ls: seq<Label>)
    ensures Run(env, pol, ls).vel == V.Run(pol.maxVelocity, V.WINDOW, VelOps(env, pol, ls))
    ensures forall k :: V.History(VelOps(env, pol, ls), k) == Minted(env, pol, ls, k)
  {
    if ls != [] {
      var front, last := ls[..|ls| - 1], ls[|ls| - 1];
      TableOfRun(env, pol, front);
      TableStep(env, pol, Run(env, pol, front), last, VelOps(env, pol, front));
      if Mints(env, Run(env, pol, front), last) {
        var ops := VelOps(env, pol, front);
        var a, b := KeyOps(last.ip, last.now / 1000), KeyOps(Ja4Key(last.ja4), last.now / 1000);
        Assoc(ops, a, b);
        forall k ensures V.History(VelOps(env, pol, ls), k) == Minted(env, pol, ls, k) {
          Assoc(Minted(env, pol, front, k), EventUnder(last.ip, k, last.now / 1000),
                EventUnder(Ja4Key(last.ja4), k, last.now / 1000));
        }
      } else {
        NothingMinted(env, pol, ls);
      }
    }
  }

  lemma NothingMinted(env: Env, pol: Policy, ls: seq<Label>)
    requires ls != [] && !Mints(env, Run(env, pol, ls[..|ls| - 1]), ls[|ls| - 1])
    ensures VelOps(env, pol, ls) == VelOps(env, pol, ls[..|ls| - 1])
    ensures forall k :: Minted(env, pol, ls, k) == Minted(env, pol, ls[..|ls| - 1], k)
  {
  }

  lemma TableStep(env: Env, pol: Policy, s: Store, l: Label, ops: seq<V.Op>)
    requires s.vel == V.Run(pol.maxVelocity, V.WINDOW, ops)
    ensures if Mints(env, s, l) then
        var all := (ops + KeyOps(l.ip, l.now / 1000)) + KeyOps(Ja4Key(l.ja4), l.now / 1000);
        && Next(env, pol, s, l).vel == V.Run(pol.maxVelocity, V.WINDOW, all)
        && forall k :: V.History(all, k) ==
             (V.History(ops, k) + EventUnder(l.ip, k, l.now / 1000)) + EventUnder(Ja4Key(l.ja4), k, l.now / 1000)
      else Next(env, pol, s, l).vel == s.vel
  {
    if Mints(env, s, l) {
      KeyOpsRun(pol, ops, l.ip, l.now / 1000);
      KeyOpsRun(pol, ops + KeyOps(l.ip, l.now / 1000), Ja4Key(l.ja4), l.now / 1000);
    }
  }

  // ---- Time ----

  ghost predicate NotAfter(ops: seq<V.Op>, secs: nat) {
    forall op :: op in ops ==> op.now <= secs
  }

  /** Identifications come in clock order, none after `now`. */
  ghost predicate ClockedBy(ls: seq<Label>, now: nat) {
    ls == [] || (
      var last := ls[|ls| - 1];
      (last.Identify? ==> last.now <= now) && ClockedBy(ls[..|ls| - 1], if last.Identify? then last.now else now))
  }

  lemma AppendedInOrder(ops: seq<V.Op>, more: seq<V.Op>, secs: nat)
    requires V.Monotone(ops) && NotAfter(ops, secs) && forall op :: op in more ==> op.now == secs
    ensures V.Monotone(ops + more) && NotAfter(ops + more, secs)
  {
    forall i, j | 0 <= i <= j < |ops + more| ensures (ops + more)[i].now <= (ops + more)[j].now {
      if i < |ops| <= j {
        assert ops[i] in ops && more[j - |ops|] in more;
      }
    }
  }

  lemma {:induction false} OpsInOrder(env: Env, pol: Policy, ls: seq<Label>, now: nat)
    requires ClockedBy(ls, now)
    ensures V.Monotone(VelOps(env, pol, ls)) && NotAfter(VelOps(env, pol, ls), now / 1000)
  {
    if ls != [] {
      var front, last := ls[..|ls| - 1], ls[|ls| - 1];
      OpsInOrder(env, pol, front, if last.Identify? then last.now else now);
      if last.Identify? {
        var secs := last.now / 1000;
        AppendedInOrder(VelOps(env, pol, front), KeyOps(last.ip, secs) + KeyOps(Ja4Key(last.ja4), secs), secs);
        assert secs <= now / 1000;
      }
    }
  }

  // ---- The bands ----

  /** A class is counted under a key of its own. */
  function ClassKey(ja4Class: Option<string>): Option<string> {
    if ja4Class.Some? then Some("ja4:" + ja4Class.value) else None
  }

  lemma ClassKeyed(ja4Class: Option<string>)
    ensures Ja4Key(ja4Class) == ClassKey(ja4Class)
  {
  }

  /** The positions of the events at most an hour old at `secs`. */
  ghost function Recent(events: seq<nat>, secs: nat): set<int> {
    set i | 0 <= i < |events| && events[i] + 3600 >= secs
  }

  lemma RecentSnoc(front: seq<nat>, last: nat, secs: nat)
    ensures |Recent(front + [last], secs)| == |Recent(front, secs)| + if last + 3600 >= secs then 1 else 0
  {
    var events := front + [last];
    assert forall i :: 0 <= i < |front| ==> events[i] == front[i];
    assert Recent(events, secs) == Recent(front, secs) + if last + 3600 >= secs then {|front|} else {};
  }

  lemma {:induction false} SinceIsRecent(events: seq<nat>, secs: nat)
    ensures |V.Since(events, SatSub(secs, V.WINDOW))| == |Recent(events, secs)|
  {
    if events == [] {
      assert Recent(events, secs) == {};
    } else {
      var front, last := events[..|events| - 1], events[|events| - 1];
      SplitLast(events);
      SinceIsRecent(front, secs);
      V.SinceSum(front, [last], SatSub(secs, V.WINDOW));
      RecentSnoc(front, last, secs);
    }
  }

  /** The devices minted under `k` in the hour up to `secs`, this one included. */
  ghost function InWindow(env: Env, pol: Policy, ls: seq<Label>, k: string, secs: nat): nat {
    |Recent(Minted(env, pol, ls, k) + [secs], secs)|
  }

  lemma CountAfter(pol: Policy, ops: seq<V.Op>, k: string, secs: nat)
    requires V.Monotone(ops) && NotAfter(ops, secs)
    ensures var v := V.Run(pol.maxVelocity, V.WINDOW, ops);
      BumpCount(pol, v, Some(k), secs) ==
        if V.Accepts(v, pol.maxVelocity, k) then |Recent(V.History(ops, k) + [secs], secs)| else 0
  {
    var v, op := V.Run(pol.maxVelocity, V.WINDOW, ops), V.RecordOp(k, secs);
    if V.Accepts(v, pol.maxVelocity, k) {
      AppendedInOrder(ops, [op], secs);
      RunSnoc(pol.maxVelocity, ops, op);
      V.CountIsNaive(pol.maxVelocity, V.WINDOW, ops + [op], k, secs);
      SinceIsRecent(V.History(ops, k) + [secs], secs);
    }
  }

  /** A new device is banded by the number of devices the run minted under its IP in the last hour, itself
      included: high from twenty on, medium from five; an IP beyond the cap is banded low. Only a high band costs
      confidence, three tenths of it at most. */
  lemma IpBandCountsMinted(env: Env, pol: Policy, ls: seq<Label>, l: Label)
    requires l.Identify? && l.ip.Some? && ClockedBy(ls, l.now) && Mints(env, Run(env, pol, ls), l)
    ensures var s, secs := Run(env, pol, ls), l.now / 1000;
      var o, base := OutcomeOf(env, pol, s, l), VerdictOf(env, s, l).confidence;
      var n := if V.Accepts(s.vel, pol.maxVelocity, l.ip.value) then InWindow(env, pol, ls, l.ip.value, secs) else 0;
      && o.velocity == (if n >= 20 then V.BandHigh else if n >= 5 then V.BandMedium else V.BandLow)
      && (n < 20 ==> o.confidence == base)
      && (n >= 20 && 0.0 <= base <= 1.0 ==> o.confidence == if base >= 0.3 then base - 0.3 else 0.0)
  {
    TableOfRun(env, pol, ls);
    OpsInOrder(env, pol, ls, l.now);
    CountAfter(pol, VelOps(env, pol, ls), l.ip.value, l.now / 1000);
  }

  /** Its class is banded the same way under its own key, whatever the IP did first, high from four hundred on and
      medium from one hundred, and never touches confidence. */
  lemma ClassBandCountsMinted(env: Env, pol: Policy, ls: seq<Label>, l: Label, key: string)
    requires l.Identify? && Some(key) == ClassKey(l.ja4) && ClockedBy(ls, l.now) && Mints(env, Run(env, pol, ls), l)
    ensures var s, secs := Run(env, pol, ls), l.now / 1000;
      var events := (Minted(env, pol, ls, key) + EventUnder(l.ip, key, secs)) + [secs];
      var n := if V.Accepts(Bumped(pol, s.vel, l.ip, secs), pol.maxVelocity, key) then |Recent(events, secs)| else 0;
      OutcomeOf(env, pol, s, l).velocityJa4 ==
        if n >= 400 then V.BandHigh else if n >= 100 then V.BandMedium else V.BandLow
    ensures var s := Run(env, pol, ls);
      OutcomeOf(env, pol, s, l).confidence == OutcomeOf(env, pol, s, l.(ja4 := None)).confidence
  {
    var ops, secs := VelOps(env, pol, ls), l.now / 1000;
    ClassKeyed(l.ja4);
    TableOfRun(env, pol, ls);
    OpsInOrder(env, pol, ls, l.now);
    KeyOpsRun(pol, ops, l.ip, secs);
    AppendedInOrder(ops, KeyOps(l.ip, secs), secs);
    CountAfter(pol, ops + KeyOps(l.ip, secs), key, secs);
  }

  /** An identification without an address or a class is banded low in it. */
  lemma NoKeyNoBand(env: Env, pol: Policy, s: Store, l: Label)
    requires l.Identify?
    ensures l.ip.None? || VerdictOf(env, s, l).decision != NewDevice ==> OutcomeOf(env, pol, s, l).velocity == V.BandLow
    ensures l.ja4.None? || VerdictOf(env, s, l).decision != NewDevice ==>
      OutcomeOf(env, pol, s, l).velocityJa4 == V.BandLow
  {
  }
}
