// One-time nonces (crates/fp-core/src/nonce.rs): the in-memory store, over whole runs, and the
// order in which a request spends its nonce and reaches the matcher (crates/fingerprintd/src/lib.rs).
module Nonces {
  import opened Basics

  datatype Outcome = Valid | Expired | Reused | Unknown

  datatype Entry = Entry(expiresAt: nat, used: bool)

  type Entries = map<string, Entry>

  /** Issuing stamps the expiry from `born`, then reaps between `from` and `until`, then inserts; the
      clock is read anew for every entry reaped, so which entries expiring in between go is open. */
  datatype Op =
    | Issue(nonce: string, born: nat, ttl: nat, from: nat, until: nat, reaped: set<string>)
    | Consume(nonce: string, now: nat)

  predicate ReapFits(entries: Entries, op: Op) {
    op.Issue? ==>
      forall n :: n in entries ==>
        (entries[n].expiresAt <= op.from ==> n in op.reaped) && (n in op.reaped ==> entries[n].expiresAt <= op.until)
  }

  function Verdict(entries: Entries, nonce: string, now: nat): Outcome {
    if nonce !in entries then Unknown
    else if now >= entries[nonce].expiresAt then Expired
    else if entries[nonce].used then Reused
    else Valid
  }

  function Step(entries: Entries, op: Op): Entries {
    match op
    case Issue(nonce, born, ttl, _, _, reaped) => (entries - reaped)[nonce := Entry(born + ttl, false)]
    case Consume(nonce, now) =>
      if Verdict(entries, nonce, now) == Valid then entries[nonce := entries[nonce].(used := true)] else entries
  }

  function Run(ops: seq<Op>): Entries {
    if ops == [] then map[] else Step(Run(ops[..|ops| - 1]), ops[|ops| - 1])
  }

  /** The earliest and the latest moment of an operation inside the store's lock. */
  function Begins(op: Op): nat {
    if op.Issue? then op.from else op.now
  }

  function Ends(op: Op): nat {
    if op.Issue? then op.until else op.now
  }

  /** A run under a clock that does not go backwards, with fresh nonces and reaping as the clock
      allows. */
  ghost predicate WellTimed(ops: seq<Op>) {
    && (forall i :: 0 <= i < |ops| ==> Begins(ops[i]) <= Ends(ops[i]) && ReapFits(Run(ops[..i]), ops[i]))
    && (forall i, j :: 0 <= i < j < |ops| ==> Ends(ops[i]) <= Begins(ops[j]))
    && (forall i, j :: 0 <= i < j < |ops| && ops[i].Issue? && ops[j].Issue? ==> ops[i].nonce != ops[j].nonce)
  }

  /** An operation that comes after all others, and if it issues, a fresh nonce. */
  ghost predicate Continues(ops: seq<Op>, op: Op) {
    && Begins(op) <= Ends(op) && (forall i :: 0 <= i < |ops| ==> Ends(ops[i]) <= Begins(op))
    && (op.Issue? ==> forall i :: 0 <= i < |ops| && ops[i].Issue? ==> ops[i].nonce != op.nonce)
  }

  lemma StaysWellTimed(ops: seq<Op>, op: Op)
    requires WellTimed(ops) && Continues(ops, op) && ReapFits(Run(ops), op)
    ensures WellTimed(ops + [op])
  {
    var all := ops + [op];
    forall i | 0 <= i < |all| ensures Begins(all[i]) <= Ends(all[i]) && ReapFits(Run(all[..i]), all[i]) {
      assert all[..i] == ops[..i];
      if i == |ops| { assert ops[..i] == ops; }
    }
  }

  lemma RunSnoc(ops: seq<Op>, op: Op)
    ensures Run(ops + [op]) == Step(Run(ops), op)
  {
    assert (ops + [op])[..|ops|] == ops;
  }

  function OutcomeAt(ops: seq<Op>, i: nat): Outcome
    requires i < |ops| && ops[i].Consume?
  {
    Verdict(Run(ops[..i]), ops[i].nonce, ops[i].now)
  }

  // ---- Validity without the store: issued, in time, not yet presented ----

  ghost predicate IssuedAt(ops: seq<Op>, n: string, k: nat) {
    k < |ops| && ops[k].Issue? && ops[k].nonce == n
  }

  function ExpiryOf(op: Op): nat
    requires op.Issue?
  {
    op.born + op.ttl
  }

  /** Some operation after `k` presented `n` within its lifetime. */
  ghost predicate Presented(ops: seq<Op>, n: string, k: nat)
    requires IssuedAt(ops, n, k)
  {
    exists j :: k < j < |ops| && PresentsAt(ops[j], n, ExpiryOf(ops[k]))
  }

  predicate PresentsAt(op: Op, n: string, expiry: nat) {
    op.Consume? && op.nonce == n && op.now < expiry
  }

  /** The clock has reached the expiry of the nonce issued at `k`. */
  ghost predicate Lapsed(ops: seq<Op>, n: string, k: nat)
    requires IssuedAt(ops, n, k)
  {
    exists r :: k < r < |ops| && ExpiryOf(ops[k]) <= Ends(ops[r])
  }

  /** What the store knows of the nonce issued at `k`: its expiry and whether it was presented in
      time, for as long as it holds it; once it does not, the nonce has lapsed. */
  ghost predicate Tracks(ops: seq<Op>, n: string, k: nat)
    requires IssuedAt(ops, n, k)
  {
    if n in Run(ops) then Run(ops)[n] == Entry(ExpiryOf(ops[k]), Presented(ops, n, k)) else Lapsed(ops, n, k)
  }

  lemma FrontWellTimed(ops: seq<Op>, i: nat)
    requires WellTimed(ops) && i <= |ops|
    ensures WellTimed(ops[..i])
  {
    forall j | 0 <= j < i ensures ReapFits(Run(ops[..i][..j]), ops[j]) {
      assert ops[..i][..j] == ops[..j];
    }
  }

  lemma PresentedSnoc(ops: seq<Op>, n: string, k: nat)
    requires ops != [] && k < |ops| - 1 && IssuedAt(ops, n, k)
    ensures var front, last := ops[..|ops| - 1], ops[|ops| - 1];
      IssuedAt(front, n, k)
        && (Presented(ops, n, k) <==> Presented(front, n, k) || PresentsAt(last, n, ExpiryOf(ops[k])))
  {
    var front := ops[..|ops| - 1];
    if Presented(front, n, k) {
      var j :| k < j < |front| && PresentsAt(front[j], n, ExpiryOf(front[k]));
      assert PresentsAt(ops[j], n, ExpiryOf(ops[k]));
    }
    if Presented(ops, n, k) {
      var j :| k < j < |ops| && PresentsAt(ops[j], n, ExpiryOf(ops[k]));
      if j < |front| { assert PresentsAt(front[j], n, ExpiryOf(front[k])); }
    }
  }

  lemma LapsedGrows(ops: seq<Op>, n: string, k: nat)
    requires ops != [] && k < |ops| - 1 && IssuedAt(ops, n, k) && Lapsed(ops[..|ops| - 1], n, k)
    ensures Lapsed(ops, n, k)
  {
    var front := ops[..|ops| - 1];
    var r :| k < r < |front| && ExpiryOf(front[k]) <= Ends(front[r]);
    assert ops[r] == front[r];
  }

  lemma IssueTracks(ops: seq<Op>, front: seq<Op>, n: string, k: nat)
    requires WellTimed(ops) && k < |ops| - 1 && IssuedAt(ops, n, k) && ops[|ops| - 1].Issue?
    requires front == ops[..|ops| - 1] && IssuedAt(front, n, k)
    ensures Tracks(front, n, k) ==> Tracks(ops, n, k)
  {
    var m := |ops| - 1;
    PresentedSnoc(ops, n, k);
    assert ops[m].nonce != n;
    if n !in Run(front) {
      if Lapsed(front, n, k) { LapsedGrows(ops, n, k); }
    } else if n in ops[m].reaped {
      assert ReapFits(Run(front), ops[m]);
    }
  }

  lemma ConsumeTracks(ops: seq<Op>, front: seq<Op>, n: string, k: nat)
    requires k < |ops| - 1 && IssuedAt(ops, n, k) && ops[|ops| - 1].Consume?
    requires front == ops[..|ops| - 1] && IssuedAt(front, n, k)
    ensures Tracks(front, n, k) ==> Tracks(ops, n, k)
  {
    PresentedSnoc(ops, n, k);
    if n !in Run(front) && Lapsed(front, n, k) {
      LapsedGrows(ops, n, k);
    }
  }

  lemma BirthTracks(ops: seq<Op>, n: string)
    requires ops != [] && IssuedAt(ops, n, |ops| - 1)
    ensures Tracks(ops, n, |ops| - 1)
  {
    assert !Presented(ops, n, |ops| - 1);
  }

  lemma IssuedFront(ops: seq<Op>, n: string, k: nat)
    requires IssuedAt(ops, n, k) && k < |ops| - 1
    ensures IssuedAt(ops[..|ops| - 1], n, k)
  {
  }

  lemma {:induction false} StoreTracks(ops: seq<Op>, n: string, k: nat)
    requires WellTimed(ops) && IssuedAt(ops, n, k)
    ensures Tracks(ops, n, k)
  {
    var m := |ops| - 1;
    if k == m {
      BirthTracks(ops, n);
    } else {
      var front := ops[..m];
      FrontWellTimed(ops, m);
      IssuedFront(ops, n, k);
      StoreTracks(front, n, k);
      if ops[m].Issue? { IssueTracks(ops, front, n, k); } else { ConsumeTracks(ops, front, n, k); }
    }
  }

  lemma {:induction false} StoredWereIssued(ops: seq<Op>, n: string)
    requires n in Run(ops)
    ensures exists k: nat :: IssuedAt(ops, n, k)
  {
    var m := |ops| - 1;
    if n in Run(ops[..m]) {
      StoredWereIssued(ops[..m], n);
      var k: nat :| IssuedAt(ops[..m], n, k);
      assert IssuedAt(ops, n, k);
    } else {
      assert IssuedAt(ops, n, m);
    }
  }

  /** No operation between `k` and `i` presented `n`. */
  ghost predicate Unpresented(ops: seq<Op>, n: string, k: nat, i: nat) {
    forall j :: k < j < i && j < |ops| && ops[j].Consume? ==> ops[j].nonce != n
  }

  /** Issued at `k`, in time at `i`, and not presented in between. */
  ghost predicate FirstInTime(ops: seq<Op>, i: nat, k: nat)
    requires i < |ops| && ops[i].Consume?
  {
    k < i && IssuedAt(ops, ops[i].nonce, k) && ops[i].now < ExpiryOf(ops[k]) && Unpresented(ops, ops[i].nonce, k, i)
  }

  lemma InOrder(ops: seq<Op>, r: nat, i: nat)
    requires WellTimed(ops) && r < i < |ops|
    ensures Ends(ops[r]) <= Begins(ops[i]) && ops[..i][r] == ops[r]
  {
  }

  /** A consumption whose nonce was issued at `k` is valid exactly when it is the first in time. */
  lemma ValidIffFirst(ops: seq<Op>, i: nat, k: nat)
    requires WellTimed(ops) && k < i < |ops| && ops[i].Consume? && IssuedAt(ops, ops[i].nonce, k)
    ensures OutcomeAt(ops, i) == Valid <==> FirstInTime(ops, i, k)
  {
    var n, front := ops[i].nonce, ops[..i];
    FrontWellTimed(ops, i);
    StoreTracks(front, n, k);
    if n !in Run(front) {
      var r :| k < r < |front| && ExpiryOf(front[k]) <= Ends(front[r]);
      InOrder(ops, r, i);
    } else if ops[i].now < ExpiryOf(ops[k]) {
      forall j | k < j < i ensures PresentsAt(ops[j], n, ExpiryOf(ops[k])) <==> ops[j].Consume? && ops[j].nonce == n {
        InOrder(ops, j, i);
      }
      if Presented(front, n, k) {
        var j :| k < j < |front| && PresentsAt(front[j], n, ExpiryOf(front[k]));
        assert ops[j] == front[j];
      } else {
        forall j | k < j < i && ops[j].Consume? ensures ops[j].nonce != n {
          assert front[j] == ops[j];
        }
      }
    }
  }

  /** A consumption is valid exactly when its nonce was issued before, its lifetime is not over, and
      nobody presented it in between: reaping never matters. */
  lemma ValidIffFirstInTime(ops: seq<Op>, i: nat)
    requires WellTimed(ops) && i < |ops| && ops[i].Consume?
    ensures OutcomeAt(ops, i) == Valid <==> exists k: nat :: FirstInTime(ops, i, k)
  {
    var n := ops[i].nonce;
    if OutcomeAt(ops, i) == Valid {
      StoredWereIssued(ops[..i], n);
      var k: nat :| IssuedAt(ops[..i], n, k);
      ValidIffFirst(ops, i, k);
    }
    forall k: nat | FirstInTime(ops, i, k) ensures OutcomeAt(ops, i) == Valid {
      ValidIffFirst(ops, i, k);
    }
  }

  lemma IssuedOnce(ops: seq<Op>, n: string, k: nat, h: nat)
    requires WellTimed(ops) && IssuedAt(ops, n, k) && IssuedAt(ops, n, h)
    ensures k == h
  {
  }

  /** Over any run each nonce is valid at most once. */
  lemma ValidAtMostOnce(ops: seq<Op>, i: nat, j: nat)
    requires WellTimed(ops) && i < j < |ops| && ops[i].Consume? && ops[j].Consume? && ops[i].nonce == ops[j].nonce
    requires OutcomeAt(ops, i) == Valid
    ensures OutcomeAt(ops, j) != Valid
  {
    ValidIffFirstInTime(ops, i);
    ValidIffFirstInTime(ops, j);
    var k: nat :| FirstInTime(ops, i, k);
    forall h: nat ensures !FirstInTime(ops, j, h) {
      if IssuedAt(ops, ops[j].nonce, h) {
        IssuedOnce(ops, ops[i].nonce, k, h);
      }
    }
  }

  // ---- The identify handler ----

  /** The configured depth checks. */
  datatype Config = Config(probeRequired: bool, enforceWindow: bool, skewMs: nat)

  /** A request: whether its probe verifies, and its client timestamp. */
  datatype Request = Request(nonce: string, probeVerifies: bool, ts: Option<int>)

  function Abs(x: int): nat {
    if x < 0 then -x else x
  }

  function TsInWindow(clientTs: int, now: nat, skew: nat): bool {
    Abs(now - clientTs) <= skew
  }

  predicate Admitted(c: Config, r: Request, now: nat) {
    && (c.probeRequired ==> r.probeVerifies)
    && (c.enforceWindow ==> r.ts.Some? && TsInWindow(r.ts.value, now, c.skewMs))
  }

  /** The nonces, in order, for which a run of challenges and identifications ran the matcher;
      `requests[i]` and `clocks[i]` belong to the consumption at `i`. */
  ghost function Matched(c: Config, ops: seq<Op>, requests: seq<Request>, clocks: seq<nat>): seq<string>
    requires |requests| == |ops| == |clocks|
  {
    if ops == [] then []
    else
      var m := |ops| - 1;
      Matched(c, ops[..m], requests[..m], clocks[..m])
      + if ops[m].Consume? && OutcomeAt(ops, m) == Valid && Admitted(c, requests[m], clocks[m])
        then [ops[m].nonce] else []
  }

  lemma MatchedSnoc(c: Config, ops: seq<Op>, requests: seq<Request>, clocks: seq<nat>, op: Op, r: Request, clock: nat)
    requires |requests| == |ops| == |clocks|
    ensures Matched(c, ops + [op], requests + [r], clocks + [clock]) == Matched(c, ops, requests, clocks) +
      if op.Consume? && Verdict(Run(ops), op.nonce, op.now) == Valid && Admitted(c, r, clock) then [op.nonce] else []
  {
    assert (ops + [op])[..|ops|] == ops && (requests + [r])[..|ops|] == requests
      && (clocks + [clock])[..|ops|] == clocks;
  }

  function IssuedNonces(ops: seq<Op>): set<string> {
    set i | 0 <= i < |ops| && ops[i].Issue? :: ops[i].nonce
  }

  function Issues(ops: seq<Op>): nat {
    if ops == [] then 0 else Issues(ops[..|ops| - 1]) + if ops[|ops| - 1].Issue? then 1 else 0
  }

  lemma {:induction false} IssuedCount(ops: seq<Op>)
    ensures |IssuedNonces(ops)| <= Issues(ops)
  {
    if ops != [] {
      var m := |ops| - 1;
      IssuedCount(ops[..m]);
      var more := if ops[m].Issue? then {ops[m].nonce} else {};
      assert IssuedNonces(ops) == IssuedNonces(ops[..m]) + more;
    }
  }

  ghost predicate ValidFor(ops: seq<Op>, n: string, i: nat) {
    i < |ops| && ops[i].Consume? && ops[i].nonce == n && OutcomeAt(ops, i) == Valid
  }

  lemma ValidForFront(ops: seq<Op>, m: nat, n: string, i: nat)
    requires m <= |ops| && ValidFor(ops[..m], n, i)
    ensures ValidFor(ops, n, i)
  {
    assert ops[..m][..i] == ops[..i];
  }

  lemma {:induction false} MatchedWereValid(c: Config, ops: seq<Op>, requests: seq<Request>, clocks: seq<nat>)
    requires |requests| == |ops| == |clocks|
    ensures forall n :: n in Matched(c, ops, requests, clocks) ==> exists i: nat :: ValidFor(ops, n, i)
  {
    if ops != [] {
      var m := |ops| - 1;
      MatchedWereValid(c, ops[..m], requests[..m], clocks[..m]);
      forall n | n in Matched(c, ops, requests, clocks) ensures exists i: nat :: ValidFor(ops, n, i) {
        if n in Matched(c, ops[..m], requests[..m], clocks[..m]) {
          var i: nat :| ValidFor(ops[..m], n, i);
          ValidForFront(ops, m, n, i);
        } else {
          assert ValidFor(ops, n, m);
        }
      }
    }
  }

  /** The matcher runs at most once per nonce, however the requests look. */
  lemma {:induction false} MatcherRunsOncePerNonce(c: Config, ops: seq<Op>, requests: seq<Request>, clocks: seq<nat>)
    requires WellTimed(ops) && |requests| == |ops| == |clocks|
    ensures NoDup(Matched(c, ops, requests, clocks))
  {
    if ops != [] {
      var m := |ops| - 1;
      var front := Matched(c, ops[..m], requests[..m], clocks[..m]);
      FrontWellTimed(ops, m);
      MatcherRunsOncePerNonce(c, ops[..m], requests[..m], clocks[..m]);
      MatchedWereValid(c, ops[..m], requests[..m], clocks[..m]);
      if ops[m].Consume? && ops[m].nonce in front {
        var i: nat :| ValidFor(ops[..m], ops[m].nonce, i);
        ValidForFront(ops, m, ops[m].nonce, i);
        ValidAtMostOnce(ops, i, m);
        assert Matched(c, ops, requests, clocks) == front;
      }
    }
  }

  /** The matcher runs only for issued nonces. */
  lemma MatchedWereIssued(c: Config, ops: seq<Op>, requests: seq<Request>, clocks: seq<nat>)
    requires WellTimed(ops) && |requests| == |ops| == |clocks|
    ensures Elems(Matched(c, ops, requests, clocks)) <= IssuedNonces(ops)
  {
    MatchedWereValid(c, ops, requests, clocks);
    forall n | n in Matched(c, ops, requests, clocks) ensures n in IssuedNonces(ops) {
      var i: nat :| ValidFor(ops, n, i);
      ValidIffFirstInTime(ops, i);
      var k: nat :| FirstInTime(ops, i, k);
      assert ops[k].Issue? && ops[k].nonce == n;
    }
  }

  /** So it runs no more often than nonces were issued. */
  lemma MatcherRunsBounded(c: Config, ops: seq<Op>, requests: seq<Request>, clocks: seq<nat>)
    requires WellTimed(ops) && |requests| == |ops| == |clocks|
    ensures |Matched(c, ops, requests, clocks)| <= Issues(ops)
  {
    var matched := Matched(c, ops, requests, clocks);
    MatcherRunsOncePerNonce(c, ops, requests, clocks);
    MatchedWereIssued(c, ops, requests, clocks);
    EnumerationLength(matched, Elems(matched));
    IssuedCount(ops);
    SubsetSize(Elems(matched), IssuedNonces(ops));
  }

  // ---- The store as it runs ----

  class InMemoryNonceStore {
    const ttl: nat
    var entries: Entries

    constructor (lifetime: nat)
      ensures entries == map[] && ttl == lifetime
    {
      entries, ttl := map[], lifetime;
    }

    /** Reap what has expired, each entry against the clock as it is read, then insert. */
    method IssueWithTtl(nonce: string, born: nat, ttl: nat, clock: string -> nat, from: nat, until: nat)
      returns (ghost op: Op)
      requires forall n :: from <= clock(n) <= until
      modifies this
      ensures op.Issue? && op == Issue(nonce, born, ttl, from, until, op.reaped)
      ensures ReapFits(old(entries), op) && entries == Step(old(entries), op)
    {
      var reaped := set n | n in entries && clock(n) >= entries[n].expiresAt;
      entries := entries - reaped;
      entries := entries[nonce := Entry(born + ttl, false)];
      op := Issue(nonce, born, ttl, from, until, reaped);
    }

    method ConsumeNonce(nonce: string, now: nat) returns (outcome: Outcome)
      modifies this
      ensures outcome == Verdict(old(entries), nonce, now)
      ensures entries == Step(old(entries), Consume(nonce, now))
    {
      if nonce !in entries {
        return Unknown;
      }
      var entry := entries[nonce];
      if now >= entry.expiresAt {
        return Expired;
      }
      if entry.used {
        return Reused;
      }
      entries := entries[nonce := entry.(used := true)];
      return Valid;
    }
  }
}
