// The edge form of a one-time nonce (apps/edge/src/lib/do/nonce-do.ts): one durable object per
// nonce, holding one record and one alarm; compared with the native store.
module NonceObject {
  import opened Basics
  import N = Nonces

  datatype State = State(record: Option<int>, alarm: Option<int>)

  const EMPTY: State := State(None, None)

  datatype Op = Issue(now: int, ttlSecs: int) | Consume(now: int) | Alarm(now: int)

  /** An alarm fires only when armed, at its time or later. */
  predicate Enabled(s: State, op: Op) {
    op.Alarm? ==> s.alarm.Some? && op.now >= s.alarm.value
  }

  function Verdict(s: State, now: int): N.Outcome {
    if s.record.None? then N.Unknown
    else if now > s.record.value then N.Expired
    else N.Valid
  }

  function Step(s: State, op: Op): State {
    match op
    case Issue(now, ttl) =>
      var expiresAt := now + ttl * 1000;
      State(Some(expiresAt), if ttl > 0 then Some(expiresAt) else s.alarm)
    case Consume(_) => if s.record.None? then s else EMPTY
    case Alarm(_) => EMPTY
  }

  function Run(ops: seq<Op>): State {
    if ops == [] then EMPTY else Step(Run(ops[..|ops| - 1]), ops[|ops| - 1])
  }

  /** The life of one object: one issuance, then consumptions and alarms in clock order. */
  ghost predicate Life(ops: seq<Op>) {
    && ops != [] && ops[0].Issue?
    && (forall i :: 0 < i < |ops| ==> !ops[i].Issue?)
    && (forall i, j :: 0 <= i < j < |ops| ==> ops[i].now <= ops[j].now)
    && (forall i :: 0 <= i < |ops| ==> Enabled(Run(ops[..i]), ops[i]))
  }

  function Expiry(ops: seq<Op>): int
    requires ops != [] && ops[0].Issue?
  {
    ops[0].now + ops[0].ttlSecs * 1000
  }

  /** The state between issuance and the next operation. */
  function Issued(expiry: int, ttlSecs: int): State {
    State(Some(expiry), if ttlSecs > 0 then Some(expiry) else None)
  }

  lemma IssuanceArms(ops: seq<Op>)
    requires |ops| == 1 && ops[0].Issue?
    ensures Run(ops) == Issued(Expiry(ops), ops[0].ttlSecs)
  {
    assert ops[..0] == [];
  }

  /** Whatever comes after issuance empties the object; an alarm can only come first, and not before
      the expiry. */
  lemma TouchEmpties(s: State, op: Op, expiry: int, ttlSecs: int)
    requires !op.Issue? && Enabled(s, op)
    requires s == EMPTY || s == Issued(expiry, ttlSecs)
    ensures Step(s, op) == EMPTY
    ensures op.Alarm? ==> s != EMPTY && op.now >= expiry
  {
  }

  /** The record lives until the first operation after issuance; while it lives with a positive
      lifetime, the alarm is armed at its expiry, and an alarm never fires before it. */
  lemma {:induction false} RecordLivesUntilTouched(ops: seq<Op>)
    requires Life(ops)
    ensures Run(ops) == if |ops| == 1 then Issued(Expiry(ops), ops[0].ttlSecs) else EMPTY
    ensures forall i :: 0 < i < |ops| && ops[i].Alarm? ==> i == 1 && ops[i].now >= Expiry(ops)
  {
    var m := |ops| - 1;
    if m == 0 {
      IssuanceArms(ops);
    } else {
      FrontLife(ops, m);
      RecordLivesUntilTouched(ops[..m]);
      TouchEmpties(Run(ops[..m]), ops[m], Expiry(ops), ops[0].ttlSecs);
    }
  }

  function OutcomeAt(ops: seq<Op>, i: nat): N.Outcome
    requires i < |ops|
  {
    Verdict(Run(ops[..i]), ops[i].now)
  }

  lemma FrontLife(ops: seq<Op>, i: nat)
    requires Life(ops) && 0 < i <= |ops|
    ensures Life(ops[..i]) && Expiry(ops[..i]) == Expiry(ops)
  {
    forall j | 0 <= j < i ensures Enabled(Run(ops[..i][..j]), ops[j]) {
      assert ops[..i][..j] == ops[..j];
    }
  }

  /** A consumption is valid exactly when it is the first operation after issuance and not past the
      expiry; an alarm can come first only at the expiry or later. */
  lemma ValidIffFirst(ops: seq<Op>, i: nat)
    requires Life(ops) && 0 < i < |ops| && ops[i].Consume?
    ensures OutcomeAt(ops, i) == N.Valid <==> i == 1 && ops[i].now <= Expiry(ops)
    ensures i > 1 && ops[i].now < Expiry(ops) ==> ops[1].Consume?
  {
    FrontLife(ops, i);
    RecordLivesUntilTouched(ops[..i]);
    RecordLivesUntilTouched(ops);
    if i > 1 { assert ops[1].now <= ops[i].now; }
  }

  /** A nonce is valid at most once, and never after its expiry. */
  lemma ValidAtMostOnce(ops: seq<Op>, i: nat, j: nat)
    requires Life(ops) && 0 < i < j < |ops| && ops[i].Consume? && ops[j].Consume?
    ensures OutcomeAt(ops, j) != N.Valid
  {
    ValidIffFirst(ops, j);
  }

  /** Some earlier consumption of this object. */
  ghost predicate ConsumedBefore(ops: seq<Op>, j: nat) {
    exists h :: 0 < h < j && h < |ops| && ops[h].Consume?
  }

  /** The two backends agree on which consumptions are valid, whatever the native store reaps and
      whenever the alarm fires, at every instant but the expiry itself: there the native store never
      accepts, and the object accepts exactly if nothing came before. */
  lemma BackendsAgree(native: seq<N.Op>, k: nat, i: nat, edge: seq<Op>, j: nat)
    requires N.WellTimed(native) && k < i < |native| && native[i].Consume? && N.IssuedAt(native, native[i].nonce, k)
    requires Life(edge) && 0 < j < |edge| && edge[j].Consume?
    requires N.ExpiryOf(native[k]) == Expiry(edge) && native[i].now == edge[j].now
    requires N.Unpresented(native, native[i].nonce, k, i) <==> !ConsumedBefore(edge, j)
    ensures edge[j].now != Expiry(edge) ==> (N.OutcomeAt(native, i) == N.Valid <==> OutcomeAt(edge, j) == N.Valid)
    ensures edge[j].now == Expiry(edge) ==>
      N.OutcomeAt(native, i) != N.Valid && (OutcomeAt(edge, j) == N.Valid <==> j == 1)
  {
    N.ValidIffFirst(native, i, k);
    ValidIffFirst(edge, j);
    if j > 1 && edge[j].now < Expiry(edge) {
      assert ConsumedBefore(edge, j);
    }
  }

  class NonceDurableObject {
    var record: Option<int>
    var alarm: Option<int>

    function View(): State
      reads this
    {
      State(record, alarm)
    }

    constructor ()
      ensures View() == EMPTY
    {
      record, alarm := None, None;
    }

    method IssueNonce(now: int, ttlSecs: int)
      modifies this
      ensures View() == Step(old(View()), Issue(now, ttlSecs))
    {
      var expiresAt := now + ttlSecs * 1000;
      record := Some(expiresAt);
      if ttlSecs > 0 {
        alarm := Some(expiresAt);
      }
    }

    /** Burn first, then judge. */
    method ConsumeNonce(now: int) returns (outcome: N.Outcome)
      modifies this
      ensures outcome == Verdict(old(View()), now) && View() == Step(old(View()), Consume(now))
    {
      if record.None? {
        return N.Unknown;
      }
      var expiresAt := record.value;
      record := None;
      alarm := None;
      outcome := if now > expiresAt then N.Expired else N.Valid;
    }

    /** The platform clears a firing alarm; the handler deletes the record. */
    method FireAlarm(now: int)
      requires Enabled(View(), Alarm(now))
      modifies this
      ensures View() == Step(old(View()), Alarm(now))
    {
      alarm := None;
      record := None;
    }
  }
}
