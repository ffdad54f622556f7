// The `/challenge`, `/identify` and `/visitor` handlers (crates/fingerprintd/src/lib.rs): the nonce
// is spent first, then the depth checks, then the matcher, whose outcome becomes the response.
module Handlers {
  import opened Basics
  import opened Component
  import opened Scoring
  import opened Engine
  import FuzzyStores
  import N = Nonces
  import V = Velocity
  import Verdicts

  /** What the request's headers say: the client address, the shape class of its TLS stack, and how that
      stack compares with the claimed browser. */
  datatype EdgeHeaders = EdgeHeaders(ip: Option<string>, ja4Class: Option<string>, passive: Passive)

  /** No headers at all: no address, no class, no adjustment. */
  const NO_HEADERS: EdgeHeaders := EdgeHeaders(None, None, Degraded)

  /** Only a trusted edge is believed. */
  function TrustedView(trust: bool, h: EdgeHeaders): EdgeHeaders {
    if trust then h else NO_HEADERS
  }

  datatype Response =
    | Unauthorized
    | Identified(
        visitorId: string,
        confidence: real,
        isNewDevice: bool,
        decision: Decision,
        collisionRisk: bool,
        velocity: V.Band,
        velocityJa4: V.Band)

  function Respond(o: Outcome, p: Passive): Response {
    Identified(o.visitorId, Fused(o.confidence, p), o.isNewDevice, o.decision, o.collisionRisk, o.velocity,
               o.velocityJa4)
  }

  /** The response carries the outcome field by field, its confidence moved by the passive signal. */
  predicate Carries(response: Response, o: Outcome, p: Passive) {
    && response.Identified? && response.visitorId == o.visitorId && response.confidence == Fused(o.confidence, p)
    && response.isNewDevice == o.isNewDevice && response.decision == o.decision
    && response.collisionRisk == o.collisionRisk && response.velocity == o.velocity
    && response.velocityJa4 == o.velocityJa4
  }

  lemma RespondCarries(o: Outcome, trust: bool, h: EdgeHeaders)
    ensures Carries(Respond(o, TrustedView(trust, h).passive), o, if trust then h.passive else Degraded)
    ensures TrustedView(trust, h).ip == if trust then h.ip else None
    ensures TrustedView(trust, h).ja4Class == if trust then h.ja4Class else None
  {
  }

  /** From `lo` to `hi`, both moved by `shift` and kept between zero and one. */
  predicate InBand(c: real, lo: real, hi: real, shift: real) {
    Clamp(lo + shift, 0.0, 1.0) <= c <= Clamp(hi + shift, 0.0, 1.0)
  }

  lemma MovedBand(c: real, lo: real, hi: real, p: Passive)
    requires lo <= c <= hi
    ensures InBand(Fused(c, p), lo, hi, p.Adjustment())
    ensures hi <= 0.5 && p == Mismatch ==> Fused(c, p) == 0.0
    ensures 0.375 <= c <= 1.0 ==> 0.075 <= Penalised(c) <= 0.7
  {
  }

  lemma MovedOutcome(o: Outcome, band: V.Band, p: Passive)
    requires match o.decision
             case Match => 0.375 <= o.confidence <= 1.0
             case Review => 0.125 <= o.confidence <= 0.5
             case NewDevice => 0.375 < o.confidence <= 1.0
    ensures var base := if band == V.BandHigh then Penalised(o.confidence) else o.confidence;
      && (o.decision == Match ==> InBand(Fused(o.confidence, p), 0.375, 1.0, p.Adjustment()))
      && (o.decision == Review ==> InBand(Fused(o.confidence, p), 0.125, 0.5, p.Adjustment()))
      && (o.decision == Review && p == Mismatch ==> Fused(o.confidence, p) == 0.0)
      && (o.decision == NewDevice && band != V.BandHigh ==> InBand(Fused(base, p), 0.375, 1.0, p.Adjustment()))
      && (o.decision == NewDevice && band == V.BandHigh ==> InBand(Fused(base, p), 0.075, 0.7, p.Adjustment()))
  {
    match o.decision
    case Match => MovedBand(o.confidence, 0.375, 1.0, p);
    case Review => MovedBand(o.confidence, 0.125, 0.5, p);
    case NewDevice =>
      MovedBand(o.confidence, 0.375, 1.0, p);
      if band == V.BandHigh { MovedBand(Penalised(o.confidence), 0.075, 0.7, p); }
  }

  /** The confidence of a response lies in the band of its decision, moved by the passive signal and for a new
      device at a high rate by the velocity penalty first. */
  lemma ResponseConfidence(env: Env, pol: Policy, s: Store, l: Label, p: Passive)
    requires env.analytic.Lawful() && l.Identify? && Enabled(env, pol, s, l)
    ensures var o := OutcomeOf(env, pol, s, l);
      var c, shift := Respond(o, p).confidence, p.Adjustment();
      match o.decision
      case Match => InBand(c, 0.375, 1.0, shift)
      case Review => InBand(c, 0.125, 0.5, shift)
      case NewDevice => if o.velocity == V.BandHigh then InBand(c, 0.075, 0.7, shift) else InBand(c, 0.375, 1.0, shift)
    ensures OutcomeOf(env, pol, s, l).decision == Review && p == Mismatch ==>
      Respond(OutcomeOf(env, pol, s, l), p).confidence == 0.0
  {
    Verdicts.VerdictConfidence(env, s, l.probe, l.order);
    MovedOutcome(VerdictOf(env, s, l), OutcomeOf(env, pol, s, l).velocity, p);
  }

  /** What enforcement asks of a request: a probe that verifies, and a timestamp at most the skew away. */
  predicate Passes(c: N.Config, r: N.Request, clock: nat) {
    && (c.probeRequired ==> r.probeVerifies)
    && (c.enforceWindow ==> r.ts.Some? && clock - c.skewMs <= r.ts.value <= clock + c.skewMs)
  }

  lemma AdmittedPasses(c: N.Config, r: N.Request, clock: nat)
    ensures N.Admitted(c, r, clock) <==> Passes(c, r, clock)
  {
  }

  datatype EraseStatus = NotFound | Refused | NoContent

  class Service {
    const config: N.Config
    const trustEdgeHeaders: bool
    const adminKey: Option<string>
    const nonces: N.InMemoryNonceStore
    const matcher: FuzzyStores.FuzzyStore
    /** The nonces for which the matcher ran, in order. */
    ghost var matched: seq<string>
    /** The operations on the nonce store, with the request and the wall clock of each consumption. */
    ghost var ops: seq<N.Op>
    ghost var requests: seq<N.Request>
    ghost var clocks: seq<nat>

    /** The log tells what the nonce store holds and for which nonces the matcher ran. */
    ghost predicate Logged()
      reads this, nonces
    {
      && |requests| == |ops| == |clocks| && nonces.entries == N.Run(ops)
      && matched == N.Matched(config, ops, requests, clocks)
    }

    constructor (c: N.Config, trust: bool, key: Option<string>, n: N.InMemoryNonceStore, m: FuzzyStores.FuzzyStore)
      requires n.entries == map[]
      ensures config == c && trustEdgeHeaders == trust && adminKey == key && nonces == n && matcher == m
      ensures Logged() && ops == [] && matched == []
    {
      config, trustEdgeHeaders, adminKey, nonces, matcher := c, trust, key, n, m;
      matched, ops, requests, clocks := [], [], [], [];
    }

    /** Under a clock that does not go backwards and with fresh nonces, the matcher has run at most once per
        nonce, only for issued ones, and so no more often than nonces were issued. */
    lemma MatchedOnce()
      requires Logged() && N.WellTimed(ops)
      ensures NoDup(matched) && Elems(matched) <= N.IssuedNonces(ops) && |matched| <= N.Issues(ops)
    {
      N.MatcherRunsOncePerNonce(config, ops, requests, clocks);
      N.MatchedWereIssued(config, ops, requests, clocks);
      N.MatcherRunsBounded(config, ops, requests, clocks);
    }

    /** Issue a nonce with the lifetime of the store; the clock is read between `from` and `until`. */
    method Challenge(nonce: string, born: nat, clock: string -> nat, from: nat, until: nat) returns (ghost op: N.Op)
      requires Logged() && forall n :: from <= clock(n) <= until
      modifies this`ops, this`requests, this`clocks, nonces
      ensures Logged() && ops == old(ops) + [op] && matched == old(matched)
      ensures op.Issue? && op == N.Issue(nonce, born, nonces.ttl, from, until, op.reaped)
      ensures nonces.entries == N.Step(old(nonces.entries), op)
      ensures N.WellTimed(old(ops)) && N.Continues(old(ops), op) ==> N.WellTimed(ops)
    {
      op := nonces.IssueWithTtl(nonce, born, nonces.ttl, clock, from, until);
      ghost var r := N.Request(nonce, false, None);
      N.MatchedSnoc(config, ops, requests, clocks, op, r, 0);
      N.RunSnoc(ops, op);
      if N.WellTimed(ops) && N.Continues(ops, op) {
        N.StaysWellTimed(ops, op);
      }
      ops, requests, clocks := ops + [op], requests + [r], clocks + [0];
    }

    /** Note a consumption that is about to happen. */
    ghost method LogConsumption(r: N.Request, now: nat, clock: nat)
      requires Logged()
      modifies this`ops, this`requests, this`clocks
      ensures |requests| == |ops| == |clocks|
      ensures ops == old(ops) + [N.Consume(r.nonce, now)]
      ensures N.Run(ops) == N.Step(nonces.entries, N.Consume(r.nonce, now))
      ensures N.Matched(config, ops, requests, clocks) == matched +
        if N.Verdict(nonces.entries, r.nonce, now) == N.Valid && N.Admitted(config, r, clock) then [r.nonce] else []
      ensures N.WellTimed(old(ops)) && N.Continues(old(ops), N.Consume(r.nonce, now)) ==> N.WellTimed(ops)
    {
      var op := N.Consume(r.nonce, now);
      N.MatchedSnoc(config, ops, requests, clocks, op, r, clock);
      N.RunSnoc(ops, op);
      if N.WellTimed(ops) && N.Continues(ops, op) {
        N.StaysWellTimed(ops, op);
      }
      ops, requests, clocks := ops + [op], requests + [r], clocks + [clock];
    }

    /** The matcher's step `l` on what is believed of the request, and the response that reports its outcome. */
    ghost predicate Answers(components: Json, headers: EdgeHeaders, clock: nat, before: Store, after: Store, l: Label,
                            response: Response)
    {
      && l.Identify? && l.probe == components && l.now == clock
      && l.ip == (if trustEdgeHeaders then headers.ip else None)
      && l.ja4 == (if trustEdgeHeaders then headers.ja4Class else None)
      && Enabled(matcher.env, matcher.policy, before, l) && after == Next(matcher.env, matcher.policy, before, l)
      && Carries(response, OutcomeOf(matcher.env, matcher.policy, before, l),
                 if trustEdgeHeaders then headers.passive else Degraded)
    }

    method RunMatcher(components: Json, headers: EdgeHeaders, clock: nat) returns (response: Response, ghost l: Label)
      requires matcher.Wired()
      modifies matcher.records, matcher.blocking, matcher.frequency, matcher.agreement, matcher.velocity
      ensures Answers(components, headers, clock, old(matcher.View()), matcher.View(), l, response)
    {
      var h := TrustedView(trustEdgeHeaders, headers);
      var outcome;
      outcome, l := matcher.IdentifyWithSignals(components, clock, h.ip, h.ja4Class);
      response := Respond(outcome, h.passive);
      RespondCarries(outcome, trustEdgeHeaders, headers);
    }

    /** `now` is the nonce clock, `clock` the wall clock; `l` is the identification taken, if any. */
    method Identify(r: N.Request, components: Json, headers: EdgeHeaders, now: nat, clock: nat)
      returns (response: Response, ghost l: Option<Label>)
      requires Logged() && matcher.Wired()
      modifies this`matched, this`ops, this`requests, this`clocks, nonces
      modifies matcher.records, matcher.blocking, matcher.frequency, matcher.agreement, matcher.velocity
      ensures nonces.entries == N.Step(old(nonces.entries), N.Consume(r.nonce, now))
      ensures Logged() && ops == old(ops) + [N.Consume(r.nonce, now)]
      ensures N.WellTimed(old(ops)) && N.Continues(old(ops), N.Consume(r.nonce, now)) ==> N.WellTimed(ops)
      ensures l.Some? <==>
        N.Verdict(old(nonces.entries), r.nonce, now) == N.Valid && Passes(config, r, clock)
      ensures l.None? ==> response == Unauthorized && matcher.View() == old(matcher.View()) && matched == old(matched)
      ensures l.Some? ==>
        && Answers(components, headers, clock, old(matcher.View()), matcher.View(), l.value, response)
        && matched == old(matched) + [r.nonce]
    {
      response, l := Unauthorized, None;
      LogConsumption(r, now, clock);
      AdmittedPasses(config, r, clock);
      var verdict := nonces.ConsumeNonce(r.nonce, now);
      if verdict != N.Valid {
        return;
      }
      if config.probeRequired && !r.probeVerifies {
        return;
      }
      if config.enforceWindow && !(r.ts.Some? && N.TsInWindow(r.ts.value, clock, config.skewMs)) {
        return;
      }
      ghost var step;
      response, step := RunMatcher(components, headers, clock);
      matched, l := matched + [r.nonce], Some(step);
    }

    /** Erasure is disabled without an admin key and refused without the right one; the answer never tells
        whether there was anything to erase. */
    method Erase(credential: Option<string>, id: string) returns (status: EraseStatus)
      requires matcher.Wired()
      modifies matcher.records, matcher.blocking
      ensures Logged() == old(Logged())
      ensures status == NotFound <==> adminKey.None?
      ensures status == NoContent <==> adminKey.Some? && credential == adminKey
      ensures matcher.View() ==
        if status == NoContent
        then Next(matcher.env, matcher.policy, old(matcher.View()), Label.Erase(id)) else old(matcher.View())
    {
      if adminKey.None? {
        return NotFound;
      }
      if credential != adminKey {
        return Refused;
      }
      var existed := matcher.EraseVisitor(id);
      return NoContent;
    }
  }
}
