// The fuzzy store as a state machine (crates/fp-core/src/fuzzy/engine.rs, mod.rs). Every source
// of nondeterminism -- the order a hash set is walked, which of several equally old records is
// evicted -- is a parameter of the step, so a step is a function of the state and its label.
module Engine {
  import opened Basics
  import opened Component
  import opened Scoring
  import opened Ranking
  import BlockingKeys
  import R = Records
  import B = Blocking
  import F = Frequency
  import A = Agreement
  import V = Velocity

  /** Everything the store is built from: salts and digests, the key families, the two
      transcendental functions, and the id derived from a probe. */
  datatype Env = Env(
    keying: Keying,
    family: BlockingKeys.Family,
    analytic: Analytic,
    deriveId: Json -> string)

  datatype Policy = Policy(
    bounds: R.Bounds,
    maxFrequency: Option<nat>,
    maxAgreement: Option<nat>,
    maxVelocity: Option<nat>,
    maxBlock: nat)

  datatype Store = Store(lib: R.Lib, index: B.Index, freq: F.Freq, agree: A.Agree, vel: V.Vel)

  const EMPTY: Store := Store(R.EMPTY, B.EMPTY, F.EMPTY, A.EMPTY, V.EMPTY)

  datatype Outcome = Outcome(
    visitorId: string,
    isNewDevice: bool,
    confidence: real,
    decision: Decision,
    score: Option<Score>,
    compared: nat,
    collisionRisk: bool,
    velocity: V.Band,
    velocityJa4: V.Band)

  // ---- Evaluation: reads only ----

  ghost function KeysOf(env: Env, stored: map<string, Stored>): seq<Hash32> {
    BlockingKeys.Keys(env.keying, env.family, stored)
  }

  /** Stage-one recall. */
  ghost function Recall(env: Env, s: Store, stored: map<string, Stored>): set<string> {
    B.Candidates(s.index, KeysOf(env, stored))
  }

  /** The score of one candidate; a candidate without a record scores minus infinity. */
  function ScoreId(env: Env, s: Store, probe: map<string, Stored>, id: string): Scored {
    if id in s.lib.records then
      var (score, compared) :=
        ScoreCandidate(env.keying, env.analytic, s.freq, s.agree, probe, s.lib.records[id].components);
      Scored(id, Fin(score), compared)
    else Scored(id, NegInf, 0)
  }

  function Scorer(env: Env, s: Store, probe: map<string, Stored>): string -> Scored {
    id => ScoreId(env, s, probe, id)
  }

  /** The verdict, from the best candidate and the runner-up's score. */
  function VerdictFrom(env: Env, best: Option<Scored>, second: Option<Score>, probe: Json): Outcome {
    var top := if best.Some? then Some(best.value.score) else None;
    var compared := if best.Some? then best.value.compared else 0;
    var d := Decide(top);
    var confidence := Confidence(env.analytic, d, top, second, compared);
    match d
    case Match => Outcome(best.value.id, false, confidence, d, top, compared,
                          Collides(best.value.score, second), V.BandLow, V.BandLow)
    case Review => Outcome(best.value.id, false, confidence, d, top, compared, false, V.BandLow, V.BandLow)
    case NewDevice => Outcome(env.deriveId(probe), true, confidence, d, top, compared, false, V.BandLow, V.BandLow)
  }

  function Verdict(env: Env, xs: seq<Scored>, probe: Json): Outcome {
    VerdictFrom(env, Best(xs), Second(xs), probe)
  }

  function Evaluate(env: Env, s: Store, probe: Json, order: seq<string>): Outcome {
    Verdict(env, ScoredIn(Scorer(env, s, StoredMap(env.keying, probe)), order), probe)
  }

  // ---- Observation ----

  /** The hash under which a scalar is counted: numbers by their decimal text. */
  function FrequencyHash(k: Keying, v: Stored): Option<Hash32> {
    match v
    case Category(h) => Some(h)
    case Numeric(n) => Some(k.salted(k.text(IntNum(n))))
    case Set(_) => None
  }

  function ScalarHashes(k: Keying, names: seq<string>, stored: map<string, Stored>): seq<Hash32>
    requires forall x :: x in names ==> x in stored
  {
    if names == [] then []
    else
      var h := FrequencyHash(k, stored[names[0]]);
      (if h.Some? then [h.value] else []) + ScalarHashes(k, names[1..], stored)
  }

  function FrequencyAfter(env: Env, pol: Policy, f: F.Freq, stored: map<string, Stored>): F.Freq {
    F.RecordedAll(f, pol.maxFrequency, ScalarHashes(env.keying, Sorted(stored.Keys), stored))
  }

  /** Fold an observation of `v` into every index. */
  ghost function Observed(env: Env, pol: Policy, s: Store, v: string, stored: map<string, Stored>, now: nat,
                          keep: set<string>): Store
  {
    s.(lib := s.lib.Observed(pol.bounds, v, stored, now, keep),
       index := B.InsertedAll(s.index, pol.maxBlock, KeysOf(env, stored), v),
       freq := FrequencyAfter(env, pol, s.freq, stored))
  }

  // ---- Learning ----

  /** Agreement of each component present and comparable on both sides. */
  function Agreements(k: Keying, f: F.Freq, names: seq<string>, probe: map<string, Stored>,
                      template: map<string, Stored>): seq<(string, bool)>
    requires forall x :: x in names ==> x in probe
  {
    if names == [] then []
    else
      var rest := Agreements(k, f, names[1..], probe, template);
      if names[0] !in template then rest
      else
        var c := Compare(k, f, probe[names[0]], template[names[0]]);
        if c.None? then rest else [(names[0], c.value.0 >= TAU)] + rest
  }

  function Learned(env: Env, pol: Policy, s: Store, v: string, probe: map<string, Stored>): Store {
    if v !in s.lib.records then s
    else
      var outcomes := Agreements(env.keying, s.freq, Sorted(probe.Keys), probe, s.lib.records[v].components);
      s.(agree := A.RecordedAll(s.agree, pol.maxAgreement, outcomes))
  }

  // ---- Velocity ----

  function Bumped(pol: Policy, v: V.Vel, key: Option<string>, now: nat): V.Vel {
    if key.None? then v else V.Pruned(V.Recorded(v, pol.maxVelocity, key.value, now), key.value, now, V.WINDOW)
  }

  function BumpCount(pol: Policy, v: V.Vel, key: Option<string>, now: nat): nat {
    if key.None? then 0 else V.Count(V.Recorded(v, pol.maxVelocity, key.value, now), key.value, now, V.WINDOW)
  }

  function Ja4Key(ja4Class: Option<string>): Option<string> {
    if ja4Class.None? then None else Some("ja4:" + ja4Class.value)
  }

  // ---- Steps ----

  datatype Label =
    | Identify(probe: Json, now: nat, ip: Option<string>, ja4: Option<string>, order: seq<string>, keep: set<string>)
    | ScoreOnly(probe: Json, order: seq<string>)
    | Erase(visitor: string)
    | Purge(now: nat, age: nat)

  function StoredOf(env: Env, l: Label): map<string, Stored>
    requires l.Identify?
  {
    StoredMap(env.keying, l.probe)
  }

  function VerdictOf(env: Env, s: Store, l: Label): Outcome
    requires l.Identify?
  {
    Evaluate(env, s, l.probe, l.order)
  }

  /** Whether a step folds its observation into a template, and whose. */
  function Touched(env: Env, s: Store, l: Label): Option<string> {
    if l.Identify? && VerdictOf(env, s, l).decision != Review then Some(VerdictOf(env, s, l).visitorId) else None
  }

  ghost predicate Enabled(env: Env, pol: Policy, s: Store, l: Label) {
    && (l.Identify? ==> Enumerates(l.order, Recall(env, s, StoredOf(env, l))))
    && (l.ScoreOnly? ==> Enumerates(l.order, Recall(env, s, StoredMap(env.keying, l.probe))))
    && (Touched(env, s, l).Some? ==>
          s.lib.ValidKeep(pol.bounds, Touched(env, s, l).value, StoredOf(env, l), l.now, l.keep))
  }

  /** The store after a verdict has been acted on: a match learns and drifts the winner, a new
      device is stored and counted, a review changes nothing. */
  ghost function AfterVerdict(env: Env, pol: Policy, s: Store, o: Outcome, stored: map<string, Stored>, now: nat,
                              ip: Option<string>, ja4: Option<string>, keep: set<string>): Store {
    match o.decision
    case Match => Observed(env, pol, Learned(env, pol, s, o.visitorId, stored), o.visitorId, stored, now, keep)
    case Review => s
    case NewDevice =>
      var t := Observed(env, pol, s, o.visitorId, stored, now, keep);
      t.(vel := Bumped(pol, Bumped(pol, t.vel, ip, now / 1000), Ja4Key(ja4), now / 1000))
  }

  /** What acting on a verdict does to library, index and frequency table. */
  lemma AfterVerdictParts(env: Env, pol: Policy, s: Store, o: Outcome, stored: map<string, Stored>, now: nat,
                          ip: Option<string>, ja4: Option<string>, keep: set<string>)
    ensures var t := AfterVerdict(env, pol, s, o, stored, now, ip, ja4, keep);
      if o.decision == Review then t == s
      else
        && t.lib == s.lib.Observed(pol.bounds, o.visitorId, stored, now, keep)
        && t.index == B.InsertedAll(s.index, pol.maxBlock, KeysOf(env, stored), o.visitorId)
        && t.freq == FrequencyAfter(env, pol, s.freq, stored)
  {
  }

  ghost function AfterIdentify(env: Env, pol: Policy, s: Store, l: Label): Store
    requires l.Identify?
  {
    AfterVerdict(env, pol, s, VerdictOf(env, s, l), StoredOf(env, l), l.now, l.ip, l.ja4, l.keep)
  }

  ghost function Next(env: Env, pol: Policy, s: Store, l: Label): Store {
    match l
    case Identify(_, _, _, _, _, _) => AfterIdentify(env, pol, s, l)
    case ScoreOnly(_, _) => s
    case Erase(v) => s.(lib := s.lib.Removed(v), index := B.Removed(s.index, v))
    case Purge(now, age) => s.(lib := s.lib.Purged(now, age))
  }

  /** A new-device verdict with its velocity bands; only a high per-IP rate costs confidence. */
  function WithVelocity(pol: Policy, v: V.Vel, o: Outcome, ip: Option<string>, ja4: Option<string>, secs: nat): Outcome
  {
    var ipBand := V.ClassifyWith(BumpCount(pol, v, ip, secs), V.MEDIUM, V.HIGH);
    var ja4Count := BumpCount(pol, Bumped(pol, v, ip, secs), Ja4Key(ja4), secs);
    var ja4Band := V.ClassifyWith(ja4Count, V.JA4_MEDIUM, V.JA4_HIGH);
    o.(confidence := if ipBand == V.BandHigh then Penalised(o.confidence) else o.confidence,
       velocity := ipBand, velocityJa4 := ja4Band)
  }

  /** What the caller gets back. */
  function OutcomeOf(env: Env, pol: Policy, s: Store, l: Label): Outcome
    requires l.Identify?
  {
    var o := VerdictOf(env, s, l);
    if o.decision == NewDevice then WithVelocity(pol, s.vel, o, l.ip, l.ja4, l.now / 1000) else o
  }

  datatype Reply = Answer(outcome: Outcome) | Existed(existed: bool) | PurgedCount(count: int)

  function ReplyOf(env: Env, pol: Policy, s: Store, l: Label): Reply {
    match l
    case Identify(_, _, _, _, _, _) => Answer(OutcomeOf(env, pol, s, l))
    case ScoreOnly(probe, order) => Answer(Evaluate(env, s, probe, order))
    case Erase(v) => Existed(v in s.lib.records)
    case Purge(now, age) => PurgedCount(|s.lib.records| - |s.lib.Purged(now, age).records|)
  }

  /** The store after a run from empty. */
  ghost function Run(env: Env, pol: Policy, ls: seq<Label>): Store {
    if ls == [] then EMPTY else Next(env, pol, Run(env, pol, ls[..|ls| - 1]), ls[|ls| - 1])
  }

  /** Every step of the run was possible where it was taken. */
  ghost predicate Feasible(env: Env, pol: Policy, ls: seq<Label>) {
    ls == [] || (Feasible(env, pol, ls[..|ls| - 1]) && Enabled(env, pol, Run(env, pol, ls[..|ls| - 1]), ls[|ls| - 1]))
  }

  lemma RunSnoc(env: Env, pol: Policy, ls: seq<Label>, l: Label)
    ensures Run(env, pol, ls + [l]) == Next(env, pol, Run(env, pol, ls), l)
    ensures Feasible(env, pol, ls + [l]) <==> Feasible(env, pol, ls) && Enabled(env, pol, Run(env, pol, ls), l)
  {
    assert (ls + [l])[..|ls|] == ls;
  }

  // ---- The verdict ----

  lemma ScorerLabels(env: Env, s: Store, probe: map<string, Stored>)
    ensures Labels(Scorer(env, s, probe))
  {
  }

  /** Decision, best score and collision flag do not depend on the order in which the candidates
      are walked. */
  lemma VerdictIgnoresOrder(env: Env, s: Store, probe: Json, o1: seq<string>, o2: seq<string>)
    requires Enumerates(o1, Recall(env, s, StoredMap(env.keying, probe)))
    requires Enumerates(o2, Recall(env, s, StoredMap(env.keying, probe)))
    ensures var a, b := Evaluate(env, s, probe, o1), Evaluate(env, s, probe, o2);
      && a.decision == b.decision && a.score == b.score && a.collisionRisk == b.collisionRisk
      && a.isNewDevice == b.isNewDevice
  {
    var stored := StoredMap(env.keying, probe);
    ScorerLabels(env, s, stored);
    OrderIndependent(Scorer(env, s, stored), Recall(env, s, stored), o1, o2);
  }

  /** If two orders name different winners, the two tie for the best score; on a match the
      collision flag is then raised. */
  lemma AmbiguousWinnerIsFlagged(env: Env, s: Store, probe: Json, o1: seq<string>, o2: seq<string>)
    requires Enumerates(o1, Recall(env, s, StoredMap(env.keying, probe)))
    requires Enumerates(o2, Recall(env, s, StoredMap(env.keying, probe)))
    requires Evaluate(env, s, probe, o1).decision == Match
    requires Evaluate(env, s, probe, o1).visitorId != Evaluate(env, s, probe, o2).visitorId
    ensures Evaluate(env, s, probe, o1).collisionRisk && Evaluate(env, s, probe, o2).collisionRisk
  {
    var stored := StoredMap(env.keying, probe);
    ScorerLabels(env, s, stored);
    OrderIndependent(Scorer(env, s, stored), Recall(env, s, stored), o1, o2);
  }

  lemma VerdictNamesBest(env: Env, best: Option<Scored>, second: Option<Score>, probe: Json)
    requires VerdictFrom(env, best, second, probe).decision != NewDevice
    ensures best.Some? && best.value.score.Fin?
    ensures var o := VerdictFrom(env, best, second, probe);
      o.visitorId == best.value.id && o.score == Some(best.value.score)
  {
  }

  /** A match or a review names a recalled visitor with a live record whose score is the maximum
      over all recalled visitors. */
  lemma VerdictNamesLiveRecord(env: Env, s: Store, probe: Json, order: seq<string>)
    requires Enumerates(order, Recall(env, s, StoredMap(env.keying, probe)))
    requires Evaluate(env, s, probe, order).decision != NewDevice
    ensures var o, stored := Evaluate(env, s, probe, order), StoredMap(env.keying, probe);
      && o.visitorId in s.lib.records
      && Wins(Scorer(env, s, stored), Recall(env, s, stored), o.visitorId)
      && o.score == Some(ScoreId(env, s, stored, o.visitorId).score)
  {
    var stored := StoredMap(env.keying, probe);
    var score := Scorer(env, s, stored);
    ScorerLabels(env, s, stored);
    BestOver(score, Recall(env, s, stored), order);
    var xs := ScoredIn(score, order);
    VerdictNamesBest(env, Best(xs), Second(xs), probe);
    assert score(Best(xs).value.id) == ScoreId(env, s, stored, Best(xs).value.id);
  }

  /** The verdict in terms of the candidate set alone: a match needs a candidate at the upper
      threshold, and a device is new exactly when no candidate reaches the lower one. */
  lemma VerdictThresholds(env: Env, s: Store, probe: Json, order: seq<string>)
    requires Enumerates(order, Recall(env, s, StoredMap(env.keying, probe)))
    ensures var d, stored := Evaluate(env, s, probe, order).decision, StoredMap(env.keying, probe);
      && (d == Match <==> exists id :: id in Recall(env, s, stored) && ScoreId(env, s, stored, id).score.AtLeast(T_HI))
      && (d == NewDevice <==>
          forall id :: id in Recall(env, s, stored) ==> !ScoreId(env, s, stored, id).score.AtLeast(T_LO))
  {
    var stored := StoredMap(env.keying, probe);
    var score, ids := Scorer(env, s, stored), Recall(env, s, stored);
    ScorerLabels(env, s, stored);
    BestOver(score, ids, order);
    Thresholds(score, ids, BestScore(ScoredIn(score, order)));
    assert forall id :: score(id) == ScoreId(env, s, stored, id);
  }

  lemma Thresholds(score: string -> Scored, ids: set<string>, top: Option<Score>)
    requires if ids == {} then top == None else exists w :: Wins(score, ids, w) && top == Some(score(w).score)
    ensures Decide(top) == Match <==> exists id :: id in ids && score(id).score.AtLeast(T_HI)
    ensures Decide(top) == NewDevice <==> forall id :: id in ids ==> !score(id).score.AtLeast(T_LO)
  {
  }
}
