// What an outcome reports (crates/fp-core/src/fuzzy/engine.rs): its fields in terms of the recalled
// candidates alone, and what a confirmed match teaches.
module Verdicts {
  import opened Basics
  import opened Component
  import opened Scoring
  import opened Ranking
  import opened Engine
  import Estimators
  import R = Records
  import A = Agreement
  import F = Frequency
  import V = Velocity

  // ---- The collision flag ----

  /** `b` clears the upper threshold less than two bits below `a`. */
  predicate CloseBelow(a: Score, b: Score) {
    b.Fin? && b.r >= 12.0 && a.Fin? && a.r - b.r < 2.0
  }

  /** Some candidate other than the best is close below it. */
  ghost predicate Rivalled(score: string -> Scored, ids: set<string>, best: string) {
    exists id :: id in ids && id != best && CloseBelow(score(best).score, score(id).score)
  }

  lemma CollisionOver(score: string -> Scored, ids: set<string>, order: seq<string>)
    requires Labels(score) && Enumerates(order, ids) && ids != {}
    ensures Best(ScoredIn(score, order)).Some?
    ensures var xs := ScoredIn(score, order);
      Collides(Best(xs).value.score, Second(xs)) <==> Rivalled(score, ids, Best(xs).value.id)
  {
    var xs := ScoredIn(score, order);
    BestOver(score, ids, order);
    ScoredInMembers(score, order);
    EnumerationLength(order, ids);
    BestAndSecond(xs);
    var best := Best(xs).value;
    forall id | id in ids && id != best.id ensures |xs| > 1 && Ge(Second(xs).value, score(id).score) {
      assert id in Elems(order) && best.id in Elems(order);
      assert score(id) in xs && score(id) != best;
    }
    if Collides(best.score, Second(xs)) {
      var x :| x in xs && x != best && x.score == Second(xs).value;
      assert x.id in Elems(order) && x.id != best.id;
    }
  }

  // ---- All fields ----

  /** The greatest score of the candidates other than `w`; none without any. */
  ghost predicate RunnerUp(score: string -> Scored, ids: set<string>, w: string, second: Option<Score>) {
    if ids - {w} == {} then second == None
    else exists r :: Wins(score, ids - {w}, r) && second == Some(score(r).score)
  }

  /** Score, comparison count and confidence are those of a best candidate `w` and its runner-up. */
  ghost predicate ReportsBest(an: Analytic, score: string -> Scored, ids: set<string>, w: string, o: Outcome) {
    && Wins(score, ids, w) && o.score == Some(score(w).score) && o.compared == score(w).compared
    && (o.decision != NewDevice ==> o.visitorId == w)
    && exists second: Option<Score> ::
         RunnerUp(score, ids, w, second) && o.confidence == Confidence(an, o.decision, o.score, second, o.compared)
  }

  ghost predicate ReportsNobody(an: Analytic, o: Outcome) {
    o.score == None && o.compared == 0 && o.confidence == Confidence(an, NewDevice, None, None, 0)
  }

  /** What an outcome means in terms of the candidates `ids` with their scores, and the live visitors. */
  ghost predicate JudgedBy(env: Env, live: set<string>, score: string -> Scored, ids: set<string>, probe: Json,
                           o: Outcome) {
    && (o.decision == Match <==> exists id :: id in ids && score(id).score.AtLeast(12.0))
    && (o.decision == NewDevice <==> forall id :: id in ids ==> !score(id).score.AtLeast(8.0))
    && o.isNewDevice == (o.decision == NewDevice)
    && (o.decision == NewDevice ==> o.visitorId == env.deriveId(probe))
    && (o.decision != NewDevice ==> o.visitorId in live)
    && (if ids == {} then ReportsNobody(env.analytic, o) else exists w :: ReportsBest(env.analytic, score, ids, w, o))
    && (o.collisionRisk <==> o.decision == Match && Rivalled(score, ids, o.visitorId))
    && o.velocity == o.velocityJa4 == V.BandLow
  }

  /** What the outcome of evaluating a probe means, whatever order the candidates were walked in. */
  ghost predicate Judged(env: Env, s: Store, probe: Json, o: Outcome) {
    var stored := StoredMap(env.keying, probe);
    JudgedBy(env, s.lib.records.Keys, Scorer(env, s, stored), Recall(env, s, stored), probe, o)
  }

  lemma VerdictFields(env: Env, best: Option<Scored>, second: Option<Score>, probe: Json)
    ensures var o := VerdictFrom(env, best, second, probe);
      && o.isNewDevice == (o.decision == NewDevice)
      && (o.decision == NewDevice ==> o.visitorId == env.deriveId(probe) && !o.collisionRisk)
      && (o.decision != NewDevice ==> best.Some? && o.visitorId == best.value.id)
      && (o.decision == Match ==> o.collisionRisk == Collides(best.value.score, second))
      && (o.decision == Review ==> !o.collisionRisk)
      && o.velocity == V.BandLow && o.velocityJa4 == V.BandLow
      && o.score == (if best.Some? then Some(best.value.score) else None)
      && o.compared == (if best.Some? then best.value.compared else 0)
      && o.confidence == Confidence(env.analytic, o.decision, o.score, second, o.compared)
  {
  }

  /** The second score of the sorted candidates is the runner-up's. */
  lemma SecondIsRunnerUp(score: string -> Scored, ids: set<string>, order: seq<string>, w: string)
    requires Labels(score) && Enumerates(order, ids) && ids != {}
    requires Best(ScoredIn(score, order)).Some? && w == Best(ScoredIn(score, order)).value.id
    ensures RunnerUp(score, ids, w, Second(ScoredIn(score, order)))
  {
    var xs := ScoredIn(score, order);
    ScoredInMembers(score, order);
    EnumerationLength(order, ids);
    BestAndSecond(xs);
    OthersCount(ids, w);
    assert forall id :: id in ids <==> id in order;
    if |xs| > 1 {
      var x :| x in xs && x != Best(xs).value && x.score == Second(xs).value;
      forall id | id in ids - {w} ensures Ge(score(x.id).score, score(id).score) {
        assert score(id) in xs && score(id) != Best(xs).value;
      }
      assert Wins(score, ids - {w}, x.id);
    }
  }

  lemma OthersCount(ids: set<string>, w: string)
    ensures ids - {w} == {} ==> |ids| <= 1
    ensures w in ids && |ids| <= 1 ==> ids - {w} == {}
  {
    if ids - {w} == {} { SubsetSize(ids, {w}); }
    if w in ids && |ids| <= 1 {
      SubsetSize({w}, ids);
    }
  }

  lemma VerdictReportsBest(env: Env, score: string -> Scored, ids: set<string>, order: seq<string>, probe: Json)
    requires Labels(score) && Enumerates(order, ids)
    ensures var o := Verdict(env, ScoredIn(score, order), probe);
      if ids == {} then ReportsNobody(env.analytic, o) else exists w :: ReportsBest(env.analytic, score, ids, w, o)
  {
    var xs := ScoredIn(score, order);
    BestOver(score, ids, order);
    VerdictFields(env, Best(xs), Second(xs), probe);
    if ids != {} {
      var w := Best(xs).value.id;
      SecondIsRunnerUp(score, ids, order, w);
      assert ReportsBest(env.analytic, score, ids, w, Verdict(env, xs, probe));
    } else {
      EnumerationLength(order, ids);
      assert xs == [];
      BestAndSecond(xs);
    }
  }

  lemma VerdictIsJudged(env: Env, live: set<string>, score: string -> Scored, ids: set<string>, order: seq<string>,
                        probe: Json)
    requires Labels(score) && Enumerates(order, ids)
    requires forall id :: score(id).score.Fin? ==> id in live
    ensures JudgedBy(env, live, score, ids, probe, Verdict(env, ScoredIn(score, order), probe))
  {
    var xs := ScoredIn(score, order);
    BestOver(score, ids, order);
    Thresholds(score, ids, BestScore(xs));
    VerdictFields(env, Best(xs), Second(xs), probe);
    VerdictReportsBest(env, score, ids, order, probe);
    if Verdict(env, xs, probe).decision != NewDevice {
      VerdictNamesBest(env, Best(xs), Second(xs), probe);
      CollisionOver(score, ids, order);
    }
  }

  /** Every evaluation gives an outcome that means this. */
  lemma EvaluateIsJudged(env: Env, s: Store, probe: Json, order: seq<string>)
    requires Enumerates(order, Recall(env, s, StoredMap(env.keying, probe)))
    ensures Judged(env, s, probe, Evaluate(env, s, probe, order))
  {
    var stored := StoredMap(env.keying, probe);
    var score := Scorer(env, s, stored);
    ScorerLabels(env, s, stored);
    forall id | score(id).score.Fin? ensures id in s.lib.records.Keys {
      assert score(id) == ScoreId(env, s, stored, id);
    }
    VerdictIsJudged(env, s.lib.records.Keys, score, Recall(env, s, stored), order, probe);
  }

  /** The confidence of an evaluation lies in its decision's band. */
  lemma VerdictConfidence(env: Env, s: Store, probe: Json, order: seq<string>)
    requires env.analytic.Lawful()
    requires Enumerates(order, Recall(env, s, StoredMap(env.keying, probe)))
    ensures var o := Evaluate(env, s, probe, order);
      match o.decision
      case Match => 0.375 <= o.confidence <= 1.0
      case Review => 0.125 <= o.confidence <= 0.5
      case NewDevice => 0.375 < o.confidence <= 1.0
  {
    var stored := StoredMap(env.keying, probe);
    var score := Scorer(env, s, stored);
    var xs := ScoredIn(score, order);
    ScorerLabels(env, s, stored);
    ScoredInMembers(score, order);
    BestAndSecond(xs);
    Estimators.ConfidenceBands(env.analytic, BestScore(xs), Second(xs),
                               if Best(xs).Some? then Best(xs).value.compared else 0);
    ConfidenceOf(env, Best(xs), Second(xs), probe);
  }

  lemma ConfidenceOf(env: Env, best: Option<Scored>, second: Option<Score>, probe: Json)
    ensures var top := if best.Some? then Some(best.value.score) else None;
      VerdictFrom(env, best, second, probe).confidence ==
      Confidence(env.analytic, Decide(top), top, second, if best.Some? then best.value.compared else 0)
  {
  }

  // ---- The confidence, from the candidates ----

  /** `bar` is the greatest of twelve and the scores of the candidates other than `w`. */
  ghost predicate StandsAbove(score: string -> Scored, ids: set<string>, w: string, bar: real) {
    && bar >= 12.0
    && (forall id :: id in ids && id != w && score(id).score.Fin? ==> score(id).score.r <= bar)
    && (bar == 12.0 || exists id :: id in ids && id != w && score(id).score == Fin(bar))
  }

  ghost predicate SureMatch(an: Analytic, score: string -> Scored, ids: set<string>, w: string, bar: real, o: Outcome) {
    && score(w).score.Fin? && StandsAbove(score, ids, w, bar)
    && o.confidence == (0.5 + 0.5 * an.logistic((score(w).score.r - bar) / 4.0)) * Estimators.Whole(o.compared)
  }

  ghost predicate SureReview(score: string -> Scored, w: string, o: Outcome) {
    score(w).score.Fin? && o.confidence == (0.25 + (score(w).score.r - 8.0) / 16.0) * Estimators.Whole(o.compared)
  }

  ghost predicate SureNew(an: Analytic, score: string -> Scored, ids: set<string>, w: string, o: Outcome) {
    && Wins(score, ids, w) && score(w).score.Fin?
    && o.confidence == (1.0 - 0.5 * an.logistic((score(w).score.r - 8.0) / 4.0)) * Estimators.Whole(o.compared)
  }

  /** The confidence of a match grows with how far its score stands above every other candidate and the upper
      threshold, that of a review with how far it is through the band, that of a new device with how far the best
      live candidate falls short of the band; all in proportion to what was compared. */
  ghost predicate Confident(an: Analytic, score: string -> Scored, ids: set<string>, o: Outcome) {
    match o.decision
    case Match => exists bar :: SureMatch(an, score, ids, o.visitorId, bar, o)
    case Review => SureReview(score, o.visitorId, o)
    case NewDevice =>
      if exists id :: id in ids && score(id).score.Fin? then exists w :: SureNew(an, score, ids, w, o)
      else o.confidence == 0.5
  }

  lemma BarOfRunnerUp(score: string -> Scored, ids: set<string>, w: string, second: Option<Score>)
    requires RunnerUp(score, ids, w, second)
    ensures StandsAbove(score, ids, w, Estimators.Bar(second))
    ensures Wins(score, ids, w) && second.Some? ==> Ge(score(w).score, second.value)
  {
    forall id | id in ids && id != w ensures id in ids - {w} {}
    if ids - {w} != {} {
      var r :| Wins(score, ids - {w}, r) && second == Some(score(r).score);
      assert r in ids && r != w;
    }
  }

  ghost predicate HasCertainty(an: Analytic, o: Outcome, second: Option<Score>) {
    o.confidence == Estimators.Certainty(an, o.score, second) * Estimators.Whole(o.compared)
  }

  lemma CertaintyOf(an: Analytic, o: Outcome, second: Option<Score>)
    requires an.Lawful() && o.decision == Decide(o.score)
    requires o.score.Some? && second.Some? ==> Ge(o.score.value, second.value)
    requires o.confidence == Confidence(an, o.decision, o.score, second, o.compared)
    ensures HasCertainty(an, o, second)
  {
    Estimators.ConfidenceMeans(an, o.score, second, o.compared, Estimators.Certainty(an, o.score, second));
  }

  /** The outcome reports the best candidate `w` against this runner-up. */
  ghost predicate Reported(an: Analytic, score: string -> Scored, ids: set<string>, w: string, o: Outcome,
                           second: Option<Score>)
  {
    && o.decision == Decide(o.score) && Wins(score, ids, w)
    && o.score == Some(score(w).score) && o.compared == score(w).compared
    && (o.decision != NewDevice ==> o.visitorId == w)
    && StandsAbove(score, ids, w, Estimators.Bar(second)) && HasCertainty(an, o, second)
  }

  lemma RunnerUpOf(an: Analytic, score: string -> Scored, ids: set<string>, w: string, o: Outcome)
    returns (second: Option<Score>)
    requires an.Lawful() && ReportsBest(an, score, ids, w, o) && o.decision == Decide(o.score)
    ensures Reported(an, score, ids, w, o, second)
  {
    second :| RunnerUp(score, ids, w, second)
      && o.confidence == Confidence(an, o.decision, o.score, second, o.compared);
    BarOfRunnerUp(score, ids, w, second);
    CertaintyOf(an, o, second);
  }

  lemma MatchConfidence(an: Analytic, score: string -> Scored, ids: set<string>, w: string, o: Outcome,
                        second: Option<Score>)
    requires Reported(an, score, ids, w, o, second)
    requires o.decision == Match
    ensures SureMatch(an, score, ids, w, Estimators.Bar(second), o)
  {
  }

  lemma ReviewConfidence(an: Analytic, score: string -> Scored, ids: set<string>, w: string, o: Outcome,
                         second: Option<Score>)
    requires Reported(an, score, ids, w, o, second)
    requires o.decision == Review
    ensures SureReview(score, w, o)
  {
  }

  lemma NewConfidence(an: Analytic, score: string -> Scored, ids: set<string>, w: string, o: Outcome,
                      second: Option<Score>)
    requires Reported(an, score, ids, w, o, second)
    requires o.decision == NewDevice && score(w).score.Fin?
    ensures SureNew(an, score, ids, w, o)
  {
  }

  lemma BestConfidence(an: Analytic, score: string -> Scored, ids: set<string>, w: string, o: Outcome,
                       second: Option<Score>)
    requires Reported(an, score, ids, w, o, second)
    requires score(w).score.NegInf? ==> score(w).compared == 0
    ensures Confident(an, score, ids, o)
  {
    match o.decision
    case Match => MatchConfidence(an, score, ids, w, o, second);
    case Review => ReviewConfidence(an, score, ids, w, o, second);
    case NewDevice =>
      if score(w).score.NegInf? {
        assert forall id :: id in ids ==> Ge(score(w).score, score(id).score);
      } else {
        NewConfidence(an, score, ids, w, o, second);
      }
  }

  lemma NobodyConfidence(an: Analytic, score: string -> Scored, o: Outcome)
    requires an.Lawful() && ReportsNobody(an, o) && o.decision == NewDevice
    ensures Confident(an, score, {}, o)
  {
    Estimators.ConfidenceMeans(an, None, None, 0, 1.0);
  }

  lemma DecisionOfScore(env: Env, best: Option<Scored>, second: Option<Score>, probe: Json)
    ensures var o := VerdictFrom(env, best, second, probe); o.decision == Decide(o.score)
  {
  }

  /** Every evaluation is confident in that way. */
  lemma EvaluateConfidence(env: Env, s: Store, probe: Json, order: seq<string>)
    requires env.analytic.Lawful()
    requires Enumerates(order, Recall(env, s, StoredMap(env.keying, probe)))
    ensures var stored := StoredMap(env.keying, probe);
      Confident(env.analytic, Scorer(env, s, stored), Recall(env, s, stored), Evaluate(env, s, probe, order))
  {
    var stored, o := StoredMap(env.keying, probe), Evaluate(env, s, probe, order);
    var score, ids := Scorer(env, s, stored), Recall(env, s, stored);
    ScorerLabels(env, s, stored);
    VerdictReportsBest(env, score, ids, order, probe);
    DecisionOfScore(env, Best(ScoredIn(score, order)), Second(ScoredIn(score, order)), probe);
    if ids == {} {
      NobodyConfidence(env.analytic, score, o);
    } else {
      var w :| ReportsBest(env.analytic, score, ids, w, o);
      assert score(w) == ScoreId(env, s, stored, w);
      var second := RunnerUpOf(env.analytic, score, ids, w, o);
      BestConfidence(env.analytic, score, ids, w, o, second);
    }
  }

  // ---- What is compared ----

  ghost function Weighed(names: seq<string>, weigh: string -> Option<real>): set<string> {
    set n | n in names && weigh(n).Some?
  }

  lemma WeighedSnoc(front: seq<string>, last: string, weigh: string -> Option<real>)
    requires last !in front
    ensures |Weighed(front + [last], weigh)| == |Weighed(front, weigh)| + if weigh(last).Some? then 1 else 0
  {
    assert Weighed(front + [last], weigh) == Weighed(front, weigh) + if weigh(last).Some? then {last} else {};
  }

  lemma {:induction false} CountOver(names: seq<string>, weigh: string -> Option<real>)
    requires NoDup(names)
    ensures SumOver(names, weigh).1 == |Weighed(names, weigh)|
  {
    if names != [] {
      var front, last := names[..|names| - 1], names[|names| - 1];
      CountOver(front, weigh);
      SplitLast(names);
      assert last !in front;
      WeighedSnoc(front, last, weigh);
    }
  }

  /** A missing component is not compared, and every component present on both sides is, since the
      schema gives a name one kind. */
  lemma ComparedAreCommon(k: Keying, an: Analytic, f: F.Freq, a: A.Agree, probe: map<string, Stored>,
                          template: map<string, Stored>)
    requires WellTyped(probe) && WellTyped(template)
    ensures ScoreCandidate(k, an, f, a, probe, template).1 == |probe.Keys * template.Keys|
  {
    var names, weigh := Sorted(probe.Keys), Weigher(k, an, f, a, probe, template);
    CountOver(names, weigh);
    forall n | n in names ensures weigh(n).Some? <==> n in template {
      if n in template { SameKindCompares(k, f, n, probe, template); }
    }
    assert Weighed(names, weigh) == probe.Keys * template.Keys;
  }

  lemma SameKindCompares(k: Keying, f: F.Freq, name: string, probe: map<string, Stored>, template: map<string, Stored>)
    requires WellTyped(probe) && WellTyped(template) && name in probe && name in template
    ensures Compare(k, f, probe[name], template[name]).Some?
  {
  }

  ghost predicate TypedTemplates(lib: R.Library) {
    forall v :: v in lib ==> WellTyped(lib[v].components)
  }

  lemma OverlayTyped(m: map<string, Stored>, n: map<string, Stored>)
    requires WellTyped(m) && WellTyped(n)
    ensures WellTyped(m + n)
  {
  }

  lemma UpsertTyped(lib: R.Library, v: string, stored: map<string, Stored>, now: nat)
    requires TypedTemplates(lib) && WellTyped(stored)
    ensures TypedTemplates(R.Upserted(lib, v, stored, now))
  {
    if v in lib { OverlayTyped(lib[v].components, stored); }
  }

  lemma ObservedTyped(lib: R.Lib, b: R.Bounds, v: string, stored: map<string, Stored>, now: nat, keep: set<string>)
    requires TypedTemplates(lib.records) && WellTyped(stored)
    ensures TypedTemplates(lib.Observed(b, v, stored, now, keep).records)
  {
    UpsertTyped(lib.records, v, stored, now);
  }

  lemma StepTyped(env: Env, pol: Policy, s: Store, l: Label)
    requires TypedTemplates(s.lib.records)
    ensures TypedTemplates(Next(env, pol, s, l).lib.records)
  {
    if l.Identify? {
      StoredMapWellTyped(env.keying, l.probe);
      AfterVerdictParts(env, pol, s, VerdictOf(env, s, l), StoredOf(env, l), l.now, l.ip, l.ja4, l.keep);
      ObservedTyped(s.lib, pol.bounds, VerdictOf(env, s, l).visitorId, StoredOf(env, l), l.now, l.keep);
    }
  }

  lemma {:induction false} ReachableTyped(env: Env, pol: Policy, ls: seq<Label>)
    ensures TypedTemplates(Run(env, pol, ls).lib.records)
  {
    if ls != [] {
      ReachableTyped(env, pol, ls[..|ls| - 1]);
      StepTyped(env, pol, Run(env, pol, ls[..|ls| - 1]), ls[|ls| - 1]);
    }
  }

  /** In every reachable store, a candidate's comparison count is the number of components its
      template has in common with the probe. */
  lemma ReachableComparisons(env: Env, pol: Policy, ls: seq<Label>, probe: Json, v: string)
    requires v in Run(env, pol, ls).lib.records
    ensures var s, stored := Run(env, pol, ls), StoredMap(env.keying, probe);
      ScoreId(env, s, stored, v).compared == |stored.Keys * s.lib.records[v].components.Keys|
  {
    var s, stored := Run(env, pol, ls), StoredMap(env.keying, probe);
    ReachableTyped(env, pol, ls);
    StoredMapWellTyped(env.keying, probe);
    ComparedAreCommon(env.keying, env.analytic, s.freq, s.agree, stored, s.lib.records[v].components);
  }

  // ---- What an observation counts ----

  /** The names among `names` whose value is counted under `h`. */
  ghost function CountedUnder(k: Keying, names: seq<string>, stored: map<string, Stored>, h: Hash32): set<string> {
    set n | n in names && n in stored && FrequencyHash(k, stored[n]) == Some(h)
  }

  lemma CountedCons(k: Keying, name: string, rest: seq<string>, stored: map<string, Stored>, h: Hash32)
    requires name in stored && name !in rest
    ensures |CountedUnder(k, [name] + rest, stored, h)| ==
      |CountedUnder(k, rest, stored, h)| + if FrequencyHash(k, stored[name]) == Some(h) then 1 else 0
  {
    assert CountedUnder(k, [name] + rest, stored, h) ==
      CountedUnder(k, rest, stored, h) + if FrequencyHash(k, stored[name]) == Some(h) then {name} else {};
  }

  lemma {:induction false} HashCounts(k: Keying, names: seq<string>, stored: map<string, Stored>, h: Hash32)
    requires NoDup(names) && forall x :: x in names ==> x in stored
    ensures multiset(ScalarHashes(k, names, stored))[h] == |CountedUnder(k, names, stored, h)|
  {
    if names != [] {
      var rest := names[1..];
      HashCounts(k, rest, stored, h);
      assert names == [names[0]] + rest && names[0] !in rest;
      CountedCons(k, names[0], rest, stored, h);
    }
  }

  /** A value is counted under a hash: a category under its own, a number under that of its decimal text, a set
      under none. */
  predicate CountsUnder(k: Keying, value: Stored, h: Hash32) {
    match value
    case Category(x) => x == h
    case Numeric(n) => k.salted(k.text(IntNum(n))) == h
    case Set(_) => false
  }

  ghost function Carriers(k: Keying, stored: map<string, Stored>, h: Hash32): set<string> {
    set n | n in stored && CountsUnder(k, stored[n], h)
  }

  lemma CarriersCounted(k: Keying, stored: map<string, Stored>, h: Hash32)
    ensures CountedUnder(k, Sorted(stored.Keys), stored, h) == Carriers(k, stored, h)
  {
  }

  /** An observation adds to each admitted value hash the number of its components that carry it, whatever
      their names, and nothing to a value refused at the cap: the table tells values apart, not
      components. */
  lemma ObservationCounts(env: Env, pol: Policy, f: F.Freq, stored: map<string, Stored>, h: Hash32)
    ensures FrequencyAfter(env, pol, f, stored).Count(h) == f.Count(h) +
      if F.Admitted(f, pol.maxFrequency, ScalarHashes(env.keying, Sorted(stored.Keys), stored), h)
      then |Carriers(env.keying, stored, h)| else 0
  {
    var names := Sorted(stored.Keys);
    F.CappedCounts(f, pol.maxFrequency, ScalarHashes(env.keying, names, stored), h);
    HashCounts(env.keying, names, stored, h);
    CarriersCounted(env.keying, stored, h);
  }

  // ---- What a match teaches ----

  /** Whether `name` is compared, and agrees. */
  function AgreementOf(k: Keying, f: F.Freq, name: string, probe: map<string, Stored>,
                       template: map<string, Stored>): Option<bool>
  {
    if name !in probe || name !in template then None
    else
      var c := Compare(k, f, probe[name], template[name]);
      if c.None? then None else Some(c.value.0 >= TAU)
  }

  lemma {:induction false} AgreementMembers(k: Keying, f: F.Freq, names: seq<string>, probe: map<string, Stored>,
                                            template: map<string, Stored>)
    requires NoDup(names) && forall x :: x in names ==> x in probe
    ensures var outcomes := Agreements(k, f, names, probe, template);
      && (forall name, b :: (name, b) in outcomes <==>
          name in names && AgreementOf(k, f, name, probe, template) == Some(b))
      && A.DistinctNames(outcomes)
  {
    if names != [] {
      var rest := Agreements(k, f, names[1..], probe, template);
      AgreementMembers(k, f, names[1..], probe, template);
      assert names[0] !in names[1..];
      assert forall i :: 0 <= i < |rest| ==> (rest[i].0, rest[i].1) in rest;
    }
  }

  /** What the agreement count of a component becomes. */
  function Taught(before: (nat, nat), outcome: Option<bool>): (nat, nat) {
    match outcome
    case None => before
    case Some(agreed) => (before.0 + (if agreed then 1 else 0), before.1 + 1)
  }

  /** What a match of `probe` with `template` makes of the count of a component: taught if it is tracked
      already or there is room for it after the components compared before it. */
  ghost function TaughtBy(k: Keying, f: F.Freq, a: A.Agree, cap: Option<nat>, probe: map<string, Stored>,
                          template: map<string, Stored>, name: string): (nat, nat)
  {
    var compared := A.Names(Agreements(k, f, Sorted(probe.Keys), probe, template));
    if A.Admitted(a, cap, compared, name) then Taught(a.Stats(name), AgreementOf(k, f, name, probe, template))
    else a.Stats(name)
  }

  lemma OutcomesTeach(k: Keying, f: F.Freq, a: A.Agree, cap: Option<nat>, probe: map<string, Stored>,
                      template: map<string, Stored>, name: string)
    ensures A.RecordedAll(a, cap, Agreements(k, f, Sorted(probe.Keys), probe, template)).Stats(name) ==
            TaughtBy(k, f, a, cap, probe, template, name)
  {
    var names := Sorted(probe.Keys);
    AgreementMembers(k, f, names, probe, template);
    A.CappedStats(a, cap, Agreements(k, f, names, probe, template), name);
  }

  /** Under any cap, a confirmed match adds to each admitted component compared one comparison, and one
      agreement exactly if its similarity clears the threshold, and changes nothing else. */
  lemma MatchTeaches(env: Env, pol: Policy, s: Store, v: string, probe: map<string, Stored>, name: string)
    requires v in s.lib.records
    ensures Learned(env, pol, s, v, probe).agree.Stats(name) ==
            TaughtBy(env.keying, s.freq, s.agree, pol.maxAgreement, probe, s.lib.records[v].components, name)
    ensures Learned(env, pol, s, v, probe).(agree := s.agree) == s
  {
    OutcomesTeach(env.keying, s.freq, s.agree, pol.maxAgreement, probe, s.lib.records[v].components, name);
  }

  /** Of all steps only a match teaches, against the template as it stood before the observation drifts
      it; a review, a new device, a bare scoring, an erasure and a purge teach nothing. */
  lemma OnlyMatchesTeach(env: Env, pol: Policy, s: Store, l: Label, name: string)
    requires Enabled(env, pol, s, l)
    ensures var matched := l.Identify? && VerdictOf(env, s, l).decision == Match;
      && (matched ==> VerdictOf(env, s, l).visitorId in s.lib.records)
      && Next(env, pol, s, l).agree.Stats(name) ==
        if !matched then s.agree.Stats(name)
        else TaughtBy(env.keying, s.freq, s.agree, pol.maxAgreement, StoredOf(env, l),
                      s.lib.records[VerdictOf(env, s, l).visitorId].components, name)
  {
    if l.Identify? && VerdictOf(env, s, l).decision == Match {
      VerdictNamesLiveRecord(env, s, l.probe, l.order);
      MatchTeaches(env, pol, s, VerdictOf(env, s, l).visitorId, StoredOf(env, l), name);
    }
  }

  /** Only a step that touches a template counts its values; erasing or purging a visitor takes nothing
      back. */
  lemma OnlyObservationsCount(env: Env, pol: Policy, s: Store, l: Label)
    ensures Next(env, pol, s, l).freq ==
      if Touched(env, s, l).Some? then FrequencyAfter(env, pol, s.freq, StoredOf(env, l)) else s.freq
  {
    if l.Identify? {
      AfterVerdictParts(env, pol, s, VerdictOf(env, s, l), StoredOf(env, l), l.now, l.ip, l.ja4, l.keep);
    }
  }
}
