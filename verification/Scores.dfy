// What a candidate's score is made of (crates/fp-core/src/fuzzy/engine.rs, `score_candidate`) in every
// reachable store, in terms of the stored values alone, and what learning does to the scores that follow.
module Scores {
  import opened Basics
  import opened Component
  import opened Scoring
  import opened Ranking
  import opened Engine
  import opened Verdicts
  import Estimators
  import Templates
  import F = Frequency
  import A = Agreement

  // ---- Sums over sets of names ----

  ghost function Total(names: set<string>, w: string -> real): real {
    if names == {} then 0.0
    else
      var n := Least(names);
      w(n) + Total(names - {n}, w)
  }

  lemma {:induction false} TotalWithout(names: set<string>, w: string -> real, n: string)
    requires n in names
    ensures Total(names, w) == w(n) + Total(names - {n}, w)
  {
    var x := Least(names);
    if x != n {
      TotalWithout(names - {x}, w, n);
      TotalWithout(names - {n}, w, x);
      assert names - {x} - {n} == names - {n} - {x};
    }
  }

  lemma {:induction false} TotalCongruence(names: set<string>, w: string -> real, x: string -> real)
    requires forall n :: n in names ==> w(n) == x(n)
    ensures Total(names, w) == Total(names, x)
  {
    if names != {} {
      TotalCongruence(names - {Least(names)}, w, x);
    }
  }

  lemma {:induction false} TotalDifference(names: set<string>, w: string -> real, x: string -> real, d: string -> real)
    requires forall n :: n in names ==> d(n) == w(n) - x(n)
    ensures Total(names, d) == Total(names, w) - Total(names, x)
  {
    if names != {} {
      TotalDifference(names - {Least(names)}, w, x, d);
    }
  }

  lemma {:induction false} TotalSign(names: set<string>, w: string -> real)
    requires forall n :: n in names ==> w(n) >= 0.0
    ensures Total(names, w) >= 0.0
    ensures (exists n :: n in names && w(n) > 0.0) ==> Total(names, w) > 0.0
  {
    if names != {} {
      TotalSign(names - {Least(names)}, w);
    }
  }

  /** The running sum of a walk over distinct names is the total over those that weigh. */
  lemma {:induction false} SumIsTotal(names: seq<string>, weigh: string -> Option<real>, weighed: set<string>,
                                      w: string -> real)
    requires NoDup(names) && weighed == Weighed(names, weigh)
    requires forall n :: n in weighed ==> weigh(n).Some? && w(n) == weigh(n).value
    ensures SumOver(names, weigh).0 == Total(weighed, w)
  {
    if names != [] {
      var front, last := names[..|names| - 1], names[|names| - 1];
      SplitLast(names);
      var before := Weighed(front, weigh);
      assert last !in front;
      SumIsTotal(front, weigh, before, w);
      if weigh(last).Some? {
        assert weighed == before + {last} && weighed - {last} == before;
        TotalWithout(weighed, w, last);
      } else {
        assert weighed == before;
      }
    }
  }

  // ---- One component ----

  /** How common the value of a component is: of a category by its hash, of a number by the hash of its decimal
      text, of a set not known. */
  function Rarity(k: Keying, f: F.Freq, value: Stored): real {
    match value
    case Category(h) => UEstimate(f, h)
    case Numeric(n) => UEstimate(f, k.salted(k.text(IntNum(n))))
    case Set(_) => 0.05
  }

  /** How far two values agree: scalars wholly or not at all; sets wholly from half of their union on, below that
      by the part of it they share. */
  function Similarity(x: Stored, y: Stored): real {
    match (x, y)
    case (Set(a), Set(b)) => if 2 * |a * b| >= |a + b| then 1.0 else |a * b| as real / |a + b| as real
    case _ => if x == y then 1.0 else 0.0
  }

  /** The evidence of a component that agrees: how much likelier on the same device than on another. */
  function Agreeing(an: Analytic, m: real, u: real): real
    requires u > 0.0
  {
    an.log2(m / u)
  }

  /** The evidence of one that does not. */
  function Disagreeing(an: Analytic, m: real, u: real): real
    requires u < 1.0
  {
    an.log2((1.0 - m) / (1.0 - u))
  }

  /** What a component adds, by how far it agrees. */
  function Evidence(an: Analytic, m: real, u: real, sim: real): real
    requires 0.0 < u < 1.0
  {
    if sim == 1.0 then Agreeing(an, m, u)
    else if sim == 0.0 then Disagreeing(an, m, u)
    else sim * Agreeing(an, m, u) + (1.0 - sim) * Disagreeing(an, m, u)
  }

  lemma RarityRange(k: Keying, f: F.Freq, value: Stored)
    ensures 0.0 < Rarity(k, f, value) < 1.0
  {
  }

  function Rate(a: A.Agree, name: string): real {
    MEstimate(a, name, Classify(name).stability.MPrior())
  }

  /** What one common component adds to the score. */
  function Contribution(k: Keying, an: Analytic, f: F.Freq, a: A.Agree, name: string, x: Stored, y: Stored): real {
    RarityRange(k, f, x);
    Evidence(an, Rate(a, name), Rarity(k, f, x), Similarity(x, y))
  }

  lemma JaccardIsShare(a: set<Hash32>, b: set<Hash32>)
    ensures Jaccard(a, b) >= 0.5 <==> 2 * |a * b| >= |a + b|
    ensures 2 * |a * b| < |a + b| ==> Jaccard(a, b) == |a * b| as real / |a + b| as real
  {
    UnionSize(a, b);
    if a == {} && b == {} {
      assert a + b == {} && |a + b| == 0;
    } else {
      var common, all := |a * b| as real, |a + b| as real;
      assert all > 0.0 && Jaccard(a, b) == common / all;
      Estimators.QuotientBelow(common, all, 0.5);
    }
  }

  lemma ComparisonMeans(k: Keying, f: F.Freq, x: Stored, y: Stored)
    requires Compare(k, f, x, y).Some?
    ensures Compare(k, f, x, y) == Some((Similarity(x, y), Rarity(k, f, x)))
  {
    if x.Set? && y.Set? { JaccardIsShare(x.items, y.items); }
  }

  lemma EvidenceIsWeight(an: Analytic, m: real, u: real, sim: real)
    requires 0.0 < u < 1.0
    ensures Weight(an, m, u, sim) == Evidence(an, m, u, sim)
  {
  }

  lemma WeighsContribution(k: Keying, an: Analytic, f: F.Freq, a: A.Agree, probe: map<string, Stored>,
                           template: map<string, Stored>, name: string)
    requires WellTyped(probe) && WellTyped(template) && name in probe
    ensures var w := Weigher(k, an, f, a, probe, template)(name);
      w == if name in template then Some(Contribution(k, an, f, a, name, probe[name], template[name])) else None
  {
    if name in template {
      SameKindCompares(k, f, name, probe, template);
      ComparisonMeans(k, f, probe[name], template[name]);
      RarityRange(k, f, probe[name]);
      EvidenceIsWeight(an, Rate(a, name), Rarity(k, f, probe[name]), Similarity(probe[name], template[name]));
    }
  }

  // ---- The score ----

  /** What each common component adds; nothing from the others. */
  function Contributions(k: Keying, an: Analytic, f: F.Freq, a: A.Agree, probe: map<string, Stored>,
                         template: map<string, Stored>): string -> real
  {
    n => if n in probe && n in template then Contribution(k, an, f, a, n, probe[n], template[n]) else 0.0
  }

  lemma ScoreIsTotal(k: Keying, an: Analytic, f: F.Freq, a: A.Agree, probe: map<string, Stored>,
                     template: map<string, Stored>)
    requires WellTyped(probe) && WellTyped(template)
    ensures ScoreCandidate(k, an, f, a, probe, template) ==
      (Total(probe.Keys * template.Keys, Contributions(k, an, f, a, probe, template)), |probe.Keys * template.Keys|)
  {
    var names, weigh, common := Sorted(probe.Keys), Weigher(k, an, f, a, probe, template), probe.Keys * template.Keys;
    ComparedAreCommon(k, an, f, a, probe, template);
    forall n | n in names
      ensures weigh(n) == if n in template then Some(Contributions(k, an, f, a, probe, template)(n)) else None
    {
      WeighsContribution(k, an, f, a, probe, template, n);
    }
    assert Weighed(names, weigh) == common;
    SumIsTotal(names, weigh, common, Contributions(k, an, f, a, probe, template));
  }

  /** The score of a live visitor: the total over what its template has in common with the probe. */
  ghost function SummedScore(env: Env, s: Store, probe: map<string, Stored>, id: string): Scored
    requires id in s.lib.records
  {
    var template := s.lib.records[id].components;
    var common := probe.Keys * template.Keys;
    Scored(id, Fin(Total(common, Contributions(env.keying, env.analytic, s.freq, s.agree, probe, template))), |common|)
  }

  lemma CandidateSummed(env: Env, s: Store, probe: map<string, Stored>, id: string)
    requires WellTyped(probe) && TypedTemplates(s.lib.records) && id in s.lib.records
    ensures ScoreId(env, s, probe, id) == SummedScore(env, s, probe, id)
  {
    ScoreIsTotal(env.keying, env.analytic, s.freq, s.agree, probe, s.lib.records[id].components);
  }

  /** In every reachable store the score of a candidate is the sum, over the components it has in common with the
      probe, of the evidence of each: by whether the stored scalars are equal, or how much the sets share. */
  lemma ScoreOfCandidate(env: Env, pol: Policy, ls: seq<Label>, probe: Json, v: string)
    requires v in Run(env, pol, ls).lib.records
    ensures var s, stored := Run(env, pol, ls), StoredMap(env.keying, probe);
      ScoreId(env, s, stored, v) == SummedScore(env, s, stored, v)
  {
    ReachableTyped(env, pol, ls);
    StoredMapWellTyped(env.keying, probe);
    CandidateSummed(env, Run(env, pol, ls), StoredMap(env.keying, probe), v);
  }

  lemma SameValueAgrees(x: Stored)
    ensures Similarity(x, x) == 1.0
  {
    if x.Set? { assert x.items * x.items == x.items && x.items + x.items == x.items; }
  }

  /** A probe equal to the template agrees in every component. */
  lemma IdenticalScore(env: Env, pol: Policy, ls: seq<Label>, probe: Json, v: string)
    requires v in Run(env, pol, ls).lib.records
    requires Run(env, pol, ls).lib.records[v].components == StoredMap(env.keying, probe)
    ensures var s, stored := Run(env, pol, ls), StoredMap(env.keying, probe);
      ScoreId(env, s, stored, v) == Scored(v, Fin(Total(stored.Keys, FullEvidence(env, s, stored))), |stored|)
  {
    var s, stored := Run(env, pol, ls), StoredMap(env.keying, probe);
    ScoreOfCandidate(env, pol, ls, probe, v);
    assert stored.Keys * stored.Keys == stored.Keys;
    SizeOf(stored);
    forall n | n in stored ensures Similarity(stored[n], stored[n]) == 1.0 {
      SameValueAgrees(stored[n]);
    }
    TotalCongruence(stored.Keys, Contributions(env.keying, env.analytic, s.freq, s.agree, stored, stored),
                    FullEvidence(env, s, stored));
  }

  /** The evidence of each component of a probe that agrees throughout. */
  function FullEvidence(env: Env, s: Store, stored: map<string, Stored>): string -> real {
    n =>
      if n in stored then
        RarityRange(env.keying, s.freq, stored[n]);
        Agreeing(env.analytic, Rate(s.agree, n), Rarity(env.keying, s.freq, stored[n]))
      else 0.0
  }

  // ---- What a match teaches, from the stored values ----

  /** Whether two values agree: equal scalars, or sets that share at least half of their union. */
  predicate Agrees(x: Stored, y: Stored) {
    match (x, y)
    case (Set(a), Set(b)) => 2 * |a * b| >= |a + b|
    case _ => x == y
  }

  lemma AgreementMeans(k: Keying, f: F.Freq, name: string, probe: map<string, Stored>, template: map<string, Stored>)
    requires WellTyped(probe) && WellTyped(template)
    ensures AgreementOf(k, f, name, probe, template) ==
      if name in probe && name in template then Some(Agrees(probe[name], template[name])) else None
  {
    if name in probe && name in template {
      SameKindCompares(k, f, name, probe, template);
      var x, y := probe[name], template[name];
      if x.Set? && y.Set? { JaccardIsShare(x.items, y.items); }
    }
  }

  /** The common names that come before `name`. */
  ghost function Ahead(common: set<string>, name: string): set<string> {
    set x | x in common && x != name && LexLe(x, name)
  }

  /** The agreement table takes `name` in: it is tracked, or there is room for it after those ahead of it. */
  ghost predicate TakesIn(a: A.Agree, cap: Option<nat>, common: set<string>, name: string) {
    name in a.stats || cap.None? || |a.stats.Keys + Ahead(common, name)| < cap.value
  }

  lemma AheadOfLeast(common: set<string>, least: string, name: string)
    requires least in common && name in common && (forall y :: y in common ==> LexLe(least, y))
    ensures name == least ==> Ahead(common, name) == {}
    ensures name != least ==> Ahead(common, name) == {least} + Ahead(common - {least}, name)
  {
    forall x | x in common && LexLe(x, least) ensures x == least {
      LexAntisymmetric(x, least);
    }
  }

  lemma NamesOfHead(k: Keying, f: F.Freq, head: string, rest: seq<string>, probe: map<string, Stored>,
                    template: map<string, Stored>)
    requires WellTyped(probe) && WellTyped(template) && head in probe && forall x :: x in rest ==> x in probe
    ensures A.Names(Agreements(k, f, [head] + rest, probe, template)) ==
      (if head in template then [head] else []) + A.Names(Agreements(k, f, rest, probe, template))
  {
    assert ([head] + rest)[1..] == rest;
    if head in template { SameKindCompares(k, f, head, probe, template); }
  }

  lemma PrefixStep(names: seq<string>, x: string, tail: seq<string>, name: string)
    requires names == [x] + tail && x != name && name in tail
    ensures name in names && Elems(names[..FirstAt(names, name)]) == {x} + Elems(tail[..FirstAt(tail, name)])
  {
    assert names[0] == x && names[1..] == tail && names[1 + FirstAt(tail, name)] == name;
    BeforeFirst(names, name);
  }

  lemma PrefixOfHead(names: seq<string>, tail: seq<string>, name: string)
    requires names == [name] + tail
    ensures name in names && Elems(names[..FirstAt(names, name)]) == {}
  {
    assert names[0] == name;
  }

  /** The names compared before `name` are those ahead of it. */
  lemma {:induction false} ComparedAhead(k: Keying, f: F.Freq, keys: set<string>, probe: map<string, Stored>,
                                         template: map<string, Stored>, name: string, names: seq<string>)
    requires WellTyped(probe) && WellTyped(template) && keys <= probe.Keys && name in keys && name in template
    requires names == A.Names(Agreements(k, f, Sorted(keys), probe, template))
    ensures name in names && Elems(names[..FirstAt(names, name)]) == Ahead(keys * template.Keys, name)
  {
    var x := Least(keys);
    var tail := A.Names(Agreements(k, f, Sorted(keys - {x}), probe, template));
    NamesOfHead(k, f, x, Sorted(keys - {x}), probe, template);
    WithoutHead(keys, template.Keys, x);
    if x in template { AheadOfLeast(keys * template.Keys, x, name); }
    if x == name {
      PrefixOfHead(names, tail, name);
    } else {
      ComparedAhead(k, f, keys - {x}, probe, template, name, tail);
      if x in template { PrefixStep(names, x, tail, name); }
    }
  }

  lemma WithoutHead(keys: set<string>, others: set<string>, x: string)
    ensures (keys - {x}) * others == keys * others - {x}
    ensures x !in others ==> (keys - {x}) * others == keys * others
  {
  }

  /** What a comparison of one component makes of its count. */
  function CountAfter(before: (nat, nat), agrees: bool): (nat, nat) {
    (before.0 + (if agrees then 1 else 0), before.1 + 1)
  }

  ghost predicate Teaches(a: A.Agree, cap: Option<nat>, probe: map<string, Stored>, template: map<string, Stored>,
                          name: string)
  {
    name in probe && name in template && TakesIn(a, cap, probe.Keys * template.Keys, name)
  }

  lemma AdmittedIsTakenIn(a: A.Agree, cap: Option<nat>, names: seq<string>, common: set<string>, name: string)
    requires Elems(names[..FirstAt(names, name)]) == Ahead(common, name)
    ensures A.Admitted(a, cap, names, name) <==> TakesIn(a, cap, common, name)
  {
  }

  lemma AdmittedByValues(k: Keying, f: F.Freq, a: A.Agree, cap: Option<nat>, probe: map<string, Stored>,
                         template: map<string, Stored>, name: string)
    requires WellTyped(probe) && WellTyped(template) && name in probe && name in template
    ensures A.Admitted(a, cap, A.Names(Agreements(k, f, Sorted(probe.Keys), probe, template)), name) <==>
      TakesIn(a, cap, probe.Keys * template.Keys, name)
  {
    var names := A.Names(Agreements(k, f, Sorted(probe.Keys), probe, template));
    ComparedAhead(k, f, probe.Keys, probe, template, name, names);
    AdmittedIsTakenIn(a, cap, names, probe.Keys * template.Keys, name);
  }

  lemma TaughtAsCompared(k: Keying, f: F.Freq, a: A.Agree, cap: Option<nat>, probe: map<string, Stored>,
                         template: map<string, Stored>, name: string, taken: bool)
    requires A.Admitted(a, cap, A.Names(Agreements(k, f, Sorted(probe.Keys), probe, template)), name) == taken
    ensures TaughtBy(k, f, a, cap, probe, template, name) ==
      if taken then Taught(a.Stats(name), AgreementOf(k, f, name, probe, template)) else a.Stats(name)
  {
  }

  lemma TaughtCommon(k: Keying, f: F.Freq, a: A.Agree, cap: Option<nat>, probe: map<string, Stored>,
                     template: map<string, Stored>, name: string)
    requires WellTyped(probe) && WellTyped(template) && name in probe && name in template
    ensures TaughtBy(k, f, a, cap, probe, template, name) ==
      if Teaches(a, cap, probe, template, name) then CountAfter(a.Stats(name), Agrees(probe[name], template[name]))
      else a.Stats(name)
  {
    AgreementMeans(k, f, name, probe, template);
    AdmittedByValues(k, f, a, cap, probe, template, name);
    TaughtAsCompared(k, f, a, cap, probe, template, name, TakesIn(a, cap, probe.Keys * template.Keys, name));
  }

  lemma TaughtByValues(k: Keying, f: F.Freq, a: A.Agree, cap: Option<nat>, probe: map<string, Stored>,
                       template: map<string, Stored>, name: string)
    requires WellTyped(probe) && WellTyped(template)
    ensures TaughtBy(k, f, a, cap, probe, template, name) ==
      if Teaches(a, cap, probe, template, name) then CountAfter(a.Stats(name), Agrees(probe[name], template[name]))
      else a.Stats(name)
  {
    if name in probe && name in template {
      TaughtCommon(k, f, a, cap, probe, template, name);
    } else {
      assert AgreementOf(k, f, name, probe, template) == None;
      TaughtAsCompared(k, f, a, cap, probe, template, name,
                       A.Admitted(a, cap, A.Names(Agreements(k, f, Sorted(probe.Keys), probe, template)), name));
    }
  }

  /** In every reachable store a match adds, to each component it has in common with the template and the table
      takes in, one comparison, and one agreement exactly if the stored values agree; to the others nothing. */
  lemma MatchTeachesAgreement(env: Env, pol: Policy, ls: seq<Label>, v: string, probe: Json, name: string)
    requires v in Run(env, pol, ls).lib.records
    ensures var s, stored := Run(env, pol, ls), StoredMap(env.keying, probe);
      var template := s.lib.records[v].components;
      Learned(env, pol, s, v, stored).agree.Stats(name) ==
        if Teaches(s.agree, pol.maxAgreement, stored, template, name)
        then CountAfter(s.agree.Stats(name), Agrees(stored[name], template[name]))
        else s.agree.Stats(name)
  {
    var s, stored := Run(env, pol, ls), StoredMap(env.keying, probe);
    ReachableTyped(env, pol, ls);
    StoredMapWellTyped(env.keying, probe);
    MatchTeaches(env, pol, s, v, stored, name);
    TaughtByValues(env.keying, s.freq, s.agree, pol.maxAgreement, stored, s.lib.records[v].components, name);
  }

  // ---- What learning does to later scores ----

  lemma LogRises(an: Analytic, m: real, m': real, u: real)
    requires an.Lawful() && 0.0 < m < m' < 1.0 && 0.0 < u < 1.0
    ensures Agreeing(an, m, u) < Agreeing(an, m', u)
    ensures Disagreeing(an, m', u) < Disagreeing(an, m, u)
  {
    Estimators.DivLess(m, u, m', u);
    Estimators.DivLess(1.0 - m', 1.0 - u, 1.0 - m, 1.0 - u);
    Estimators.PositiveQuotient(m, u);
    Estimators.PositiveQuotient(1.0 - m', 1.0 - u);
  }

  /** The rate after one more outcome. */
  predicate MovedBy(m: real, m': real, agrees: bool) {
    if agrees then m <= m' && (m < m' <==> m < 0.9999 && 0.0001 < m')
    else m' <= m && (m' < m <==> m' < 0.9999 && 0.0001 < m)
  }

  lemma RateMoves(a: A.Agree, b: A.Agree, name: string, agrees: bool)
    requires a.Valid(None)
    requires b.Stats(name) == CountAfter(a.Stats(name), agrees)
    ensures MovedBy(Rate(a, name), Rate(b, name), agrees)
  {
    var prior := Classify(name).stability.MPrior();
    Estimators.ReliabilityMoves(a, None, name, prior, name + "x", agrees);
    assert A.Recorded(a, None, name, agrees).Stats(name) == b.Stats(name);
  }

  lemma RateRange(a: A.Agree, name: string)
    ensures 0.0 < Rate(a, name) < 1.0
  {
  }

  /** A rate that rises makes agreement count for more and disagreement against it; one that falls, for less. */
  lemma EvidenceMoves(k: Keying, an: Analytic, f: F.Freq, a: A.Agree, b: A.Agree, name: string, x: Stored, y: Stored)
    requires an.Lawful()
    ensures var c, c', m, m' := Contribution(k, an, f, a, name, x, y), Contribution(k, an, f, b, name, x, y),
                               Rate(a, name), Rate(b, name);
      && (m == m' ==> c == c')
      && (Similarity(x, y) == 1.0 ==> (c < c' <==> m < m') && (c > c' <==> m > m'))
      && (Similarity(x, y) == 0.0 ==> (c < c' <==> m > m') && (c > c' <==> m < m'))
  {
    RarityRange(k, f, x);
    RateRange(a, name);
    RateRange(b, name);
    var m, m', u := Rate(a, name), Rate(b, name), Rarity(k, f, x);
    if m < m' { LogRises(an, m, m', u); }
    if m' < m { LogRises(an, m', m, u); }
  }

  /** What one more outcome, if any, does to the evidence of a component. */
  ghost predicate EvidenceTaught(k: Keying, an: Analytic, f: F.Freq, a: A.Agree, b: A.Agree, name: string,
                                 taught: Option<bool>, x: Stored, y: Stored)
  {
    var c, c' := Contribution(k, an, f, a, name, x, y), Contribution(k, an, f, b, name, x, y);
    var m, m' := Rate(a, name), Rate(b, name);
    if taught.None? then c' == c && m' == m
    else
      && MovedBy(m, m', taught.value)
      && (Similarity(x, y) == 1.0 ==> (c < c' <==> m < m') && (c > c' <==> m > m'))
      && (Similarity(x, y) == 0.0 ==> (c < c' <==> m > m') && (c > c' <==> m < m'))
  }

  lemma TableShift(k: Keying, an: Analytic, f: F.Freq, a: A.Agree, b: A.Agree, name: string, taught: Option<bool>,
                   x: Stored, y: Stored)
    requires an.Lawful() && a.Valid(None)
    requires b.Stats(name) == if taught.Some? then CountAfter(a.Stats(name), taught.value) else a.Stats(name)
    ensures EvidenceTaught(k, an, f, a, b, name, taught, x, y)
  {
    EvidenceMoves(k, an, f, a, b, name, x, y);
    if taught.Some? { RateMoves(a, b, name, taught.value); }
  }

  ghost function TaughtOf(a: A.Agree, cap: Option<nat>, probe: map<string, Stored>, template: map<string, Stored>,
                          name: string): Option<bool>
  {
    if Teaches(a, cap, probe, template, name) then Some(Agrees(probe[name], template[name])) else None
  }

  /** What a match with `v` does to the evidence of one component of any next probe against any candidate: nothing
      unless it taught the component; after an agreement, agreeing counts for no less and disagreeing against it no
      less; after a disagreement, for no more; strictly between the bounds of the rate. */
  lemma LearningShift(env: Env, pol: Policy, ls: seq<Label>, v: string, probe: Json, name: string, x: Stored, y: Stored)
    requires env.analytic.Lawful() && v in Run(env, pol, ls).lib.records
    ensures var s, stored := Run(env, pol, ls), StoredMap(env.keying, probe);
      var taught := TaughtOf(s.agree, pol.maxAgreement, stored, s.lib.records[v].components, name);
      EvidenceTaught(env.keying, env.analytic, s.freq, s.agree, Learned(env, pol, s, v, stored).agree, name, taught,
                     x, y)
  {
    var s, stored := Run(env, pol, ls), StoredMap(env.keying, probe);
    MatchTeachesAgreement(env, pol, ls, v, probe, name);
    Templates.ReachableTables(env, pol, ls);
    TableShift(env.keying, env.analytic, s.freq, s.agree, Learned(env, pol, s, v, stored).agree, name,
               TaughtOf(s.agree, pol.maxAgreement, stored, s.lib.records[v].components, name), x, y);
  }

  /** How much more a component adds under one agreement table than under another. */
  function Shift(k: Keying, an: Analytic, f: F.Freq, a: A.Agree, b: A.Agree, probe: map<string, Stored>,
                 template: map<string, Stored>): string -> real
  {
    n => Contributions(k, an, f, b, probe, template)(n) - Contributions(k, an, f, a, probe, template)(n)
  }

  /** The score of any candidate for the next probe moves by exactly the sum of those shifts. */
  lemma ScoreAfterLearning(env: Env, pol: Policy, ls: seq<Label>, v: string, probe: Json, next: Json, id: string)
    requires v in Run(env, pol, ls).lib.records && id in Run(env, pol, ls).lib.records
    ensures var s, q := Run(env, pol, ls), StoredMap(env.keying, next);
      var t, template := Learned(env, pol, s, v, StoredMap(env.keying, probe)), s.lib.records[id].components;
      var before, after := ScoreId(env, s, q, id), ScoreId(env, t, q, id);
      && before.score.Fin? && after.score.Fin? && before.compared == after.compared
      && after.score.r - before.score.r ==
           Total(q.Keys * template.Keys, Shift(env.keying, env.analytic, s.freq, s.agree, t.agree, q, template))
  {
    var s, q := Run(env, pol, ls), StoredMap(env.keying, next);
    var t, template := Learned(env, pol, s, v, StoredMap(env.keying, probe)), s.lib.records[id].components;
    ReachableTyped(env, pol, ls);
    StoredMapWellTyped(env.keying, next);
    MatchTeaches(env, pol, s, v, StoredMap(env.keying, probe), "");
    ScoreIsTotal(env.keying, env.analytic, s.freq, s.agree, q, template);
    ScoreIsTotal(env.keying, env.analytic, s.freq, t.agree, q, template);
    TotalDifference(q.Keys * template.Keys, Contributions(env.keying, env.analytic, s.freq, t.agree, q, template),
                    Contributions(env.keying, env.analytic, s.freq, s.agree, q, template),
                    Shift(env.keying, env.analytic, s.freq, s.agree, t.agree, q, template));
  }

  /** A match that taught no disagreement among what the next probe shares with a candidate, and agrees in, never
      lowers that candidate's score, and raises it if one of these rates rises. */
  lemma LearningHelps(env: Env, pol: Policy, ls: seq<Label>, v: string, probe: Json, next: Json, id: string)
    requires env.analytic.Lawful() && v in Run(env, pol, ls).lib.records && id in Run(env, pol, ls).lib.records
    requires AgreesThroughout(StoredMap(env.keying, next), Run(env, pol, ls).lib.records[id].components)
    requires TaughtOnlyAgreement(StoredMap(env.keying, probe), Run(env, pol, ls).lib.records[v].components,
                                 StoredMap(env.keying, next))
    ensures var s, q := Run(env, pol, ls), StoredMap(env.keying, next);
      var t, template := Learned(env, pol, s, v, StoredMap(env.keying, probe)), s.lib.records[id].components;
      var before, after := ScoreId(env, s, q, id).score, ScoreId(env, t, q, id).score;
      && before.Fin? && after.Fin? && before.r <= after.r
      && ((exists n :: n in q && n in template && Rate(s.agree, n) < Rate(t.agree, n)) ==> before.r < after.r)
  {
    var s, q, m := Run(env, pol, ls), StoredMap(env.keying, next), StoredMap(env.keying, probe);
    var template, b := s.lib.records[id].components, Learned(env, pol, s, v, m).agree;
    ScoreAfterLearning(env, pol, ls, v, probe, next, id);
    forall n | n in q && n in template
      ensures EvidenceTaught(env.keying, env.analytic, s.freq, s.agree, b, n,
                             TaughtOf(s.agree, pol.maxAgreement, m, s.lib.records[v].components, n), q[n], template[n])
    {
      LearningShift(env, pol, ls, v, probe, n, q[n], template[n]);
    }
    ShiftsAreGains(env.keying, env.analytic, s.freq, s.agree, b, pol.maxAgreement, m, s.lib.records[v].components, q,
                   template);
  }

  lemma ShiftIsGain(k: Keying, an: Analytic, f: F.Freq, a: A.Agree, b: A.Agree, cap: Option<nat>,
                    probe: map<string, Stored>, matched: map<string, Stored>, q: map<string, Stored>,
                    template: map<string, Stored>, n: string)
    requires AgreesThroughout(q, template) && TaughtOnlyAgreement(probe, matched, q) && n in q && n in template
    requires EvidenceTaught(k, an, f, a, b, n, TaughtOf(a, cap, probe, matched, n), q[n], template[n])
    ensures var shift := Shift(k, an, f, a, b, q, template)(n);
      shift >= 0.0 && (Rate(a, n) < Rate(b, n) ==> shift > 0.0)
  {
    var c, c' := Contribution(k, an, f, a, n, q[n], template[n]), Contribution(k, an, f, b, n, q[n], template[n]);
    assert Contributions(k, an, f, a, q, template)(n) == c && Contributions(k, an, f, b, q, template)(n) == c';
    assert Similarity(q[n], template[n]) == 1.0;
    assert TaughtOf(a, cap, probe, matched, n) in {None, Some(true)};
    assert Shift(k, an, f, a, b, q, template)(n) == c' - c;
  }

  lemma ShiftsAreGains(k: Keying, an: Analytic, f: F.Freq, a: A.Agree, b: A.Agree, cap: Option<nat>,
                       probe: map<string, Stored>, matched: map<string, Stored>, q: map<string, Stored>,
                       template: map<string, Stored>)
    requires AgreesThroughout(q, template) && TaughtOnlyAgreement(probe, matched, q)
    requires forall n :: n in q && n in template ==>
      EvidenceTaught(k, an, f, a, b, n, TaughtOf(a, cap, probe, matched, n), q[n], template[n])
    ensures var gain := Total(q.Keys * template.Keys, Shift(k, an, f, a, b, q, template));
      gain >= 0.0 && ((exists n :: n in q && n in template && Rate(a, n) < Rate(b, n)) ==> gain > 0.0)
  {
    var shift := Shift(k, an, f, a, b, q, template);
    forall n | n in q && n in template ensures shift(n) >= 0.0 && (Rate(a, n) < Rate(b, n) ==> shift(n) > 0.0) {
      ShiftIsGain(k, an, f, a, b, cap, probe, matched, q, template, n);
    }
    TotalSign(q.Keys * template.Keys, shift);
    if n :| n in q && n in template && Rate(a, n) < Rate(b, n) {
      assert n in q.Keys * template.Keys && shift(n) > 0.0;
    }
  }

  ghost predicate AgreesThroughout(x: map<string, Stored>, y: map<string, Stored>) {
    forall n :: n in x && n in y ==> Similarity(x[n], y[n]) == 1.0
  }

  ghost predicate TaughtOnlyAgreement(probe: map<string, Stored>, template: map<string, Stored>,
                                      next: map<string, Stored>)
  {
    forall n :: n in probe && n in template && n in next ==> Agrees(probe[n], template[n])
  }
}
