// The aggregate store (crates/fp-core/src/fuzzy/mod.rs, engine.rs): the five backends wired
// together, each method taking exactly the step the state machine of `Engine` takes.
module FuzzyStores {
  import opened Basics
  import opened Component
  import opened Scoring
  import opened Ranking
  import opened Engine
  import opened Verdicts
  import BlockingKeys
  import Scores
  import MinHash
  import R = Records
  import B = Blocking
  import F = Frequency
  import A = Agreement
  import V = Velocity

  class FuzzyStore {
    const env: Env
    const policy: Policy
    const lsh: MinHash.MinHashLsh
    const records: R.RecordStore
    const blocking: B.BlockingIndex
    const frequency: F.FrequencyTable
    const agreement: A.AgreementTable
    const velocity: V.VelocityTable

    ghost predicate Wired() {
      && lsh.coefficients == env.family.bands
      && records.bounds == policy.bounds && blocking.maxBlock == policy.maxBlock
      && frequency.maxValues == policy.maxFrequency && agreement.maxComponents == policy.maxAgreement
      && velocity.maxKeys == policy.maxVelocity
    }

    ghost function View(): Store
      reads records, blocking, frequency, agreement, velocity
    {
      Store(records.View(), blocking.View(), frequency.View(), agreement.View(), velocity.View())
    }

    constructor (e: Env, p: Policy)
      ensures Wired() && View() == EMPTY && env == e && policy == p
      ensures fresh(records) && fresh(blocking) && fresh(frequency) && fresh(agreement) && fresh(velocity)
    {
      env, policy := e, p;
      lsh := new MinHash.MinHashLsh(e.family.bands);
      records := new R.RecordStore(p.bounds);
      blocking := new B.BlockingIndex(p.maxBlock);
      frequency := new F.FrequencyTable(p.maxFrequency);
      agreement := new A.AgreementTable(p.maxAgreement);
      velocity := new V.VelocityTable(p.maxVelocity);
    }

    /** Convert a raw observation, dropping missing and mismatched entries. */
    method ToStoredMap(components: Json) returns (stored: map<string, Stored>)
      ensures stored == StoredMap(env.keying, components)
      ensures forall name :: name in stored <==>
        components.Obj? && name in components.entries && Suits(name, components.entries[name])
      ensures forall name :: name in stored ==> StoredAs(env.keying, name, components.entries[name], stored[name])
    {
      var entries := Entries(components);
      var todo := entries.Keys;
      stored := map[];
      while todo != {}
        invariant todo <= entries.Keys
        invariant stored == StoredEntries(env.keying, entries - todo)
        decreases todo
      {
        var name := Least(todo);
        StoredEntriesStep(env.keying, entries, todo, name);
        var value := ToStored(env.keying, name, entries[name]);
        if value.Some? {
          stored := stored[name := value.value];
        }
        todo := todo - {name};
      }
      assert entries - {} == entries;
      StoredMapsMean(env.keying, components);
    }

    method RecordSightings(stored: map<string, Stored>)
      requires Wired()
      modifies frequency
      ensures frequency.View() == FrequencyAfter(env, policy, old(frequency.View()), stored)
    {
      var names := Sorted(stored.Keys);
      var i := 0;
      while i < |names|
        invariant 0 <= i <= |names|
        invariant F.RecordedAll(frequency.View(), policy.maxFrequency, ScalarHashes(env.keying, names[i..], stored))
               == FrequencyAfter(env, policy, old(frequency.View()), stored)
      {
        assert names[i..][1..] == names[i + 1..];
        SightingStep(env.keying, frequency.View(), policy.maxFrequency, names[i..], stored);
        var h := FrequencyHash(env.keying, stored[names[i]]);
        if h.Some? {
          frequency.Record(h.value);
        }
        i := i + 1;
      }
    }

    method IndexUnder(keys: seq<Hash32>, visitor: string)
      requires Wired()
      modifies blocking
      ensures blocking.View() == B.InsertedAll(old(blocking.View()), policy.maxBlock, keys, visitor)
    {
      for i := 0 to |keys|
        invariant blocking.View() == B.InsertedAll(old(blocking.View()), policy.maxBlock, keys[..i], visitor)
      {
        blocking.Add(keys[i], visitor);
        assert keys[..i + 1][..i] == keys[..i];
      }
      assert keys[..|keys|] == keys;
    }

    /** Fold an observation into every index. */
    method Observe(visitor: string, components: Json, now: nat) returns (isNew: bool, ghost keep: set<string>)
      requires Wired()
      modifies records, blocking, frequency
      ensures old(View()).lib.ValidKeep(policy.bounds, visitor, StoredMap(env.keying, components), now, keep)
      ensures View() == Observed(env, policy, old(View()), visitor, StoredMap(env.keying, components), now, keep)
      ensures isNew <==> visitor !in old(View()).lib.records
    {
      var stored := ToStoredMap(components);
      RecordSightings(stored);
      var keys := BlockingKeys.ComputeKeys(env.keying, env.family.groups, lsh, stored);
      IndexUnder(keys, visitor);
      isNew, keep := records.ObserveVisitor(visitor, stored, now);
    }

    /** Sum the weights of the components present on both sides, in name order. */
    static method SumWeights(names: seq<string>, weigh: string -> Option<real>) returns (score: real, compared: nat)
      ensures (score, compared) == SumOver(names, weigh)
    {
      score, compared := 0.0, 0;
      for i := 0 to |names|
        invariant (score, compared) == SumOver(names[..i], weigh)
      {
        var w := weigh(names[i]);
        if w.Some? {
          score, compared := score + w.value, compared + 1;
        }
        assert names[..i + 1][..i] == names[..i];
      }
      assert names[..|names|] == names;
    }

    method ScoreTemplate(probe: map<string, Stored>, template: map<string, Stored>) returns (score: real, compared: nat)
      ensures (score, compared) ==
        ScoreCandidate(env.keying, env.analytic, frequency.View(), agreement.View(), probe, template)
    {
      score, compared := SumWeights(Sorted(probe.Keys),
        Weigher(env.keying, env.analytic, frequency.View(), agreement.View(), probe, template));
    }

    /** Score every recalled candidate, in whatever order the set is walked. */
    method ScoreCandidates(probe: map<string, Stored>, candidates: set<string>)
      returns (scored: seq<Scored>, ghost order: seq<string>)
      ensures Enumerates(order, candidates)
      ensures scored == ScoredIn(Scorer(env, View(), probe), order)
      ensures DistinctIds(scored)
      ensures forall x: Scored :: x in scored <==> x.id in candidates && x == ScoreId(env, View(), probe, x.id)
      ensures WellTyped(probe) && TypedTemplates(View().lib.records) ==>
        forall id :: id in candidates && id in View().lib.records ==>
          Scores.SummedScore(env, View(), probe, id) in scored
    {
      var todo := candidates;
      scored, order := [], [];
      while todo != {}
        invariant todo <= candidates && Enumerates(order, candidates - todo)
        invariant scored == ScoredIn(Scorer(env, View(), probe), order)
        decreases todo
      {
        var id :| id in todo;
        var entry := Scored(id, NegInf, 0);
        if id in records.records {
          var score, compared := ScoreTemplate(probe, records.records[id].components);
          entry := Scored(id, Fin(score), compared);
        }
        assert entry == Scorer(env, View(), probe)(id);
        EnumerateOneMore(order, candidates - todo, id);
        assert candidates - (todo - {id}) == candidates - todo + {id};
        scored, order, todo := scored + [entry], order + [id], todo - {id};
      }
      assert candidates - {} == candidates;
      ScoredMembers(env, View(), probe, order, candidates);
      if WellTyped(probe) && TypedTemplates(View().lib.records) {
        forall id | id in candidates && id in View().lib.records
          ensures ScoreId(env, View(), probe, id) == Scores.SummedScore(env, View(), probe, id)
        {
          Scores.CandidateSummed(env, View(), probe, id);
        }
      }
    }

    /** Recall, score, sort, decide; nothing changes. */
    method EvaluateProbe(components: Json) returns (outcome: Outcome, ghost order: seq<string>)
      requires Wired()
      ensures Enumerates(order, Recall(env, View(), StoredMap(env.keying, components)))
      ensures outcome == Evaluate(env, View(), components, order)
    {
      var probe := ToStoredMap(components);
      var keys := BlockingKeys.ComputeKeys(env.keying, env.family.groups, lsh, probe);
      var candidates := blocking.Recall(keys);
      var scored;
      scored, order := ScoreCandidates(probe, candidates);
      var sorted := SortDesc(scored);
      var best := if |sorted| > 0 then Some(sorted[0]) else None;
      var second := if |sorted| > 1 then Some(sorted[1].score) else None;
      outcome := VerdictFrom(env, best, second, components);
    }

    /** Count each outcome, in order. */
    method RecordOutcomes(names: seq<string>, probe: map<string, Stored>, template: map<string, Stored>)
      requires Wired() && forall x :: x in names ==> x in probe
      modifies agreement
      ensures agreement.View() == A.RecordedAll(old(agreement.View()), policy.maxAgreement,
        Agreements(env.keying, frequency.View(), names, probe, template))
    {
      var i := 0;
      ghost var all := Agreements(env.keying, frequency.View(), names, probe, template);
      while i < |names|
        invariant 0 <= i <= |names|
        invariant A.RecordedAll(agreement.View(), policy.maxAgreement,
                                Agreements(env.keying, frequency.View(), names[i..], probe, template))
               == A.RecordedAll(old(agreement.View()), policy.maxAgreement, all)
      {
        assert names[i..][1..] == names[i + 1..];
        AgreementStep(env.keying, frequency.View(), agreement.View(), policy.maxAgreement, names[i..], probe, template);
        if names[i] in template {
          var c := Compare(env.keying, frequency.View(), probe[names[i]], template[names[i]]);
          if c.Some? {
            agreement.Record(names[i], c.value.0 >= TAU);
          }
        }
        i := i + 1;
      }
    }

    /** Learn from a confirmed match, against the template as it stood. */
    method RecordAgreement(visitor: string, components: Json)
      requires Wired()
      modifies agreement
      ensures View() == Learned(env, policy, old(View()), visitor, StoredMap(env.keying, components))
    {
      if visitor !in records.records {
        return;
      }
      var probe := ToStoredMap(components);
      RecordOutcomes(Sorted(probe.Keys), probe, records.records[visitor].components);
    }

    /** Record a new-device event and count the window. */
    method Bump(key: string, now: nat) returns (n: nat)
      requires Wired()
      modifies velocity
      ensures velocity.View() == Bumped(policy, old(velocity.View()), Some(key), now)
      ensures n == BumpCount(policy, old(velocity.View()), Some(key), now)
    {
      velocity.RecordEvent(key, now);
      n := velocity.CountEvents(key, now, V.WINDOW);
    }

    /** The cross-session signals of a freshly minted device. */
    method ApplyVelocity(o: Outcome, now: nat, ip: Option<string>, ja4: Option<string>) returns (outcome: Outcome)
      requires Wired() && o.velocity == V.BandLow && o.velocityJa4 == V.BandLow
      modifies velocity
      ensures outcome == WithVelocity(policy, old(velocity.View()), o, ip, ja4, now / 1000)
      ensures velocity.View() ==
        Bumped(policy, Bumped(policy, old(velocity.View()), ip, now / 1000), Ja4Key(ja4), now / 1000)
    {
      outcome := o;
      if ip.Some? {
        var n := Bump(ip.value, now / 1000);
        var band := V.ClassifyWith(n, V.MEDIUM, V.HIGH);
        outcome := outcome.(velocity := band);
        if band == V.BandHigh {
          outcome := outcome.(confidence := Penalised(outcome.confidence));
        }
      }
      if ja4.Some? {
        var n := Bump("ja4:" + ja4.value, now / 1000);
        outcome := outcome.(velocityJa4 := V.ClassifyWith(n, V.JA4_MEDIUM, V.JA4_HIGH));
      }
    }

    /** Learn from the match, then drift the winning template. */
    method FoldMatch(visitor: string, components: Json, now: nat) returns (ghost keep: set<string>)
      requires Wired()
      modifies records, blocking, frequency, agreement
      ensures old(View()).lib.ValidKeep(policy.bounds, visitor, StoredMap(env.keying, components), now, keep)
      ensures View() == Observed(env, policy,
                                 Learned(env, policy, old(View()), visitor, StoredMap(env.keying, components)),
                                 visitor, StoredMap(env.keying, components), now, keep)
    {
      RecordAgreement(visitor, components);
      var isNew;
      isNew, keep := Observe(visitor, components, now);
    }

    /** Act on a verdict. */
    method Persist(o: Outcome, components: Json, now: nat, ip: Option<string>, ja4: Option<string>)
      returns (outcome: Outcome, ghost keep: set<string>)
      requires Wired() && o.velocity == V.BandLow && o.velocityJa4 == V.BandLow
      modifies records, blocking, frequency, agreement, velocity
      ensures o.decision != Review ==>
        old(View()).lib.ValidKeep(policy.bounds, o.visitorId, StoredMap(env.keying, components), now, keep)
      ensures View() == AfterVerdict(env, policy, old(View()), o, StoredMap(env.keying, components), now, ip, ja4, keep)
      ensures outcome ==
        if o.decision == NewDevice then WithVelocity(policy, old(View()).vel, o, ip, ja4, now / 1000) else o
    {
      outcome, keep := o, {};
      match o.decision {
        case Match =>
          keep := FoldMatch(o.visitorId, components, now);
        case NewDevice =>
          var isNew;
          isNew, keep := Observe(o.visitorId, components, now);
          outcome := ApplyVelocity(o, now, ip, ja4);
        case Review =>
      }
    }

    /** Evaluate, then fold the observation in per the verdict. */
    method IdentifyWithSignals(components: Json, now: nat, ip: Option<string>, ja4: Option<string>)
      returns (outcome: Outcome, ghost l: Label)
      requires Wired()
      modifies records, blocking, frequency, agreement, velocity
      ensures l.Identify? && l == Identify(components, now, ip, ja4, l.order, l.keep)
      ensures Enabled(env, policy, old(View()), l)
      ensures View() == Next(env, policy, old(View()), l)
      ensures outcome == OutcomeOf(env, policy, old(View()), l)
    {
      ghost var order, keep;
      var verdict;
      verdict, order := EvaluateProbe(components);
      outcome, keep := Persist(verdict, components, now, ip, ja4);
      l := Identify(components, now, ip, ja4, order, keep);
      assert VerdictOf(env, old(View()), l) == verdict;
    }

    /** The verdict alone. */
    method ScoreProbe(components: Json) returns (outcome: Outcome, ghost l: Label)
      requires Wired()
      ensures l.ScoreOnly? && l.probe == components && Enabled(env, policy, View(), l)
      ensures ReplyOf(env, policy, View(), l) == Answer(outcome)
      ensures Judged(env, View(), components, outcome)
    {
      ghost var order;
      outcome, order := EvaluateProbe(components);
      EvaluateIsJudged(env, View(), components, order);
      l := ScoreOnly(components, order);
    }

    /** Erase a visitor from the library and from every block. */
    method EraseVisitor(visitor: string) returns (existed: bool)
      requires Wired()
      modifies records, blocking
      ensures View() == Next(env, policy, old(View()), Erase(visitor))
      ensures ReplyOf(env, policy, old(View()), Erase(visitor)) == Existed(existed)
    {
      existed := records.RemoveRecord(visitor);
      blocking.RemoveVisitor(visitor);
    }

    /** Purge old records, leaving their index entries behind. */
    method PurgeExpired(now: nat, age: nat) returns (purged: nat)
      requires Wired()
      modifies records
      ensures View() == Next(env, policy, old(View()), Purge(now, age))
      ensures ReplyOf(env, policy, old(View()), Purge(now, age)) == PurgedCount(purged)
    {
      purged := records.PurgeOlderThan(now, age);
    }
  }

  lemma StoredEntriesStep(k: Keying, entries: map<string, Json>, todo: set<string>, name: string)
    requires name in todo && todo <= entries.Keys
    ensures var v, before := ToStored(k, name, entries[name]), StoredEntries(k, entries - todo);
      StoredEntries(k, entries - (todo - {name})) == if v.Some? then before[name := v.value] else before
  {
    assert entries - (todo - {name}) == (entries - todo)[name := entries[name]];
  }

  lemma SightingStep(k: Keying, f: F.Freq, cap: Option<nat>, names: seq<string>, stored: map<string, Stored>)
    requires names != [] && forall x :: x in names ==> x in stored
    ensures var h := FrequencyHash(k, stored[names[0]]);
      F.RecordedAll(f, cap, ScalarHashes(k, names, stored)) ==
      F.RecordedAll(if h.Some? then F.Recorded(f, cap, h.value) else f, cap, ScalarHashes(k, names[1..], stored))
  {
    var h, rest := FrequencyHash(k, stored[names[0]]), ScalarHashes(k, names[1..], stored);
    if h.Some? {
      assert ([h.value] + rest)[1..] == rest;
    } else {
      assert ScalarHashes(k, names, stored) == rest;
    }
  }

  lemma AgreementStep(k: Keying, f: F.Freq, a: A.Agree, cap: Option<nat>, names: seq<string>,
                      probe: map<string, Stored>, template: map<string, Stored>)
    requires names != [] && forall x :: x in names ==> x in probe
    ensures var n := names[0];
      var c := if n in template then Compare(k, f, probe[n], template[n]) else None;
      A.RecordedAll(a, cap, Agreements(k, f, names, probe, template)) ==
      A.RecordedAll(if c.Some? then A.Recorded(a, cap, n, c.value.0 >= TAU) else a, cap,
                    Agreements(k, f, names[1..], probe, template))
  {
    var n, rest := names[0], Agreements(k, f, names[1..], probe, template);
    if n in template {
      var c := Compare(k, f, probe[n], template[n]);
      if c.Some? {
        assert ([(n, c.value.0 >= TAU)] + rest)[1..] == rest;
      }
    }
  }

  lemma ScoredMembers(env: Env, s: Store, probe: map<string, Stored>, order: seq<string>, ids: set<string>)
    requires Enumerates(order, ids)
    ensures DistinctIds(ScoredIn(Scorer(env, s, probe), order))
    ensures forall x: Scored :: x in ScoredIn(Scorer(env, s, probe), order) <==>
      x.id in ids && x == ScoreId(env, s, probe, x.id)
  {
    ScorerLabels(env, s, probe);
    ScoredInMembers(Scorer(env, s, probe), order);
    forall x: Scored ensures x.id in order <==> x.id in ids {
      assert x.id in order <==> x.id in Elems(order);
    }
  }

  lemma EnumerateOneMore(order: seq<string>, ids: set<string>, id: string)
    requires Enumerates(order, ids) && id !in ids
    ensures Enumerates(order + [id], ids + {id})
  {
    assert forall x :: x in order ==> x in Elems(order);
    assert Elems(order + [id]) == Elems(order) + {id};
  }
}
