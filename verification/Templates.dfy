// What a template consists of, over whole runs (crates/fp-core/src/fuzzy/engine.rs,
// `identify_with_signals`; record.rs, `observe`): the last-writer-wins fold of the observations
// resolved to the visitor since its record was created, and of nothing else.
module Templates {
  import opened Basics
  import opened Component
  import opened Scoring
  import opened Engine
  import BlockingKeys
  import R = Records
  import F = Frequency
  import A = Agreement

  datatype Obs = Obs(stored: map<string, Stored>, now: nat)

  /** The observations resolved to `v` since its current record was created; none while it has no
      record. */
  ghost function History(env: Env, pol: Policy, ls: seq<Label>, v: string): seq<Obs> {
    if ls == [] || v !in Run(env, pol, ls).lib.records then []
    else
      var front, last := ls[..|ls| - 1], ls[|ls| - 1];
      History(env, pol, front, v)
      + if Touched(env, Run(env, pol, front), last) == Some(v) then [Obs(StoredOf(env, last), last.now)] else []
  }

  /** Observation `i` is the last of `h` to carry `name`. */
  ghost predicate LastWith(h: seq<Obs>, name: string, i: nat) {
    i < |h| && name in h[i].stored && forall j :: i < j < |h| ==> name !in h[j].stored
  }

  ghost predicate Carried(h: seq<Obs>, name: string) {
    exists i: nat :: LastWith(h, name, i)
  }

  /** The components are those carried by `h`, each with the value and time of the last observation
      carrying it. */
  ghost predicate Latest(components: map<string, Stored>, freshness: map<string, nat>, h: seq<Obs>) {
    && freshness.Keys == components.Keys
    && (forall name :: name in components ==> Carried(h, name))
    && (forall name, i: nat :: LastWith(h, name, i) ==>
          name in components && components[name] == h[i].stored[name] && freshness[name] == h[i].now)
  }

  /** A record that is the fold of `h`. */
  ghost predicate FoldOf(r: R.Record, h: seq<Obs>) {
    && h != [] && r.count == |h| && r.firstSeen == h[0].now && r.lastSeen == h[|h| - 1].now
    && Latest(r.components, r.freshness, h)
  }

  lemma CreatedIsFold(stored: map<string, Stored>, now: nat)
    ensures FoldOf(R.Created(stored, now), [Obs(stored, now)])
  {
    var h := [Obs(stored, now)];
    forall name | name in stored ensures Carried(h, name) {
      assert LastWith(h, name, 0);
    }
  }

  lemma LastWithSnoc(h: seq<Obs>, o: Obs, name: string, i: nat)
    ensures LastWith(h + [o], name, i) <==> if name in o.stored then i == |h| else LastWith(h, name, i)
  {
    var g := h + [o];
    assert g[|h|] == o && forall j :: 0 <= j < |h| ==> g[j] == h[j];
    if name !in o.stored && LastWith(h, name, i) {
      forall j | i < j < |g| ensures name !in g[j].stored {
      }
    }
  }

  lemma CarriedSnoc(h: seq<Obs>, o: Obs, name: string)
    requires name in o.stored || Carried(h, name)
    ensures Carried(h + [o], name)
  {
    if name in o.stored {
      LastWithSnoc(h, o, name, |h|);
    } else {
      var i: nat :| LastWith(h, name, i);
      LastWithSnoc(h, o, name, i);
    }
  }

  lemma LatestSnoc(components: map<string, Stored>, freshness: map<string, nat>, h: seq<Obs>, o: Obs)
    requires Latest(components, freshness, h)
    ensures Latest(components + o.stored, freshness + R.Stamp(o.stored.Keys, o.now), h + [o])
  {
    forall name | name in components + o.stored ensures Carried(h + [o], name) {
      CarriedSnoc(h, o, name);
    }
    forall name, i: nat | LastWith(h + [o], name, i)
      ensures name in components + o.stored && (components + o.stored)[name] == (h + [o])[i].stored[name]
        && (freshness + R.Stamp(o.stored.Keys, o.now))[name] == (h + [o])[i].now
    {
      LastWithSnoc(h, o, name, i);
    }
  }

  lemma FoldedIsFold(r: R.Record, h: seq<Obs>, stored: map<string, Stored>, now: nat)
    requires FoldOf(r, h)
    ensures FoldOf(R.Folded(r, stored, now), h + [Obs(stored, now)])
  {
    LatestSnoc(r.components, r.freshness, h, Obs(stored, now));
  }

  /** A step leaves every record it does not touch as it was, or removes it. */
  lemma UntouchedUnchanged(env: Env, pol: Policy, s: Store, l: Label, v: string)
    requires Enabled(env, pol, s, l) && Touched(env, s, l) != Some(v)
    requires v in Next(env, pol, s, l).lib.records
    ensures v in s.lib.records && Next(env, pol, s, l).lib.records[v] == s.lib.records[v]
  {
    if Touched(env, s, l).Some? {
      R.ObservedBounds(s.lib, pol.bounds, Touched(env, s, l).value, StoredOf(env, l), l.now, l.keep);
    }
  }

  /** A step folds its observation into the record it touches, creating it if there is none. */
  lemma TouchedFolds(env: Env, pol: Policy, s: Store, l: Label)
    requires Enabled(env, pol, s, l) && Touched(env, s, l).Some?
    ensures var v, t := Touched(env, s, l).value, Next(env, pol, s, l).lib.records;
      v in t && t[v] == if v in s.lib.records then R.Folded(s.lib.records[v], StoredOf(env, l), l.now)
                        else R.Created(StoredOf(env, l), l.now)
  {
    R.ObservedBounds(s.lib, pol.bounds, Touched(env, s, l).value, StoredOf(env, l), l.now, l.keep);
  }

  /** Over every run, each live template is exactly the fold of its history. */
  lemma {:induction false} TemplateIsFoldOfHistory(env: Env, pol: Policy, ls: seq<Label>, v: string)
    requires Feasible(env, pol, ls) && v in Run(env, pol, ls).lib.records
    ensures FoldOf(Run(env, pol, ls).lib.records[v], History(env, pol, ls, v))
  {
    var front, last := ls[..|ls| - 1], ls[|ls| - 1];
    var s := Run(env, pol, front);
    var h := History(env, pol, front, v);
    if v in s.lib.records {
      TemplateIsFoldOfHistory(env, pol, front, v);
    }
    if Touched(env, s, last) == Some(v) {
      TouchedFolds(env, pol, s, last);
      if v in s.lib.records {
        FoldedIsFold(s.lib.records[v], h, StoredOf(env, last), last.now);
      } else {
        assert h == [];
        CreatedIsFold(StoredOf(env, last), last.now);
        assert [] + [Obs(StoredOf(env, last), last.now)] == [Obs(StoredOf(env, last), last.now)];
      }
    } else {
      UntouchedUnchanged(env, pol, s, last, v);
      assert h + [] == h;
    }
  }

  // ---- Reviews and bare scorings leave no trace ----

  ghost predicate Silent(env: Env, s: Store, l: Label) {
    l.ScoreOnly? || (l.Identify? && VerdictOf(env, s, l).decision == Review)
  }

  ghost function Trim(env: Env, pol: Policy, ls: seq<Label>): seq<Label> {
    if ls == [] then []
    else
      var front, last := ls[..|ls| - 1], ls[|ls| - 1];
      Trim(env, pol, front) + if Silent(env, Run(env, pol, front), last) then [] else [last]
  }

  /** The replies to the steps that are not silent. */
  ghost function LoudReplies(env: Env, pol: Policy, ls: seq<Label>): seq<Reply> {
    if ls == [] then []
    else
      var front, last := ls[..|ls| - 1], ls[|ls| - 1];
      LoudReplies(env, pol, front)
      + if Silent(env, Run(env, pol, front), last) then [] else [ReplyOf(env, pol, Run(env, pol, front), last)]
  }

  ghost function Replies(env: Env, pol: Policy, ls: seq<Label>): seq<Reply> {
    if ls == [] then []
    else
      Replies(env, pol, ls[..|ls| - 1]) + [ReplyOf(env, pol, Run(env, pol, ls[..|ls| - 1]), ls[|ls| - 1])]
  }

  /** Deleting every review and every bare scoring from a run leaves a possible run with the same
      final store and the same replies to everything that remains. */
  lemma {:induction false} SilentStepsLeaveNoTrace(env: Env, pol: Policy, ls: seq<Label>)
    requires Feasible(env, pol, ls)
    ensures Feasible(env, pol, Trim(env, pol, ls))
    ensures Run(env, pol, Trim(env, pol, ls)) == Run(env, pol, ls)
    ensures Replies(env, pol, Trim(env, pol, ls)) == LoudReplies(env, pol, ls)
  {
    if ls != [] {
      var front, last := ls[..|ls| - 1], ls[|ls| - 1];
      SilentStepsLeaveNoTrace(env, pol, front);
      var trimmed := Trim(env, pol, front);
      if Silent(env, Run(env, pol, front), last) {
        assert Trim(env, pol, ls) == trimmed;
      } else {
        assert (trimmed + [last])[..|trimmed|] == trimmed;
      }
    }
  }

  // ---- Ids minted again ----

  /** The probe whose observation created the current record of `v`. */
  ghost function CreatedBy(env: Env, pol: Policy, ls: seq<Label>, v: string): Option<Json> {
    if ls == [] || v !in Run(env, pol, ls).lib.records then None
    else
      var front, last := ls[..|ls| - 1], ls[|ls| - 1];
      if v in Run(env, pol, front).lib.records then CreatedBy(env, pol, front, v)
      else if last.Identify? then Some(last.probe) else None
  }

  /** Every live id is the one derived from the probe that created its record. */
  lemma {:induction false} LiveIdsAreDerived(env: Env, pol: Policy, ls: seq<Label>, v: string)
    requires Feasible(env, pol, ls) && v in Run(env, pol, ls).lib.records
    ensures CreatedBy(env, pol, ls, v).Some? && env.deriveId(CreatedBy(env, pol, ls, v).value) == v
  {
    var front, last := ls[..|ls| - 1], ls[|ls| - 1];
    var s := Run(env, pol, front);
    if v in s.lib.records {
      LiveIdsAreDerived(env, pol, front, v);
    } else {
      if Touched(env, s, last) != Some(v) {
        UntouchedUnchanged(env, pol, s, last, v);
      } else if VerdictOf(env, s, last).decision == Match {
        VerdictNamesLiveRecord(env, s, last.probe, last.order);
      }
    }
  }

  /** When a probe judged new mints an id that is already live, it is the very probe that created
      that record, and the observation is merged into it. */
  lemma RemintedOnlyByTheSameProbe(env: Env, pol: Policy, ls: seq<Label>, l: Label)
    requires Feasible(env, pol, ls) && l.Identify? && Enabled(env, pol, Run(env, pol, ls), l)
    requires VerdictOf(env, Run(env, pol, ls), l).decision == NewDevice
    requires VerdictOf(env, Run(env, pol, ls), l).visitorId in Run(env, pol, ls).lib.records
    requires var c := CreatedBy(env, pol, ls, env.deriveId(l.probe));
      c.Some? && env.deriveId(c.value) == env.deriveId(l.probe) ==> c.value == l.probe
    ensures var s, v := Run(env, pol, ls), env.deriveId(l.probe);
      && CreatedBy(env, pol, ls, v) == Some(l.probe)
      && v in Next(env, pol, s, l).lib.records
      && Next(env, pol, s, l).lib.records[v] == R.Folded(s.lib.records[v], StoredOf(env, l), l.now)
  {
    LiveIdsAreDerived(env, pol, ls, env.deriveId(l.probe));
    TouchedFolds(env, pol, Run(env, pol, ls), l);
  }

  /** The derived id tells the probes that created live records from this one. */
  ghost predicate DerivesApart(env: Env, pol: Policy, ls: seq<Label>, probe: Json) {
    forall v :: v in Run(env, pol, ls).lib.records ==>
      var c := CreatedBy(env, pol, ls, v);
      c.Some? && env.deriveId(c.value) == env.deriveId(probe) ==> c.value == probe
  }

  /** A new device's id is live already exactly when this very probe created a record that is still live. */
  lemma RemintsIffCreatedBySame(env: Env, pol: Policy, ls: seq<Label>, probe: Json)
    requires Feasible(env, pol, ls) && DerivesApart(env, pol, ls, probe)
    ensures env.deriveId(probe) in Run(env, pol, ls).lib.records <==>
      exists v :: v in Run(env, pol, ls).lib.records && CreatedBy(env, pol, ls, v) == Some(probe)
  {
    forall v | v in Run(env, pol, ls).lib.records
      ensures CreatedBy(env, pol, ls, v).Some? && env.deriveId(CreatedBy(env, pol, ls, v).value) == v
    {
      LiveIdsAreDerived(env, pol, ls, v);
    }
  }

  lemma EmptyProbeHasNoKeys(env: Env)
    requires env.family.groups == BlockingKeys.GROUPS
    ensures StoredMap(env.keying, Obj(map[])) == map[] && KeysOf(env, map[]) == []
  {
    BlockingKeys.AbsentMember(map[], BlockingKeys.GROUPS.k1, 0);
    BlockingKeys.AbsentMember(map[], BlockingKeys.GROUPS.k2, 0);
  }

  lemma EmptyProbeIsNew(env: Env, s: Store)
    requires env.family.groups == BlockingKeys.GROUPS
    ensures var probe := Obj(map[]);
      Recall(env, s, StoredMap(env.keying, probe)) == {} && Evaluate(env, s, probe, []).decision == NewDevice
      && Evaluate(env, s, probe, []).visitorId == env.deriveId(probe)
  {
    EmptyProbeHasNoKeys(env);
  }

  lemma AloneIsKept(lib: R.Lib, b: R.Bounds, v: string, stored: map<string, Stored>, now: nat)
    requires lib.records.Keys <= {v}
    ensures lib.ValidKeep(b, v, stored, now, {v})
  {
    assert lib.AfterTtl(b, v, stored, now).Keys == {v};
    R.SizeOne(lib.AfterTtl(b, v, stored, now), v);
  }

  /** The empty probe, with any network signals. */
  function EmptyProbe(env: Env, ip: Option<string>, ja4: Option<string>): Label {
    Identify(Obj(map[]), 0, ip, ja4, [], {env.deriveId(Obj(map[]))})
  }

  lemma EmptyProbeEnabled(env: Env, pol: Policy, s: Store, l: Label, v: string)
    requires env.family.groups == BlockingKeys.GROUPS && s.lib.records.Keys <= {v} && v == env.deriveId(Obj(map[]))
    requires l.Identify? && l.probe == Obj(map[]) && l.now == 0 && l.order == [] && l.keep == {v}
    ensures Enabled(env, pol, s, l) && VerdictOf(env, s, l).decision == NewDevice && VerdictOf(env, s, l).visitorId == v
  {
    EmptyProbeIsNew(env, s);
    AloneIsKept(s.lib, pol.bounds, v, StoredMap(env.keying, Obj(map[])), 0);
  }

  lemma EmptyProbeLeaves(env: Env, pol: Policy, s: Store, l: Label, v: string)
    requires l.Identify? && l.keep == {v} && Enabled(env, pol, s, l)
    requires VerdictOf(env, s, l).decision == NewDevice && VerdictOf(env, s, l).visitorId == v
    ensures Next(env, pol, s, l).lib.records.Keys == {v}
  {
    R.ObservedBounds(s.lib, pol.bounds, v, StoredOf(env, l), l.now, {v});
    AfterVerdictParts(env, pol, s, VerdictOf(env, s, l), StoredOf(env, l), l.now, l.ip, l.ja4, {v});
  }

  lemma EmptyProbeStep(env: Env, pol: Policy, s: Store, ip: Option<string>, ja4: Option<string>)
    requires env.family.groups == BlockingKeys.GROUPS && s.lib.records.Keys <= {env.deriveId(Obj(map[]))}
    ensures var v, l := env.deriveId(Obj(map[])), EmptyProbe(env, ip, ja4);
      && Enabled(env, pol, s, l) && VerdictOf(env, s, l).decision == NewDevice && VerdictOf(env, s, l).visitorId == v
      && Next(env, pol, s, l).lib.records.Keys == {v}
  {
    var v, l := env.deriveId(Obj(map[])), EmptyProbe(env, ip, ja4);
    EmptyProbeEnabled(env, pol, s, l, v);
    EmptyProbeLeaves(env, pol, s, l, v);
  }

  /** A new-device verdict on a live id happens: the empty probe has no keys, so the second one recalls
      nobody, is new again, and meets the record of the first. */
  lemma SecondEmptyProbeRemints(env: Env, pol: Policy, ip: Option<string>, ja4: Option<string>)
    requires env.family.groups == BlockingKeys.GROUPS
    ensures var v, l := env.deriveId(Obj(map[])), EmptyProbe(env, ip, ja4);
      && Feasible(env, pol, [l]) && Enabled(env, pol, Run(env, pol, [l]), l)
      && VerdictOf(env, EMPTY, l).decision == NewDevice && VerdictOf(env, EMPTY, l).visitorId == v
      && VerdictOf(env, Run(env, pol, [l]), l).decision == NewDevice
      && VerdictOf(env, Run(env, pol, [l]), l).visitorId == v && v in Run(env, pol, [l]).lib.records
  {
    var l := EmptyProbe(env, ip, ja4);
    EmptyProbeStep(env, pol, EMPTY, ip, ja4);
    RunSnoc(env, pol, [], l);
    assert [] + [l] == [l];
    EmptyProbeStep(env, pol, Run(env, pol, [l]), ip, ja4);
  }

  // ---- Learning material in every reachable store ----

  ghost predicate TablesValid(pol: Policy, s: Store) {
    s.freq.Valid(pol.maxFrequency) && s.agree.Valid(pol.maxAgreement)
  }

  lemma ObservedTables(env: Env, pol: Policy, s: Store, v: string, stored: map<string, Stored>, now: nat,
                       keep: set<string>)
    requires TablesValid(pol, s)
    ensures TablesValid(pol, Observed(env, pol, s, v, stored, now, keep))
  {
    F.RecordedAllValid(s.freq, pol.maxFrequency, ScalarHashes(env.keying, Sorted(stored.Keys), stored));
  }

  lemma LearnedTables(env: Env, pol: Policy, s: Store, v: string, probe: map<string, Stored>)
    requires TablesValid(pol, s)
    ensures TablesValid(pol, Learned(env, pol, s, v, probe))
  {
    if v in s.lib.records {
      A.RecordedAllValid(s.agree, pol.maxAgreement,
        Agreements(env.keying, s.freq, Sorted(probe.Keys), probe, s.lib.records[v].components));
    }
  }

  lemma AfterVerdictTables(env: Env, pol: Policy, s: Store, o: Outcome, stored: map<string, Stored>, now: nat,
                           ip: Option<string>, ja4: Option<string>, keep: set<string>)
    requires TablesValid(pol, s)
    ensures TablesValid(pol, AfterVerdict(env, pol, s, o, stored, now, ip, ja4, keep))
  {
    match o.decision
    case Match =>
      LearnedTables(env, pol, s, o.visitorId, stored);
      ObservedTables(env, pol, Learned(env, pol, s, o.visitorId, stored), o.visitorId, stored, now, keep);
    case NewDevice => ObservedTables(env, pol, s, o.visitorId, stored, now, keep);
    case Review =>
  }

  lemma StepTables(env: Env, pol: Policy, s: Store, l: Label)
    requires TablesValid(pol, s)
    ensures TablesValid(pol, Next(env, pol, s, l))
  {
    if l.Identify? {
      AfterVerdictTables(env, pol, s, VerdictOf(env, s, l), StoredOf(env, l), l.now, l.ip, l.ja4, l.keep);
    }
  }

  /** In every reachable store the frequency denominator is the sum of its counts and agreements
      never exceed comparisons, so the laws of the estimates apply. */
  lemma {:induction false} ReachableTables(env: Env, pol: Policy, ls: seq<Label>)
    ensures TablesValid(pol, Run(env, pol, ls))
  {
    if ls != [] {
      ReachableTables(env, pol, ls[..|ls| - 1]);
      StepTables(env, pol, Run(env, pol, ls[..|ls| - 1]), ls[|ls| - 1]);
    }
  }
}
