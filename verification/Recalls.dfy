// Who is recalled, over whole runs of the store (crates/fp-core/src/fuzzy/mod.rs, `observe`,
// `candidates`, `erase`): in terms of the observations and erasures of the run, and of the room there
// was in the blocks.
module Recalls {
  import opened Basics
  import opened Component
  import opened Canonical
  import opened Engine
  import opened BlockingKeys
  import MinHash
  import B = Blocking

  // ---- Filing ----

  /** The keys under which a step would file `v`; none if it does not touch it. */
  ghost function KeysFor(env: Env, s: Store, l: Label, v: string): seq<Hash32> {
    if Touched(env, s, l) == Some(v) then KeysOf(env, StoredOf(env, l)) else []
  }

  /** The step files `v` under `key`: the key has room for it. */
  ghost predicate Files(env: Env, pol: Policy, s: Store, l: Label, key: Hash32, v: string) {
    key in KeysFor(env, s, l, v) && B.Accepts(s.index, pol.maxBlock, key, v)
  }

  predicate NotErasedAfter(ls: seq<Label>, v: string, i: nat) {
    forall j :: i < j < |ls| ==> ls[j] != Erase(v)
  }

  /** Step `i` filed `v` under `key`, and no later step erased `v`. */
  ghost predicate StandsAt(env: Env, pol: Policy, ls: seq<Label>, key: Hash32, v: string, i: nat) {
    i < |ls| && Files(env, pol, Run(env, pol, ls[..i]), ls[i], key, v) && NotErasedAfter(ls, v, i)
  }

  ghost predicate Stands(env: Env, pol: Policy, ls: seq<Label>, key: Hash32, v: string) {
    exists i: nat :: StandsAt(env, pol, ls, key, v, i)
  }

  lemma NotErasedSnoc(front: seq<Label>, l: Label, v: string, i: nat)
    requires i < |front|
    ensures NotErasedAfter(front + [l], v, i) <==> NotErasedAfter(front, v, i) && l != Erase(v)
  {
    var ls := front + [l];
    assert ls[|front|] == l && forall j :: 0 <= j < |front| ==> ls[j] == front[j];
  }

  lemma StandsAtEarlier(env: Env, pol: Policy, front: seq<Label>, l: Label, key: Hash32, v: string, i: nat)
    requires i < |front|
    ensures StandsAt(env, pol, front + [l], key, v, i) <==> StandsAt(env, pol, front, key, v, i) && l != Erase(v)
  {
    assert (front + [l])[..i] == front[..i];
    NotErasedSnoc(front, l, v, i);
  }

  lemma StandsAtLast(env: Env, pol: Policy, front: seq<Label>, l: Label, key: Hash32, v: string)
    ensures StandsAt(env, pol, front + [l], key, v, |front|) <==> Files(env, pol, Run(env, pol, front), l, key, v)
  {
    assert (front + [l])[..|front|] == front;
  }

  /** What one more step does to standing. */
  lemma StandsSnoc(env: Env, pol: Policy, front: seq<Label>, l: Label, key: Hash32, v: string)
    ensures Stands(env, pol, front + [l], key, v) <==>
      Files(env, pol, Run(env, pol, front), l, key, v) || (Stands(env, pol, front, key, v) && l != Erase(v))
  {
    StandsAtLast(env, pol, front, l, key, v);
    if Stands(env, pol, front + [l], key, v) {
      var i: nat :| StandsAt(env, pol, front + [l], key, v, i);
      if i < |front| { StandsAtEarlier(env, pol, front, l, key, v, i); }
    }
    if Stands(env, pol, front, key, v) {
      var i: nat :| StandsAt(env, pol, front, key, v, i);
      StandsAtEarlier(env, pol, front, l, key, v, i);
    }
  }

  lemma IndexAfter(env: Env, pol: Policy, s: Store, l: Label)
    ensures Next(env, pol, s, l).index ==
      if Touched(env, s, l).Some?
      then B.InsertedAll(s.index, pol.maxBlock, KeysOf(env, StoredOf(env, l)), Touched(env, s, l).value)
      else if l.Erase? then B.Removed(s.index, l.visitor)
      else s.index
  {
  }

  /** One step: a pair is held afterwards exactly if it is filed now, or was held and is not erased. */
  lemma StepHolds(env: Env, pol: Policy, s: Store, l: Label, key: Hash32, v: string)
    ensures Next(env, pol, s, l).index.Holds(key, v) <==>
      Files(env, pol, s, l, key, v) || (s.index.Holds(key, v) && l != Erase(v))
  {
    IndexAfter(env, pol, s, l);
    if Touched(env, s, l).Some? {
      B.InsertedAllRelation(s.index, pol.maxBlock, KeysOf(env, StoredOf(env, l)), Touched(env, s, l).value);
    } else if l.Erase? {
      B.RemovedRelation(s.index, l.visitor);
    }
  }

  /** In every reachable store a pair is held exactly when it was filed, with room, and not erased since. */
  lemma {:induction false} HeldIffStands(env: Env, pol: Policy, ls: seq<Label>, key: Hash32, v: string)
    ensures Run(env, pol, ls).index.Holds(key, v) <==> Stands(env, pol, ls, key, v)
  {
    if ls != [] {
      var front, last := ls[..|ls| - 1], ls[|ls| - 1];
      HeldIffStands(env, pol, front, key, v);
      SplitLast(ls);
      StandsSnoc(env, pol, front, last, key, v);
      StepHolds(env, pol, Run(env, pol, front), last, key, v);
    }
  }

  // ---- Recall ----

  /** Some key of `keys` files `v` in a filing that stands. */
  ghost predicate FiledUnderOne(env: Env, pol: Policy, ls: seq<Label>, keys: seq<Hash32>, v: string) {
    exists key :: key in keys && Stands(env, pol, ls, key, v)
  }

  /** In every reachable store, whatever was dropped, a visitor is recalled by exactly the probes with a key
      under which it was filed, with room, since its last erasure. */
  lemma RecalledIffFiled(env: Env, pol: Policy, ls: seq<Label>, probe: map<string, Stored>, v: string)
    ensures v in Recall(env, Run(env, pol, ls), probe) <==> FiledUnderOne(env, pol, ls, KeysOf(env, probe), v)
  {
    B.CandidatesAreImage(Run(env, pol, ls).index, KeysOf(env, probe), v);
    forall key ensures Run(env, pol, ls).index.Holds(key, v) <==> Stands(env, pol, ls, key, v) {
      HeldIffStands(env, pol, ls, key, v);
    }
  }

  /** Step `i` resolved an observation to `v`, and no later step erased `v`. */
  ghost predicate ObservedAt(env: Env, pol: Policy, ls: seq<Label>, v: string, i: nat) {
    i < |ls| && Touched(env, Run(env, pol, ls[..i]), ls[i]) == Some(v) && NotErasedAfter(ls, v, i)
  }

  /** What step `i` observed. */
  ghost function Observation(env: Env, ls: seq<Label>, i: nat): map<string, Stored>
    requires i < |ls|
  {
    if ls[i].Identify? then StoredOf(env, ls[i]) else map[]
  }

  /** Some observation of `v` since its last erasure shares a key with the probe. */
  ghost predicate Shared(env: Env, pol: Policy, ls: seq<Label>, probe: map<string, Stored>, v: string) {
    exists i: nat :: ObservedAt(env, pol, ls, v, i) && Meet(KeysOf(env, Observation(env, ls, i)), KeysOf(env, probe))
  }

  /** Every key that the two have in common was full when `v` was observed. */
  ghost predicate Shut(env: Env, pol: Policy, s: Store, m: map<string, Stored>, probe: map<string, Stored>, v: string) {
    forall key :: key in KeysOf(env, m) && key in KeysOf(env, probe) ==> !B.Accepts(s.index, pol.maxBlock, key, v)
  }

  lemma StandsIsObserved(env: Env, pol: Policy, ls: seq<Label>, key: Hash32, v: string, i: nat)
    ensures StandsAt(env, pol, ls, key, v, i) <==>
      && ObservedAt(env, pol, ls, v, i) && key in KeysOf(env, Observation(env, ls, i))
      && B.Accepts(Run(env, pol, ls[..i]).index, pol.maxBlock, key, v)
  {
  }

  ghost predicate OpenAt(env: Env, pol: Policy, ls: seq<Label>, probe: map<string, Stored>, v: string, i: nat) {
    ObservedAt(env, pol, ls, v, i) && !Shut(env, pol, Run(env, pol, ls[..i]), Observation(env, ls, i), probe, v)
  }

  /** The same by observations: recalled exactly if some observation since the last erasure has a key in
      common with the probe that was not full. */
  lemma RecalledIffOpen(env: Env, pol: Policy, ls: seq<Label>, probe: map<string, Stored>, v: string)
    ensures v in Recall(env, Run(env, pol, ls), probe) <==> exists i: nat :: OpenAt(env, pol, ls, probe, v, i)
  {
    RecalledIffFiled(env, pol, ls, probe, v);
    if FiledUnderOne(env, pol, ls, KeysOf(env, probe), v) {
      var key :| key in KeysOf(env, probe) && Stands(env, pol, ls, key, v);
      var i: nat :| StandsAt(env, pol, ls, key, v, i);
      StandsIsObserved(env, pol, ls, key, v, i);
      assert OpenAt(env, pol, ls, probe, v, i);
    }
    forall i: nat | OpenAt(env, pol, ls, probe, v, i) ensures FiledUnderOne(env, pol, ls, KeysOf(env, probe), v) {
      var key :| key in KeysOf(env, Observation(env, ls, i)) && key in KeysOf(env, probe)
                 && B.Accepts(Run(env, pol, ls[..i]).index, pol.maxBlock, key, v);
      StandsIsObserved(env, pol, ls, key, v, i);
      assert Stands(env, pol, ls, key, v);
    }
  }

  lemma DropsGrow(env: Env, pol: Policy, s: Store, l: Label, v: string)
    ensures Next(env, pol, s, l).index.dropped >= s.index.dropped
    ensures Next(env, pol, s, l).index.dropped == s.index.dropped ==>
      forall key :: key in KeysFor(env, s, l, v) ==> B.Accepts(s.index, pol.maxBlock, key, v)
  {
    IndexAfter(env, pol, s, l);
    if Touched(env, s, l).Some? {
      var keys, u := KeysOf(env, StoredOf(env, l)), Touched(env, s, l).value;
      B.InsertedAllDrops(s.index, pol.maxBlock, keys, u);
      B.RefusalsNone(s.index, pol.maxBlock, keys, u);
    }
  }

  /** While nothing has been dropped, every key had room when it was filed. */
  lemma {:induction false} NeverFull(env: Env, pol: Policy, ls: seq<Label>, v: string, i: nat)
    requires i < |ls| && Run(env, pol, ls).index.dropped == 0
    ensures forall key :: key in KeysFor(env, Run(env, pol, ls[..i]), ls[i], v) ==>
      B.Accepts(Run(env, pol, ls[..i]).index, pol.maxBlock, key, v)
  {
    var front, last := ls[..|ls| - 1], ls[|ls| - 1];
    DropsGrow(env, pol, Run(env, pol, front), last, v);
    if i < |front| {
      NeverFull(env, pol, front, v, i);
      TakeOfFront(ls, i);
    }
  }

  lemma NeverShut(env: Env, pol: Policy, ls: seq<Label>, probe: map<string, Stored>, v: string, i: nat)
    requires Run(env, pol, ls).index.dropped == 0 && ObservedAt(env, pol, ls, v, i)
    requires Meet(KeysOf(env, Observation(env, ls, i)), KeysOf(env, probe))
    ensures OpenAt(env, pol, ls, probe, v, i)
  {
    NeverFull(env, pol, ls, v, i);
    var key :| key in KeysOf(env, Observation(env, ls, i)) && key in KeysOf(env, probe);
    assert key in KeysFor(env, Run(env, pol, ls[..i]), ls[i], v);
  }

  /** So a visitor is recalled only by probes that share a blocking key with some observation of it since its
      last erasure, and by every such probe while nothing was dropped. */
  lemma RecalledMeansShared(env: Env, pol: Policy, ls: seq<Label>, probe: map<string, Stored>, v: string)
    ensures var s := Run(env, pol, ls);
      && (v in Recall(env, s, probe) ==> Shared(env, pol, ls, probe, v))
      && (s.index.dropped == 0 && Shared(env, pol, ls, probe, v) ==> v in Recall(env, s, probe))
  {
    var s := Run(env, pol, ls);
    RecalledIffOpen(env, pol, ls, probe, v);
    if v in Recall(env, s, probe) {
      var i: nat :| OpenAt(env, pol, ls, probe, v, i);
      assert Meet(KeysOf(env, Observation(env, ls, i)), KeysOf(env, probe));
    }
    if s.index.dropped == 0 && Shared(env, pol, ls, probe, v) {
      var i: nat :| ObservedAt(env, pol, ls, v, i) && Meet(KeysOf(env, Observation(env, ls, i)), KeysOf(env, probe));
      NeverShut(env, pol, ls, probe, v, i);
    }
  }

  /** After an erasure a visitor is recalled by no probe until it is observed again. */
  lemma ErasedUntilObserved(env: Env, pol: Policy, ls: seq<Label>, e: nat, probe: map<string, Stored>, v: string)
    requires e < |ls| && ls[e] == Erase(v)
    requires forall i: nat :: e < i < |ls| ==> Touched(env, Run(env, pol, ls[..i]), ls[i]) != Some(v)
    ensures v !in Recall(env, Run(env, pol, ls), probe)
  {
    RecalledIffOpen(env, pol, ls, probe, v);
    forall i: nat ensures !OpenAt(env, pol, ls, probe, v, i) {
    }
  }

  // ---- In terms of the components ----

  /** Digests tell the key strings of the two apart where they differ. */
  ghost predicate DigestsApart(env: Env, m: map<string, Stored>, n: map<string, Stored>) {
    && EncodableMap(m) && EncodableMap(n)
    && CollisionFree(env.keying, Elems(KeyStrings(env.family, m)) + Elems(KeyStrings(env.family, n)))
  }

  /** And leading words their fonts. */
  ghost predicate ToldApart(env: Env, m: map<string, Stored>, n: map<string, Stored>) {
    DigestsApart(env, m, n) && MinHash.LeadingInjective(Fonts(m) + Fonts(n))
  }

  ghost predicate AllToldApart(env: Env, pol: Policy, ls: seq<Label>, probe: map<string, Stored>, v: string) {
    forall i: nat :: ObservedAt(env, pol, ls, v, i) ==> ToldApart(env, Observation(env, ls, i), probe)
  }

  /** Observation `i` of `v` has the identity of the probe: all scalars, a whole group or a font band. */
  ghost predicate AlikeAt(env: Env, pol: Policy, ls: seq<Label>, probe: map<string, Stored>, v: string, i: nat) {
    ObservedAt(env, pol, ls, v, i) && SameIdentity(env.family, Observation(env, ls, i), probe)
  }

  lemma AlikeIsMeeting(env: Env, m: map<string, Stored>, n: map<string, Stored>)
    requires MinHash.Odd(env.family.bands) && ToldApart(env, m, n)
    ensures Meet(KeysOf(env, m), KeysOf(env, n)) <==> SameIdentity(env.family, m, n)
  {
    SharedKeyMeaning(env.keying, env.family, m, n);
  }

  /** A visitor is recalled exactly when some observation of it since its last erasure has the identity of the
      probe and not every key that says so was full; while nothing was dropped the identity alone decides. */
  lemma RecalledIffAlike(env: Env, pol: Policy, ls: seq<Label>, probe: map<string, Stored>, v: string)
    requires MinHash.Odd(env.family.bands) && AllToldApart(env, pol, ls, probe, v)
    ensures v in Recall(env, Run(env, pol, ls), probe) <==>
      exists i: nat :: AlikeAt(env, pol, ls, probe, v, i) && OpenAt(env, pol, ls, probe, v, i)
    ensures Run(env, pol, ls).index.dropped == 0 ==>
      (v in Recall(env, Run(env, pol, ls), probe) <==> exists i: nat :: AlikeAt(env, pol, ls, probe, v, i))
  {
    RecalledIffOpen(env, pol, ls, probe, v);
    forall i: nat | ObservedAt(env, pol, ls, v, i)
      ensures Meet(KeysOf(env, Observation(env, ls, i)), KeysOf(env, probe)) <==> AlikeAt(env, pol, ls, probe, v, i)
    {
      AlikeIsMeeting(env, Observation(env, ls, i), probe);
    }
    if i: nat :| OpenAt(env, pol, ls, probe, v, i) {
      assert AlikeAt(env, pol, ls, probe, v, i);
    }
    if i: nat :| AlikeAt(env, pol, ls, probe, v, i) && Run(env, pol, ls).index.dropped == 0 {
      NeverShut(env, pol, ls, probe, v, i);
    }
  }

  /** A probe equal to the live template of `v` recalls it exactly then: what counts is the observations the
      template was made from, not the template. */
  lemma TemplateRecalledIffAlike(env: Env, pol: Policy, ls: seq<Label>, v: string)
    requires MinHash.Odd(env.family.bands) && v in Run(env, pol, ls).lib.records
    requires AllToldApart(env, pol, ls, Run(env, pol, ls).lib.records[v].components, v)
    ensures var s, template := Run(env, pol, ls), Run(env, pol, ls).lib.records[v].components;
      && (v in Recall(env, s, template) <==>
            exists i: nat :: AlikeAt(env, pol, ls, template, v, i) && OpenAt(env, pol, ls, template, v, i))
      && (s.index.dropped == 0 ==>
            (v in Recall(env, s, template) <==> exists i: nat :: AlikeAt(env, pol, ls, template, v, i)))
  {
    RecalledIffAlike(env, pol, ls, Run(env, pol, ls).lib.records[v].components, v);
  }

  /** Observation `i` of `v` has the scalars of the probe, and their key had room. */
  ghost predicate TwinAt(env: Env, pol: Policy, ls: seq<Label>, probe: map<string, Stored>, v: string, i: nat)
    requires Scalars(probe) != map[]
  {
    && ObservedAt(env, pol, ls, v, i) && Scalars(Observation(env, ls, i)) == Scalars(probe)
    && B.Accepts(Run(env, pol, ls[..i]).index, pol.maxBlock, ScalarKey(env.keying, probe), v)
  }

  lemma TwinStands(env: Env, pol: Policy, ls: seq<Label>, probe: map<string, Stored>, v: string, i: nat)
    requires Scalars(probe) != map[]
    requires ObservedAt(env, pol, ls, v, i) ==> DigestsApart(env, Observation(env, ls, i), probe)
    ensures StandsAt(env, pol, ls, ScalarKey(env.keying, probe), v, i) <==> TwinAt(env, pol, ls, probe, v, i)
  {
    StandsIsObserved(env, pol, ls, ScalarKey(env.keying, probe), v, i);
    if ObservedAt(env, pol, ls, v, i) {
      ScalarKeyMeaning(env.keying, env.family, Observation(env, ls, i), probe);
    }
  }

  lemma HeldIsRecalled(env: Env, s: Store, probe: map<string, Stored>, v: string)
    requires Scalars(probe) != map[] && s.index.Holds(ScalarKey(env.keying, probe), v)
    ensures v in Recall(env, s, probe)
  {
    ScalarKeyOwn(env.keying, env.family, probe);
    B.CandidatesAreImage(s.index, KeysOf(env, probe), v);
  }

  ghost predicate Twinned(env: Env, pol: Policy, ls: seq<Label>, probe: map<string, Stored>, v: string)
    requires Scalars(probe) != map[]
  {
    exists i: nat :: TwinAt(env, pol, ls, probe, v, i)
  }

  lemma TwinnedStands(env: Env, pol: Policy, ls: seq<Label>, probe: map<string, Stored>, v: string, key: Hash32)
    requires Scalars(probe) != map[] && key == ScalarKey(env.keying, probe)
    requires forall i: nat :: ObservedAt(env, pol, ls, v, i) ==> DigestsApart(env, Observation(env, ls, i), probe)
    ensures Stands(env, pol, ls, key, v) <==> Twinned(env, pol, ls, probe, v)
  {
    forall i: nat ensures StandsAt(env, pol, ls, key, v, i) <==> TwinAt(env, pol, ls, probe, v, i) {
      TwinStands(env, pol, ls, probe, v, i);
    }
  }

  /** Probes with the same scalars recall each other through the catch-all key exactly if there are any scalars
      and the key had room when one of them was observed. */
  lemma ScalarTwins(env: Env, pol: Policy, ls: seq<Label>, probe: map<string, Stored>, v: string)
    requires Scalars(probe) != map[]
    requires forall i: nat :: ObservedAt(env, pol, ls, v, i) ==> DigestsApart(env, Observation(env, ls, i), probe)
    ensures var s := Run(env, pol, ls);
      && (s.index.Holds(ScalarKey(env.keying, probe), v) <==> Twinned(env, pol, ls, probe, v))
      && (Twinned(env, pol, ls, probe, v) ==> v in Recall(env, s, probe))
  {
    HeldIffStands(env, pol, ls, ScalarKey(env.keying, probe), v);
    TwinnedStands(env, pol, ls, probe, v, ScalarKey(env.keying, probe));
    if Twinned(env, pol, ls, probe, v) {
      HeldIsRecalled(env, Run(env, pol, ls), probe, v);
    }
  }

  /** Whatever else drifted, a visitor is recalled by every probe that agrees in webgl, platform and timezone with
      an observation of it since its last erasure, if their key had room then; and likewise for audio, cpu_cores
      and device_memory. */
  lemma DriftedStillRecalled(env: Env, pol: Policy, ls: seq<Label>, probe: map<string, Stored>, v: string, i: nat)
    requires env.family.groups == GROUPS && ObservedAt(env, pol, ls, v, i)
    ensures var m, ix := Observation(env, ls, i), Run(env, pol, ls[..i]).index;
      || (SameDisplay(m, probe) && B.Accepts(ix, pol.maxBlock, DisplayKey(env.keying, probe), v))
      || (SameHardware(m, probe) && B.Accepts(ix, pol.maxBlock, HardwareKey(env.keying, probe), v)) ==>
      v in Recall(env, Run(env, pol, ls), probe)
  {
    var m, ix := Observation(env, ls, i), Run(env, pol, ls[..i]).index;
    NamedKeys(env.keying, env.family, m);
    NamedKeys(env.keying, env.family, probe);
    if SameDisplay(m, probe) && B.Accepts(ix, pol.maxBlock, DisplayKey(env.keying, probe), v) {
      RecalledByKey(env, pol, ls, probe, v, i, DisplayKey(env.keying, probe));
    }
    if SameHardware(m, probe) && B.Accepts(ix, pol.maxBlock, HardwareKey(env.keying, probe), v) {
      RecalledByKey(env, pol, ls, probe, v, i, HardwareKey(env.keying, probe));
    }
  }

  lemma RecalledByKey(env: Env, pol: Policy, ls: seq<Label>, probe: map<string, Stored>, v: string, i: nat, key: Hash32)
    requires ObservedAt(env, pol, ls, v, i) && B.Accepts(Run(env, pol, ls[..i]).index, pol.maxBlock, key, v)
    requires key in KeysOf(env, Observation(env, ls, i)) && key in KeysOf(env, probe)
    ensures v in Recall(env, Run(env, pol, ls), probe)
  {
    StandsIsObserved(env, pol, ls, key, v, i);
    assert Stands(env, pol, ls, key, v);
    RecalledIffFiled(env, pol, ls, probe, v);
  }
}
