// A device described by nine or more ordinary components: what it takes for an observation of it to be
// judged a match, and what a step then does to a store that knows only it. The counterexamples of
// `Counterexamples` are runs of such steps.
module Scenarios {
  import opened Basics
  import opened Component
  import opened Canonical
  import opened Scoring
  import opened Ranking
  import opened Engine
  import opened Verdicts
  import opened BlockingKeys
  import Estimators
  import R = Records
  import B = Blocking
  import F = Frequency
  import A = Agreement

  type Raw = map<string, Json>

  type Stores = map<string, Stored>

  // ---- The device ----

  /** The base-two logarithm, by its laws. */
  ghost predicate Logarithm(an: Analytic) {
    && an.Lawful() && an.log2(2.0) == 1.0
    && forall x, y :: x > 0.0 && y > 0.0 ==> an.log2(x * y) == an.log2(x) + an.log2(y)
  }

  /** Its values at two points. */
  ghost predicate Powers(an: Analytic) {
    an.Lawful() && an.log2(4.0) == 2.0 && an.log2(0.125) == -3.0
  }

  lemma LogarithmPowers(an: Analytic)
    requires Logarithm(an)
    ensures Powers(an)
  {
    assert an.log2(2.0 * 2.0) == 2.0;
    assert an.log2(4.0 * 2.0) == 3.0;
    assert an.log2(8.0 * 0.125) == an.log2(8.0) + an.log2(0.125);
  }

  /** A name the schema does not know: a category of medium stability. */
  predicate PlainName(name: string) {
    Classify(name) == FieldSpec(Medium, CategoryKind) && |name| < U64
  }

  function Hashed(k: Keying, e: Raw, name: string): Hash32
    requires name in e && e[name].Str?
  {
    k.salted(e[name].s)
  }

  /** Nine or more plain components with strings of different hashes. */
  ghost predicate Device(k: Keying, e: Raw) {
    && |e| >= 9
    && (forall n :: n in e ==> PlainName(n) && e[n].Str?)
    && (forall m, n :: m in e && n in e && Hashed(k, e, m) == Hashed(k, e, n) ==> m == n)
  }

  /** The components `names`, each holding its own name. */
  function Sample(names: set<string>): Raw {
    map n | n in names :: Str(n)
  }

  lemma ShortName(n: string)
    requires |n| == 1
    ensures PlainName(n)
  {
  }

  /** Nine one-letter components that the salted hash tells apart are such a device. */
  lemma SampleIsDevice(k: Keying, names: set<string>)
    requires |names| >= 9 && forall n :: n in names ==> |n| == 1
    requires forall m, n :: m in names && n in names && k.salted(m) == k.salted(n) ==> m == n
    ensures Device(k, Sample(names))
  {
    assert Sample(names).Keys == names;
    SizeOf(Sample(names));
    forall n | n in names ensures PlainName(n) {
      ShortName(n);
    }
  }

  lemma DeviceStored(k: Keying, e: Raw)
    requires Device(k, e)
    ensures StoredEntries(k, e).Keys == e.Keys
    ensures forall n :: n in e ==> StoredEntries(k, e)[n] == Category(Hashed(k, e, n))
  {
  }

  /** A further plain component. */
  lemma WithScalar(k: Keying, c: Raw, name: string, value: string)
    requires PlainName(name)
    ensures StoredEntries(k, c[name := Str(value)]) == StoredEntries(k, c)[name := Category(k.salted(value))]
  {
  }

  /** An unstorable value leaves no trace. */
  lemma WithUnstorable(k: Keying, c: Raw, name: string, items: seq<Json>)
    requires PlainName(name) && name !in c
    ensures StoredEntries(k, c[name := Arr(items)]) == StoredEntries(k, c)
  {
  }

  lemma WithFonts(k: Keying, c: Raw, fonts: seq<Json>)
    ensures StoredEntries(k, c["fonts" := Arr(fonts)]) == StoredEntries(k, c)["fonts" := Set(HashSet(k, fonts))]
  {
    assert Classify("fonts").kind == SetKind;
  }

  lemma WithoutScalar(k: Keying, c: Raw, name: string)
    ensures StoredEntries(k, c - {name}) == StoredEntries(k, c) - {name}
  {
  }

  // ---- Observations of it ----

  /** Fonts, and plain categories with different hashes from a palette, at least nine of them, that agree
      with the device where they name its components. */
  ghost predicate Variant(k: Keying, e: Raw, palette: set<Hash32>, m: Stores)
    requires Device(k, e)
  {
    && (forall n :: n in m ==>
          if n == "fonts" then m[n].Set? else PlainName(n) && m[n].Category? && m[n].hash in palette)
    && (forall a, b :: a in m && b in m && m[a].Category? && m[a] == m[b] ==> a == b)
    && (forall n :: n in m && n in e ==> m[n] == Category(Hashed(k, e, n)))
    && |Scalars(m)| >= 9
  }

  // ---- What the tables know of it ----

  /** Each of its values is at most a ninth of all sightings, it has agreed whenever compared, and its
      fonts were hardly compared. */
  ghost predicate Kept(k: Keying, e: Raw, palette: set<Hash32>, fonts: nat, f: F.Freq, a: A.Agree)
    requires Device(k, e)
  {
    && f.perValue.Keys <= palette
    && (forall n :: n in e ==> f.total >= 9 * f.Count(Hashed(k, e, n)))
    && (forall n :: n in e ==> a.Stats(n).0 == a.Stats(n).1)
    && a.Stats("fonts").0 <= a.Stats("fonts").1 <= fonts
  }

  lemma Strict(y: real, z: real, q: real)
    requires y > 0.0 && z < q
    ensures y * z < y * q
  {
    Estimators.ProductSign(y, q - z);
    Estimators.Distribute(q, z, y);
  }

  lemma QuotientBounds(x: real, y: real, q: real)
    requires y > 0.0
    ensures x >= q * y ==> x / y >= q
    ensures x <= q * y ==> x / y <= q
  {
    var z := x / y;
    assert z * y == x;
    if z < q { Strict(y, z, q); }
    if z > q { Strict(y, q, z); }
  }

  lemma RareValue(f: F.Freq, h: Hash32)
    requires f.total >= 9 * f.Count(h) && f.total >= 9
    ensures UEstimate(f, h) <= 0.2
  {
    QuotientBounds(f.Count(h) as real + 0.5, f.total as real + 1.0, 0.2);
  }

  lemma ReliableName(a: A.Agree, name: string)
    requires a.Stats(name).0 == a.Stats(name).1
    ensures 0.8 <= MEstimate(a, name, 0.8) < 1.0
  {
    var n := a.Stats(name).1 as real;
    QuotientBounds(n + ALPHA * 0.8, n + ALPHA, 0.8);
  }

  lemma FontRate(a: A.Agree)
    requires a.Stats("fonts").0 <= a.Stats("fonts").1 <= 3
    ensures 0.05 <= MEstimate(a, "fonts", 0.8) <= 0.88
  {
    var x, t := a.Stats("fonts").0 as real, a.Stats("fonts").1 as real;
    QuotientBounds(x + ALPHA * 0.8, t + ALPHA, 0.05);
    QuotientBounds(x + ALPHA * 0.8, t + ALPHA, 0.88);
  }

  // ---- Weights ----

  lemma LogAtLeast(an: Analytic, x: real, y: real)
    requires an.Lawful() && 0.0 < y <= x
    ensures an.log2(x) >= an.log2(y)
  {
  }

  /** A rare value that agrees is worth two bits. */
  lemma AgreeingWeight(an: Analytic, m: real, u: real)
    requires Powers(an) && 0.8 <= m < 1.0 && 0.0 < u <= 0.2
    ensures Weight(an, m, u, 1.0) >= 2.0
  {
    QuotientBounds(m, u, 4.0);
    LogAtLeast(an, m / u, 4.0);
  }

  lemma FontsAgreeing(an: Analytic, m: real)
    requires Powers(an) && 0.05 <= m
    ensures an.log2(m / SET_U) >= 0.0
  {
    QuotientBounds(m, SET_U, 1.0);
    LogAtLeast(an, m / SET_U, 1.0);
  }

  lemma FontsDisagreeing(an: Analytic, m: real)
    requires Powers(an) && m <= 0.88
    ensures an.log2((1.0 - m) / (1.0 - SET_U)) >= -3.0
  {
    QuotientBounds(1.0 - m, 1.0 - SET_U, 0.125);
    LogAtLeast(an, (1.0 - m) / (1.0 - SET_U), 0.125);
  }

  /** Fonts never cost more than three bits. */
  lemma FontWeight(an: Analytic, m: real, sim: real)
    requires Powers(an) && 0.05 <= m <= 0.88 && 0.0 <= sim <= 1.0
    ensures Weight(an, m, SET_U, sim) >= -3.0
  {
    FontsAgreeing(an, m);
    FontsDisagreeing(an, m);
    Estimators.NonNegative(sim, an.log2(m / SET_U));
    Shrunk(1.0 - sim, an.log2((1.0 - m) / (1.0 - SET_U)));
  }

  lemma Shrunk(r: real, y: real)
    requires 0.0 <= r <= 1.0 && y >= -3.0
    ensures r * y >= -3.0
  {
    if y >= 0.0 {
      Estimators.NonNegative(r, y);
    } else {
      Estimators.Times(-y, r, 1.0);
      assert r * y == -(-y * r);
    }
  }

  // ---- The score ----

  /** What a component is worth at least. */
  function Floor(good: set<string>, name: string): real {
    if name in good then 2.0 else if name == "fonts" then -3.0 else 0.0
  }

  /** Every component weighs at least its floor, and the good ones weigh. */
  ghost predicate Floored(names: seq<string>, weigh: string -> Option<real>, good: set<string>) {
    && (forall n :: n in names && weigh(n).Some? ==> weigh(n).value >= Floor(good, n))
    && (forall n :: n in names && n in good ==> weigh(n).Some?)
  }

  ghost function Among(names: seq<string>, good: set<string>): set<string> {
    set n | n in names && n in good
  }

  lemma AmongSnoc(front: seq<string>, last: string, good: set<string>)
    requires last !in front
    ensures |Among(front + [last], good)| == |Among(front, good)| + if last in good then 1 else 0
  {
    assert Among(front + [last], good) == Among(front, good) + if last in good then {last} else {};
  }

  lemma {:induction false} SumAtLeast(names: seq<string>, weigh: string -> Option<real>, good: set<string>)
    requires NoDup(names) && Floored(names, weigh, good) && "fonts" !in good
    ensures SumOver(names, weigh).0 >= 2.0 * |Among(names, good)| as real - if "fonts" in names then 3.0 else 0.0
  {
    if names != [] {
      var front, last := names[..|names| - 1], names[|names| - 1];
      SumAtLeast(front, weigh, good);
      SplitLast(names);
      AmongSnoc(front, last, good);
    }
  }

  lemma EnoughGood(names: seq<string>, weigh: string -> Option<real>, good: set<string>)
    requires NoDup(names) && Floored(names, weigh, good) && "fonts" !in good
    requires |good| >= 8 && forall n :: n in good ==> n in names
    ensures SumOver(names, weigh).0 >= T_HI
  {
    assert Among(names, good) == good;
    SumAtLeast(names, weigh, good);
  }

  /** A template of the device, and an observation to compare with it. */
  ghost predicate Comparable(e: Raw, probe: Stores, template: Stores) {
    && probe.Keys * template.Keys <= e.Keys + {"fonts"}
    && |probe.Keys * template.Keys * e.Keys| >= 8
  }

  lemma BaseWeight(k: Keying, an: Analytic, e: Raw, palette: set<Hash32>, f: F.Freq, a: A.Agree, probe: Stores,
                   template: Stores, n: string)
    requires Powers(an) && Device(k, e) && Kept(k, e, palette, 3, f, a) && f.total >= 9
    requires n in e && n in probe && n in template && probe[n] == template[n] == Category(Hashed(k, e, n))
    ensures Weigher(k, an, f, a, probe, template)(n).Some? && Weigher(k, an, f, a, probe, template)(n).value >= 2.0
  {
    var u, m := UEstimate(f, Hashed(k, e, n)), MEstimate(a, n, 0.8);
    RareValue(f, Hashed(k, e, n));
    ReliableName(a, n);
    AgreeingWeight(an, m, u);
    assert PlainName(n);
  }

  lemma FontsWeigh(k: Keying, an: Analytic, f: F.Freq, a: A.Agree, probe: Stores, template: Stores)
    requires Powers(an) && a.Stats("fonts").0 <= a.Stats("fonts").1 <= 3
    requires "fonts" in probe && "fonts" in template && probe["fonts"].Set? && template["fonts"].Set?
    ensures var w := Weigher(k, an, f, a, probe, template)("fonts"); w.Some? && w.value >= -3.0
  {
    assert Classify("fonts").stability == Medium;
    JaccardLaws(probe["fonts"].items, template["fonts"].items);
    FontRate(a);
    var j := Jaccard(probe["fonts"].items, template["fonts"].items);
    FontWeight(an, MEstimate(a, "fonts", 0.8), if j >= TAU then 1.0 else j);
  }

  lemma NoFontsInDevice(k: Keying, e: Raw)
    requires Device(k, e)
    ensures "fonts" !in e
  {
    assert Classify("fonts").kind == SetKind;
  }

  /** Each component weighs at least its floor. */
  lemma ComponentFloor(k: Keying, an: Analytic, e: Raw, palette: set<Hash32>, f: F.Freq, a: A.Agree, probe: Stores,
                       template: Stores, n: string)
    requires Powers(an) && Device(k, e) && Kept(k, e, palette, 3, f, a) && f.total >= 9
    requires Variant(k, e, palette, probe) && Variant(k, e, palette, template) && Comparable(e, probe, template)
    requires n in probe
    ensures var w, good := Weigher(k, an, f, a, probe, template)(n), probe.Keys * template.Keys * e.Keys;
      (w.Some? ==> w.value >= Floor(good, n)) && (n in good ==> w.Some?)
  {
    if n in template {
      assert n in probe.Keys * template.Keys;
      if n in e {
        BaseWeight(k, an, e, palette, f, a, probe, template, n);
      } else {
        FontsWeigh(k, an, f, a, probe, template);
      }
    }
  }

  lemma AllFloored(k: Keying, an: Analytic, e: Raw, palette: set<Hash32>, f: F.Freq, a: A.Agree, probe: Stores,
                   template: Stores)
    requires Powers(an) && Device(k, e) && Kept(k, e, palette, 3, f, a) && f.total >= 9
    requires Variant(k, e, palette, probe) && Variant(k, e, palette, template) && Comparable(e, probe, template)
    ensures Floored(Sorted(probe.Keys), Weigher(k, an, f, a, probe, template), probe.Keys * template.Keys * e.Keys)
  {
    forall n | n in probe
      ensures var w, good := Weigher(k, an, f, a, probe, template)(n), probe.Keys * template.Keys * e.Keys;
        (w.Some? ==> w.value >= Floor(good, n)) && (n in good ==> w.Some?)
    {
      ComponentFloor(k, an, e, palette, f, a, probe, template, n);
    }
  }

  /** Eight common components carry the score past the upper threshold, whatever the fonts. */
  lemma StrongScore(k: Keying, an: Analytic, e: Raw, palette: set<Hash32>, f: F.Freq, a: A.Agree, probe: Stores,
                    template: Stores)
    requires Powers(an) && Device(k, e) && Kept(k, e, palette, 3, f, a) && f.total >= 9
    requires Variant(k, e, palette, probe) && Variant(k, e, palette, template) && Comparable(e, probe, template)
    ensures ScoreCandidate(k, an, f, a, probe, template).0 >= T_HI
  {
    var names, weigh, good :=
      Sorted(probe.Keys), Weigher(k, an, f, a, probe, template), probe.Keys * template.Keys * e.Keys;
    AllFloored(k, an, e, palette, f, a, probe, template);
    NoFontsInDevice(k, e);
    EnoughGood(names, weigh, good);
  }

  // ---- Counting and learning ----

  ghost function Hashing(k: Keying, names: seq<string>, stored: Stores): set<string> {
    set n | n in names && n in stored && FrequencyHash(k, stored[n]).Some?
  }

  lemma HashingCons(k: Keying, name: string, rest: seq<string>, stored: Stores)
    requires name in stored && name !in rest
    ensures |Hashing(k, [name] + rest, stored)| ==
      |Hashing(k, rest, stored)| + if FrequencyHash(k, stored[name]).Some? then 1 else 0
  {
    assert Hashing(k, [name] + rest, stored) ==
      Hashing(k, rest, stored) + if FrequencyHash(k, stored[name]).Some? then {name} else {};
  }

  lemma {:induction false} HashesCount(k: Keying, names: seq<string>, stored: Stores)
    requires NoDup(names) && forall x :: x in names ==> x in stored
    ensures |ScalarHashes(k, names, stored)| == |Hashing(k, names, stored)|
  {
    if names != [] {
      var rest := names[1..];
      HashesCount(k, rest, stored);
      assert names == [names[0]] + rest && names[0] !in rest;
      HashingCons(k, names[0], rest, stored);
    }
  }

  lemma {:induction false} HashesAmong(k: Keying, names: seq<string>, stored: Stores, palette: set<Hash32>)
    requires forall x :: x in names ==> x in stored
    requires forall x :: x in names && FrequencyHash(k, stored[x]).Some? ==>
      FrequencyHash(k, stored[x]).value in palette
    ensures Elems(ScalarHashes(k, names, stored)) <= palette
  {
    if names != [] {
      HashesAmong(k, names[1..], stored, palette);
    }
  }

  lemma EachOnce(k: Keying, e: Raw, palette: set<Hash32>, m: Stores, h: Hash32)
    requires Device(k, e) && Variant(k, e, palette, m)
    ensures multiset(ScalarHashes(k, Sorted(m.Keys), m))[h] <= 1
  {
    HashCounts(k, Sorted(m.Keys), m, h);
    AtMostOne(CountedUnder(k, Sorted(m.Keys), m, h));
  }

  /** A variant brings at least nine sightings, of the palette, and each value at most once. */
  lemma VariantHashes(k: Keying, e: Raw, palette: set<Hash32>, m: Stores)
    requires Device(k, e) && Variant(k, e, palette, m)
    ensures var hs := ScalarHashes(k, Sorted(m.Keys), m);
      |hs| >= 9 && Elems(hs) <= palette && forall h :: multiset(hs)[h] <= 1
  {
    var names := Sorted(m.Keys);
    HashesCount(k, names, m);
    assert Hashing(k, names, m) == Scalars(m).Keys;
    SizeOf(Scalars(m));
    HashesAmong(k, names, m, palette);
    forall h ensures multiset(ScalarHashes(k, names, m))[h] <= 1 {
      EachOnce(k, e, palette, m, h);
    }
  }

  lemma AtMostOne(s: set<string>)
    ensures (forall a, b :: a in s && b in s ==> a == b) ==> |s| <= 1
  {
    if s != {} && forall a, b :: a in s && b in s ==> a == b {
      var x :| x in s;
      assert s == {x};
    }
  }

  /** The frequency table has room for the palette. */
  predicate RoomFor(pol: Policy, palette: set<Hash32>) {
    pol.maxFrequency.None? || |palette| <= pol.maxFrequency.value
  }

  lemma KeptObserved(env: Env, pol: Policy, e: Raw, palette: set<Hash32>, fonts: nat, f: F.Freq, a: A.Agree, m: Stores)
    requires Device(env.keying, e) && Kept(env.keying, e, palette, fonts, f, a)
    requires Variant(env.keying, e, palette, m) && RoomFor(pol, palette)
    ensures Kept(env.keying, e, palette, fonts, FrequencyAfter(env, pol, f, m), a)
    ensures FrequencyAfter(env, pol, f, m).total >= 9
  {
    var hs := ScalarHashes(env.keying, Sorted(m.Keys), m);
    VariantHashes(env.keying, e, palette, m);
    SubsetSize(f.perValue.Keys + Elems(hs), palette);
    F.FitsUncapped(f, pol.maxFrequency, hs);
    F.UncappedCounts(f, hs);
  }

  lemma TaughtOrNot(before: (nat, nat), outcome: Option<bool>, after: (nat, nat))
    requires after == before || after == Taught(before, outcome)
    ensures outcome in {None, Some(true)} && before.0 == before.1 ==> after.0 == after.1
    ensures before.0 <= before.1 ==> after.0 <= after.1 <= before.1 + 1
  {
  }

  lemma NameTaught(env: Env, pol: Policy, s: Store, v: string, m: Stores, n: string)
    requires v in s.lib.records
    ensures var outcome := AgreementOf(env.keying, s.freq, n, m, s.lib.records[v].components);
      var before, after := s.agree.Stats(n), Learned(env, pol, s, v, m).agree.Stats(n);
      && (outcome in {None, Some(true)} && before.0 == before.1 ==> after.0 == after.1)
      && (before.0 <= before.1 ==> after.0 <= after.1 <= before.1 + 1)
  {
    MatchTeaches(env, pol, s, v, m, n);
    TaughtOrNot(s.agree.Stats(n), AgreementOf(env.keying, s.freq, n, m, s.lib.records[v].components),
                Learned(env, pol, s, v, m).agree.Stats(n));
  }

  lemma KeptTaught(env: Env, pol: Policy, e: Raw, palette: set<Hash32>, fonts: nat, s: Store, v: string, m: Stores)
    requires Device(env.keying, e) && Kept(env.keying, e, palette, fonts, s.freq, s.agree) && v in s.lib.records
    requires Variant(env.keying, e, palette, m) && Variant(env.keying, e, palette, s.lib.records[v].components)
    ensures Kept(env.keying, e, palette, fonts + 1, s.freq, Learned(env, pol, s, v, m).agree)
  {
    var after := Learned(env, pol, s, v, m).agree;
    NameTaught(env, pol, s, v, m, "fonts");
    forall n | n in e ensures after.Stats(n).0 == after.Stats(n).1 {
      NameTaught(env, pol, s, v, m, n);
      BaseAgrees(env.keying, s.freq, e, palette, m, s.lib.records[v].components, n);
    }
  }

  lemma BaseAgrees(k: Keying, f: F.Freq, e: Raw, palette: set<Hash32>, probe: Stores, template: Stores, n: string)
    requires Device(k, e) && Variant(k, e, palette, probe) && Variant(k, e, palette, template) && n in e
    ensures AgreementOf(k, f, n, probe, template) in {None, Some(true)}
  {
  }

  // ---- The index ----

  ghost predicate UnderOne(env: Env, ms: seq<Stores>, key: Hash32) {
    exists m :: m in ms && key in KeysOf(env, m)
  }

  /** Only `v` is filed, under the keys of these observations. */
  ghost predicate OnlyFiled(env: Env, ix: B.Index, v: string, ms: seq<Stores>) {
    forall key, u :: ix.Holds(key, u) <==> u == v && UnderOne(env, ms, key)
  }

  /** An earlier observation shares a key with `m`. */
  ghost predicate Shares(env: Env, ms: seq<Stores>, m: Stores) {
    exists m' :: m' in ms && Meet(KeysOf(env, m'), KeysOf(env, m))
  }

  lemma RecallsOnly(env: Env, s: Store, v: string, ms: seq<Stores>, m: Stores)
    requires OnlyFiled(env, s.index, v, ms)
    ensures Recall(env, s, m) == if Shares(env, ms, m) then {v} else {}
  {
    var keys := KeysOf(env, m);
    forall u ensures u in Recall(env, s, m) <==> u == v && Shares(env, ms, m) {
      B.CandidatesAreImage(s.index, keys, u);
      if Shares(env, ms, m) {
        var m' :| m' in ms && Meet(KeysOf(env, m'), keys);
        var key :| key in KeysOf(env, m') && key in keys;
        assert UnderOne(env, ms, key);
        assert s.index.Holds(key, v);
      }
    }
  }

  lemma FiledMore(env: Env, ix: B.Index, cap: nat, v: string, ms: seq<Stores>, m: Stores)
    requires OnlyFiled(env, ix, v, ms) && cap >= 1
    ensures OnlyFiled(env, B.InsertedAll(ix, cap, KeysOf(env, m), v), v, ms + [m])
  {
    var keys := KeysOf(env, m);
    B.InsertedAllRelation(ix, cap, keys, v);
    forall key ensures B.Accepts(ix, cap, key, v) {
      if !ix.Holds(key, v) {
        assert forall u :: u in ix.Block(key) ==> ix.Holds(key, u);
        assert ix.Block(key) == {};
      }
    }
    forall key ensures UnderOne(env, ms + [m], key) <==> UnderOne(env, ms, key) || key in keys {
      if key in keys { assert m in ms + [m]; }
      if UnderOne(env, ms, key) {
        var m' :| m' in ms && key in KeysOf(env, m');
        assert m' in ms + [m];
      }
    }
  }

  // ---- Steps of a store that knows one visitor ----

  /** `v` is the only record, with this template, last seen at `seen`, and the only visitor filed. */
  ghost predicate Knows(env: Env, s: Store, v: string, template: Stores, seen: nat, ms: seq<Stores>) {
    && s.lib.records.Keys == {v} && s.lib.records[v].components == template && s.lib.records[v].lastSeen == seen
    && OnlyFiled(env, s.index, v, ms)
  }

  /** An identification without network signals that keeps only `v`. */
  function Sighting(probe: Raw, now: nat, order: seq<string>, v: string): Label {
    Identify(Obj(probe), now, None, None, order, {v})
  }

  lemma AloneObserved(lib: R.Lib, b: R.Bounds, v: string, m: Stores, now: nat)
    requires lib.records.Keys <= {v}
    ensures lib.ValidKeep(b, v, m, now, {v})
    ensures var t := lib.Observed(b, v, m, now, {v});
      t.records.Keys == {v} && t.records[v] == R.Upserted(lib.records, v, m, now)[v]
  {
    assert lib.AfterTtl(b, v, m, now).Keys == {v};
    SizeOf(lib.AfterTtl(b, v, m, now));
    R.ObservedBounds(lib, b, v, m, now, {v});
  }

  /** The only candidate scores high enough: a match. */
  lemma OnlyCandidateMatches(env: Env, s: Store, probe: Json, v: string)
    requires Recall(env, s, StoredMap(env.keying, probe)) == {v}
    requires ScoreId(env, s, StoredMap(env.keying, probe), v).score.AtLeast(T_HI)
    ensures Enumerates([v], {v})
    ensures Evaluate(env, s, probe, [v]).decision == Match && Evaluate(env, s, probe, [v]).visitorId == v
  {
    assert Elems([v]) == {v};
    VerdictThresholds(env, s, probe, [v]);
    VerdictNamesLiveRecord(env, s, probe, [v]);
  }

  lemma KnownScores(env: Env, e: Raw, palette: set<Hash32>, s: Store, v: string, m: Stores)
    requires Powers(env.analytic) && Device(env.keying, e) && Kept(env.keying, e, palette, 3, s.freq, s.agree)
    requires s.freq.total >= 9
    requires v in s.lib.records && Variant(env.keying, e, palette, m)
    requires Variant(env.keying, e, palette, s.lib.records[v].components)
    requires Comparable(e, m, s.lib.records[v].components)
    ensures ScoreId(env, s, m, v).score.AtLeast(T_HI)
  {
    StrongScore(env.keying, env.analytic, e, palette, s.freq, s.agree, m, s.lib.records[v].components);
  }

  /** What a sighting is compared with, and whether it is recalled. */
  ghost predicate Recognised(env: Env, e: Raw, palette: set<Hash32>, template: Stores, ms: seq<Stores>, m: Stores)
    requires Device(env.keying, e)
  {
    && Variant(env.keying, e, palette, template) && Variant(env.keying, e, palette, m)
    && Comparable(e, m, template) && Shares(env, ms, m)
  }

  /** The tables of a store that has seen the device. */
  ghost predicate Warm(env: Env, e: Raw, palette: set<Hash32>, fonts: nat, s: Store)
    requires Device(env.keying, e)
  {
    Kept(env.keying, e, palette, fonts, s.freq, s.agree) && s.freq.total >= 9
  }

  ghost predicate Matches(env: Env, pol: Policy, s: Store, l: Label, v: string) {
    && l.Identify? && Enabled(env, pol, s, l)
    && VerdictOf(env, s, l).decision == Match && VerdictOf(env, s, l).visitorId == v
  }

  lemma RecognisedScores(env: Env, e: Raw, palette: set<Hash32>, s: Store, v: string, template: Stores, seen: nat,
                         ms: seq<Stores>, m: Stores)
    requires Powers(env.analytic) && Device(env.keying, e) && Warm(env, e, palette, 3, s)
    requires Knows(env, s, v, template, seen, ms) && Recognised(env, e, palette, template, ms, m)
    ensures Recall(env, s, m) == {v} && ScoreId(env, s, m, v).score.AtLeast(T_HI)
  {
    RecallsOnly(env, s, v, ms, m);
    KnownScores(env, e, palette, s, v, m);
  }

  lemma RecognisedMatches(env: Env, pol: Policy, s: Store, v: string, probe: Raw, now: nat)
    requires s.lib.records.Keys == {v}
    requires Recall(env, s, StoredMap(env.keying, Obj(probe))) == {v}
    requires ScoreId(env, s, StoredMap(env.keying, Obj(probe)), v).score.AtLeast(T_HI)
    ensures Matches(env, pol, s, Sighting(probe, now, [v], v), v)
  {
    var l := Sighting(probe, now, [v], v);
    OnlyCandidateMatches(env, s, Obj(probe), v);
    AloneObserved(s.lib, pol.bounds, v, StoredOf(env, l), now);
    assert VerdictOf(env, s, l) == Evaluate(env, s, Obj(probe), [v]);
    SightingEnabled(env, pol, s, l, v);
  }

  lemma SightingEnabled(env: Env, pol: Policy, s: Store, l: Label, v: string)
    requires l.Identify? && Enumerates(l.order, Recall(env, s, StoredOf(env, l))) && VerdictOf(env, s, l).visitorId == v
    requires s.lib.ValidKeep(pol.bounds, v, StoredOf(env, l), l.now, l.keep)
    ensures Enabled(env, pol, s, l)
  {
  }

  /** What a match does to what the store knows. */
  lemma MatchKnows(env: Env, pol: Policy, s: Store, v: string, template: Stores, seen: nat, ms: seq<Stores>, l: Label,
                   m: Stores)
    requires Matches(env, pol, s, l, v) && l.keep == {v} && StoredOf(env, l) == m && pol.maxBlock >= 1
    requires Knows(env, s, v, template, seen, ms)
    ensures Knows(env, Next(env, pol, s, l), v, template + m, l.now, ms + [m])
  {
    AloneObserved(s.lib, pol.bounds, v, m, l.now);
    MatchFolds(env, pol, s, l, v, m, l.now);
    FiledMore(env, s.index, pol.maxBlock, v, ms, m);
  }

  lemma MatchWarms(env: Env, pol: Policy, e: Raw, palette: set<Hash32>, fonts: nat, s: Store, v: string, l: Label,
                   m: Stores)
    requires Matches(env, pol, s, l, v) && l.keep == {v} && StoredOf(env, l) == m
    requires Device(env.keying, e) && Warm(env, e, palette, fonts, s) && RoomFor(pol, palette) && v in s.lib.records
    requires Variant(env.keying, e, palette, m) && Variant(env.keying, e, palette, s.lib.records[v].components)
    ensures Warm(env, e, palette, fonts + 1, Next(env, pol, s, l))
  {
    MatchFolds(env, pol, s, l, v, m, l.now);
    KeptTaught(env, pol, e, palette, fonts, s, v, m);
    KeptObserved(env, pol, e, palette, fonts + 1, s.freq, Learned(env, pol, s, v, m).agree, m);
  }

  lemma WarmFor(env: Env, e: Raw, palette: set<Hash32>, fonts: nat, s: Store)
    requires Device(env.keying, e) && Warm(env, e, palette, fonts, s) && fonts <= 3
    ensures Warm(env, e, palette, 3, s)
  {
  }

  /** What a matching sighting does. */
  lemma MatchStep(env: Env, pol: Policy, e: Raw, palette: set<Hash32>, fonts: nat, s: Store, v: string,
                  template: Stores,
                  seen: nat, ms: seq<Stores>, probe: Raw, m: Stores, now: nat)
    requires Powers(env.analytic) && Device(env.keying, e) && RoomFor(pol, palette) && pol.maxBlock >= 1
    requires Warm(env, e, palette, fonts, s) && fonts <= 3
    requires Knows(env, s, v, template, seen, ms) && Recognised(env, e, palette, template, ms, m)
    requires m == StoredEntries(env.keying, probe)
    ensures var l := Sighting(probe, now, [v], v);
      && Matches(env, pol, s, l, v)
      && Knows(env, Next(env, pol, s, l), v, template + m, now, ms + [m])
      && Warm(env, e, palette, fonts + 1, Next(env, pol, s, l))
  {
    var l := Sighting(probe, now, [v], v);
    WarmFor(env, e, palette, fonts, s);
    RecognisedScores(env, e, palette, s, v, template, seen, ms, m);
    RecognisedMatches(env, pol, s, v, probe, now);
    MatchKnows(env, pol, s, v, template, seen, ms, l, m);
    MatchWarms(env, pol, e, palette, fonts, s, v, l, m);
  }

  lemma MatchFolds(env: Env, pol: Policy, s: Store, l: Label, v: string, m: Stores, now: nat)
    requires l.Identify? && l.now == now && l.keep == {v} && StoredOf(env, l) == m
    requires VerdictOf(env, s, l).decision == Match && VerdictOf(env, s, l).visitorId == v
    ensures var t := Next(env, pol, s, l);
      && t.lib == s.lib.Observed(pol.bounds, v, m, now, {v})
      && t.index == B.InsertedAll(s.index, pol.maxBlock, KeysOf(env, m), v)
      && t.freq == FrequencyAfter(env, pol, s.freq, m) && t.agree == Learned(env, pol, s, v, m).agree
  {
  }

  // ---- Steps of a store without records ----

  ghost predicate Mints(env: Env, pol: Policy, s: Store, l: Label, v: string) {
    && l.Identify? && Enabled(env, pol, s, l)
    && VerdictOf(env, s, l).decision == NewDevice && VerdictOf(env, s, l).visitorId == v
  }

  /** Without records everyone is new. */
  lemma EveryoneIsNew(env: Env, pol: Policy, s: Store, probe: Raw, now: nat, order: seq<string>)
    requires s.lib.records == map[] && Enumerates(order, Recall(env, s, StoredMap(env.keying, Obj(probe))))
    ensures var v := env.deriveId(Obj(probe)); Mints(env, pol, s, Sighting(probe, now, order, v), v)
  {
    var v := env.deriveId(Obj(probe));
    var l := Sighting(probe, now, order, v);
    NobodyIsNew(env, s, Obj(probe), order);
    AloneObserved(s.lib, pol.bounds, v, StoredOf(env, l), now);
    assert VerdictOf(env, s, l) == Evaluate(env, s, Obj(probe), order);
    SightingEnabled(env, pol, s, l, v);
  }

  /** Without live candidates a probe is new. */
  lemma NobodyIsNew(env: Env, s: Store, probe: Json, order: seq<string>)
    requires Enumerates(order, Recall(env, s, StoredMap(env.keying, probe)))
    requires Recall(env, s, StoredMap(env.keying, probe)) !! s.lib.records.Keys
    ensures Evaluate(env, s, probe, order).decision == NewDevice
    ensures Evaluate(env, s, probe, order).visitorId == env.deriveId(probe)
  {
    var m := StoredMap(env.keying, probe);
    forall id | id in Recall(env, s, m) ensures !ScoreId(env, s, m, id).score.AtLeast(T_LO) {
      assert id !in s.lib.records.Keys;
    }
    VerdictThresholds(env, s, probe, order);
    EvaluateIsJudged(env, s, probe, order);
  }

  lemma MintFolds(env: Env, pol: Policy, s: Store, l: Label, v: string, m: Stores)
    requires Mints(env, pol, s, l, v) && l.keep == {v} && StoredOf(env, l) == m && s.lib.records == map[]
    ensures var t := Next(env, pol, s, l);
      && t.lib.records.Keys == {v} && t.lib.records[v].components == m && t.lib.records[v].lastSeen == l.now
      && t.index == B.InsertedAll(s.index, pol.maxBlock, KeysOf(env, m), v)
      && t.freq == FrequencyAfter(env, pol, s.freq, m) && t.agree == s.agree
  {
    AloneObserved(s.lib, pol.bounds, v, m, l.now);
    AfterVerdictParts(env, pol, s, VerdictOf(env, s, l), m, l.now, l.ip, l.ja4, l.keep);
  }

  /** What a new device does to a store without records. */
  lemma MintStep(env: Env, pol: Policy, e: Raw, palette: set<Hash32>, fonts: nat, s: Store, probe: Raw, m: Stores,
                 now: nat, order: seq<string>)
    requires Device(env.keying, e) && RoomFor(pol, palette)
    requires s.lib.records == map[] && Enumerates(order, Recall(env, s, m))
    requires Kept(env.keying, e, palette, fonts, s.freq, s.agree) && Variant(env.keying, e, palette, m)
    requires m == StoredEntries(env.keying, probe)
    ensures var v := env.deriveId(Obj(probe));
      var l := Sighting(probe, now, order, v);
      var t := Next(env, pol, s, l);
      && Mints(env, pol, s, l, v)
      && t.lib.records.Keys == {v} && t.lib.records[v].components == m && t.lib.records[v].lastSeen == now
      && t.index == B.InsertedAll(s.index, pol.maxBlock, KeysOf(env, m), v)
      && Warm(env, e, palette, fonts, t)
  {
    var v := env.deriveId(Obj(probe));
    var l := Sighting(probe, now, order, v);
    EveryoneIsNew(env, pol, s, probe, now, order);
    MintFolds(env, pol, s, l, v, m);
    KeptObserved(env, pol, e, palette, fonts, s.freq, s.agree, m);
  }

  /** A purge of age zero empties a library last seen before. */
  lemma PurgeEmpties(env: Env, pol: Policy, s: Store, v: string, now: nat)
    requires s.lib.records.Keys == {v} && s.lib.records[v].lastSeen < now
    ensures var t := Next(env, pol, s, Purge(now, 0));
      t.lib.records == map[] && t.index == s.index && t.freq == s.freq && t.agree == s.agree
  {
  }
}
