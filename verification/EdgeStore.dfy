// The edge form of the record library and the blocking index
// (apps/edge/src/modules/fingerprint/fingerprint-store-d1.ts): two tables holding raw component
// objects and (key, visitor) pairs; compared, step by step, with the native store.
module EdgeStore {
  import opened Basics
  import opened Component
  import opened Scoring
  import opened Engine
  import opened Purging
  import R = Records
  import B = Blocking

  type Raw = map<string, Json>

  datatype Template = Template(components: Raw, firstSeen: nat, lastSeen: nat, count: nat)

  datatype Tables = Tables(templates: map<string, Template>, index: set<(Hash32, string)>)

  const NO_ROWS: Tables := Tables(map[], {})

  function Pairs(keys: seq<Hash32>, visitor: string): set<(Hash32, string)> {
    set key | key in keys :: (key, visitor)
  }

  /** The upsert keeps the first sighting and counts the observation; pairs already present stay. */
  function Written(t: Tables, visitor: string, components: Raw, keys: seq<Hash32>, now: nat): Tables {
    var row := if visitor in t.templates
               then Template(components, t.templates[visitor].firstSeen, now, t.templates[visitor].count + 1)
               else Template(components, now, now, 1);
    Tables(t.templates[visitor := row], t.index + Pairs(keys, visitor))
  }

  /** What is stored: a match overlays the existing raw object, a new device is stored whole. */
  function ToStore(t: Tables, d: Decision, visitor: string, components: Raw): Raw {
    if d == Match && visitor in t.templates then t.templates[visitor].components + components else components
  }

  function Persisted(t: Tables, d: Decision, visitor: string, components: Raw, keys: seq<Hash32>, now: nat): Tables {
    if d == Review then t else Written(t, visitor, ToStore(t, d, visitor, components), keys, now)
  }

  function Dropped(t: Tables, gone: set<string>): Tables {
    Tables(t.templates - gone, set p | p in t.index && p.1 !in gone)
  }

  function StaleRows(t: Tables, now: nat, maxAge: int): set<string> {
    set id | id in t.templates && t.templates[id].lastSeen < now - maxAge
  }

  function Purged(t: Tables, now: nat, maxAge: int): Tables {
    if maxAge <= 0 then t else Dropped(t, StaleRows(t, now, maxAge))
  }

  /** Visitors with a template and an index row under one of the keys. */
  function Matching(t: Tables, keys: seq<Hash32>): set<string> {
    set p | p in t.index && p.0 in keys && p.1 in t.templates :: p.1
  }

  // ---- Raw merge against stored merge ----

  /** An unstorable entry of the new observation overwrites a stored component. */
  ghost predicate Hides(k: Keying, e: Raw, c: Raw) {
    exists name :: name in StoredEntries(k, e) && name in c && name !in StoredEntries(k, c)
  }

  /** The stored form of the edge's merged object: everything the new observation names goes, and
      what of it can be stored comes in. */
  lemma EdgeMerge(k: Keying, e: Raw, c: Raw)
    ensures StoredEntries(k, e + c) == (StoredEntries(k, e) - c.Keys) + StoredEntries(k, c)
  {
  }

  /** It is the native overlay of the two stored forms exactly when nothing is hidden. */
  lemma MergesAgree(k: Keying, e: Raw, c: Raw)
    ensures StoredEntries(k, e + c) == StoredEntries(k, e) + StoredEntries(k, c) <==> !Hides(k, e, c)
  {
    var edge, native := StoredEntries(k, e + c), StoredEntries(k, e) + StoredEntries(k, c);
    EdgeMerge(k, e, c);
    if Hides(k, e, c) {
      var name :| name in StoredEntries(k, e) && name in c && name !in StoredEntries(k, c);
      assert name in native && name !in edge;
    }
  }

  /** A null for a component the template has makes the two stores differ. */
  lemma NullHides(k: Keying, e: Raw, name: string)
    requires name in StoredEntries(k, e)
    ensures Hides(k, e, map[name := Null])
    ensures name !in StoredEntries(k, e + map[name := Null])
    ensures name in StoredEntries(k, e) + StoredEntries(k, map[name := Null])
  {
    var c: Raw := map[name := Null];
    assert name in c && name !in StoredEntries(k, c);
  }

  /** Storing the object whole is the native overlay exactly when it misses no stored component. */
  lemma ReplacementAgrees(k: Keying, e: Raw, c: Raw)
    ensures StoredEntries(k, c) == StoredEntries(k, e) + StoredEntries(k, c)
       <==> StoredEntries(k, e).Keys <= StoredEntries(k, c).Keys
  {
    if StoredEntries(k, c) == StoredEntries(k, e) + StoredEntries(k, c) {
      forall name | name in StoredEntries(k, e) ensures name in StoredEntries(k, c) {
        assert name in StoredEntries(k, e) + StoredEntries(k, c);
      }
    }
  }

  // ---- Common events ----

  datatype Event =
    | Resolved(o: Outcome, components: Raw, now: nat, ip: Option<string>, ja4: Option<string>, keep: set<string>)
    | Erased(visitor: string)
    | Expired(now: nat, age: nat)

  ghost function EdgeStep(env: Env, t: Tables, e: Event): Tables {
    match e
    case Resolved(o, c, now, _, _, _) =>
      Persisted(t, o.decision, o.visitorId, c, KeysOf(env, StoredEntries(env.keying, c)), now)
    case Erased(v) => Dropped(t, {v})
    case Expired(now, age) => Purged(t, now, age)
  }

  ghost function NativeStep(env: Env, pol: Policy, s: Store, e: Event): Store {
    match e
    case Resolved(o, c, now, ip, ja4, keep) =>
      AfterVerdict(env, pol, s, o, StoredEntries(env.keying, c), now, ip, ja4, keep)
    case Erased(v) => Next(env, pol, s, Erase(v))
    case Expired(now, age) => Next(env, pol, s, Purge(now, age))
  }

  ghost predicate Possible(env: Env, pol: Policy, s: Store, e: Event) {
    e.Resolved? && e.o.decision != Review ==>
      s.lib.ValidKeep(pol.bounds, e.o.visitorId, StoredEntries(env.keying, e.components), e.now, e.keep)
  }

  // ---- The refinement relation ----

  predicate SameRecord(k: Keying, t: Template, r: R.Record) {
    StoredEntries(k, t.components) == r.components && t.firstSeen == r.firstSeen && t.lastSeen == r.lastSeen
      && t.count == r.count
  }

  ghost predicate SameTemplates(k: Keying, t: map<string, Template>, lib: R.Library) {
    t.Keys == lib.Keys && forall id :: id in t ==> SameRecord(k, t[id], lib[id])
  }

  ghost predicate SamePairs(index: set<(Hash32, string)>, ix: B.Index, live: set<string>) {
    forall key, v :: (key, v) in index <==> ix.Holds(key, v) && v in live
  }

  /** The edge holds the stored form of every native template, and the pairs of live visitors. */
  ghost predicate Mirrors(k: Keying, t: Tables, lib: R.Library, ix: B.Index) {
    SameTemplates(k, t.templates, lib) && SamePairs(t.index, ix, lib.Keys)
  }

  ghost predicate Refines(env: Env, t: Tables, s: Store) {
    Mirrors(env.keying, t, s.lib.records, s.index)
  }

  /** Folding `c` into `v` means the same on both sides. */
  ghost predicate FoldAgrees(k: Keying, t: map<string, Template>, d: Decision, v: string, c: Raw) {
    v in t ==>
      if d == Match then !Hides(k, t[v].components, c)
      else StoredEntries(k, t[v].components).Keys <= StoredEntries(k, c).Keys
  }

  /** Every key has room for the visitor. */
  ghost predicate RoomForKeys(ix: B.Index, cap: nat, keys: seq<Hash32>, v: string) {
    forall key :: key in keys ==> B.Accepts(ix, cap, key, v)
  }

  /** Folding an observation under `keys` means the same on both sides: it means the same for the
      template, there is nothing to evict, every key has room and nothing stale comes back. */
  ghost predicate FoldsAlike(k: Keying, pol: Policy, t: Tables, lib: R.Lib, ix: B.Index, d: Decision, v: string, c: Raw,
                             keys: seq<Hash32>, now: nat) {
    && FoldAgrees(k, t.templates, d, v, c)
    && R.NothingToEvict(lib.records, pol.bounds, v, now)
    && RoomForKeys(ix, pol.maxBlock, keys, v)
    && NothingStale(ix, lib.records.Keys, keys, v)
  }

  /** When one event means the same on both sides. */
  ghost predicate Agrees(env: Env, pol: Policy, t: Tables, s: Store, e: Event) {
    match e
    case Resolved(o, c, now, _, _, _) =>
      o.decision == Review ||
      FoldsAlike(env.keying, pol, t, s.lib, s.index, o.decision, o.visitorId, c,
                 KeysOf(env, StoredEntries(env.keying, c)), now)
    case Erased(_) => true
    case Expired(now, age) => age > 0 || forall id :: id in s.lib.records ==> s.lib.records[id].lastSeen >= now
  }

  // ---- Pairs ----

  /** Indexing keeps the pairs of live visitors the same exactly when every key has room and nothing
      stale comes back. */
  lemma PairsStep(index: set<(Hash32, string)>, ix: B.Index, live: set<string>, cap: nat, keys: seq<Hash32>, v: string)
    requires SamePairs(index, ix, live)
    ensures SamePairs(index + Pairs(keys, v), B.InsertedAll(ix, cap, keys, v), live + {v})
       <==> RoomForKeys(ix, cap, keys, v) && NothingStale(ix, live, keys, v)
  {
    var after := B.InsertedAll(ix, cap, keys, v);
    B.InsertedAllRelation(ix, cap, keys, v);
    if SamePairs(index + Pairs(keys, v), after, live + {v}) {
      forall key | key in keys ensures B.Accepts(ix, cap, key, v) {
        assert (key, v) in index + Pairs(keys, v);
        assert after.Holds(key, v);
      }
    }
    if RoomForKeys(ix, cap, keys, v) {
      PairsWithoutDrops(index, ix, after, live, keys, v);
    }
  }

  lemma PairsWithoutDrops(index: set<(Hash32, string)>, ix: B.Index, after: B.Index, live: set<string>,
                          keys: seq<Hash32>, v: string)
    requires SamePairs(index, ix, live)
    requires forall k, u :: after.Holds(k, u) <==> ix.Holds(k, u) || (u == v && k in keys)
    ensures SamePairs(index + Pairs(keys, v), after, live + {v}) <==> NothingStale(ix, live, keys, v)
  {
    assert forall key, u :: (key, u) in Pairs(keys, v) <==> u == v && key in keys;
    if SamePairs(index + Pairs(keys, v), after, live + {v}) && v !in live {
      forall k | ix.Holds(k, v) ensures k in keys {
        assert after.Holds(k, v);
        assert (k, v) in index + Pairs(keys, v);
      }
    }
  }

  lemma PairsWithout(index: set<(Hash32, string)>, ix: B.Index, live: set<string>, gone: set<string>)
    requires SamePairs(index, ix, live)
    ensures SamePairs((set p | p in index && p.1 !in gone), ix, live - gone)
  {
  }

  // ---- Templates ----

  lemma TemplatesStep(k: Keying, t: Tables, lib: R.Lib, b: R.Bounds, d: Decision, v: string, c: Raw,
                      keys: seq<Hash32>, now: nat, keep: set<string>)
    requires SameTemplates(k, t.templates, lib.records) && d != Review
    requires lib.ValidKeep(b, v, StoredEntries(k, c), now, keep)
    ensures var after := lib.Observed(b, v, StoredEntries(k, c), now, keep).records;
      SameTemplates(k, Persisted(t, d, v, c, keys, now).templates, after) <==>
      FoldAgrees(k, t.templates, d, v, c) && after.Keys == lib.records.Keys + {v}
  {
    var stored := StoredEntries(k, c);
    var after := lib.Observed(b, v, stored, now, keep).records;
    R.ObservedBounds(lib, b, v, stored, now, keep);
    if v in t.templates {
      var e := t.templates[v].components;
      MergesAgree(k, e, c);
      ReplacementAgrees(k, e, c);
    }
    RowStep(k, t, lib.records, d, v, c, keys, now);
    OtherRows(k, t, lib.records, after, d, v, c, keys, now);
  }

  lemma RowStep(k: Keying, t: Tables, lib: R.Library, d: Decision, v: string, c: Raw, keys: seq<Hash32>, now: nat)
    requires SameTemplates(k, t.templates, lib) && d != Review
    ensures SameRecord(k, Persisted(t, d, v, c, keys, now).templates[v],
                       R.Upserted(lib, v, StoredEntries(k, c), now)[v])
       <==> FoldAgrees(k, t.templates, d, v, c)
  {
    if v in t.templates {
      MergesAgree(k, t.templates[v].components, c);
      ReplacementAgrees(k, t.templates[v].components, c);
    }
  }

  lemma OtherRows(k: Keying, t: Tables, lib: R.Library, after: R.Library, d: Decision, v: string, c: Raw,
                  keys: seq<Hash32>, now: nat)
    requires SameTemplates(k, t.templates, lib) && d != Review
    requires v in after && forall id :: id in after && id != v ==> id in lib && after[id] == lib[id]
    ensures var rows := Persisted(t, d, v, c, keys, now).templates;
      SameTemplates(k, rows, after) <==> after.Keys == lib.Keys + {v} && SameRecord(k, rows[v], after[v])
  {
    var rows := Persisted(t, d, v, c, keys, now).templates;
    assert rows.Keys == t.templates.Keys + {v};
    assert forall id :: id in rows && id != v ==> id in t.templates && rows[id] == t.templates[id];
  }

  // ---- One event ----

  /** Templates and pairs together, with the keys taken as given. */
  lemma FoldStep(k: Keying, pol: Policy, t: Tables, lib: R.Lib, ix: B.Index, d: Decision, v: string, c: Raw,
                 keys: seq<Hash32>, now: nat, keep: set<string>)
    requires Mirrors(k, t, lib.records, ix) && d != Review
    requires lib.ValidKeep(pol.bounds, v, StoredEntries(k, c), now, keep)
    ensures Mirrors(k, Persisted(t, d, v, c, keys, now),
                    lib.Observed(pol.bounds, v, StoredEntries(k, c), now, keep).records,
                    B.InsertedAll(ix, pol.maxBlock, keys, v))
       <==> FoldsAlike(k, pol, t, lib, ix, d, v, c, keys, now)
  {
    R.EvictsNothing(lib, pol.bounds, v, StoredEntries(k, c), now, keep);
    TemplatesStep(k, t, lib, pol.bounds, d, v, c, keys, now, keep);
    PairsStep(t.index, ix, lib.records.Keys, pol.maxBlock, keys, v);
  }

  lemma ResolvedStep(env: Env, pol: Policy, t: Tables, s: Store, e: Event)
    requires Refines(env, t, s) && e.Resolved? && Possible(env, pol, s, e)
    ensures Refines(env, EdgeStep(env, t, e), NativeStep(env, pol, s, e)) <==> Agrees(env, pol, t, s, e)
  {
    if e.o.decision != Review {
      var stored := StoredEntries(env.keying, e.components);
      AfterVerdictParts(env, pol, s, e.o, stored, e.now, e.ip, e.ja4, e.keep);
      FoldStep(env.keying, pol, t, s.lib, s.index, e.o.decision, e.o.visitorId, e.components,
               KeysOf(env, stored), e.now, e.keep);
    }
  }

  lemma ExpiredStep(env: Env, pol: Policy, t: Tables, s: Store, now: nat, age: nat)
    requires Refines(env, t, s)
    ensures Refines(env, EdgeStep(env, t, Expired(now, age)), NativeStep(env, pol, s, Expired(now, age)))
       <==> Agrees(env, pol, t, s, Expired(now, age))
  {
    var before, after := s.lib.records, s.lib.Purged(now, age).records;
    var gone := StaleRows(t, now, age);
    if age > 0 {
      assert after.Keys == before.Keys - gone;
      PairsWithout(t.index, s.index, before.Keys, gone);
    } else if Agrees(env, pol, t, s, Expired(now, age)) {
      assert after == before;
    } else {
      var id :| id in before && before[id].lastSeen < now;
      assert id in t.templates && id !in after;
    }
  }

  lemma ErasedStep(env: Env, pol: Policy, t: Tables, s: Store, v: string)
    requires Refines(env, t, s)
    ensures Refines(env, EdgeStep(env, t, Erased(v)), NativeStep(env, pol, s, Erased(v)))
  {
    PairsWithout(t.index, s.index, s.lib.records.Keys, {v});
    B.RemovedRelation(s.index, v);
    assert (s.lib.records - {v}).Keys == s.lib.records.Keys - {v};
  }

  /** One common event keeps the two stores in step exactly when it means the same on both sides:
      nothing is hidden by an unstorable value, a re-minted id loses no component, nothing is evicted,
      dropped or revived, and a purge has a positive age or nothing to take. */
  lemma StepRefines(env: Env, pol: Policy, t: Tables, s: Store, e: Event)
    requires Refines(env, t, s) && Possible(env, pol, s, e)
    ensures Refines(env, EdgeStep(env, t, e), NativeStep(env, pol, s, e)) <==> Agrees(env, pol, t, s, e)
  {
    match e
    case Resolved(_, _, _, _, _, _) => ResolvedStep(env, pol, t, s, e);
    case Erased(v) => ErasedStep(env, pol, t, s, v);
    case Expired(now, age) => ExpiredStep(env, pol, t, s, now, age);
  }

  // ---- Runs ----

  ghost function EdgeRun(env: Env, es: seq<Event>): Tables {
    if es == [] then NO_ROWS else EdgeStep(env, EdgeRun(env, es[..|es| - 1]), es[|es| - 1])
  }

  ghost function NativeRun(env: Env, pol: Policy, es: seq<Event>): Store {
    if es == [] then EMPTY else NativeStep(env, pol, NativeRun(env, pol, es[..|es| - 1]), es[|es| - 1])
  }

  ghost predicate PossibleRun(env: Env, pol: Policy, es: seq<Event>) {
    es == [] || (
      PossibleRun(env, pol, es[..|es| - 1]) && Possible(env, pol, NativeRun(env, pol, es[..|es| - 1]), es[|es| - 1]))
  }

  ghost predicate AlwaysRefines(env: Env, pol: Policy, es: seq<Event>) {
    Refines(env, EdgeRun(env, es), NativeRun(env, pol, es)) && (es == [] || AlwaysRefines(env, pol, es[..|es| - 1]))
  }

  ghost predicate AlwaysAgrees(env: Env, pol: Policy, es: seq<Event>) {
    es == [] || (
      && AlwaysAgrees(env, pol, es[..|es| - 1])
      && Agrees(env, pol, EdgeRun(env, es[..|es| - 1]), NativeRun(env, pol, es[..|es| - 1]), es[|es| - 1]))
  }

  /** Fed the same events, the two stores stay in step throughout exactly when every event means the
      same on both sides. */
  lemma {:induction false} RunRefines(env: Env, pol: Policy, es: seq<Event>)
    requires PossibleRun(env, pol, es)
    ensures AlwaysRefines(env, pol, es) <==> AlwaysAgrees(env, pol, es)
  {
    if es == [] {
      assert SamePairs(NO_ROWS.index, EMPTY.index, {});
    } else {
      var front := es[..|es| - 1];
      RunRefines(env, pol, front);
      if AlwaysRefines(env, pol, front) {
        StepRefines(env, pol, EdgeRun(env, front), NativeRun(env, pol, front), es[|es| - 1]);
      }
    }
  }

  // ---- Recall ----

  /** The edge recalls exactly the live part of what the native index recalls. */
  lemma RecallRefines(env: Env, t: Tables, s: Store, stored: map<string, Stored>)
    requires Refines(env, t, s)
    ensures Matching(t, KeysOf(env, stored)) == Recall(env, s, stored) * s.lib.records.Keys
  {
    var keys := KeysOf(env, stored);
    forall v ensures v in Matching(t, keys) <==> v in Recall(env, s, stored) && v in s.lib.records {
      B.CandidatesAreImage(s.index, keys, v);
      if v in Recall(env, s, stored) && v in s.lib.records {
        var key :| key in keys && s.index.Holds(key, v);
        assert (key, v) in t.index;
      }
    }
  }

  // ---- Templates alone ----

  predicate Storable(k: Keying, c: Raw) {
    StoredEntries(k, c).Keys == c.Keys
  }

  /** What a plain event is, seen from the native side alone: matches carry only storable values, new
      devices are not live yet, there is nothing to evict, purges have a positive age. */
  ghost predicate Plain(env: Env, pol: Policy, s: Store, e: Event) {
    match e
    case Resolved(o, c, now, _, _, _) =>
      && (o.decision != Review ==> R.NothingToEvict(s.lib.records, pol.bounds, o.visitorId, now))
      && (o.decision == Match ==> Storable(env.keying, c))
      && (o.decision == NewDevice ==> o.visitorId !in s.lib.records)
    case Erased(_) => true
    case Expired(_, age) => age > 0
  }

  ghost predicate PlainRun(env: Env, pol: Policy, es: seq<Event>) {
    es == [] || (
      && PlainRun(env, pol, es[..|es| - 1])
      && Plain(env, pol, NativeRun(env, pol, es[..|es| - 1]), es[|es| - 1])
      && Possible(env, pol, NativeRun(env, pol, es[..|es| - 1]), es[|es| - 1]))
  }

  lemma PlainFold(k: Keying, t: Tables, lib: R.Lib, b: R.Bounds, d: Decision, v: string, c: Raw, keys: seq<Hash32>,
                  now: nat, keep: set<string>)
    requires SameTemplates(k, t.templates, lib.records) && d != Review
    requires lib.ValidKeep(b, v, StoredEntries(k, c), now, keep) && R.NothingToEvict(lib.records, b, v, now)
    requires (d == Match ==> Storable(k, c)) && (d == NewDevice ==> v !in lib.records)
    ensures SameTemplates(k, Persisted(t, d, v, c, keys, now).templates,
                          lib.Observed(b, v, StoredEntries(k, c), now, keep).records)
  {
    R.EvictsNothing(lib, b, v, StoredEntries(k, c), now, keep);
    TemplatesStep(k, t, lib, b, d, v, c, keys, now, keep);
    if d == Match && v in t.templates {
      forall name | name in c ensures name in StoredEntries(k, c) {
        assert name in c.Keys;
      }
    }
  }

  lemma PlainStep(env: Env, pol: Policy, t: Tables, s: Store, e: Event)
    requires Plain(env, pol, s, e) && Possible(env, pol, s, e)
    requires SameTemplates(env.keying, t.templates, s.lib.records)
    ensures SameTemplates(env.keying, EdgeStep(env, t, e).templates, NativeStep(env, pol, s, e).lib.records)
  {
    if e.Resolved? && e.o.decision != Review {
      var stored := StoredEntries(env.keying, e.components);
      AfterVerdictParts(env, pol, s, e.o, stored, e.now, e.ip, e.ja4, e.keep);
      PlainFold(env.keying, t, s.lib, pol.bounds, e.o.decision, e.o.visitorId, e.components, KeysOf(env, stored),
                e.now, e.keep);
    }
  }

  /** Over every plain run, whatever the native limits, template, first and last sighting and observation
      count agree, whatever the blocking index drops or revives. */
  lemma {:induction false} PlainRunsKeepTemplates(env: Env, pol: Policy, es: seq<Event>)
    requires PlainRun(env, pol, es)
    ensures SameTemplates(env.keying, EdgeRun(env, es).templates, NativeRun(env, pol, es).lib.records)
  {
    if es != [] {
      var front := es[..|es| - 1];
      PlainRunsKeepTemplates(env, pol, front);
      PlainStep(env, pol, EdgeRun(env, front), NativeRun(env, pol, front), es[|es| - 1]);
    }
  }

  // ---- The store ----

  /** What recall may return: as many of the matching visitors as the limit allows, each once, with
      the raw components stored for it. */
  ghost predicate Recalled(t: Tables, keys: seq<Hash32>, limit: nat, rows: seq<(string, Raw)>) {
    && |rows| == Min(limit, |Matching(t, keys)|)
    && (forall i, j :: 0 <= i < j < |rows| ==> rows[i].0 != rows[j].0)
    && (forall row :: row in rows ==> row.0 in Matching(t, keys) && row.1 == t.templates[row.0].components)
  }

  ghost function Ids(rows: seq<(string, Raw)>): set<string> {
    set row | row in rows :: row.0
  }

  /** Unless the limit truncates it, recall returns every matching visitor. */
  lemma RecallComplete(t: Tables, keys: seq<Hash32>, limit: nat, rows: seq<(string, Raw)>)
    requires Recalled(t, keys, limit, rows)
    ensures |Matching(t, keys)| <= limit <==> Ids(rows) == Matching(t, keys)
  {
    IdsCount(rows);
    SubsetSize(Ids(rows), Matching(t, keys));
  }

  lemma {:induction false} IdsCount(rows: seq<(string, Raw)>)
    requires forall i, j :: 0 <= i < j < |rows| ==> rows[i].0 != rows[j].0
    ensures |Ids(rows)| == |rows|
  {
    if rows != [] {
      var front, last := rows[..|rows| - 1], rows[|rows| - 1];
      assert rows == front + [last];
      IdsCount(front);
      assert Ids(rows) == Ids(front) + {last.0};
    }
  }

  class D1FingerprintStore {
    var templates: map<string, Template>
    var blockingIndex: set<(Hash32, string)>
    const maxBlock: nat

    function View(): Tables
      reads this
    {
      Tables(templates, blockingIndex)
    }

    constructor (limit: nat)
      ensures View() == NO_ROWS && maxBlock == limit
    {
      templates, blockingIndex, maxBlock := map[], {}, limit;
    }

    /** The join of templates and index rows, distinct, in whatever order the database lists it. */
    method RecallRows(keys: seq<Hash32>) returns (rows: seq<(string, Raw)>)
      ensures Recalled(View(), keys, maxBlock, rows)
    {
      rows := [];
      if keys == [] {
        assert Matching(View(), keys) == {};
        return;
      }
      var todo := Matching(View(), keys);
      ghost var all := todo;
      while todo != {} && |rows| < maxBlock
        invariant todo <= all && |rows| + |todo| == |all| && |rows| <= maxBlock
        invariant forall i, j :: 0 <= i < j < |rows| ==> rows[i].0 != rows[j].0
        invariant forall row :: row in rows ==> row.0 in all - todo && row.1 == templates[row.0].components
        decreases todo
      {
        var id :| id in todo;
        rows := rows + [(id, templates[id].components)];
        todo := todo - {id};
      }
    }

    method WriteTemplate(visitor: string, components: Raw, keys: seq<Hash32>, now: nat)
      modifies this
      ensures View() == Written(old(View()), visitor, components, keys, now)
    {
      if visitor in templates {
        var row := templates[visitor];
        templates := templates[visitor := Template(components, row.firstSeen, now, row.count + 1)];
      } else {
        templates := templates[visitor := Template(components, now, now, 1)];
      }
      for i := 0 to |keys|
        invariant View() == Tables(Written(old(View()), visitor, components, keys, now).templates,
                                   old(blockingIndex) + Pairs(keys[..i], visitor))
      {
        assert Pairs(keys[..i + 1], visitor) == Pairs(keys[..i], visitor) + {(keys[i], visitor)};
        blockingIndex := blockingIndex + {(keys[i], visitor)};
      }
      assert keys[..|keys|] == keys;
    }

    method Persist(o: Outcome, components: Raw, keys: seq<Hash32>, now: nat)
      modifies this
      ensures View() == Persisted(old(View()), o.decision, o.visitorId, components, keys, now)
    {
      if o.decision == Review {
        return;
      }
      var toStore := components;
      if o.decision == Match && o.visitorId in templates {
        toStore := templates[o.visitorId].components + components;
      }
      WriteTemplate(o.visitorId, toStore, keys, now);
    }

    method EraseVisitor(visitor: string)
      modifies this
      ensures View() == Dropped(old(View()), {visitor})
    {
      templates := templates - {visitor};
      blockingIndex := set p | p in blockingIndex && p.1 != visitor;
    }

    method PurgeOlderThan(now: nat, maxAge: int) returns (purged: nat)
      modifies this
      ensures View() == Purged(old(View()), now, maxAge)
      ensures purged == |old(templates)| - |templates|
    {
      if maxAge <= 0 {
        return 0;
      }
      var stale := StaleRows(View(), now, maxAge);
      purged := |stale|;
      SizeOf(templates);
      SizeOf(templates - stale);
      assert (templates - stale).Keys == templates.Keys - stale;
      blockingIndex := set p | p in blockingIndex && p.1 !in stale;
      templates := templates - stale;
    }
  }
}
