// The fingerprint library `visitor -> template` (crates/fp-core/src/fuzzy/record.rs).
module Records {
  import opened Basics
  import opened Component

  datatype Record = Record(
    components: map<string, Stored>,
    freshness: map<string, nat>,
    firstSeen: nat,
    lastSeen: nat,
    count: nat)

  type Library = map<string, Record>

  function Stamp(names: set<string>, now: nat): map<string, nat> {
    map name | name in names :: now
  }

  function Created(stored: map<string, Stored>, now: nat): Record {
    Record(stored, Stamp(stored.Keys, now), now, now, 1)
  }

  /** The new observation overwrites what it carries and keeps the rest. */
  function Folded(r: Record, stored: map<string, Stored>, now: nat): Record {
    Record(r.components + stored, r.freshness + Stamp(stored.Keys, now), r.firstSeen, now, r.count + 1)
  }

  function Upserted(lib: Library, visitor: string, stored: map<string, Stored>, now: nat): Library {
    lib[visitor := if visitor in lib then Folded(lib[visitor], stored, now) else Created(stored, now)]
  }

  predicate Aged(r: Record, now: nat, age: nat) {
    SatSub(now, r.lastSeen) > age
  }

  /** The records not aged out; no limit keeps everything. */
  function Unaged(lib: Library, now: nat, age: Option<nat>): Library {
    map id | id in lib && !(age.Some? && Aged(lib[id], now, age.value)) :: lib[id]
  }

  function Restricted(lib: Library, keep: set<string>): Library {
    map id | id in lib && id in keep :: lib[id]
  }

  /** What evicting the oldest entries one at a time may leave, however ties are broken: the
      visitor stays, no more go than the cap asks for, and none that went was seen later than
      another that stayed. */
  predicate CapSurvivors(lib: Library, visitor: string, cap: Option<nat>, keep: set<string>) {
    && keep <= lib.Keys && visitor in keep
    && (cap.None? ==> keep == lib.Keys)
    && (cap.Some? ==>
        && |keep| == Min(|lib|, Max(cap.value, 1))
        && forall gone, stay :: gone in lib.Keys - keep && stay in keep && stay != visitor ==>
             lib[gone].lastSeen <= lib[stay].lastSeen)
  }

  datatype Bounds = Bounds(cap: Option<nat>, ttl: Option<nat>)

  const UNBOUNDED: Bounds := Bounds(None, None)

  datatype Lib = Lib(records: Library, evicted: nat) {
    function AfterTtl(b: Bounds, visitor: string, stored: map<string, Stored>, now: nat): Library {
      Unaged(Upserted(records, visitor, stored, now), now, b.ttl)
    }

    predicate ValidKeep(b: Bounds, visitor: string, stored: map<string, Stored>, now: nat, keep: set<string>) {
      CapSurvivors(AfterTtl(b, visitor, stored, now), visitor, b.cap, keep)
    }

    function Observed(b: Bounds, visitor: string, stored: map<string, Stored>, now: nat, keep: set<string>): Lib {
      var kept := Restricted(AfterTtl(b, visitor, stored, now), keep);
      var gone := |Upserted(records, visitor, stored, now)| - |kept|;
      Lib(kept, evicted + Max(gone, 0))
    }

    function Purged(now: nat, age: nat): Lib {
      var kept := Unaged(records, now, Some(age));
      Lib(kept, evicted + Max(|records| - |kept|, 0))
    }

    function Removed(visitor: string): Lib {
      Lib(records - {visitor}, evicted)
    }
  }

  const EMPTY: Lib := Lib(map[], 0)

  lemma SubmapSize(m: Library, n: Library)
    requires m.Keys <= n.Keys
    ensures |m| <= |n|
  {
    SizeOf(m);
    SizeOf(n);
    SubsetSize(m.Keys, n.Keys);
  }

  /** After every observation: the visitor is live and holds this observation, the cap (at least
      one) is respected, every survivor is within the retention window, survivors are unchanged,
      and nobody evicted by the cap was seen later than another survivor. */
  lemma ObservedBounds(lib: Lib, b: Bounds, visitor: string, stored: map<string, Stored>, now: nat, keep: set<string>)
    requires lib.ValidKeep(b, visitor, stored, now, keep)
    ensures var after := lib.Observed(b, visitor, stored, now, keep).records;
      && visitor in after && after[visitor] == Upserted(lib.records, visitor, stored, now)[visitor]
      && after.Keys == keep
      && (forall id :: id in after && id != visitor ==> id in lib.records && after[id] == lib.records[id])
      && (b.cap.Some? ==> |after| <= Max(b.cap.value, 1))
      && (b.ttl.Some? ==> forall id :: id in after ==> !Aged(after[id], now, b.ttl.value))
      && (forall gone, stay ::
            gone in lib.records && gone !in after && stay in after && stay != visitor ==>
              lib.records[gone].lastSeen <= after[stay].lastSeen)
  {
    var mid := lib.AfterTtl(b, visitor, stored, now);
    var after := Restricted(mid, keep);
    assert after.Keys == keep;
    SizeOf(after);
    forall gone, stay | gone in lib.records && gone !in after && stay in after && stay != visitor
      ensures lib.records[gone].lastSeen <= after[stay].lastSeen
    {
      assert stay in mid && mid[stay] == lib.records[stay];
      if gone in mid {
        assert gone != visitor && gone in mid.Keys - keep && mid[gone] == lib.records[gone];
      }
    }
  }

  /** No other record is past the window, and there is room for the visitor. */
  predicate NothingToEvict(lib: Library, b: Bounds, visitor: string, now: nat) {
    && (b.ttl.Some? ==> forall id :: id in lib && id != visitor ==> !Aged(lib[id], now, b.ttl.value))
    && (b.cap.Some? ==> |lib.Keys + {visitor}| <= Max(b.cap.value, 1))
  }

  lemma KeepsEveryone(lib: Lib, b: Bounds, visitor: string, stored: map<string, Stored>, now: nat, keep: set<string>)
    requires lib.ValidKeep(b, visitor, stored, now, keep)
    requires NothingToEvict(lib.records, b, visitor, now)
    ensures keep == lib.records.Keys + {visitor}
  {
    var mid := lib.AfterTtl(b, visitor, stored, now);
    assert mid.Keys == lib.records.Keys + {visitor};
    SizeOf(mid);
    SubsetSize(keep, mid.Keys);
  }

  lemma KeptEveryone(lib: Lib, b: Bounds, visitor: string, stored: map<string, Stored>, now: nat, keep: set<string>)
    requires lib.ValidKeep(b, visitor, stored, now, keep)
    requires keep == lib.records.Keys + {visitor}
    ensures NothingToEvict(lib.records, b, visitor, now)
  {
    var mid := lib.AfterTtl(b, visitor, stored, now);
    SizeOf(mid);
    assert keep <= mid.Keys;
    forall id | id in lib.records && id != visitor ensures id in mid && mid[id] == lib.records[id] {
      assert id in keep;
    }
    assert mid.Keys == keep;
  }

  /** An observation leaves everyone in place exactly when there was nothing to evict. */
  lemma EvictsNothing(lib: Lib, b: Bounds, visitor: string, stored: map<string, Stored>, now: nat, keep: set<string>)
    requires lib.ValidKeep(b, visitor, stored, now, keep)
    ensures lib.Observed(b, visitor, stored, now, keep).records.Keys == lib.records.Keys + {visitor}
       <==> NothingToEvict(lib.records, b, visitor, now)
  {
    assert lib.Observed(b, visitor, stored, now, keep).records.Keys == keep;
    if NothingToEvict(lib.records, b, visitor, now) {
      KeepsEveryone(lib, b, visitor, stored, now, keep);
    } else if keep == lib.records.Keys + {visitor} {
      KeptEveryone(lib, b, visitor, stored, now, keep);
    }
  }

  lemma SizeOne(lib: Library, v: string)
    requires lib.Keys == {v}
    ensures |lib| == 1
  {
    SizeOf(lib);
  }

  // ---- Runs ----

  datatype Op =
    | Observe(visitor: string, stored: map<string, Stored>, now: nat, keep: set<string>)
    | Remove(visitor: string)
    | Purge(now: nat, age: nat)

  function Step(lib: Lib, b: Bounds, op: Op): Lib {
    match op
    case Observe(v, stored, now, keep) => lib.Observed(b, v, stored, now, keep)
    case Remove(v) => lib.Removed(v)
    case Purge(now, age) => lib.Purged(now, age)
  }

  function Run(b: Bounds, ops: seq<Op>): Lib {
    if ops == [] then EMPTY else Step(Run(b, ops[..|ops| - 1]), b, ops[|ops| - 1])
  }

  predicate StepValid(lib: Lib, b: Bounds, op: Op) {
    op.Observe? ==> lib.ValidKeep(b, op.visitor, op.stored, op.now, op.keep)
  }

  predicate Valid(b: Bounds, ops: seq<Op>) {
    ops == [] || (Valid(b, ops[..|ops| - 1]) && StepValid(Run(b, ops[..|ops| - 1]), b, ops[|ops| - 1]))
  }

  /** Records created, and records removed by erasure, over a run. */
  function Creations(b: Bounds, ops: seq<Op>): nat {
    if ops == [] then 0
    else
      var front, last := ops[..|ops| - 1], ops[|ops| - 1];
      Creations(b, front) + if last.Observe? && last.visitor !in Run(b, front).records then 1 else 0
  }

  function Removals(b: Bounds, ops: seq<Op>): nat {
    if ops == [] then 0
    else
      var front, last := ops[..|ops| - 1], ops[|ops| - 1];
      Removals(b, front) + if last.Remove? && last.visitor in Run(b, front).records then 1 else 0
  }

  lemma ObserveConserves(lib: Lib, b: Bounds, v: string, stored: map<string, Stored>, now: nat, keep: set<string>)
    ensures var after := lib.Observed(b, v, stored, now, keep);
      |after.records| + after.evicted == |lib.records| + lib.evicted + if v in lib.records then 0 else 1
  {
    var up := Upserted(lib.records, v, stored, now);
    SizeOf(up);
    SizeOf(lib.records);
    assert up.Keys == lib.records.Keys + {v};
    SubmapSize(Restricted(lib.AfterTtl(b, v, stored, now), keep), up);
  }

  /** Every record ever created is live, evicted or removed, and never two of these. */
  lemma {:induction false} RecordsConserved(b: Bounds, ops: seq<Op>)
    ensures Creations(b, ops) == |Run(b, ops).records| + Run(b, ops).evicted + Removals(b, ops)
  {
    if ops != [] {
      var front, last := ops[..|ops| - 1], ops[|ops| - 1];
      var lib := Run(b, front);
      RecordsConserved(b, front);
      match last
      case Observe(v, stored, now, keep) =>
        ObserveConserves(lib, b, v, stored, now, keep);
      case Remove(v) =>
        SizeOf(lib.records);
        SizeOf(lib.records - {v});
        assert (lib.records - {v}).Keys == lib.records.Keys - {v};
      case Purge(now, age) =>
        SubmapSize(Unaged(lib.records, now, Some(age)), lib.records);
    }
  }

  /** In every reachable library the cap holds. */
  lemma CapHolds(b: Bounds, ops: seq<Op>)
    requires b.cap.Some? && Valid(b, ops)
    ensures |Run(b, ops).records| <= Max(b.cap.value, 1)
  {
    if ops != [] {
      var front, last := ops[..|ops| - 1], ops[|ops| - 1];
      var lib := Run(b, front);
      CapHolds(b, front);
      match last
      case Observe(v, stored, now, keep) => ObservedBounds(lib, b, v, stored, now, keep);
      case Remove(v) => SubmapSize(lib.records - {v}, lib.records);
      case Purge(now, age) => SubmapSize(Unaged(lib.records, now, Some(age)), lib.records);
    }
  }

  // ---- The store ----

  /** An entry other than the visitor that no other such entry is older than. */
  predicate IsOldest(lib: Library, visitor: string, oldest: string) {
    && oldest in lib && oldest != visitor
    && forall id :: id in lib && id != visitor ==> lib[oldest].lastSeen <= lib[id].lastSeen
  }

  /** Evicting one oldest entry is consistent with the survivors that follow. */
  lemma EvictOne(lib: Library, visitor: string, cap: nat, oldest: string, keep: set<string>)
    requires visitor in lib && |lib| > cap
    requires IsOldest(lib, visitor, oldest)
    requires CapSurvivors(lib - {oldest}, visitor, Some(cap), keep)
    ensures CapSurvivors(lib, visitor, Some(cap), keep)
    ensures Restricted(lib, keep) == Restricted(lib - {oldest}, keep)
  {
    var rest := lib - {oldest};
    SizeOf(lib);
    SizeOf(rest);
    assert rest.Keys == lib.Keys - {oldest};
    SubsetSize({visitor, oldest}, lib.Keys);
    forall gone, stay | gone in lib.Keys - keep && stay in keep && stay != visitor
      ensures lib[gone].lastSeen <= lib[stay].lastSeen
    {
      if gone != oldest {
        assert gone in rest.Keys - keep;
      }
    }
  }

  class RecordStore {
    var records: Library
    var evicted: nat
    const bounds: Bounds

    function View(): Lib
      reads this
    {
      Lib(records, evicted)
    }

    constructor (b: Bounds)
      ensures View() == EMPTY && bounds == b
    {
      records, evicted, bounds := map[], 0, b;
    }

    /** Overwrite each component the observation carries, bumping its freshness. */
    method FoldInto(r: Record, stored: map<string, Stored>, now: nat) returns (folded: Record)
      ensures folded == Folded(r, stored, now)
    {
      var components, freshness := r.components, r.freshness;
      var todo := stored.Keys;
      ghost var stamps, done: set<string> := Stamp(stored.Keys, now), {};
      while todo != {}
        invariant done == stored.Keys - todo && todo <= stored.Keys
        invariant components == r.components + Restrict(stored, done)
        invariant freshness == r.freshness + Restrict(stamps, done)
        decreases todo
      {
        var name := Least(todo);
        OverlayStep(r.components, stored, done, name);
        OverlayStep(r.freshness, stamps, done, name);
        freshness := freshness[name := now];
        components := components[name := stored[name]];
        todo, done := todo - {name}, done + {name};
      }
      assert Restrict(stored, done) == stored && Restrict(stamps, done) == stamps;
      folded := Record(components, freshness, r.firstSeen, now, r.count + 1);
    }

    /** Upsert, then enforce the retention window and the cap. */
    method ObserveVisitor(visitor: string, stored: map<string, Stored>, now: nat)
      returns (isNew: bool, ghost keep: set<string>)
      modifies this
      ensures old(View()).ValidKeep(bounds, visitor, stored, now, keep)
      ensures View() == old(View()).Observed(bounds, visitor, stored, now, keep)
      ensures isNew <==> visitor !in old(records)
    {
      ghost var before := View();
      isNew := visitor !in records;
      if isNew {
        records := records[visitor := Created(stored, now)];
      } else {
        var folded := FoldInto(records[visitor], stored, now);
        records := records[visitor := folded];
      }
      assert records == Upserted(before.records, visitor, stored, now);
      keep := Evict(visitor, now);
    }

    /** Drop what the window no longer covers, then the oldest entries above the cap; the entry just
        observed is never dropped. */
    method Evict(visitor: string, now: nat) returns (ghost keep: set<string>)
      requires visitor in records && records[visitor].lastSeen == now
      modifies this
      ensures CapSurvivors(Unaged(old(records), now, bounds.ttl), visitor, bounds.cap, keep)
      ensures records == Restricted(Unaged(old(records), now, bounds.ttl), keep)
      ensures evicted == old(evicted) + Max(|old(records)| - |records|, 0)
    {
      var size := |records|;
      if bounds.ttl.Some? {
        records := map id | id in records && !Aged(records[id], now, bounds.ttl.value) :: records[id];
      }
      assert records == Unaged(old(records), now, bounds.ttl);
      SubmapSize(records, old(records));
      ghost var mid := records;
      keep := records.Keys;
      if bounds.cap.Some? {
        records, keep := EvictToCap(records, visitor, bounds.cap.value);
      }
      assert Restricted(mid, keep) == records;
      SubmapSize(records, mid);
      if size > |records| {
        evicted := evicted + (size - |records|);
      }
    }

    static method EvictToCap(lib: Library, visitor: string, cap: nat) returns (kept: Library, ghost keep: set<string>)
      requires visitor in lib
      ensures CapSurvivors(lib, visitor, Some(cap), keep) && kept == Restricted(lib, keep)
      ensures visitor in kept && |kept| == Min(|lib|, Max(cap, 1))
      ensures forall id :: id in kept ==> id in lib && kept[id] == lib[id]
    {
      kept := lib;
      ghost var chain: seq<Library> := [lib];
      while |kept| > cap && kept.Keys != {visitor}
        invariant visitor in kept && chain != [] && chain[0] == lib && chain[|chain| - 1] == kept
        invariant forall i :: 0 <= i < |chain| - 1 ==> Evicts(chain[i], chain[i + 1], visitor, cap)
        decreases |kept|
      {
        AnotherEntry(kept, visitor);
        var oldest :| oldest in kept && IsOldest(kept, visitor, oldest);
        assert Evicts(kept, kept - {oldest}, visitor, cap);
        kept := kept - {oldest};
        chain := chain + [kept];
      }
      keep := kept.Keys;
      SizeOf(kept);
      assert CapSurvivors(kept, visitor, Some(cap), keep);
      assert Restricted(kept, keep) == kept;
      ChainSurvivors(chain, visitor, cap, keep);
    }

    method RemoveRecord(visitor: string) returns (existed: bool)
      modifies this
      ensures View() == old(View()).Removed(visitor)
      ensures existed <==> visitor in old(records)
    {
      existed := visitor in records;
      records := records - {visitor};
    }

    method PurgeOlderThan(now: nat, age: nat) returns (purged: nat)
      modifies this
      ensures View() == old(View()).Purged(now, age)
      ensures purged == |old(records)| - |records|
    {
      var size := |records|;
      records := map id | id in records && !Aged(records[id], now, age) :: records[id];
      assert records == Unaged(old(records), now, Some(age));
      SubmapSize(records, old(records));
      purged := size - |records|;
      if purged > 0 {
        evicted := evicted + purged;
      }
    }
  }

  function Restrict<V>(m: map<string, V>, names: set<string>): map<string, V> {
    map name | name in m && name in names :: m[name]
  }

  ghost predicate Evicts(lib: Library, rest: Library, visitor: string, cap: nat) {
    && visitor in lib && |lib| > cap
    && exists oldest :: IsOldest(lib, visitor, oldest) && rest == lib - {oldest}
  }

  lemma {:induction false} ChainSurvivors(chain: seq<Library>, visitor: string, cap: nat, keep: set<string>)
    requires chain != []
    requires forall i :: 0 <= i < |chain| - 1 ==> Evicts(chain[i], chain[i + 1], visitor, cap)
    requires CapSurvivors(chain[|chain| - 1], visitor, Some(cap), keep)
    ensures CapSurvivors(chain[0], visitor, Some(cap), keep)
    ensures Restricted(chain[0], keep) == Restricted(chain[|chain| - 1], keep)
  {
    if |chain| > 1 {
      assert Evicts(chain[0], chain[1], visitor, cap);
      ChainSurvivors(chain[1..], visitor, cap, keep);
      var oldest :| IsOldest(chain[0], visitor, oldest) && chain[1] == chain[0] - {oldest};
      EvictOne(chain[0], visitor, cap, oldest, keep);
    }
  }

  /** No entry of `ids` is older than `x`. */
  ghost predicate OldestOf(lib: Library, ids: set<string>, x: string)
    requires ids <= lib.Keys
  {
    x in ids && forall id :: id in ids ==> lib[x].lastSeen <= lib[id].lastSeen
  }

  lemma {:induction false} OldestExists(lib: Library, ids: set<string>) returns (z: string)
    requires ids <= lib.Keys && ids != {}
    ensures OldestOf(lib, ids, z)
  {
    var x :| x in ids;
    if ids - {x} == {} {
      assert ids == {x};
      z := x;
    } else {
      var y := OldestExists(lib, ids - {x});
      z := if lib[x].lastSeen <= lib[y].lastSeen then x else y;
      forall id | id in ids ensures lib[z].lastSeen <= lib[id].lastSeen {
        assert id == x || id in ids - {x};
      }
    }
  }

  lemma AnotherEntry(lib: Library, visitor: string)
    requires visitor in lib && lib.Keys != {visitor}
    ensures exists oldest :: oldest in lib && IsOldest(lib, visitor, oldest)
  {
    var others := lib.Keys - {visitor};
    assert lib.Keys == others + {visitor};
    var oldest := OldestExists(lib, others);
    assert IsOldest(lib, visitor, oldest) by {
      forall id | id in lib && id != visitor ensures lib[oldest].lastSeen <= lib[id].lastSeen {
        assert id in others;
      }
    }
  }

  lemma OverlayStep<V>(base: map<string, V>, over: map<string, V>, done: set<string>, name: string)
    requires name in over
    ensures (base + Restrict(over, done))[name := over[name]] == base + Restrict(over, done + {name})
  {
  }
}
