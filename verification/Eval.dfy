// The offline evaluation harness (crates/fp-core/src/fuzzy/eval.rs): a labelled fixture is
// replayed round-robin through the matcher and each resolution is tallied.
module Eval {
  import opened Basics
  import opened Component
  import opened Engine
  import FuzzyStores
  import Scoring
  import Templates

  datatype DeviceGroup = DeviceGroup(deviceId: string, observations: seq<Json>)

  type Devices = seq<DeviceGroup>

  /** Which device, and which of its visits. */
  type Position = (nat, nat)

  // ---- Interleaving ----

  function MaxVisits(ds: Devices): nat {
    if ds == [] then 0 else Max(MaxVisits(ds[..|ds| - 1]), |ds[|ds| - 1].observations|)
  }

  /** The devices, in order, that have a visit number `r`. */
  function Round(ds: Devices, r: nat): seq<Position> {
    if ds == [] then []
    else
      var n := |ds| - 1;
      Round(ds[..n], r) + if r < |ds[n].observations| then [(n, r)] else []
  }

  function Rounds(ds: Devices, n: nat): seq<Position> {
    if n == 0 then [] else Rounds(ds, n - 1) + Round(ds, n - 1)
  }

  function Interleaving(ds: Devices): seq<Position> {
    Rounds(ds, MaxVisits(ds))
  }

  predicate Exists(ds: Devices, p: Position) {
    p.0 < |ds| && p.1 < |ds[p.0].observations|
  }

  /** `ps` lists, once each, the existing positions of the visits from `low` up to `high`. */
  ghost predicate Lists(ds: Devices, ps: seq<Position>, low: nat, high: nat) {
    NoDup(ps) && forall p: Position :: p in ps <==> low <= p.1 < high && Exists(ds, p)
  }

  lemma {:induction false} RoundMembers(ds: Devices, r: nat)
    ensures Lists(ds, Round(ds, r), r, r + 1)
  {
    if ds != [] {
      RoundMembers(ds[..|ds| - 1], r);
    }
  }

  /** Rounds below `r`, then round `r`. */
  lemma RoundsStep(ds: Devices, a: seq<Position>, b: seq<Position>, r: nat)
    ensures Lists(ds, a, 0, r) && Lists(ds, b, r, r + 1) ==> Lists(ds, a + b, 0, r + 1)
  {
    if Lists(ds, a, 0, r) && Lists(ds, b, r, r + 1) {
      forall i, j | 0 <= i < j < |a + b| ensures (a + b)[i] != (a + b)[j] {
        if i < |a| <= j {
          assert a[i] in a && b[j - |a|] in b;
        }
      }
    }
  }

  lemma {:induction false} RoundsMembers(ds: Devices, n: nat)
    ensures Lists(ds, Rounds(ds, n), 0, n)
  {
    if n > 0 {
      var m := n - 1;
      RoundsMembers(ds, m);
      RoundMembers(ds, m);
      RoundsStep(ds, Rounds(ds, m), Round(ds, m), m);
    }
  }

  lemma {:induction false} VisitsWithinMax(ds: Devices, d: nat)
    requires d < |ds|
    ensures |ds[d].observations| <= MaxVisits(ds)
  {
    if d < |ds| - 1 { VisitsWithinMax(ds[..|ds| - 1], d); }
  }

  /** Every observation is yielded exactly once. */
  lemma EachObservationOnce(ds: Devices)
    ensures NoDup(Interleaving(ds))
    ensures forall p: Position :: p in Interleaving(ds) <==> Exists(ds, p)
  {
    RoundsMembers(ds, MaxVisits(ds));
    forall p: Position | Exists(ds, p) ensures p.1 < MaxVisits(ds) {
      VisitsWithinMax(ds, p.0);
    }
  }

  /** The visits of device `d`, in the order they come. */
  function VisitsOf(ps: seq<Position>, d: nat): seq<nat> {
    if ps == [] then []
    else VisitsOf(ps[..|ps| - 1], d) + if ps[|ps| - 1].0 == d then [ps[|ps| - 1].1] else []
  }

  function UpTo(n: nat): seq<nat> {
    seq(n, i => i)
  }

  lemma {:induction false} VisitsOfSum(a: seq<Position>, b: seq<Position>, d: nat)
    ensures VisitsOf(a + b, d) == VisitsOf(a, d) + VisitsOf(b, d)
  {
    if b == [] {
      assert a + b == a;
    } else {
      var front := b[..|b| - 1];
      VisitsOfSum(a, front, d);
      assert (a + b)[..|a + b| - 1] == a + front;
    }
  }

  lemma {:induction false} VisitsOfRound(ds: Devices, r: nat, d: nat)
    ensures VisitsOf(Round(ds, r), d) == if Exists(ds, (d, r)) then [r] else []
  {
    if ds != [] {
      var n := |ds| - 1;
      VisitsOfRound(ds[..n], r, d);
      VisitsOfSum(Round(ds[..n], r), if r < |ds[n].observations| then [(n, r)] else [], d);
    }
  }

  lemma VisitsExtend(n: nat, size: nat)
    ensures UpTo(Min(n + 1, size)) == UpTo(Min(n, size)) + if n < size then [n] else []
  {
  }

  lemma VisitsStep(ds: Devices, m: nat, d: nat)
    requires d < |ds| && VisitsOf(Rounds(ds, m), d) == UpTo(Min(m, |ds[d].observations|))
    ensures VisitsOf(Rounds(ds, m + 1), d) == UpTo(Min(m + 1, |ds[d].observations|))
  {
    assert Rounds(ds, m + 1) == Rounds(ds, m) + Round(ds, m);
    VisitsOfRound(ds, m, d);
    VisitsOfSum(Rounds(ds, m), Round(ds, m), d);
    VisitsExtend(m, |ds[d].observations|);
  }

  lemma {:induction false} VisitsOfRounds(ds: Devices, n: nat, d: nat)
    requires d < |ds|
    ensures VisitsOf(Rounds(ds, n), d) == UpTo(Min(n, |ds[d].observations|))
  {
    if n > 0 {
      var m := n - 1;
      VisitsOfRounds(ds, m, d);
      VisitsStep(ds, m, d);
    }
  }

  /** Each device's visits come in their own order, all of them. */
  lemma DeviceOrderKept(ds: Devices, d: nat)
    requires d < |ds|
    ensures VisitsOf(Interleaving(ds), d) == UpTo(|ds[d].observations|)
  {
    VisitsWithinMax(ds, d);
    VisitsOfRounds(ds, MaxVisits(ds), d);
  }

  function TotalUpTo(ds: Devices, n: nat): nat {
    if ds == [] then 0 else TotalUpTo(ds[..|ds| - 1], n) + Min(n, |ds[|ds| - 1].observations|)
  }

  function Total(ds: Devices): nat {
    if ds == [] then 0 else Total(ds[..|ds| - 1]) + |ds[|ds| - 1].observations|
  }

  lemma {:induction false} RoundSize(ds: Devices, r: nat)
    ensures |Round(ds, r)| + TotalUpTo(ds, r) == TotalUpTo(ds, r + 1)
  {
    if ds != [] { RoundSize(ds[..|ds| - 1], r); }
  }

  lemma {:induction false} RoundsSize(ds: Devices, n: nat)
    ensures |Rounds(ds, n)| == TotalUpTo(ds, n)
  {
    if n == 0 {
      NoneUpToZero(ds);
    } else {
      var m := n - 1;
      RoundsSize(ds, m);
      RoundSize(ds, m);
      assert Rounds(ds, n) == Rounds(ds, m) + Round(ds, m);
    }
  }

  lemma {:induction false} NoneUpToZero(ds: Devices)
    ensures TotalUpTo(ds, 0) == 0
  {
    if ds != [] { NoneUpToZero(ds[..|ds| - 1]); }
  }

  lemma {:induction false} AllUpTo(ds: Devices, n: nat)
    requires MaxVisits(ds) <= n
    ensures TotalUpTo(ds, n) == Total(ds)
  {
    if ds != [] { AllUpTo(ds[..|ds| - 1], n); }
  }

  lemma InterleavingSize(ds: Devices)
    ensures |Interleaving(ds)| == Total(ds)
  {
    RoundsSize(ds, MaxVisits(ds));
    AllUpTo(ds, MaxVisits(ds));
  }

  predicate AllExist(ds: Devices, ps: seq<Position>) {
    forall i :: 0 <= i < |ps| ==> Exists(ds, ps[i])
  }

  function Items(ds: Devices, ps: seq<Position>): seq<(string, Json)>
    requires AllExist(ds, ps)
  {
    seq(|ps|, i requires 0 <= i < |ps| => (ds[ps[i].0].deviceId, ds[ps[i].0].observations[ps[i].1]))
  }

  lemma ItemsSum(ds: Devices, a: seq<Position>, b: seq<Position>)
    requires AllExist(ds, a) && AllExist(ds, b)
    ensures AllExist(ds, a + b) && Items(ds, a + b) == Items(ds, a) + Items(ds, b)
  {
  }

  /** The most visits of any device. */
  method CountRounds(ds: Devices) returns (maxVisits: nat)
    ensures maxVisits == MaxVisits(ds)
  {
    maxVisits := 0;
    for i := 0 to |ds|
      invariant maxVisits == MaxVisits(ds[..i])
    {
      assert ds[..i + 1][..i] == ds[..i];
      maxVisits := Max(maxVisits, |ds[i].observations|);
    }
    assert ds[..|ds|] == ds;
  }

  method Interleave(ds: Devices) returns (order: seq<(string, Json)>)
    ensures AllExist(ds, Interleaving(ds)) && order == Items(ds, Interleaving(ds))
  {
    var maxVisits := CountRounds(ds);
    order := [];
    for r := 0 to maxVisits
      invariant AllExist(ds, Rounds(ds, r)) && order == Items(ds, Rounds(ds, r))
    {
      var more := InterleaveRound(ds, r);
      ItemsSum(ds, Rounds(ds, r), Round(ds, r));
      order := order + more;
    }
  }

  method InterleaveRound(ds: Devices, r: nat) returns (order: seq<(string, Json)>)
    ensures AllExist(ds, Round(ds, r)) && order == Items(ds, Round(ds, r))
  {
    order := [];
    for d := 0 to |ds|
      invariant AllExist(ds, Round(ds[..d], r)) && order == Items(ds, Round(ds[..d], r))
    {
      assert ds[..d + 1][..d] == ds[..d];
      if r < |ds[d].observations| {
        ItemsSum(ds, Round(ds[..d], r), [(d, r)]);
        order := order + [(ds[d].deviceId, ds[d].observations[r])];
      }
    }
    assert ds[..|ds|] == ds;
  }

  // ---- Tallying ----

  /** A replayed observation: its device and the id it was resolved to. */
  type Resolution = (string, string)

  datatype Tally = Tally(owner: map<string, string>, seen: set<string>, total: nat, revisits: nat, stable: nat,
                         collisions: nat, minted: nat)

  const NOTHING: Tally := Tally(map[], {}, 0, 0, 0, 0, 0)

  function Counted(t: Tally, r: Resolution): Tally {
    var (device, id) := r;
    var revisit := device in t.seen;
    var u := t.(seen := t.seen + {device}, total := t.total + 1, revisits := t.revisits + if revisit then 1 else 0);
    if id !in t.owner then u.(owner := t.owner[id := device], minted := t.minted + 1)
    else if t.owner[id] == device then u.(stable := t.stable + if revisit then 1 else 0)
    else u.(collisions := t.collisions + 1)
  }

  function TallyOf(rs: seq<Resolution>): Tally {
    if rs == [] then NOTHING else Counted(TallyOf(rs[..|rs| - 1]), rs[|rs| - 1])
  }

  /** What an observation was, from the resolutions before it alone. */
  datatype Kind = Mint | Link | Collision

  function FirstUse(rs: seq<Resolution>, id: string): (i: nat)
    ensures i <= |rs| && (i < |rs| ==> rs[i].1 == id) && forall j :: 0 <= j < i ==> rs[j].1 != id
  {
    if rs == [] then 0
    else
      var n := |rs| - 1;
      var i := FirstUse(rs[..n], id);
      if i < n then i else if rs[n].1 == id then n else n + 1
  }

  function KindOf(before: seq<Resolution>, r: Resolution): Kind {
    var i := FirstUse(before, r.1);
    if i == |before| then Mint else if before[i].0 == r.0 then Link else Collision
  }

  function CountKind(rs: seq<Resolution>, k: Kind): nat {
    if rs == [] then 0
    else CountKind(rs[..|rs| - 1], k) + if KindOf(rs[..|rs| - 1], rs[|rs| - 1]) == k then 1 else 0
  }

  ghost function DevicesIn(rs: seq<Resolution>): set<string> {
    set r | r in rs :: r.0
  }

  /** The owner table attributes each id to the device of its first use. */
  ghost predicate Attributes(owner: map<string, string>, rs: seq<Resolution>) {
    && (forall id :: id in owner <==> FirstUse(rs, id) < |rs|)
    && (forall id :: id in owner ==> owner[id] == rs[FirstUse(rs, id)].0)
  }

  lemma FirstUseSnoc(rs: seq<Resolution>, r: Resolution, id: string)
    ensures FirstUse(rs + [r], id) ==
      if FirstUse(rs, id) < |rs| then FirstUse(rs, id) else if r.1 == id then |rs| else |rs| + 1
  {
    assert (rs + [r])[..|rs|] == rs;
  }

  lemma AttributesSnoc(owner: map<string, string>, rs: seq<Resolution>, r: Resolution)
    requires Attributes(owner, rs)
    ensures Attributes(if r.1 in owner then owner else owner[r.1 := r.0], rs + [r])
  {
    forall id ensures FirstUse(rs + [r], id) ==
        if FirstUse(rs, id) < |rs| then FirstUse(rs, id) else if r.1 == id then |rs| else |rs| + 1
    {
      FirstUseSnoc(rs, r, id);
    }
  }

  lemma {:induction false} TallyAttributes(rs: seq<Resolution>)
    ensures Attributes(TallyOf(rs).owner, rs)
    ensures TallyOf(rs).seen == DevicesIn(rs) && TallyOf(rs).total == |rs|
  {
    if rs != [] {
      var front, last := rs[..|rs| - 1], rs[|rs| - 1];
      TallyAttributes(front);
      AttributesSnoc(TallyOf(front).owner, front, last);
      assert rs == front + [last];
      assert DevicesIn(rs) == DevicesIn(front) + {last.0};
    }
  }

  /** The counters count each kind of resolution; a link is always a revisit, so every observation
      lands in exactly one of them. */
  lemma {:induction false} TallyMeans(rs: seq<Resolution>)
    ensures TallyOf(rs).minted == CountKind(rs, Mint)
    ensures TallyOf(rs).stable == CountKind(rs, Link)
    ensures TallyOf(rs).collisions == CountKind(rs, Collision)
  {
    if rs != [] {
      var front, last := rs[..|rs| - 1], rs[|rs| - 1];
      TallyMeans(front);
      TallyAttributes(front);
      var i := FirstUse(front, last.1);
      if i < |front| { assert front[i].0 in DevicesIn(front); }
    }
  }

  /** The books of a tally balance. */
  ghost predicate Balanced(t: Tally) {
    && (forall id :: id in t.owner ==> t.owner[id] in t.seen)
    && t.minted + t.stable + t.collisions == t.total
    && t.revisits + |t.seen| == t.total && t.stable <= t.revisits
  }

  lemma CountedBalances(t: Tally, r: Resolution)
    requires Balanced(t)
    ensures Balanced(Counted(t, r))
  {
    assert Counted(t, r).seen == t.seen + {r.0};
    if r.0 in t.seen {
      assert t.seen + {r.0} == t.seen;
    } else {
      assert |t.seen + {r.0}| == |t.seen| + 1;
    }
  }

  lemma {:induction false} TallyBalances(rs: seq<Resolution>)
    ensures Balanced(TallyOf(rs))
  {
    if rs != [] {
      TallyBalances(rs[..|rs| - 1]);
      CountedBalances(TallyOf(rs[..|rs| - 1]), rs[|rs| - 1]);
    }
  }

  /** Minted ids, stable links and collisions make up all observations; revisits are all but one per
      device. */
  lemma TallyConserves(rs: seq<Resolution>)
    ensures var t := TallyOf(rs);
      && t.total == |rs| && t.minted + t.stable + t.collisions == |rs|
      && t.revisits == |rs| - |DevicesIn(rs)| && t.stable <= t.revisits
  {
    TallyBalances(rs);
    TallyAttributes(rs);
  }

  // ---- Rates ----

  function StabilityRate(t: Tally): real {
    if t.revisits == 0 then 1.0 else t.stable as real / t.revisits as real
  }

  function CollisionRate(t: Tally): real {
    if t.total == 0 then 0.0 else t.collisions as real / t.total as real
  }

  /** Whatever the matcher does, both rates are fractions; full stability means that every revisit
      linked to its own device, and no collision rate that no id was shared. */
  lemma RatesAreFractions(rs: seq<Resolution>)
    ensures var t := TallyOf(rs);
      && 0.0 <= StabilityRate(t) <= 1.0 && 0.0 <= CollisionRate(t) <= 1.0
      && (StabilityRate(t) == 1.0 <==> CountKind(rs, Link) == |rs| - |DevicesIn(rs)|)
      && (CollisionRate(t) == 0.0 <==> CountKind(rs, Collision) == 0)
  {
    var t := TallyOf(rs);
    TallyMeans(rs);
    TallyConserves(rs);
    if t.revisits > 0 { Fraction(t.stable, t.revisits); }
    if t.total > 0 { Fraction(t.collisions, t.total); }
  }

  // ---- The replay ----

  function Zip(items: seq<(string, Json)>, ids: seq<string>): seq<Resolution>
    requires |items| == |ids|
  {
    seq(|items|, i requires 0 <= i < |items| => (items[i].0, ids[i]))
  }

  /** The labels of the devices seen at least once. */
  ghost function SeenLabels(ds: Devices): set<string> {
    set d | 0 <= d < |ds| && ds[d].observations != [] :: ds[d].deviceId
  }

  lemma ReplayedLabels(ds: Devices, ids: seq<string>)
    requires AllExist(ds, Interleaving(ds)) && |ids| == |Interleaving(ds)|
    ensures DevicesIn(Zip(Items(ds, Interleaving(ds)), ids)) == SeenLabels(ds)
  {
    var ps, rs := Interleaving(ds), Zip(Items(ds, Interleaving(ds)), ids);
    EachObservationOnce(ds);
    forall name ensures name in DevicesIn(rs) <==> name in SeenLabels(ds) {
      if name in DevicesIn(rs) {
        var i :| 0 <= i < |rs| && rs[i].0 == name;
        assert Exists(ds, ps[i]);
      }
      if name in SeenLabels(ds) {
        var d: nat :| d < |ds| && ds[d].observations != [] && ds[d].deviceId == name;
        assert Exists(ds, (d, 0)) && (d, 0) in ps;
        var i :| 0 <= i < |ps| && ps[i] == (d, 0);
        assert rs[i].0 == name;
      }
    }
  }

  /** A replay of the fixture, whatever ids the matcher gives: every observation is tallied, and the
      revisits are all but the first of each name seen. */
  lemma FixtureTotals(ds: Devices, ids: seq<string>)
    requires AllExist(ds, Interleaving(ds)) && |ids| == |Interleaving(ds)|
    ensures var t := TallyOf(Zip(Items(ds, Interleaving(ds)), ids));
      && t.total == Total(ds) && t.minted + t.stable + t.collisions == Total(ds)
      && t.revisits == Total(ds) - |SeenLabels(ds)|
  {
    InterleavingSize(ds);
    ReplayedLabels(ds, ids);
    TallyConserves(Zip(Items(ds, Interleaving(ds)), ids));
  }

  /** Every group has observations and a label of its own. */
  ghost predicate WellFormed(ds: Devices) {
    && (forall d :: 0 <= d < |ds| ==> ds[d].observations != [])
    && (forall c, d :: 0 <= c < d < |ds| ==> ds[c].deviceId != ds[d].deviceId)
  }

  /** The report's number of devices is the number of labels seen exactly for such a fixture, and too high
      for every other. */
  lemma {:induction false} DevicesReported(ds: Devices)
    ensures |SeenLabels(ds)| <= |ds|
    ensures |SeenLabels(ds)| == |ds| <==> WellFormed(ds)
  {
    if ds != [] {
      var front, last := ds[..|ds| - 1], ds[|ds| - 1];
      DevicesReported(front);
      SeenLabelsSnoc(front, last);
      SplitLast(ds);
      WellFormedSnoc(front, last);
    }
  }

  lemma SeenLabelsSnoc(front: Devices, last: DeviceGroup)
    ensures SeenLabels(front + [last]) == SeenLabels(front) + if last.observations != [] then {last.deviceId} else {}
  {
    var all := front + [last];
    forall name ensures name in SeenLabels(all) <==>
        name in SeenLabels(front) || (last.observations != [] && name == last.deviceId)
    {
      if name in SeenLabels(front) {
        var d :| 0 <= d < |front| && front[d].observations != [] && front[d].deviceId == name;
        assert all[d] == front[d];
      }
      if last.observations != [] { assert all[|front|] == last; }
    }
  }

  lemma WellFormedSnoc(front: Devices, last: DeviceGroup)
    ensures WellFormed(front + [last]) <==>
      WellFormed(front) && last.observations != [] && forall d :: 0 <= d < |front| ==>
        front[d].deviceId != last.deviceId
    ensures WellFormed(front) ==>
      (last.deviceId in SeenLabels(front) <==> exists d :: 0 <= d < |front| && front[d].deviceId == last.deviceId)
  {
    var all := front + [last];
    assert all[|front|] == last && forall d :: 0 <= d < |front| ==> all[d] == front[d];
  }

  lemma ZipSnoc(items: seq<(string, Json)>, ids: seq<string>, i: nat, id: string)
    requires i < |items| && |ids| == i
    ensures Zip(items[..i + 1], ids + [id]) == Zip(items[..i], ids) + [(items[i].0, id)]
  {
  }

  lemma TallySnoc(rs: seq<Resolution>, r: Resolution)
    ensures TallyOf(rs + [r]) == Counted(TallyOf(rs), r)
  {
    assert (rs + [r])[..|rs|] == rs;
  }

  lemma TalliedSnoc(items: seq<(string, Json)>, i: nat, ids: seq<string>, id: string)
    requires i < |items| && |ids| == i
    ensures TallyOf(Zip(items[..i + 1], ids + [id])) == Counted(TallyOf(Zip(items[..i], ids)), (items[i].0, id))
  {
    ZipSnoc(items, ids, i, id);
    TallySnoc(Zip(items[..i], ids), (items[i].0, id));
  }

  /** Judge one resolution. */
  method Judge(before: Tally, device: string, id: string) returns (t: Tally)
    ensures t == Counted(before, (device, id))
  {
    t := before.(total := before.total + 1);
    var isRevisit := device in t.seen;
    t := t.(seen := t.seen + {device});
    if isRevisit {
      t := t.(revisits := t.revisits + 1);
    }
    if id !in t.owner {
      t := t.(owner := t.owner[id := device], minted := t.minted + 1);
    } else if t.owner[id] == device {
      if isRevisit {
        t := t.(stable := t.stable + 1);
      }
    } else {
      t := t.(collisions := t.collisions + 1);
    }
  }

  /** Step `i` of a replay: the identification of item `i`, `i + 1` seconds in, without network signals. */
  predicate Replays(l: Label, items: seq<(string, Json)>, i: nat)
    requires i < |items|
  {
    l.Identify? && l == Identify(items[i].1, 1000 * (i + 1), None, None, l.order, l.keep)
  }

  ghost function IdOf(env: Env, policy: Policy, s: Store, l: Label): string {
    if l.Identify? then OutcomeOf(env, policy, s, l).visitorId else ""
  }

  /** The ids the matcher gave over a run of identifications. */
  ghost function Given(env: Env, policy: Policy, ls: seq<Label>): (ids: seq<string>)
    ensures |ids| == |ls|
  {
    if ls == [] then []
    else Given(env, policy, ls[..|ls| - 1]) + [IdOf(env, policy, Run(env, policy, ls[..|ls| - 1]), ls[|ls| - 1])]
  }

  /** The steps identify the items one after another. */
  ghost predicate InTurn(items: seq<(string, Json)>, ls: seq<Label>) {
    |items| == |ls| && forall i: nat :: i < |items| ==> Replays(ls[i], items, i)
  }

  /** The steps are a possible run of a fresh store replaying the items. */
  ghost predicate Replayed(env: Env, policy: Policy, items: seq<(string, Json)>, ls: seq<Label>) {
    Feasible(env, policy, ls) && InTurn(items, ls)
  }

  lemma GivenSnoc(env: Env, policy: Policy, ls: seq<Label>, l: Label)
    ensures Given(env, policy, ls + [l]) == Given(env, policy, ls) + [IdOf(env, policy, Run(env, policy, ls), l)]
  {
    assert (ls + [l])[..|ls|] == ls;
  }

  lemma InTurnSnoc(items: seq<(string, Json)>, i: nat, ls: seq<Label>, l: Label)
    requires i < |items| && InTurn(items[..i], ls) && Replays(l, items, i)
    ensures InTurn(items[..i + 1], ls + [l])
  {
    forall j: nat | j < i + 1 ensures Replays((ls + [l])[j], items[..i + 1], j) {
      if j < i { assert Replays(ls[j], items[..i], j); }
    }
  }

  /** Replay the interleaved fixture through a fresh store, a second apart, tallying each resolution. */
  method EvaluateFixture(env: Env, policy: Policy, ds: Devices)
    returns (t: Tally, totalDevices: nat, ghost ls: seq<Label>)
    ensures totalDevices == |ds| && AllExist(ds, Interleaving(ds))
    ensures Replayed(env, policy, Items(ds, Interleaving(ds)), ls)
    ensures t == TallyOf(Zip(Items(ds, Interleaving(ds)), Given(env, policy, ls)))
  {
    var items := Interleave(ds);
    totalDevices := |ds|;
    t, ls := Replay(env, policy, items);
  }

  method Replay(env: Env, policy: Policy, items: seq<(string, Json)>) returns (t: Tally, ghost ls: seq<Label>)
    ensures Replayed(env, policy, items, ls) && t == TallyOf(Zip(items, Given(env, policy, ls)))
  {
    var store := new FuzzyStores.FuzzyStore(env, policy);
    var now := 1000;
    t, ls := NOTHING, [];
    for i := 0 to |items|
      invariant now == 1000 * (i + 1) && store.View() == Run(env, policy, ls)
      invariant Replayed(env, policy, items[..i], ls) && t == TallyOf(Zip(items[..i], Given(env, policy, ls)))
    {
      var outcome;
      ghost var l;
      outcome, l := store.IdentifyWithSignals(items[i].1, now, None, None);
      now := now + 1000;
      RunSnoc(env, policy, ls, l);
      GivenSnoc(env, policy, ls, l);
      InTurnSnoc(items, i, ls, l);
      TalliedSnoc(items, i, Given(env, policy, ls), outcome.visitorId);
      ls := ls + [l];
      t := Judge(t, items[i].0, outcome.visitorId);
    }
    assert items[..|items|] == items;
  }

  // ---- Ids not given before ----

  /** A step that leaves a visitor live gave its id, or found it live. */
  lemma LiveAfter(env: Env, policy: Policy, s: Store, l: Label, v: string)
    requires Enabled(env, policy, s, l) && v in Next(env, policy, s, l).lib.records
    ensures v in s.lib.records || v == IdOf(env, policy, s, l)
  {
    if Touched(env, s, l) != Some(v) {
      Templates.UntouchedUnchanged(env, policy, s, l, v);
    }
  }

  /** Every live id was given. */
  lemma {:induction false} LiveWereGiven(env: Env, policy: Policy, ls: seq<Label>, v: string)
    requires Feasible(env, policy, ls) && v in Run(env, policy, ls).lib.records
    ensures v in Given(env, policy, ls)
  {
    var front, last := ls[..|ls| - 1], ls[|ls| - 1];
    LiveAfter(env, policy, Run(env, policy, front), last, v);
    if v in Run(env, policy, front).lib.records {
      LiveWereGiven(env, policy, front, v);
    }
  }

  lemma {:induction false} PrefixOfRun(env: Env, policy: Policy, ls: seq<Label>, i: nat)
    requires Feasible(env, policy, ls) && i < |ls|
    ensures Feasible(env, policy, ls[..i]) && Enabled(env, policy, Run(env, policy, ls[..i]), ls[i])
    ensures Given(env, policy, ls)[..i] == Given(env, policy, ls[..i])
    ensures Given(env, policy, ls)[i] == IdOf(env, policy, Run(env, policy, ls[..i]), ls[i])
    decreases |ls|
  {
    if i < |ls| - 1 {
      TakeOfFront(ls, i);
      PrefixOfRun(env, policy, ls[..|ls| - 1], i);
    }
  }

  /** A verdict other than new device gives the id of a live visitor. */
  lemma GivenLive(env: Env, policy: Policy, s: Store, l: Label)
    requires l.Identify? && Enabled(env, policy, s, l)
    ensures OutcomeOf(env, policy, s, l).decision != Scoring.NewDevice ==>
      OutcomeOf(env, policy, s, l).visitorId in s.lib.records
  {
    if VerdictOf(env, s, l).decision != Scoring.NewDevice {
      VerdictNamesLiveRecord(env, s, l.probe, l.order);
    }
  }

  /** An id given for the first time comes from a new-device verdict: the tally attributes an id to the
      observation that minted it. */
  lemma NewIdMeansNewDevice(env: Env, policy: Policy, items: seq<(string, Json)>, ls: seq<Label>, i: nat)
    requires Replayed(env, policy, items, ls) && i < |items|
    requires Given(env, policy, ls)[i] !in Given(env, policy, ls)[..i]
    ensures OutcomeOf(env, policy, Run(env, policy, ls[..i]), ls[i]).decision == Scoring.NewDevice
  {
    var s := Run(env, policy, ls[..i]);
    assert Replays(ls[i], items, i);
    PrefixOfRun(env, policy, ls, i);
    GivenLive(env, policy, s, ls[i]);
    if IdOf(env, policy, s, ls[i]) in s.lib.records {
      LiveWereGiven(env, policy, ls[..i], IdOf(env, policy, s, ls[i]));
    }
  }
}
