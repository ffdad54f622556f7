// Per-component agreement counts behind `m` (crates/fp-core/src/fuzzy/agreement.rs).
module Agreement {
  import opened Basics

  datatype Agree = Agree(stats: map<string, (nat, nat)>, dropped: nat) {
    /** `(agree, total)`, zero for a name never tracked. */
    function Stats(name: string): (nat, nat) {
      if name in stats then stats[name] else (0, 0)
    }

    ghost predicate Valid(cap: Option<nat>) {
      && (forall name :: name in stats ==> stats[name].0 <= stats[name].1 && stats[name].1 >= 1)
      && (cap.Some? ==> |stats| <= cap.value)
    }
  }

  const EMPTY: Agree := Agree(map[], 0)

  predicate Accepts(a: Agree, cap: Option<nat>, name: string) {
    name in a.stats || cap.None? || |a.stats| < cap.value
  }

  function Recorded(a: Agree, cap: Option<nat>, name: string, agreed: bool): Agree {
    if Accepts(a, cap, name) then
      var (agree, total) := a.Stats(name);
      a.(stats := a.stats[name := (agree + (if agreed then 1 else 0), total + 1)])
    else a.(dropped := a.dropped + 1)
  }

  function RecordedAll(a: Agree, cap: Option<nat>, outcomes: seq<(string, bool)>): Agree
    decreases |outcomes|
  {
    if outcomes == [] then a
    else RecordedAll(Recorded(a, cap, outcomes[0].0, outcomes[0].1), cap, outcomes[1..])
  }

  /** Agreements never exceed comparisons, and the cap holds. */
  lemma {:induction false} RecordedAllValid(a: Agree, cap: Option<nat>, outcomes: seq<(string, bool)>)
    requires a.Valid(cap)
    ensures RecordedAll(a, cap, outcomes).Valid(cap)
    decreases |outcomes|
  {
    if outcomes != [] {
      RecordedAllValid(Recorded(a, cap, outcomes[0].0, outcomes[0].1), cap, outcomes[1..]);
    }
  }

  lemma {:induction false} RecordedAllAppend(a: Agree, cap: Option<nat>, s: seq<(string, bool)>, t: seq<(string, bool)>)
    ensures RecordedAll(a, cap, s + t) == RecordedAll(RecordedAll(a, cap, s), cap, t)
    decreases |s|
  {
    if s == [] {
      assert s + t == t;
    } else {
      assert (s + t)[0] == s[0] && (s + t)[1..] == s[1..] + t;
      RecordedAllAppend(Recorded(a, cap, s[0].0, s[0].1), cap, s[1..], t);
    }
  }

  ghost predicate DistinctNames(outcomes: seq<(string, bool)>) {
    forall i, j :: 0 <= i < j < |outcomes| ==> outcomes[i].0 != outcomes[j].0
  }

  /** What a list of outcomes adds to the counts of one name. */
  function Taught(before: (nat, nat), outcomes: seq<(string, bool)>, name: string): (nat, nat) {
    if (name, true) in outcomes then (before.0 + 1, before.1 + 1)
    else if (name, false) in outcomes then (before.0, before.1 + 1)
    else before
  }

  function Names(outcomes: seq<(string, bool)>): seq<string> {
    seq(|outcomes|, i requires 0 <= i < |outcomes| => outcomes[i].0)
  }

  /** Whether `name` is tracked when its outcome comes: it was already, or there is room for it after the
      names ahead of it. */
  ghost predicate Admitted(a: Agree, cap: Option<nat>, names: seq<string>, name: string) {
    name in a.stats || cap.None? || |a.stats.Keys + Elems(names[..FirstAt(names, name)])| < cap.value
  }

  lemma NamesCons(outcomes: seq<(string, bool)>)
    requires outcomes != []
    ensures Names(outcomes) == [outcomes[0].0] + Names(outcomes[1..])
    ensures DistinctNames(outcomes) ==> DistinctNames(outcomes[1..]) && outcomes[0].0 !in Names(outcomes[1..])
  {
  }

  /** Outcomes for other names leave a name alone. */
  lemma {:induction false} OthersKeep(a: Agree, cap: Option<nat>, outcomes: seq<(string, bool)>, name: string)
    requires name !in Names(outcomes)
    ensures RecordedAll(a, cap, outcomes).Stats(name) == a.Stats(name)
    decreases |outcomes|
  {
    if outcomes != [] {
      NamesCons(outcomes);
      OthersKeep(Recorded(a, cap, outcomes[0].0, outcomes[0].1), cap, outcomes[1..], name);
    }
  }

  lemma KeysAfter(a: Agree, cap: Option<nat>, name: string, b: bool)
    ensures Recorded(a, cap, name, b).stats.Keys ==
      if Accepts(a, cap, name) then a.stats.Keys + {name} else a.stats.Keys
    ensures Accepts(a, cap, name) <==> name in a.stats.Keys || cap.None? || |a.stats.Keys| < cap.value
  {
    SizeOf(a.stats);
  }

  /** Another name ahead does not change whether `name` is admitted. */
  lemma AdmittedPast(a: Agree, cap: Option<nat>, names: seq<string>, b: bool, name: string)
    requires names != [] && names[0] != name && name in names
    ensures Admitted(a, cap, names, name) <==> Admitted(Recorded(a, cap, names[0], b), cap, names[1..], name)
  {
    var g, rest := Recorded(a, cap, names[0], b), names[1..];
    var ahead := Elems(rest[..FirstAt(rest, name)]);
    BeforeFirst(names, name);
    if cap.Some? {
      KeysAfter(a, cap, names[0], b);
      RoomAhead(a.stats.Keys, names[0], ahead, cap.value);
    }
  }

  lemma Unlisted(outcomes: seq<(string, bool)>, name: string)
    requires name !in Names(outcomes)
    ensures (name, true) !in outcomes && (name, false) !in outcomes
  {
    forall i | 0 <= i < |outcomes| ensures outcomes[i].0 != name {
      assert Names(outcomes)[i] == outcomes[i].0;
    }
  }

  lemma TaughtPast(before: (nat, nat), outcomes: seq<(string, bool)>, name: string)
    requires outcomes != [] && outcomes[0].0 != name
    ensures Taught(before, outcomes, name) == Taught(before, outcomes[1..], name)
  {
    assert outcomes == [outcomes[0]] + outcomes[1..];
  }

  lemma HeadTeaches(a: Agree, cap: Option<nat>, outcomes: seq<(string, bool)>)
    requires outcomes != [] && DistinctNames(outcomes)
    ensures var name := outcomes[0].0;
      RecordedAll(a, cap, outcomes).Stats(name) ==
        if Accepts(a, cap, name) then Taught(a.Stats(name), outcomes, name) else a.Stats(name)
    ensures Admitted(a, cap, Names(outcomes), outcomes[0].0) <==> Accepts(a, cap, outcomes[0].0)
  {
    var head := outcomes[0];
    NamesCons(outcomes);
    Unlisted(outcomes[1..], head.0);
    OthersKeep(Recorded(a, cap, head.0, head.1), cap, outcomes[1..], head.0);
    assert outcomes == [head] + outcomes[1..];
    assert Names(outcomes)[..FirstAt(Names(outcomes), head.0)] == [];
    assert a.stats.Keys + Elems<string>([]) == a.stats.Keys;
    SizeOf(a.stats);
  }

  /** Under any cap, outcomes for distinct names teach exactly the admitted ones: one comparison each, and
      one agreement if it agreed. */
  lemma {:induction false} CappedStats(a: Agree, cap: Option<nat>, outcomes: seq<(string, bool)>, name: string)
    requires DistinctNames(outcomes)
    ensures RecordedAll(a, cap, outcomes).Stats(name) ==
      if Admitted(a, cap, Names(outcomes), name) then Taught(a.Stats(name), outcomes, name) else a.Stats(name)
    decreases |outcomes|
  {
    if name !in Names(outcomes) {
      Unlisted(outcomes, name);
      OthersKeep(a, cap, outcomes, name);
    } else if outcomes[0].0 == name {
      HeadTeaches(a, cap, outcomes);
    } else {
      NamesCons(outcomes);
      TaughtPast(a.Stats(name), outcomes, name);
      CappedStats(Recorded(a, cap, outcomes[0].0, outcomes[0].1), cap, outcomes[1..], name);
      AdmittedPast(a, cap, Names(outcomes), outcomes[0].1, name);
    }
  }

  class AgreementTable {
    var stats: map<string, (nat, nat)>
    var dropped: nat
    const maxComponents: Option<nat>

    function View(): Agree
      reads this
    {
      Agree(stats, dropped)
    }

    constructor (cap: Option<nat>)
      ensures View() == EMPTY && maxComponents == cap
    {
      stats, dropped, maxComponents := map[], 0, cap;
    }

    method Record(name: string, agreed: bool)
      modifies this
      ensures View() == Recorded(old(View()), maxComponents, name, agreed)
    {
      if name in stats {
        var (agree, total) := stats[name];
        stats := stats[name := (if agreed then agree + 1 else agree, total + 1)];
        return;
      }
      if maxComponents.Some? && |stats| >= maxComponents.value {
        dropped := dropped + 1;
        return;
      }
      stats := stats[name := (if agreed then 1 else 0, 1)];
    }
  }
}
