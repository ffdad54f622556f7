// Per-value sighting counts behind `u` (crates/fp-core/src/fuzzy/frequency.rs).
module Frequency {
  import opened Basics
  import opened Component
  import opened Sums

  datatype Freq = Freq(perValue: map<Hash32, nat>, total: nat, dropped: nat) {
    function Count(value: Hash32): nat {
      if value in perValue then perValue[value] else 0
    }

    /** Every tracked value was seen, the denominator is their sum, and the cap holds. */
    ghost predicate Valid(cap: Option<nat>) {
      && total == Sum(perValue)
      && (forall v :: v in perValue ==> perValue[v] >= 1)
      && (cap.Some? ==> |perValue| <= cap.value)
    }
  }

  const EMPTY: Freq := Freq(map[], 0, 0)

  /** A value that is tracked already, or for which there is room. */
  predicate Accepts(f: Freq, cap: Option<nat>, value: Hash32) {
    value in f.perValue || cap.None? || |f.perValue| < cap.value
  }

  function Recorded(f: Freq, cap: Option<nat>, value: Hash32): Freq {
    if Accepts(f, cap, value) then f.(perValue := f.perValue[value := f.Count(value) + 1], total := f.total + 1)
    else f.(dropped := f.dropped + 1)
  }

  function RecordedAll(f: Freq, cap: Option<nat>, values: seq<Hash32>): Freq
    decreases |values|
  {
    if values == [] then f else RecordedAll(Recorded(f, cap, values[0]), cap, values[1..])
  }

  lemma KnownValueValid(f: Freq, cap: Option<nat>, value: Hash32)
    requires f.Valid(cap) && value in f.perValue
    ensures Recorded(f, cap, value).Valid(cap)
  {
    SumUpdate(f.perValue, value, f.perValue[value] + 1);
    SumWithout(f.perValue, value);
    SameKeysSameSize(f.perValue, f.perValue[value := f.perValue[value] + 1]);
  }

  lemma RecordedValid(f: Freq, cap: Option<nat>, value: Hash32)
    requires f.Valid(cap)
    ensures Recorded(f, cap, value).Valid(cap)
  {
    if value in f.perValue {
      KnownValueValid(f, cap, value);
    } else if Accepts(f, cap, value) {
      SumUpdate(f.perValue, value, 1);
    }
  }

  /** In every reachable table the denominator is the sum of the counts, and every recording is
      either in it or tallied as dropped. */
  lemma {:induction false} RecordedAllValid(f: Freq, cap: Option<nat>, values: seq<Hash32>)
    requires f.Valid(cap)
    ensures var g := RecordedAll(f, cap, values);
      g.Valid(cap) && g.total + g.dropped == f.total + f.dropped + |values|
    decreases |values|
  {
    if values != [] {
      RecordedValid(f, cap, values[0]);
      RecordedAllValid(Recorded(f, cap, values[0]), cap, values[1..]);
    }
  }

  lemma CountAtMostTotal(f: Freq, cap: Option<nat>, value: Hash32)
    requires f.Valid(cap)
    ensures f.Count(value) <= f.total
  {
    if value in f.perValue { SumWithout(f.perValue, value); }
  }

  lemma {:induction false} RecordedAllAppend(f: Freq, cap: Option<nat>, s: seq<Hash32>, t: seq<Hash32>)
    ensures RecordedAll(f, cap, s + t) == RecordedAll(RecordedAll(f, cap, s), cap, t)
    decreases |s|
  {
    if s == [] {
      assert s + t == t;
    } else {
      assert (s + t)[0] == s[0] && (s + t)[1..] == s[1..] + t;
      RecordedAllAppend(Recorded(f, cap, s[0]), cap, s[1..], t);
    }
  }

  /** Without a cap the table is a function of the multiset of values alone. */
  lemma {:induction false} UncappedCounts(f: Freq, values: seq<Hash32>)
    ensures var g := RecordedAll(f, None, values);
      && g.total == f.total + |values| && g.dropped == f.dropped
      && g.perValue.Keys == f.perValue.Keys + Elems(values)
      && (forall v :: g.Count(v) == f.Count(v) + multiset(values)[v])
    decreases |values|
  {
    if values != [] {
      assert values == [values[0]] + values[1..];
      UncappedCounts(Recorded(f, None, values[0]), values[1..]);
    }
  }

  /** Whether the first `value` of the list is tracked: it was already, or there is room for it after the
      values ahead of it. */
  ghost predicate Admitted(f: Freq, cap: Option<nat>, values: seq<Hash32>, value: Hash32) {
    value in f.perValue || cap.None? || |f.perValue.Keys + Elems(values[..FirstAt(values, value)])| < cap.value
  }

  /** A tracked value counts whatever the cap. */
  lemma {:induction false} TrackedCounts(f: Freq, cap: Option<nat>, values: seq<Hash32>, value: Hash32)
    requires value in f.perValue
    ensures RecordedAll(f, cap, values).Count(value) == f.Count(value) + multiset(values)[value]
    decreases |values|
  {
    if values != [] {
      assert values == [values[0]] + values[1..];
      TrackedCounts(Recorded(f, cap, values[0]), cap, values[1..], value);
    }
  }

  /** A full table stays as it is for every value it does not track. */
  lemma {:induction false} FullRefuses(f: Freq, cap: Option<nat>, values: seq<Hash32>, value: Hash32)
    requires value !in f.perValue && cap.Some? && |f.perValue| >= cap.value
    ensures RecordedAll(f, cap, values).Count(value) == 0
    decreases |values|
  {
    if values != [] {
      SizeOf(f.perValue);
      SizeOf(Recorded(f, cap, values[0]).perValue);
      assert values[0] in f.perValue ==> Recorded(f, cap, values[0]).perValue.Keys == f.perValue.Keys;
      FullRefuses(Recorded(f, cap, values[0]), cap, values[1..], value);
    }
  }

  lemma KeysAfter(f: Freq, cap: Option<nat>, value: Hash32)
    ensures Recorded(f, cap, value).perValue.Keys ==
      if Accepts(f, cap, value) then f.perValue.Keys + {value} else f.perValue.Keys
    ensures Accepts(f, cap, value) <==> value in f.perValue.Keys || cap.None? || |f.perValue.Keys| < cap.value
  {
    SizeOf(f.perValue);
  }

  /** Another value ahead does not change whether `value` is admitted. */
  lemma AdmittedPast(f: Freq, cap: Option<nat>, values: seq<Hash32>, value: Hash32)
    requires values != [] && values[0] != value && value in values
    ensures Admitted(f, cap, values, value) <==> Admitted(Recorded(f, cap, values[0]), cap, values[1..], value)
  {
    var g, rest := Recorded(f, cap, values[0]), values[1..];
    var ahead := Elems(rest[..FirstAt(rest, value)]);
    BeforeFirst(values, value);
    if cap.Some? {
      RoomAhead(f.perValue.Keys, values[0], ahead, cap.value);
      KeysAfter(f, cap, values[0]);
    }
  }

  /** Under any cap, recording a list counts every occurrence of an admitted value and none of a refused
      one. */
  lemma {:induction false} CappedCounts(f: Freq, cap: Option<nat>, values: seq<Hash32>, value: Hash32)
    ensures RecordedAll(f, cap, values).Count(value) ==
      f.Count(value) + if Admitted(f, cap, values, value) then multiset(values)[value] else 0
    decreases |values|
  {
    if values == [] {
    } else if value in f.perValue {
      TrackedCounts(f, cap, values, value);
    } else if values[0] == value {
      assert values[..FirstAt(values, value)] == [];
      assert f.perValue.Keys + Elems<Hash32>([]) == f.perValue.Keys;
      SizeOf(f.perValue);
      if Accepts(f, cap, value) {
        assert values == [value] + values[1..];
        TrackedCounts(Recorded(f, cap, value), cap, values[1..], value);
      } else {
        FullRefuses(f, cap, values, value);
      }
    } else {
      assert values == [values[0]] + values[1..];
      CappedCounts(Recorded(f, cap, values[0]), cap, values[1..], value);
      if value in values {
        AdmittedPast(f, cap, values, value);
      }
    }
  }

  /** A capped table is the uncapped one while everything fits. */
  lemma {:induction false} FitsUncapped(f: Freq, cap: Option<nat>, values: seq<Hash32>)
    requires cap.Some? ==> |f.perValue.Keys + Elems(values)| <= cap.value
    ensures RecordedAll(f, cap, values) == RecordedAll(f, None, values)
    decreases |values|
  {
    if values != [] && cap.Some? {
      var g := Recorded(f, None, values[0]);
      SplitFirst(values);
      assert f.perValue.Keys + Elems(values) == (f.perValue.Keys + {values[0]}) + Elems(values[1..]);
      assert g.perValue.Keys == f.perValue.Keys + {values[0]};
      if values[0] !in f.perValue {
        SizeOf(f.perValue);
        SubsetSize(f.perValue.Keys + {values[0]}, f.perValue.Keys + Elems(values));
      }
      FitsUncapped(g, cap, values[1..]);
    }
  }

  lemma SplitFirst(values: seq<Hash32>)
    requires values != []
    ensures Elems(values) == {values[0]} + Elems(values[1..])
  {
    assert values == [values[0]] + values[1..];
  }

  class FrequencyTable {
    var perValue: map<Hash32, nat>
    var total: nat
    var dropped: nat
    const maxValues: Option<nat>

    function View(): Freq
      reads this
    {
      Freq(perValue, total, dropped)
    }

    constructor (cap: Option<nat>)
      ensures View() == EMPTY && maxValues == cap
    {
      perValue, total, dropped, maxValues := map[], 0, 0, cap;
    }

    method Record(value: Hash32)
      modifies this
      ensures View() == Recorded(old(View()), maxValues, value)
    {
      if value in perValue {
        perValue := perValue[value := perValue[value] + 1];
        total := total + 1;
        return;
      }
      if maxValues.Some? && |perValue| >= maxValues.value {
        dropped := dropped + 1;
        return;
      }
      perValue := perValue[value := 1];
      total := total + 1;
    }
  }
}
