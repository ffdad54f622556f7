// The `key -> visitors` inverted index (crates/fp-core/src/fuzzy/blocking.rs).
module Blocking {
  import opened Basics
  import opened Component

  const DEFAULT_MAX_BLOCK: nat := 1024

  datatype Index = Index(blocks: map<Hash32, set<string>>, dropped: nat) {
    function Block(key: Hash32): set<string> {
      if key in blocks then blocks[key] else {}
    }

    /** The plain relation the index stands for. */
    predicate Holds(key: Hash32, visitor: string) {
      visitor in Block(key)
    }

    ghost predicate Valid(cap: nat) {
      forall key :: key in blocks ==> blocks[key] != {} && |blocks[key]| <= cap
    }
  }

  const EMPTY: Index := Index(map[], 0)

  predicate Accepts(ix: Index, cap: nat, key: Hash32, visitor: string) {
    |ix.Block(key)| < cap || ix.Holds(key, visitor)
  }

  /** Looking a block up creates it, even when the insertion is then dropped. */
  function Inserted(ix: Index, cap: nat, key: Hash32, visitor: string): Index {
    if Accepts(ix, cap, key, visitor) then ix.(blocks := ix.blocks[key := ix.Block(key) + {visitor}])
    else Index(ix.blocks[key := ix.Block(key)], ix.dropped + 1)
  }

  function InsertedAll(ix: Index, cap: nat, keys: seq<Hash32>, visitor: string): Index {
    if keys == [] then ix
    else
      var n := |keys| - 1;
      Inserted(InsertedAll(ix, cap, keys[..n], visitor), cap, keys[n], visitor)
  }

  function Removed(ix: Index, visitor: string): Index {
    ix.(blocks := map key | key in ix.blocks && ix.blocks[key] - {visitor} != {} :: ix.blocks[key] - {visitor})
  }

  function Candidates(ix: Index, keys: seq<Hash32>): set<string> {
    set key, visitor | key in keys && visitor in ix.Block(key) :: visitor
  }

  /** Recall is the image of the keys under the relation. */
  lemma CandidatesAreImage(ix: Index, keys: seq<Hash32>, visitor: string)
    ensures visitor in Candidates(ix, keys) <==> exists key :: key in keys && ix.Holds(key, visitor)
  {
  }

  lemma CandidatesSnoc(ix: Index, keys: seq<Hash32>, key: Hash32)
    ensures Candidates(ix, keys + [key]) == Candidates(ix, keys) + ix.Block(key)
  {
  }

  lemma InsertedValid(ix: Index, cap: nat, key: Hash32, visitor: string)
    requires cap >= 1 && ix.Valid(cap)
    ensures Inserted(ix, cap, key, visitor).Valid(cap)
  {
    if ix.Holds(key, visitor) {
      assert ix.Block(key) + {visitor} == ix.Block(key);
    }
  }

  /** An insertion either records its pair and nothing else, or changes no pair and adds exactly
      one to the tally. */
  lemma InsertRecordsOrDrops(ix: Index, cap: nat, key: Hash32, visitor: string)
    ensures var after := Inserted(ix, cap, key, visitor);
      if Accepts(ix, cap, key, visitor) then
        && after.dropped == ix.dropped
        && forall k, v :: after.Holds(k, v) <==> ix.Holds(k, v) || (k == key && v == visitor)
      else
        && after.dropped == ix.dropped + 1
        && forall k, v :: after.Holds(k, v) <==> ix.Holds(k, v)
  {
  }

  /** Removal deletes exactly the visitor's pairs. */
  lemma RemovedRelation(ix: Index, visitor: string)
    ensures forall k, v :: Removed(ix, visitor).Holds(k, v) <==> ix.Holds(k, v) && v != visitor
  {
    forall k, v ensures Removed(ix, visitor).Holds(k, v) <==> ix.Holds(k, v) && v != visitor {
      if k in ix.blocks && v in ix.blocks[k] && v != visitor {
        assert v in ix.blocks[k] - {visitor};
      }
    }
  }

  lemma RemovedValid(ix: Index, cap: nat, visitor: string)
    requires ix.Valid(cap)
    ensures Removed(ix, visitor).Valid(cap)
  {
    forall key | key in Removed(ix, visitor).blocks ensures |ix.blocks[key] - {visitor}| <= cap {
      SubsetSize(ix.blocks[key] - {visitor}, ix.blocks[key]);
    }
  }

  /** A block of the default size takes in 1024 visitors and no more. */
  lemma DefaultRoom(ix: Index, key: Hash32, visitor: string)
    ensures Accepts(ix, DEFAULT_MAX_BLOCK, key, visitor) <==> |ix.Block(key)| < 1024 || visitor in ix.Block(key)
  {
  }

  // ---- Insertion under several keys ----

  /** Whether a key has room for `v` does not change while only `v` is inserted. */
  lemma {:induction false} AcceptanceStable(ix: Index, cap: nat, keys: seq<Hash32>, visitor: string, key: Hash32)
    ensures Accepts(InsertedAll(ix, cap, keys, visitor), cap, key, visitor) <==> Accepts(ix, cap, key, visitor)
  {
    if keys != [] {
      AcceptanceStable(ix, cap, keys[..|keys| - 1], visitor, key);
    }
  }

  /** Exactly the pairs under the keys with room are added. */
  lemma {:induction false} InsertedAllRelation(ix: Index, cap: nat, keys: seq<Hash32>, visitor: string)
    ensures forall k, v :: InsertedAll(ix, cap, keys, visitor).Holds(k, v) <==>
      ix.Holds(k, v) || (v == visitor && k in keys && Accepts(ix, cap, k, visitor))
  {
    if keys != [] {
      var n := |keys| - 1;
      InsertedAllRelation(ix, cap, keys[..n], visitor);
      AcceptanceStable(ix, cap, keys[..n], visitor, keys[n]);
      InsertRecordsOrDrops(InsertedAll(ix, cap, keys[..n], visitor), cap, keys[n], visitor);
      assert forall k :: k in keys <==> k in keys[..n] || k == keys[n];
    }
  }

  /** How many of the keys have no room for the visitor. */
  function Refusals(ix: Index, cap: nat, keys: seq<Hash32>, visitor: string): nat {
    if keys == [] then 0
    else Refusals(ix, cap, keys[..|keys| - 1], visitor) + if Accepts(ix, cap, keys[|keys| - 1], visitor) then 0 else 1
  }

  /** The tally grows by the number of keys without room, as they were before. */
  lemma {:induction false} InsertedAllDrops(ix: Index, cap: nat, keys: seq<Hash32>, visitor: string)
    ensures InsertedAll(ix, cap, keys, visitor).dropped == ix.dropped + Refusals(ix, cap, keys, visitor)
  {
    if keys != [] {
      var n := |keys| - 1;
      InsertedAllDrops(ix, cap, keys[..n], visitor);
      AcceptanceStable(ix, cap, keys[..n], visitor, keys[n]);
    }
  }

  lemma {:induction false} RefusalsNone(ix: Index, cap: nat, keys: seq<Hash32>, visitor: string)
    ensures Refusals(ix, cap, keys, visitor) == 0 <==> forall k :: k in keys ==> Accepts(ix, cap, k, visitor)
  {
    if keys != [] {
      var n := |keys| - 1;
      RefusalsNone(ix, cap, keys[..n], visitor);
      assert forall k :: k in keys <==> k in keys[..n] || k == keys[n];
    }
  }

  /** Two indexes with room under the same keys refuse as often. */
  lemma {:induction false} RefusalsAgree(ix: Index, iy: Index, cap: nat, keys: seq<Hash32>, visitor: string)
    requires forall k :: k in keys ==> (Accepts(ix, cap, k, visitor) <==> Accepts(iy, cap, k, visitor))
    ensures Refusals(ix, cap, keys, visitor) == Refusals(iy, cap, keys, visitor)
  {
    if keys != [] {
      var n := |keys| - 1;
      forall k | k in keys[..n] ensures k in keys {}
      RefusalsAgree(ix, iy, cap, keys[..n], visitor);
    }
  }

  // ---- Runs ----

  datatype Op = Insert(key: Hash32, visitor: string) | Remove(visitor: string)

  function Step(ix: Index, cap: nat, op: Op): Index {
    match op
    case Insert(key, visitor) => Inserted(ix, cap, key, visitor)
    case Remove(visitor) => Removed(ix, visitor)
  }

  function Run(cap: nat, ops: seq<Op>): Index {
    if ops == [] then EMPTY else Step(Run(cap, ops[..|ops| - 1]), cap, ops[|ops| - 1])
  }

  /** Operation `i` inserted this pair, was not dropped, and no later operation removed the visitor. */
  ghost predicate Standing(cap: nat, ops: seq<Op>, key: Hash32, visitor: string, i: nat) {
    && i < |ops| && ops[i] == Insert(key, visitor)
    && Accepts(Run(cap, ops[..i]), cap, key, visitor)
    && forall j :: i < j < |ops| ==> ops[j] != Remove(visitor)
  }

  function Insertions(ops: seq<Op>): nat {
    if ops == [] then 0 else Insertions(ops[..|ops| - 1]) + if ops[|ops| - 1].Insert? then 1 else 0
  }

  function Recordings(cap: nat, ops: seq<Op>): nat {
    if ops == [] then 0
    else
      var front, last := ops[..|ops| - 1], ops[|ops| - 1];
      Recordings(cap, front) + if last.Insert? && Accepts(Run(cap, front), cap, last.key, last.visitor) then 1 else 0
  }

  lemma StandingExtends(cap: nat, ops: seq<Op>, key: Hash32, visitor: string, i: nat)
    requires ops != [] && i < |ops| - 1
    ensures Standing(cap, ops, key, visitor, i) <==>
      Standing(cap, ops[..|ops| - 1], key, visitor, i) && ops[|ops| - 1] != Remove(visitor)
  {
    var front := ops[..|ops| - 1];
    assert front[..i] == ops[..i];
    assert forall j :: 0 <= j < |front| ==> front[j] == ops[j];
  }

  /** Some insertion of the pair stands. */
  ghost predicate Stands(cap: nat, ops: seq<Op>, key: Hash32, visitor: string) {
    exists i: nat :: Standing(cap, ops, key, visitor, i)
  }

  /** What the last operation does to standing. */
  lemma StandsSnoc(cap: nat, ops: seq<Op>, key: Hash32, visitor: string)
    requires ops != []
    ensures var front, last := ops[..|ops| - 1], ops[|ops| - 1];
      Stands(cap, ops, key, visitor) <==>
        || (last == Insert(key, visitor) && Accepts(Run(cap, front), cap, key, visitor))
        || (Stands(cap, front, key, visitor) && last != Remove(visitor))
  {
    var n := |ops| - 1;
    StandingLast(cap, ops, key, visitor);
    if Stands(cap, ops, key, visitor) {
      var i: nat :| Standing(cap, ops, key, visitor, i);
      if i < n { StandingExtends(cap, ops, key, visitor, i); }
    }
    if Stands(cap, ops[..n], key, visitor) {
      var i: nat :| Standing(cap, ops[..n], key, visitor, i);
      StandingExtends(cap, ops, key, visitor, i);
    }
  }

  /** Over any run, the index holds a pair exactly when some accepted insertion of it still stands. */
  lemma {:induction false} HoldsIffStanding(cap: nat, ops: seq<Op>, key: Hash32, visitor: string)
    ensures Run(cap, ops).Holds(key, visitor) <==> Stands(cap, ops, key, visitor)
  {
    if ops != [] {
      var front, last := ops[..|ops| - 1], ops[|ops| - 1];
      HoldsIffStanding(cap, front, key, visitor);
      StandsSnoc(cap, ops, key, visitor);
      match last
      case Insert(k, v) => InsertRecordsOrDrops(Run(cap, front), cap, k, v);
      case Remove(v) => RemovedRelation(Run(cap, front), v);
    }
  }

  lemma StandingLast(cap: nat, ops: seq<Op>, key: Hash32, visitor: string)
    requires ops != []
    ensures Standing(cap, ops, key, visitor, |ops| - 1) <==>
      ops[|ops| - 1] == Insert(key, visitor) && Accepts(Run(cap, ops[..|ops| - 1]), cap, key, visitor)
  {
  }

  /** Over any run with a positive cap: blocks are non-empty and within the cap, and every
      insertion is either recorded or tallied. */
  lemma {:induction false} RunConserves(cap: nat, ops: seq<Op>)
    ensures cap >= 1 ==> Run(cap, ops).Valid(cap)
    ensures Recordings(cap, ops) + Run(cap, ops).dropped == Insertions(ops)
  {
    if ops != [] {
      var front, last := ops[..|ops| - 1], ops[|ops| - 1];
      RunConserves(cap, front);
      match last
      case Insert(key, visitor) =>
        if cap >= 1 { InsertedValid(Run(cap, front), cap, key, visitor); }
      case Remove(visitor) =>
        if cap >= 1 { RemovedValid(Run(cap, front), cap, visitor); }
    }
  }

  lemma {:induction false} NothingDroppedBefore(cap: nat, ops: seq<Op>, i: nat)
    requires i <= |ops|
    ensures Run(cap, ops[..i]).dropped <= Run(cap, ops).dropped
    decreases |ops| - i
  {
    if i < |ops| {
      NothingDroppedBefore(cap, ops, i + 1);
      assert ops[..i + 1][..i] == ops[..i];
    } else {
      assert ops[..i] == ops;
    }
  }

  /** While nothing has been dropped, a visitor is recalled by exactly the probes that share a key
      with one of its insertions since it was last removed. */
  lemma RecallWhileNothingDropped(cap: nat, ops: seq<Op>, keys: seq<Hash32>, visitor: string)
    requires Run(cap, ops).dropped == 0
    ensures visitor in Candidates(Run(cap, ops), keys) <==>
      exists i :: 0 <= i < |ops| && ops[i].Insert? && ops[i].visitor == visitor && ops[i].key in keys
        && forall j :: i < j < |ops| ==> ops[j] != Remove(visitor)
  {
    CandidatesAreImage(Run(cap, ops), keys, visitor);
    forall key ensures Run(cap, ops).Holds(key, visitor) <==> Stands(cap, ops, key, visitor) {
      HoldsIffStanding(cap, ops, key, visitor);
    }
    forall i: nat | i < |ops| && ops[i].Insert? ensures Accepts(Run(cap, ops[..i]), cap, ops[i].key, ops[i].visitor) {
      NothingDroppedBefore(cap, ops, i + 1);
      assert ops[..i + 1][..i] == ops[..i];
    }
    forall i | 0 <= i < |ops| && ops[i].Insert? && ops[i].visitor == visitor && ops[i].key in keys
               && (forall j :: i < j < |ops| ==> ops[j] != Remove(visitor))
      ensures Run(cap, ops).Holds(ops[i].key, visitor)
    {
      assert Standing(cap, ops, ops[i].key, visitor, i);
    }
    if visitor in Candidates(Run(cap, ops), keys) {
      var key :| key in keys && Run(cap, ops).Holds(key, visitor);
      var i: nat :| Standing(cap, ops, key, visitor, i);
    }
  }

  /** After an erasure the visitor is recalled by no probe until it is inserted again. */
  lemma ErasedUntilInsertedAgain(cap: nat, ops: seq<Op>, e: nat, keys: seq<Hash32>, visitor: string)
    requires e < |ops| && ops[e] == Remove(visitor)
    requires forall i :: e < i < |ops| && ops[i].Insert? ==> ops[i].visitor != visitor
    ensures visitor !in Candidates(Run(cap, ops), keys)
  {
    CandidatesAreImage(Run(cap, ops), keys, visitor);
    forall key ensures !Run(cap, ops).Holds(key, visitor) {
      HoldsIffStanding(cap, ops, key, visitor);
      forall i: nat ensures !Standing(cap, ops, key, visitor, i) {
      }
    }
  }

  class BlockingIndex {
    var index: map<Hash32, set<string>>
    var dropped: nat
    const maxBlock: nat

    function View(): Index
      reads this
    {
      Index(index, dropped)
    }

    constructor (cap: nat)
      ensures View() == EMPTY && maxBlock == cap
    {
      index, dropped, maxBlock := map[], 0, cap;
    }

    method Add(key: Hash32, visitor: string)
      modifies this
      ensures View() == Inserted(old(View()), maxBlock, key, visitor)
    {
      if key !in index {
        index := index[key := {}];
      }
      var block := index[key];
      if |block| >= maxBlock && visitor !in block {
        dropped := dropped + 1;
        return;
      }
      index := index[key := block + {visitor}];
    }

    /** Union of the visitors of every supplied key. */
    method Recall(keys: seq<Hash32>) returns (candidates: set<string>)
      ensures candidates == Candidates(View(), keys)
    {
      candidates := {};
      for i := 0 to |keys|
        invariant candidates == Candidates(View(), keys[..i])
      {
        assert keys[..i + 1] == keys[..i] + [keys[i]];
        CandidatesSnoc(View(), keys[..i], keys[i]);
        if keys[i] in index {
          candidates := candidates + index[keys[i]];
        }
      }
      assert keys[..|keys|] == keys;
    }

    method RemoveVisitor(visitor: string)
      modifies this
      ensures View() == Removed(old(View()), visitor)
    {
      index := map key | key in index && index[key] - {visitor} != {} :: index[key] - {visitor};
    }
  }
}
