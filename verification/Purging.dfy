// Purged and evicted visitors leave stale entries in the blocking index
// (crates/fp-core/src/fuzzy/mod.rs, `purge_expired`). This file compares the store with an ideal
// one that scrubs the index whenever a record goes: they give the same verdicts, and stay in
// step over a run exactly when no stale entry of a visitor that comes back lies outside the new
// observation's keys and no stale entry lies in a block without room for an observation.
module Purging {
  import opened Basics
  import opened Component
  import opened Scoring
  import opened Ranking
  import opened Engine
  import R = Records
  import B = Blocking
  import V = Velocity

  /** The index with every visitor outside `live` scrubbed. */
  function Scrubbed(ix: B.Index, live: set<string>): B.Index {
    ix.(blocks := map key | key in ix.blocks && ix.blocks[key] * live != {} :: ix.blocks[key] * live)
  }

  function Clean(s: Store): Store {
    s.(index := Scrubbed(s.index, s.lib.records.Keys))
  }

  ghost predicate Bounded(ix: B.Index, cap: nat) {
    forall key :: key in ix.blocks ==> |ix.blocks[key]| <= cap
  }

  lemma ScrubbedRelation(ix: B.Index, live: set<string>)
    ensures forall k, v :: Scrubbed(ix, live).Holds(k, v) <==> ix.Holds(k, v) && v in live
    ensures forall k :: k in Scrubbed(ix, live).blocks ==> Scrubbed(ix, live).blocks[k] != {}
  {
    forall k, v ensures Scrubbed(ix, live).Holds(k, v) <==> ix.Holds(k, v) && v in live {
      if ix.Holds(k, v) && v in live { assert v in ix.blocks[k] * live; }
    }
  }

  /** Scrubbed indexes are equal exactly when the live parts of their relations are. */
  lemma ScrubbedEqual(x: B.Index, y: B.Index, live: set<string>)
    ensures Scrubbed(x, live) == Scrubbed(y, live) <==>
      x.dropped == y.dropped && forall k, v :: v in live ==> (x.Holds(k, v) <==> y.Holds(k, v))
  {
    ScrubbedRelation(x, live);
    ScrubbedRelation(y, live);
    if x.dropped == y.dropped && forall k, v :: v in live ==> (x.Holds(k, v) <==> y.Holds(k, v)) {
      forall k ensures x.Block(k) * live == y.Block(k) * live {
        forall v ensures v in x.Block(k) * live <==> v in y.Block(k) * live {
          assert x.Holds(k, v) <==> v in x.Block(k);
          assert y.Holds(k, v) <==> v in y.Block(k);
        }
      }
      forall k ensures k in Scrubbed(x, live).blocks <==> k in Scrubbed(y, live).blocks {
        assert x.Block(k) * live == y.Block(k) * live;
      }
      assert Scrubbed(x, live).blocks == Scrubbed(y, live).blocks by {
        forall k | k in Scrubbed(x, live).blocks ensures Scrubbed(x, live).blocks[k] == Scrubbed(y, live).blocks[k] {
          assert x.Block(k) * live == y.Block(k) * live;
        }
      }
    }
  }

  // ---- Scrubbing is erasing ----

  function EraseAll(s: Store, vs: seq<string>): Store {
    if vs == [] then s
    else
      var t, v := EraseAll(s, vs[..|vs| - 1]), vs[|vs| - 1];
      t.(lib := t.lib.Removed(v), index := B.Removed(t.index, v))
  }

  lemma RemovedFromScrubbed(ix: B.Index, live: set<string>, v: string)
    ensures B.Removed(Scrubbed(ix, live), v) == Scrubbed(ix, live - {v})
  {
    forall key | key in ix.blocks ensures (ix.blocks[key] * live) - {v} == ix.blocks[key] * (live - {v}) {
    }
  }

  /** Erasing visitors one after another leaves what scrubbing all of them leaves. */
  lemma {:induction false} ErasingIsScrubbing(s: Store, vs: seq<string>)
    requires Clean(s) == s
    ensures EraseAll(s, vs).lib == R.Lib(s.lib.records - Elems(vs), s.lib.evicted)
    ensures EraseAll(s, vs).index == Scrubbed(s.index, s.lib.records.Keys - Elems(vs))
  {
    if vs == [] {
      assert s.lib.records - Elems(vs) == s.lib.records;
    } else {
      var front, v := vs[..|vs| - 1], vs[|vs| - 1];
      ErasingIsScrubbing(s, front);
      SplitLast(vs);
      assert Elems(vs) == Elems(front) + {v};
      RemovedFromScrubbed(s.index, s.lib.records.Keys - Elems(front), v);
      assert s.lib.records.Keys - Elems(front) - {v} == s.lib.records.Keys - Elems(vs);
      assert s.lib.records - Elems(front) - {v} == s.lib.records - Elems(vs);
    }
  }

  lemma KeptAreTheRest(lib: R.Lib, now: nat, age: nat, gone: set<string>)
    requires gone == lib.records.Keys - lib.Purged(now, age).records.Keys
    ensures lib.Purged(now, age).records == lib.records - gone
    ensures (lib.records - gone).Keys == lib.records.Keys - gone
  {
  }

  /** The ideal store after a purge is the one in which each purged visitor was erased. */
  lemma PurgeIsErasure(s: Store, now: nat, age: nat, gone: seq<string>)
    requires Clean(s) == s && Elems(gone) == s.lib.records.Keys - s.lib.Purged(now, age).records.Keys
    ensures var ideal := Clean(s.(lib := s.lib.Purged(now, age)));
      ideal.index == EraseAll(s, gone).index && ideal.lib.records == EraseAll(s, gone).lib.records
  {
    ErasingIsScrubbing(s, gone);
    KeptAreTheRest(s.lib, now, age, Elems(gone));
  }

  // ---- One verdict ----

  function Filter(order: seq<string>, live: set<string>): seq<string> {
    if order == [] then [] else (if order[0] in live then [order[0]] else []) + Filter(order[1..], live)
  }

  lemma {:induction false} FilterMembers(order: seq<string>, live: set<string>)
    ensures forall x :: x in Filter(order, live) <==> x in order && x in live
  {
    if order != [] { FilterMembers(order[1..], live); }
  }

  lemma {:induction false} FilterNoDup(order: seq<string>, live: set<string>)
    requires NoDup(order)
    ensures NoDup(Filter(order, live))
  {
    if order != [] {
      FilterNoDup(order[1..], live);
      FilterMembers(order[1..], live);
      assert order[0] !in order[1..];
    }
  }

  lemma FilterEnumerates(order: seq<string>, ids: set<string>, live: set<string>)
    requires Enumerates(order, ids)
    ensures Enumerates(Filter(order, live), ids * live)
  {
    FilterMembers(order, live);
    FilterNoDup(order, live);
    assert Elems(Filter(order, live)) == Elems(order) * live;
  }

  lemma {:induction false} FilterSum(a: seq<string>, b: seq<string>, live: set<string>)
    ensures Filter(a + b, live) == Filter(a, live) + Filter(b, live)
  {
    if a == [] {
      assert a + b == b;
    } else {
      FilterSum(a[1..], b, live);
      assert (a + b)[0] == a[0] && (a + b)[1..] == a[1..] + b;
      Assoc(if a[0] in live then [a[0]] else [], Filter(a[1..], live), Filter(b, live));
    }
  }

  lemma {:induction false} FilterAll(order: seq<string>, live: set<string>)
    ensures (forall x :: x in order ==> x in live) ==> Filter(order, live) == order
    ensures (forall x :: x in order ==> x !in live) ==> Filter(order, live) == []
  {
    if order != [] { FilterAll(order[1..], live); }
  }

  /** Candidates score finitely exactly when they are live. */
  lemma {:induction false} LiveIsFiltered(score: string -> Scored, live: set<string>, order: seq<string>)
    requires forall id :: score(id).score.Fin? <==> id in live
    ensures Live(ScoredIn(score, order)) == ScoredIn(score, Filter(order, live))
  {
    if order != [] {
      LiveIsFiltered(score, live, order[1..]);
      var xs := ScoredIn(score, order);
      assert xs[0] == score(order[0]);
      assert xs[1..] == ScoredIn(score, order[1..]);
      var tail := ScoredIn(score, Filter(order[1..], live));
      assert ScoredIn(score, [order[0]] + Filter(order[1..], live)) == [score(order[0])] + tail;
    }
  }

  /** Equal up to the score field, where minus infinity stands for the absence of a candidate. */
  predicate SameVerdict(a: Outcome, b: Outcome) {
    && a.(score := None) == b.(score := None)
    && (a.score == b.score || (a.score == Some(NegInf) && b.score == None))
  }

  /** Dead candidates leave the best entry alone if anyone is live, and otherwise only put minus
      infinity where there was nothing. */
  lemma DeadSink(xs: seq<Scored>)
    requires forall x :: x in xs && x.score.NegInf? ==> x.compared == 0
    ensures Live(xs) != [] ==> Best(xs) == Best(Live(xs)) && Best(xs).Some? && Best(xs).value.score.Fin?
    ensures Live(xs) == [] ==> Best(Live(xs)).None? && Second(Live(xs)).None?
    ensures Live(xs) == [] ==> Best(xs).None? || (Best(xs).value.score.NegInf? && Best(xs).value.compared == 0)
    ensures Second(xs) == Second(Live(xs)) || (Second(xs) == Some(NegInf) && Second(Live(xs)).None?)
  {
    SortSplits(xs);
    LiveDeadScores(xs);
    SortSorts(Live(xs));
    DeadAmong(xs);
    var live, dead := SortDesc(Live(xs)), Dead(xs);
    if |live| > 0 { SortedEntry(Live(xs), 0); }
    if |live| == 0 && |dead| > 0 { assert dead[0] in dead; }
    if |live| == 0 && |dead| > 1 { assert dead[1] in dead; }
    if |live| == 1 && |dead| > 0 { assert dead[0] in dead; }
  }

  /** A dead best entry stands for none, a dead runner-up for none. */
  lemma SunkVerdict(env: Env, best: Option<Scored>, second: Option<Score>, best': Option<Scored>,
                    second': Option<Score>, probe: Json)
    requires best == best' || (best' == None && best.value.score.NegInf? && best.value.compared == 0)
    requires best == best' ==> best.None? || best.value.score.Fin? || second == second'
    requires second == second' || (second == Some(NegInf) && second' == None)
    ensures SameVerdict(VerdictFrom(env, best, second, probe), VerdictFrom(env, best', second', probe))
  {
  }

  /** Dead candidates change nothing but the score field. */
  lemma DeadCandidatesAreInvisible(env: Env, xs: seq<Scored>, probe: Json)
    requires forall x :: x in xs && x.score.NegInf? ==> x.compared == 0
    ensures SameVerdict(Verdict(env, xs, probe), Verdict(env, Live(xs), probe))
  {
    DeadSink(xs);
    SunkVerdict(env, Best(xs), Second(xs), Best(Live(xs)), Second(Live(xs)), probe);
  }

  lemma {:induction false} DeadAmong(xs: seq<Scored>)
    ensures forall x :: x in Dead(xs) ==> x in xs
  {
    if xs != [] { DeadAmong(xs[1..]); }
  }

  lemma RecallOfClean(env: Env, s: Store, stored: map<string, Stored>)
    ensures Recall(env, Clean(s), stored) == Recall(env, s, stored) * s.lib.records.Keys
  {
    var keys, live := KeysOf(env, stored), s.lib.records.Keys;
    ScrubbedRelation(s.index, live);
    forall v ensures v in Recall(env, Clean(s), stored) <==> v in Recall(env, s, stored) && v in live {
      B.CandidatesAreImage(Clean(s).index, keys, v);
      B.CandidatesAreImage(s.index, keys, v);
      if v in Recall(env, s, stored) && v in live {
        var key :| key in keys && s.index.Holds(key, v);
        assert Clean(s).index.Holds(key, v);
      }
    }
  }

  /** For every probe and every order of the candidates, the purged store and the scrubbed one
      give the same verdict, id, comparison count, confidence and collision flag. */
  lemma PurgingIsInvisible(env: Env, s: Store, probe: Json, order: seq<string>)
    requires Enumerates(order, Recall(env, s, StoredMap(env.keying, probe)))
    ensures var o := Filter(order, s.lib.records.Keys);
      && Enumerates(o, Recall(env, Clean(s), StoredMap(env.keying, probe)))
      && SameVerdict(Evaluate(env, s, probe, order), Evaluate(env, Clean(s), probe, o))
  {
    var stored, live := StoredMap(env.keying, probe), s.lib.records.Keys;
    var score := Scorer(env, s, stored);
    RecallOfClean(env, s, stored);
    FilterEnumerates(order, Recall(env, s, stored), live);
    SameScorer(env, s, stored);
    LiveIsFiltered(score, live, order);
    DeadCandidatesAreInvisible(env, ScoredIn(score, order), probe);
    ScoredInCongruence(score, Scorer(env, Clean(s), stored), Filter(order, live));
  }

  lemma SameScorer(env: Env, s: Store, stored: map<string, Stored>)
    ensures forall id :: Scorer(env, s, stored)(id) == Scorer(env, Clean(s), stored)(id)
    ensures forall id :: Scorer(env, s, stored)(id).score.Fin? <==> id in s.lib.records.Keys
  {
    forall id ensures Scorer(env, s, stored)(id) == Scorer(env, Clean(s), stored)(id) {
      assert ScoreId(env, s, stored, id) == ScoreId(env, Clean(s), stored, id);
    }
  }

  lemma ScoredInCongruence(f: string -> Scored, g: string -> Scored, order: seq<string>)
    requires forall id :: id in order ==> f(id) == g(id)
    ensures ScoredIn(f, order) == ScoredIn(g, order)
  {
  }

  lemma ConcatEnumerates(a: seq<string>, b: seq<string>, s: set<string>, t: set<string>)
    requires Enumerates(a, s) && (forall x :: x in b <==> x in t) && NoDup(b) && s !! t
    ensures Enumerates(a + b, s + t)
    ensures forall x :: x in a <==> x in s
  {
    assert forall x :: x in a <==> x in Elems(a);
    assert Elems(a + b) == s + t;
    forall i, j | 0 <= i < j < |a + b| ensures (a + b)[i] != (a + b)[j] {
      if i < |a| <= j {
        assert a[i] in s && b[j - |a|] in t;
      }
    }
  }

  lemma FilterSplit(a: seq<string>, b: seq<string>, live: set<string>)
    requires (forall x :: x in a ==> x in live) && (forall x :: x in b ==> x !in live)
    ensures Filter(a + b, live) == a
  {
    FilterSum(a, b, live);
    FilterAll(a, live);
    FilterAll(b, live);
    assert a + [] == a;
  }

  /** Every order of the live candidates extends to an order of all of them. */
  lemma OrderExtends(o: seq<string>, ids: set<string>, live: set<string>) returns (order: seq<string>)
    requires Enumerates(o, ids * live)
    ensures Enumerates(order, ids) && Filter(order, live) == o
  {
    var stale := ids - live;
    order := o + Sorted(stale);
    ConcatEnumerates(o, Sorted(stale), ids * live, stale);
    assert ids * live + stale == ids;
    FilterSplit(o, Sorted(stale), live);
  }

  /** Every order of the scrubbed store's candidates is the live part of an order of the purged one's. */
  lemma EveryIdealOrderArises(env: Env, s: Store, stored: map<string, Stored>, o: seq<string>)
    returns (order: seq<string>)
    requires Enumerates(o, Recall(env, Clean(s), stored))
    ensures Enumerates(order, Recall(env, s, stored)) && Filter(order, s.lib.records.Keys) == o
  {
    RecallOfClean(env, s, stored);
    order := OrderExtends(o, Recall(env, s, stored), s.lib.records.Keys);
  }

  // ---- One step ----

  ghost predicate Within(small: B.Index, big: B.Index) {
    forall k :: small.Block(k) <= big.Block(k)
  }

  lemma ScrubbedWithin(ix: B.Index, live: set<string>)
    ensures Within(Scrubbed(ix, live), ix)
  {
    ScrubbedRelation(ix, live);
    forall k ensures Scrubbed(ix, live).Block(k) <= ix.Block(k) {
      forall u | u in Scrubbed(ix, live).Block(k) ensures u in ix.Block(k) {
        assert Scrubbed(ix, live).Holds(k, u);
      }
    }
  }

  /** What fits the larger index fits the smaller one. */
  lemma FitsSmaller(small: B.Index, big: B.Index, cap: nat, key: Hash32, v: string)
    requires Within(small, big) && Bounded(big, cap) && B.Accepts(big, cap, key, v)
    ensures B.Accepts(small, cap, key, v)
  {
    SubsetSize(small.Block(key), big.Block(key));
    if big.Holds(key, v) && !small.Holds(key, v) {
      SubsetSize(small.Block(key) + {v}, big.Block(key));
    }
  }

  lemma {:induction false} InsertionBounded(ix: B.Index, cap: nat, keys: seq<Hash32>, v: string)
    requires Bounded(ix, cap)
    ensures Bounded(B.InsertedAll(ix, cap, keys, v), cap)
  {
    if keys != [] {
      var n := |keys| - 1;
      var mid := B.InsertedAll(ix, cap, keys[..n], v);
      InsertionBounded(ix, cap, keys[..n], v);
      if mid.Holds(keys[n], v) {
        assert mid.Block(keys[n]) + {v} == mid.Block(keys[n]);
      }
    }
  }

  /** No stale entry of `v` lies outside the keys it is now indexed under. */
  ghost predicate NothingStale(ix: B.Index, live: set<string>, keys: seq<Hash32>, v: string) {
    v in live || forall k :: ix.Holds(k, v) ==> k in keys
  }

  /** No key without room for `v` owes that to a stale entry. */
  ghost predicate NothingCrowds(ix: B.Index, cap: nat, live: set<string>, keys: seq<Hash32>, v: string) {
    forall k :: k in keys && !B.Accepts(ix, cap, k, v) ==> ix.Block(k) <= live
  }

  /** A key without room has room once scrubbed exactly if a stale entry is in it. */
  lemma RoomAfterScrubbing(ix: B.Index, cap: nat, key: Hash32, v: string, live: set<string>)
    requires Bounded(ix, cap) && !B.Accepts(ix, cap, key, v)
    ensures B.Accepts(Scrubbed(ix, live), cap, key, v) <==> !(ix.Block(key) <= live)
  {
    ScrubbedRelation(ix, live);
    var small := Scrubbed(ix, live);
    assert small.Block(key) == ix.Block(key) * live by {
      forall u ensures u in small.Block(key) <==> u in ix.Block(key) * live {
        assert small.Holds(key, u) <==> ix.Holds(key, u) && u in live;
      }
    }
    if ix.Block(key) <= live {
      assert ix.Block(key) * live == ix.Block(key);
    } else {
      SubsetSize(ix.Block(key) * live, ix.Block(key));
    }
  }

  lemma SameRoom(ix: B.Index, cap: nat, keys: seq<Hash32>, v: string, live: set<string>)
    requires Bounded(ix, cap)
    ensures NothingCrowds(ix, cap, live, keys, v) <==>
      forall k :: k in keys ==> (B.Accepts(ix, cap, k, v) <==> B.Accepts(Scrubbed(ix, live), cap, k, v))
  {
    ScrubbedWithin(ix, live);
    forall k ensures
      (B.Accepts(ix, cap, k, v) ==> B.Accepts(Scrubbed(ix, live), cap, k, v))
      && (!B.Accepts(ix, cap, k, v) ==> (B.Accepts(Scrubbed(ix, live), cap, k, v) <==> !(ix.Block(k) <= live)))
    {
      if B.Accepts(ix, cap, k, v) {
        FitsSmaller(Scrubbed(ix, live), ix, cap, k, v);
      } else {
        RoomAfterScrubbing(ix, cap, k, v, live);
      }
    }
  }

  ghost predicate SameLive(x: B.Index, y: B.Index, live: set<string>) {
    forall k, u :: u in live ==> (x.Holds(k, u) <==> y.Holds(k, u))
  }

  /** The live relations after both insertions agree exactly when nothing stale is revived and nothing
      stale takes up room. */
  lemma LiveRelationsAgree(ix: B.Index, cap: nat, keys: seq<Hash32>, v: string, live: set<string>, after: set<string>)
    requires Bounded(ix, cap) && v in after && after <= live + {v}
    ensures SameLive(B.InsertedAll(ix, cap, keys, v), B.InsertedAll(Scrubbed(ix, live), cap, keys, v), after)
       <==> NothingStale(ix, live, keys, v) && NothingCrowds(ix, cap, live, keys, v)
  {
    var small := Scrubbed(ix, live);
    var x, y := B.InsertedAll(ix, cap, keys, v), B.InsertedAll(small, cap, keys, v);
    ScrubbedRelation(ix, live);
    SameRoom(ix, cap, keys, v, live);
    B.InsertedAllRelation(ix, cap, keys, v);
    B.InsertedAllRelation(small, cap, keys, v);
    if SameLive(x, y, after) {
      forall k | k in keys ensures B.Accepts(ix, cap, k, v) <==> B.Accepts(small, cap, k, v) {
        assert x.Holds(k, v) <==> y.Holds(k, v);
      }
      assert NothingCrowds(ix, cap, live, keys, v);
      if v !in live {
        forall k | ix.Holds(k, v) ensures k in keys {
          assert x.Holds(k, v) <==> y.Holds(k, v);
          assert !small.Holds(k, v);
        }
      }
    }
    if NothingStale(ix, live, keys, v) && NothingCrowds(ix, cap, live, keys, v) {
      forall k, u | u in after ensures x.Holds(k, u) <==> y.Holds(k, u) {
        assert small.Holds(k, u) <==> ix.Holds(k, u) && u in live;
        assert k in keys ==> (B.Accepts(ix, cap, k, v) <==> B.Accepts(small, cap, k, v));
      }
      assert SameLive(x, y, after);
    }
  }

  /** Inserting into the scrubbed index and into the stale one gives the same live index and the same
      tally exactly when nothing stale is revived and no stale entry takes up the room of the insertion. */
  lemma InsertionCommutesWithScrubbing(ix: B.Index, cap: nat, keys: seq<Hash32>, v: string, live: set<string>,
                                       after: set<string>)
    requires Bounded(ix, cap) && v in after && after <= live + {v}
    ensures
      (Scrubbed(B.InsertedAll(ix, cap, keys, v), after) ==
       Scrubbed(B.InsertedAll(Scrubbed(ix, live), cap, keys, v), after)) <==>
      NothingStale(ix, live, keys, v) && NothingCrowds(ix, cap, live, keys, v)
  {
    var small := Scrubbed(ix, live);
    LiveRelationsAgree(ix, cap, keys, v, live, after);
    ScrubbedEqual(B.InsertedAll(ix, cap, keys, v), B.InsertedAll(small, cap, keys, v), after);
    B.InsertedAllDrops(ix, cap, keys, v);
    B.InsertedAllDrops(small, cap, keys, v);
    if NothingCrowds(ix, cap, live, keys, v) {
      SameRoom(ix, cap, keys, v, live);
      B.RefusalsAgree(ix, small, cap, keys, v);
    }
  }

  function Translate(s: Store, l: Label): Label {
    match l
    case Identify(probe, now, ip, ja4, order, keep) =>
      Identify(probe, now, ip, ja4, Filter(order, s.lib.records.Keys), keep)
    case ScoreOnly(probe, order) => ScoreOnly(probe, Filter(order, s.lib.records.Keys))
    case _ => l
  }

  /** The step's insertion revives nothing stale and is crowded out by nothing stale. */
  ghost predicate Undisturbed(env: Env, pol: Policy, s: Store, l: Label) {
    Touched(env, s, l).Some? ==>
      var live, keys, v := s.lib.records.Keys, KeysOf(env, StoredOf(env, l)), Touched(env, s, l).value;
      NothingStale(s.index, live, keys, v) && NothingCrowds(s.index, pol.maxBlock, live, keys, v)
  }

  /** The replies agree, up to the score field. */
  predicate SameReply(a: Reply, b: Reply) {
    if a.Answer? && b.Answer? then SameVerdict(a.outcome, b.outcome) else a == b
  }

  lemma VerdictTranslated(env: Env, s: Store, l: Label)
    requires l.Identify?
    ensures Enumerates(l.order, Recall(env, s, StoredOf(env, l))) ==>
      && Enumerates(Translate(s, l).order, Recall(env, Clean(s), StoredOf(env, l)))
      && SameVerdict(VerdictOf(env, s, l), VerdictOf(env, Clean(s), Translate(s, l)))
  {
    if Enumerates(l.order, Recall(env, s, StoredOf(env, l))) {
      PurgingIsInvisible(env, s, l.probe, l.order);
    }
  }

  lemma IdentifyTranslated(env: Env, pol: Policy, s: Store, l: Label)
    requires l.Identify? && Enabled(env, pol, s, l)
    ensures Enabled(env, pol, Clean(s), Translate(s, l))
    ensures Touched(env, Clean(s), Translate(s, l)) == Touched(env, s, l)
    ensures SameVerdict(VerdictOf(env, s, l), VerdictOf(env, Clean(s), Translate(s, l)))
    ensures SameVerdict(OutcomeOf(env, pol, s, l), OutcomeOf(env, pol, Clean(s), Translate(s, l)))
  {
    VerdictTranslated(env, s, l);
    VelocityKeepsSame(pol, s.vel, VerdictOf(env, s, l), VerdictOf(env, Clean(s), Translate(s, l)), l.ip, l.ja4,
                      l.now / 1000);
  }

  lemma VelocityKeepsSame(pol: Policy, v: V.Vel, a: Outcome, b: Outcome, ip: Option<string>, ja4: Option<string>,
                          secs: nat)
    ensures SameVerdict(a, b) ==>
      SameVerdict(WithVelocity(pol, v, a, ip, ja4, secs), WithVelocity(pol, v, b, ip, ja4, secs))
  {
  }

  lemma TranslatedEnabled(env: Env, pol: Policy, s: Store, l: Label)
    requires Enabled(env, pol, s, l)
    ensures Enabled(env, pol, Clean(s), Translate(s, l))
    ensures Touched(env, Clean(s), Translate(s, l)) == Touched(env, s, l)
    ensures l.Identify? ==> SameVerdict(VerdictOf(env, s, l), VerdictOf(env, Clean(s), Translate(s, l)))
    ensures SameReply(ReplyOf(env, pol, s, l), ReplyOf(env, pol, Clean(s), Translate(s, l)))
  {
    match l
    case Identify(_, _, _, _, _, _) => IdentifyTranslated(env, pol, s, l);
    case ScoreOnly(probe, order) => PurgingIsInvisible(env, s, probe, order);
    case Erase(_) =>
    case Purge(_, _) =>
  }

  lemma ObservedCommutes(env: Env, pol: Policy, s: Store, v: string, stored: map<string, Stored>, now: nat,
                         keep: set<string>)
    requires Bounded(s.index, pol.maxBlock)
    requires s.lib.ValidKeep(pol.bounds, v, stored, now, keep)
    ensures
      (Clean(Observed(env, pol, s, v, stored, now, keep)) ==
       Clean(Observed(env, pol, Clean(s), v, stored, now, keep))) <==>
      NothingStale(s.index, s.lib.records.Keys, KeysOf(env, stored), v)
      && NothingCrowds(s.index, pol.maxBlock, s.lib.records.Keys, KeysOf(env, stored), v)
  {
    R.ObservedBounds(s.lib, pol.bounds, v, stored, now, keep);
    var after := s.lib.Observed(pol.bounds, v, stored, now, keep).records.Keys;
    InsertionCommutesWithScrubbing(s.index, pol.maxBlock, KeysOf(env, stored), v, s.lib.records.Keys, after);
  }

  lemma VerdictInStep(env: Env, pol: Policy, s: Store, o: Outcome, o': Outcome, stored: map<string, Stored>, now: nat,
                      ip: Option<string>, ja4: Option<string>, keep: set<string>)
    requires SameVerdict(o, o') && Bounded(s.index, pol.maxBlock)
    requires o.decision != Review ==> s.lib.ValidKeep(pol.bounds, o.visitorId, stored, now, keep)
    ensures Clean(AfterVerdict(env, pol, s, o, stored, now, ip, ja4, keep)) ==
            Clean(AfterVerdict(env, pol, Clean(s), o', stored, now, ip, ja4, keep))
       <==> (o.decision != Review ==>
              NothingStale(s.index, s.lib.records.Keys, KeysOf(env, stored), o.visitorId)
              && NothingCrowds(s.index, pol.maxBlock, s.lib.records.Keys, KeysOf(env, stored), o.visitorId))
  {
    match o.decision
    case Match => ObservedCommutes(env, pol, Learned(env, pol, s, o.visitorId, stored), o.visitorId, stored, now, keep);
    case NewDevice => ObservedCommutes(env, pol, s, o.visitorId, stored, now, keep);
    case Review => ScrubTwice(s.index, s.lib.records.Keys, s.lib.records.Keys);
  }

  lemma IdentifyInStep(env: Env, pol: Policy, s: Store, l: Label)
    requires l.Identify? && Enabled(env, pol, s, l) && Bounded(s.index, pol.maxBlock)
    requires SameVerdict(VerdictOf(env, s, l), VerdictOf(env, Clean(s), Translate(s, l)))
    ensures Clean(Next(env, pol, s, l)) == Clean(Next(env, pol, Clean(s), Translate(s, l))) <==>
      Undisturbed(env, pol, s, l)
  {
    VerdictInStep(env, pol, s, VerdictOf(env, s, l), VerdictOf(env, Clean(s), Translate(s, l)), StoredOf(env, l),
                  l.now, l.ip, l.ja4, l.keep);
  }

  /** One step of the store and one of the ideal store, which scrubs afterwards, end in matching
      states exactly when no stale entry disturbs the step's insertion. */
  lemma StepStaysInStep(env: Env, pol: Policy, s: Store, l: Label)
    requires Enabled(env, pol, s, l) && Bounded(s.index, pol.maxBlock)
    ensures Clean(Next(env, pol, s, l)) == Clean(Next(env, pol, Clean(s), Translate(s, l))) <==>
      Undisturbed(env, pol, s, l)
  {
    match l
    case Identify(_, _, _, _, _, _) =>
      TranslatedEnabled(env, pol, s, l);
      IdentifyInStep(env, pol, s, l);
    case ScoreOnly(_, _) => ScrubTwice(s.index, s.lib.records.Keys, s.lib.records.Keys);
    case Erase(v) =>
      var live := s.lib.records.Keys;
      B.RemovedRelation(s.index, v);
      B.RemovedRelation(Scrubbed(s.index, live), v);
      ScrubbedRelation(s.index, live);
      ScrubbedEqual(B.Removed(s.index, v), B.Removed(Scrubbed(s.index, live), v), (s.lib.records - {v}).Keys);
    case Purge(now, age) =>
      ScrubTwice(s.index, s.lib.records.Keys, s.lib.Purged(now, age).records.Keys);
  }

  lemma ScrubTwice(ix: B.Index, live: set<string>, after: set<string>)
    requires after <= live
    ensures Scrubbed(Scrubbed(ix, live), after) == Scrubbed(ix, after)
  {
    ScrubbedRelation(ix, live);
    ScrubbedEqual(Scrubbed(ix, live), ix, after);
  }

  lemma StepBounded(env: Env, pol: Policy, s: Store, l: Label)
    requires Bounded(s.index, pol.maxBlock)
    ensures Bounded(Next(env, pol, s, l).index, pol.maxBlock)
  {
    match l
    case Identify(_, _, _, _, _, _) =>
      AfterVerdictParts(env, pol, s, VerdictOf(env, s, l), StoredOf(env, l), l.now, l.ip, l.ja4, l.keep);
      InsertionBounded(s.index, pol.maxBlock, KeysOf(env, StoredOf(env, l)), VerdictOf(env, s, l).visitorId);
    case ScoreOnly(_, _) =>
    case Purge(_, _) =>
    case Erase(v) =>
      forall key | key in B.Removed(s.index, v).blocks ensures |s.index.blocks[key] - {v}| <= pol.maxBlock {
        SubsetSize(s.index.blocks[key] - {v}, s.index.blocks[key]);
      }
  }

  lemma {:induction false} ReachableBounded(env: Env, pol: Policy, ls: seq<Label>)
    ensures Bounded(Run(env, pol, ls).index, pol.maxBlock)
  {
    if ls != [] {
      ReachableBounded(env, pol, ls[..|ls| - 1]);
      StepBounded(env, pol, Run(env, pol, ls[..|ls| - 1]), ls[|ls| - 1]);
    }
  }

  // ---- Runs ----

  /** The ideal store's run on the translated labels. */
  ghost function IdealRun(env: Env, pol: Policy, ls: seq<Label>): Store {
    if ls == [] then EMPTY
    else
      var front, last := ls[..|ls| - 1], ls[|ls| - 1];
      Clean(Next(env, pol, IdealRun(env, pol, front), Translate(Run(env, pol, front), last)))
  }

  /** No stale entry disturbs any step. */
  ghost predicate Quiet(env: Env, pol: Policy, ls: seq<Label>) {
    ls == [] || (Quiet(env, pol, ls[..|ls| - 1]) && Undisturbed(env, pol, Run(env, pol, ls[..|ls| - 1]), ls[|ls| - 1]))
  }

  /** The ideal store is the scrubbed store after every prefix of the run. */
  ghost predicate InStep(env: Env, pol: Policy, ls: seq<Label>) {
    IdealRun(env, pol, ls) == Clean(Run(env, pol, ls)) && (ls == [] || InStep(env, pol, ls[..|ls| - 1]))
  }

  /** Over every run the ideal store is exactly the scrubbed store throughout exactly when no stale entry
      disturbs any step. */
  lemma {:induction false} RunsStayInStep(env: Env, pol: Policy, ls: seq<Label>)
    requires Feasible(env, pol, ls)
    ensures InStep(env, pol, ls) <==> Quiet(env, pol, ls)
  {
    if ls == [] {
      assert Clean(EMPTY) == EMPTY;
    } else {
      var front, last := ls[..|ls| - 1], ls[|ls| - 1];
      RunsStayInStep(env, pol, front);
      ReachableBounded(env, pol, front);
      StepStaysInStep(env, pol, Run(env, pol, front), last);
    }
  }

  /** While the stores are in step, each step of the ideal store is possible and gives the same reply. */
  lemma RepliesAgree(env: Env, pol: Policy, ls: seq<Label>, l: Label)
    requires InStep(env, pol, ls) && Enabled(env, pol, Run(env, pol, ls), l)
    ensures var s, t := Run(env, pol, ls), IdealRun(env, pol, ls);
      Enabled(env, pol, t, Translate(s, l)) && SameReply(ReplyOf(env, pol, s, l), ReplyOf(env, pol, t, Translate(s, l)))
  {
    TranslatedEnabled(env, pol, Run(env, pol, ls), l);
  }
}
