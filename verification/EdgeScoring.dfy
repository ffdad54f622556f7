// Scoring on the edge (crates/fp-wasm/src/lib.rs): every request rebuilds a throw-away store from
// the recalled candidates and scores the probe against it.
module EdgeScoring {
  import opened Basics
  import opened Component
  import opened Scoring
  import opened Ranking
  import opened Engine
  import opened Verdicts
  import BlockingKeys
  import FuzzyStores
  import Purging
  import E = EdgeStore
  import R = Records
  import B = Blocking
  import F = Frequency
  import A = Agreement

  type Row = (string, E.Raw)

  /** The limits of the throw-away store: none, but for the block size. */
  const TRANSIENT: Policy := Policy(R.UNBOUNDED, None, None, None, B.DEFAULT_MAX_BLOCK)

  ghost function StoredRow(env: Env, row: Row): map<string, Stored> {
    StoredEntries(env.keying, row.1)
  }

  ghost function Everyone(s: Store, v: string): set<string> {
    s.lib.records.Keys + {v}
  }

  /** The throw-away store after observing the candidates in order, at time zero. */
  ghost function Rebuilt(env: Env, rows: seq<Row>): Store {
    if rows == [] then EMPTY
    else
      var s, row := Rebuilt(env, rows[..|rows| - 1]), rows[|rows| - 1];
      Observed(env, TRANSIENT, s, row.0, StoredRow(env, row), 0, Everyone(s, row.0))
  }

  ghost predicate DistinctRows(rows: seq<Row>) {
    forall i, j :: 0 <= i < j < |rows| ==> rows[i].0 != rows[j].0
  }

  lemma OnlyEveryone(s: Store, v: string, stored: map<string, Stored>, keep: set<string>)
    requires s.lib.ValidKeep(R.UNBOUNDED, v, stored, 0, keep)
    ensures keep == Everyone(s, v)
  {
    assert s.lib.AfterTtl(R.UNBOUNDED, v, stored, 0) == R.Upserted(s.lib.records, v, stored, 0);
  }

  lemma EveryoneStays(lib: R.Lib, v: string, stored: map<string, Stored>)
    ensures lib.Observed(R.UNBOUNDED, v, stored, 0, lib.records.Keys + {v}) ==
      R.Lib(R.Upserted(lib.records, v, stored, 0), lib.evicted)
  {
    var up := R.Upserted(lib.records, v, stored, 0);
    assert lib.AfterTtl(R.UNBOUNDED, v, stored, 0) == up;
    assert R.Restricted(up, lib.records.Keys + {v}) == up;
  }

  // ---- Library ----

  lemma RebuiltLib(env: Env, rows: seq<Row>)
    requires rows != []
    ensures var before, last := Rebuilt(env, rows[..|rows| - 1]).lib, rows[|rows| - 1];
      Rebuilt(env, rows).lib == R.Lib(R.Upserted(before.records, last.0, StoredRow(env, last), 0), before.evicted)
  {
    var last := rows[|rows| - 1];
    EveryoneStays(Rebuilt(env, rows[..|rows| - 1]).lib, last.0, StoredRow(env, last));
  }

  /** Each distinct candidate becomes one record holding its stored template. */
  lemma {:induction false} RebuiltLibrary(env: Env, rows: seq<Row>)
    requires DistinctRows(rows)
    ensures Rebuilt(env, rows).lib.evicted == 0 && Holds(env, rows, Rebuilt(env, rows).lib.records)
  {
    if rows != [] {
      var front, last := rows[..|rows| - 1], rows[|rows| - 1];
      RebuiltLibrary(env, front);
      RebuiltLib(env, rows);
      SplitLast(rows);
      assert last.0 !in E.Ids(front);
      LibraryStep(env, front, last, Rebuilt(env, front).lib.records);
    }
  }

  /** Every candidate's record, freshly created. */
  ghost predicate Holds(env: Env, rows: seq<Row>, lib: R.Library) {
    && lib.Keys == E.Ids(rows)
    && forall row :: row in rows ==> row.0 in lib && lib[row.0] == R.Created(StoredRow(env, row), 0)
  }

  lemma LibraryStep(env: Env, front: seq<Row>, last: Row, lib: R.Library)
    requires Holds(env, front, lib) && last.0 !in E.Ids(front)
    ensures Holds(env, front + [last], R.Upserted(lib, last.0, StoredRow(env, last), 0))
  {
    assert E.Ids(front + [last]) == E.Ids(front) + {last.0};
    assert forall row :: row in front ==> row.0 in E.Ids(front);
    assert forall row :: row in front + [last] <==> row in front || row == last;
  }

  // ---- Frequency ----

  ghost function Sightings(env: Env, rows: seq<Row>): seq<Hash32> {
    if rows == [] then [] else Sightings(env, rows[..|rows| - 1]) + RowSightings(env, rows[|rows| - 1])
  }

  ghost function RowSightings(env: Env, row: Row): seq<Hash32> {
    ScalarHashes(env.keying, Sorted(StoredRow(env, row).Keys), StoredRow(env, row))
  }

  lemma {:induction false} RebuiltFrequency(env: Env, rows: seq<Row>)
    ensures Rebuilt(env, rows).freq == F.RecordedAll(F.EMPTY, None, Sightings(env, rows))
    ensures Rebuilt(env, rows).agree == A.EMPTY
  {
    if rows != [] {
      var front, last := rows[..|rows| - 1], rows[|rows| - 1];
      RebuiltFrequency(env, front);
      F.RecordedAllAppend(F.EMPTY, None, Sightings(env, front), RowSightings(env, last));
    }
  }

  lemma {:induction false} SightingsSum(env: Env, a: seq<Row>, b: seq<Row>)
    ensures Sightings(env, a + b) == Sightings(env, a) + Sightings(env, b)
  {
    if b == [] {
      assert a + b == a;
    } else {
      var front, last := b[..|b| - 1], b[|b| - 1];
      SightingsSum(env, a, front);
      assert (a + b)[..|a + b| - 1] == a + front && (a + b)[|a + b| - 1] == last;
      Assoc(Sightings(env, a), Sightings(env, front), RowSightings(env, last));
    }
  }

  lemma OneRow(env: Env, row: Row)
    ensures Sightings(env, [row]) == RowSightings(env, row)
  {
    assert [row][..0] == [];
    assert [] + RowSightings(env, row) == RowSightings(env, row);
  }

  lemma SightingsAround(env: Env, x: seq<Row>, row: Row, y: seq<Row>)
    ensures multiset(Sightings(env, x + ([row] + y))) ==
      multiset(Sightings(env, x + y)) + multiset(RowSightings(env, row))
  {
    SightingsSum(env, x, y);
    SightingsSum(env, x, [row] + y);
    SightingsSum(env, [row], y);
    OneRow(env, row);
    var u, v, w := Sightings(env, x), Sightings(env, y), RowSightings(env, row);
    assert multiset(u + (w + v)) == multiset(u + v) + multiset(w);
  }

  /** The sightings as a multiset depend on the candidates as a multiset. */
  lemma {:induction false} SightingsReorder(env: Env, a: seq<Row>, b: seq<Row>)
    requires multiset(a) == multiset(b)
    ensures multiset(Sightings(env, a)) == multiset(Sightings(env, b))
    decreases |a|
  {
    if a == [] {
      assert |multiset(b)| == 0;
    } else {
      var front, last := a[..|a| - 1], a[|a| - 1];
      var x, y := SplitAt(b, a);
      WithoutOne(front, last, x, y);
      SightingsReorder(env, front, x + y);
      SightingsAround(env, x, last, y);
    }
  }

  lemma SplitAt(b: seq<Row>, a: seq<Row>) returns (x: seq<Row>, y: seq<Row>)
    requires a != [] && multiset(a) == multiset(b)
    ensures b == x + ([a[|a| - 1]] + y) && a == a[..|a| - 1] + [a[|a| - 1]]
  {
    var last := a[|a| - 1];
    assert last in multiset(b);
    var j :| 0 <= j < |b| && b[j] == last;
    x, y := b[..j], b[j + 1..];
  }

  lemma WithoutOne(front: seq<Row>, last: Row, x: seq<Row>, y: seq<Row>)
    requires multiset(front + [last]) == multiset(x + ([last] + y))
    ensures multiset(front) == multiset(x + y)
  {
    assert multiset(front) == multiset(front + [last]) - multiset([last]);
    assert multiset(x + y) == multiset(x + ([last] + y)) - multiset([last]);
  }

  /** Without a cap, equal multisets of sightings leave equal tables. */
  lemma SameFrequency(s: seq<Hash32>, t: seq<Hash32>)
    requires multiset(s) == multiset(t)
    ensures F.RecordedAll(F.EMPTY, None, s) == F.RecordedAll(F.EMPTY, None, t)
  {
    var f, g := F.RecordedAll(F.EMPTY, None, s), F.RecordedAll(F.EMPTY, None, t);
    F.UncappedCounts(F.EMPTY, s);
    F.UncappedCounts(F.EMPTY, t);
    assert |multiset(s)| == |s| && |multiset(t)| == |t|;
    forall v ensures v in Elems(s) <==> v in Elems(t) {
      assert v in s <==> v in multiset(s);
      assert v in t <==> v in multiset(t);
    }
    assert f.perValue.Keys == g.perValue.Keys;
    forall v | v in f.perValue ensures f.perValue[v] == g.perValue[v] {
      assert f.Count(v) == g.Count(v);
    }
  }

  // ---- Index ----

  ghost predicate BlocksWithin(ix: B.Index, ids: set<string>) {
    forall key :: ix.Block(key) <= ids
  }

  /** While there are fewer visitors than a block holds, nothing is dropped. */
  lemma {:induction false} RoomForAll(ix: B.Index, cap: nat, keys: seq<Hash32>, v: string, ids: set<string>)
    requires BlocksWithin(ix, ids) && |ids + {v}| <= cap
    ensures B.InsertedAll(ix, cap, keys, v).dropped == ix.dropped
    ensures BlocksWithin(B.InsertedAll(ix, cap, keys, v), ids + {v})
  {
    if keys != [] {
      var n := |keys| - 1;
      var mid := B.InsertedAll(ix, cap, keys[..n], v);
      RoomForAll(ix, cap, keys[..n], v, ids);
      if !mid.Holds(keys[n], v) {
        SubsetSize(mid.Block(keys[n]) + {v}, ids + {v});
      }
      forall key ensures B.InsertedAll(ix, cap, keys, v).Block(key) <= ids + {v} {
        assert mid.Block(key) <= ids + {v};
      }
    }
  }

  ghost predicate FiledUnder(env: Env, rows: seq<Row>, key: Hash32, v: string) {
    exists row :: row in rows && row.0 == v && key in KeysOf(env, StoredRow(env, row))
  }

  /** At most as many candidates as a block holds are all indexed, under the keys of their stored
      templates, and nothing is dropped. */
  lemma {:induction false} RebuiltIndex(env: Env, rows: seq<Row>)
    requires |E.Ids(rows)| <= B.DEFAULT_MAX_BLOCK
    ensures Rebuilt(env, rows).index.dropped == 0 && BlocksWithin(Rebuilt(env, rows).index, E.Ids(rows))
    ensures forall key, v :: Rebuilt(env, rows).index.Holds(key, v) <==> FiledUnder(env, rows, key, v)
  {
    if rows != [] {
      var front, last := rows[..|rows| - 1], rows[|rows| - 1];
      assert rows == front + [last];
      assert E.Ids(rows) == E.Ids(front) + {last.0};
      SubsetSize(E.Ids(front), E.Ids(rows));
      RebuiltIndex(env, front);
      IndexStep(env, front, last, Rebuilt(env, front).index, KeysOf(env, StoredRow(env, last)));
    }
  }

  lemma IndexStep(env: Env, front: seq<Row>, last: Row, ix: B.Index, keys: seq<Hash32>)
    requires |E.Ids(front) + {last.0}| <= B.DEFAULT_MAX_BLOCK && BlocksWithin(ix, E.Ids(front))
    requires keys == KeysOf(env, StoredRow(env, last))
    requires forall key, v :: ix.Holds(key, v) <==> FiledUnder(env, front, key, v)
    ensures var after := B.InsertedAll(ix, B.DEFAULT_MAX_BLOCK, keys, last.0);
      && after.dropped == ix.dropped && BlocksWithin(after, E.Ids(front) + {last.0})
      && forall key, v :: after.Holds(key, v) <==> FiledUnder(env, front + [last], key, v)
  {
    RoomForAll(ix, B.DEFAULT_MAX_BLOCK, keys, last.0, E.Ids(front));
    B.InsertedAllDrops(ix, B.DEFAULT_MAX_BLOCK, keys, last.0);
    B.RefusalsNone(ix, B.DEFAULT_MAX_BLOCK, keys, last.0);
    B.InsertedAllRelation(ix, B.DEFAULT_MAX_BLOCK, keys, last.0);
    forall key, v
      ensures FiledUnder(env, front + [last], key, v) <==>
        FiledUnder(env, front, key, v) || (v == last.0 && key in keys)
    {
      FiledSnoc(env, front, last, key, v);
    }
  }

  lemma FiledSnoc(env: Env, front: seq<Row>, last: Row, key: Hash32, v: string)
    ensures FiledUnder(env, front + [last], key, v) <==>
      FiledUnder(env, front, key, v) || (v == last.0 && key in KeysOf(env, StoredRow(env, last)))
  {
    assert last in front + [last];
    assert forall row :: row in front + [last] <==> row in front || row == last;
  }

  // ---- What is scored ----

  /** The candidates scored are exactly the recalled ones whose stored template shares a blocking key
      with the probe. */
  lemma ScoredExactly(env: Env, rows: seq<Row>, probe: map<string, Stored>, v: string)
    requires |E.Ids(rows)| <= B.DEFAULT_MAX_BLOCK
    ensures v in Recall(env, Rebuilt(env, rows), probe) <==>
      exists row :: row in rows && row.0 == v && Meet(KeysOf(env, StoredRow(env, row)), KeysOf(env, probe))
  {
    RebuiltIndex(env, rows);
    RecallIsMeet(env, rows, Rebuilt(env, rows).index, KeysOf(env, probe), v);
  }

  lemma RecallIsMeet(env: Env, rows: seq<Row>, ix: B.Index, keys: seq<Hash32>, v: string)
    requires forall key, u :: ix.Holds(key, u) <==> FiledUnder(env, rows, key, u)
    ensures v in B.Candidates(ix, keys) <==>
      exists row :: row in rows && row.0 == v && Meet(KeysOf(env, StoredRow(env, row)), keys)
  {
    B.CandidatesAreImage(ix, keys, v);
    if v in B.Candidates(ix, keys) {
      var key :| key in keys && ix.Holds(key, v);
      assert FiledUnder(env, rows, key, v);
    }
    forall row | row in rows && row.0 == v && Meet(KeysOf(env, StoredRow(env, row)), keys)
      ensures v in B.Candidates(ix, keys)
    {
      var key :| key in KeysOf(env, StoredRow(env, row)) && key in keys;
      assert FiledUnder(env, rows, key, v);
    }
  }

  // ---- Order ----

  ghost predicate SameRows(a: seq<Row>, b: seq<Row>) {
    DistinctRows(a) && DistinctRows(b) && forall row :: row in a <==> row in b
  }

  lemma {:induction false} CountsOfDistinct(a: seq<Row>, row: Row)
    requires DistinctRows(a)
    ensures multiset(a)[row] == if row in a then 1 else 0
  {
    if a != [] {
      var front, last := a[..|a| - 1], a[|a| - 1];
      assert a == front + [last];
      CountsOfDistinct(front, row);
      assert last !in front;
    }
  }

  lemma SameMultiset(a: seq<Row>, b: seq<Row>)
    requires SameRows(a, b)
    ensures multiset(a) == multiset(b) && E.Ids(a) == E.Ids(b)
  {
    forall row ensures multiset(a)[row] == multiset(b)[row] {
      CountsOfDistinct(a, row);
      CountsOfDistinct(b, row);
    }
  }

  /** The same candidates in another order rebuild the same library and the same tables. */
  lemma RebuiltIgnoresOrder(env: Env, a: seq<Row>, b: seq<Row>)
    requires SameRows(a, b)
    ensures Rebuilt(env, a).lib == Rebuilt(env, b).lib
    ensures Rebuilt(env, a).freq == Rebuilt(env, b).freq && Rebuilt(env, a).agree == Rebuilt(env, b).agree
  {
    SameMultiset(a, b);
    RebuiltLibrary(env, a);
    RebuiltLibrary(env, b);
    RebuiltFrequency(env, a);
    RebuiltFrequency(env, b);
    SightingsReorder(env, a, b);
    SameFrequency(Sightings(env, a), Sightings(env, b));
    SameLibrary(env, a, b, Rebuilt(env, a).lib.records, Rebuilt(env, b).lib.records);
  }

  lemma SameLibrary(env: Env, a: seq<Row>, b: seq<Row>, x: R.Library, y: R.Library)
    requires forall row :: row in a <==> row in b
    requires x.Keys == E.Ids(a) && y.Keys == E.Ids(b)
    requires forall row :: row in a ==> row.0 in x && x[row.0] == R.Created(StoredRow(env, row), 0)
    requires forall row :: row in b ==> row.0 in y && y[row.0] == R.Created(StoredRow(env, row), 0)
    ensures x == y
  {
    forall id | id in x ensures id in y && x[id] == y[id] {
      var row :| row in a && row.0 == id;
    }
    forall id | id in y ensures id in x {
      var row :| row in b && row.0 == id;
    }
  }

  lemma RecallIgnoresOrder(env: Env, a: seq<Row>, b: seq<Row>, probe: map<string, Stored>)
    requires SameRows(a, b) && |a| <= B.DEFAULT_MAX_BLOCK
    ensures Recall(env, Rebuilt(env, a), probe) == Recall(env, Rebuilt(env, b), probe)
  {
    E.IdsCount(a);
    SameMultiset(a, b);
    forall v ensures v in Recall(env, Rebuilt(env, a), probe) <==> v in Recall(env, Rebuilt(env, b), probe) {
      ScoredExactly(env, a, probe, v);
      ScoredExactly(env, b, probe, v);
    }
  }

  /** The edge's verdict does not depend on the order in which the database lists the candidates, nor
      on the order in which the throw-away store walks them: the whole outcome is the same unless two
      candidates tie for the best score, and even then decision, best score and collision flag are. */
  lemma EdgeVerdictIgnoresOrder(env: Env, a: seq<Row>, b: seq<Row>, probe: Json, o1: seq<string>, o2: seq<string>)
    requires SameRows(a, b) && |a| <= B.DEFAULT_MAX_BLOCK
    requires Enumerates(o1, Recall(env, Rebuilt(env, a), StoredMap(env.keying, probe)))
    requires Enumerates(o2, Recall(env, Rebuilt(env, b), StoredMap(env.keying, probe)))
    ensures var x, y := Evaluate(env, Rebuilt(env, a), probe, o1), Evaluate(env, Rebuilt(env, b), probe, o2);
      && x.decision == y.decision && x.score == y.score && x.collisionRisk == y.collisionRisk
    ensures Evaluate(env, Rebuilt(env, a), probe, o1) == Evaluate(env, Rebuilt(env, b), probe, o2)
      || TiedForBest(ScoredIn(Scorer(env, Rebuilt(env, a), StoredMap(env.keying, probe)), o1))
  {
    var stored := StoredMap(env.keying, probe);
    RecallIgnoresOrder(env, a, b, stored);
    RebuiltIgnoresOrder(env, a, b);
    SameScores(env, Rebuilt(env, a), Rebuilt(env, b), probe, o1, o2);
  }

  /** The best score is reached twice. */
  ghost predicate TiedForBest(xs: seq<Scored>) {
    Second(xs).Some? && Second(xs) == BestScore(xs)
  }

  /** The same best score and the same runner-up decide the same. */
  lemma SameTop(env: Env, x: Option<Scored>, y: Option<Scored>, second: Option<Score>, probe: Json)
    requires x.None? <==> y.None?
    requires x.Some? ==> x.value.score == y.value.score
    ensures var v, w := VerdictFrom(env, x, second, probe), VerdictFrom(env, y, second, probe);
      v.decision == w.decision && v.score == w.score && v.collisionRisk == w.collisionRisk
  {
  }

  lemma SameVerdicts(env: Env, f: string -> Scored, ids: set<string>, probe: Json, o1: seq<string>, o2: seq<string>)
    requires Labels(f) && Enumerates(o1, ids) && Enumerates(o2, ids)
    ensures var x, y := Verdict(env, ScoredIn(f, o1), probe), Verdict(env, ScoredIn(f, o2), probe);
      && x.decision == y.decision && x.score == y.score && x.collisionRisk == y.collisionRisk
      && (x == y || TiedForBest(ScoredIn(f, o1)))
  {
    OrderIndependent(f, ids, o1, o2);
    var x, y := ScoredIn(f, o1), ScoredIn(f, o2);
    SameTop(env, Best(x), Best(y), Second(x), probe);
    if Best(x) != Best(y) {
      EnumerationLength(o1, ids);
      EnumerationLength(o2, ids);
      ScoredInMembers(f, o1);
      BestAndSecond(x);
    }
  }

  lemma SameScores(env: Env, s: Store, t: Store, probe: Json, o1: seq<string>, o2: seq<string>)
    requires s.lib == t.lib && s.freq == t.freq && s.agree == t.agree
    requires Recall(env, s, StoredMap(env.keying, probe)) == Recall(env, t, StoredMap(env.keying, probe))
    requires Enumerates(o1, Recall(env, s, StoredMap(env.keying, probe)))
    requires Enumerates(o2, Recall(env, t, StoredMap(env.keying, probe)))
    ensures var x, y := Evaluate(env, s, probe, o1), Evaluate(env, t, probe, o2);
      && x.decision == y.decision && x.score == y.score && x.collisionRisk == y.collisionRisk
      && (x == y || TiedForBest(ScoredIn(Scorer(env, s, StoredMap(env.keying, probe)), o1)))
  {
    var stored := StoredMap(env.keying, probe);
    var f, g := Scorer(env, s, stored), Scorer(env, t, stored);
    ScorerLabels(env, s, stored);
    forall id ensures f(id) == g(id) {
      assert ScoreId(env, s, stored, id) == ScoreId(env, t, stored, id);
    }
    Purging.ScoredInCongruence(f, g, o2);
    SameVerdicts(env, f, Recall(env, s, stored), probe, o1, o2);
  }

  /** With nothing learned, every match rate is its prior. */
  lemma RebuiltUsesPriors(env: Env, rows: seq<Row>, name: string, prior: real)
    ensures MEstimate(Rebuilt(env, rows).agree, name, prior) == prior
  {
    RebuiltFrequency(env, rows);
  }

  // ---- Recall and scoring together ----

  /** Any two untruncated recalls list the same candidates. */
  lemma RecallsAgree(t: E.Tables, keys: seq<Hash32>, limit: nat, a: seq<Row>, b: seq<Row>)
    requires E.Recalled(t, keys, limit, a) && E.Recalled(t, keys, limit, b) && |E.Matching(t, keys)| <= limit
    ensures SameRows(a, b)
  {
    E.RecallComplete(t, keys, limit, a);
    E.RecallComplete(t, keys, limit, b);
    forall row | row in a ensures row in b { RowFound(t, keys, limit, b, row); }
    forall row | row in b ensures row in a { RowFound(t, keys, limit, a, row); }
  }

  lemma RowFound(t: E.Tables, keys: seq<Hash32>, limit: nat, rows: seq<Row>, row: Row)
    requires E.Recalled(t, keys, limit, rows) && row.0 in E.Ids(rows)
    requires row.0 in E.Matching(t, keys) && row.1 == t.templates[row.0].components
    ensures row in rows
  {
    var other :| other in rows && other.0 == row.0;
    assert other == row;
  }

  /** The whole edge read path, recall then rebuild: at most a block's worth of candidates, none
      dropped, and `v` is scored exactly when recall returned it and its stored template shares a key
      with the probe; an untruncated recall returns every visitor with a row under one of the keys. */
  lemma EdgeScores(env: Env, t: E.Tables, limit: nat, rows: seq<Row>, probe: map<string, Stored>, v: string)
    requires limit <= B.DEFAULT_MAX_BLOCK && E.Recalled(t, KeysOf(env, probe), limit, rows)
    ensures Rebuilt(env, rows).index.dropped == 0
    ensures v in Recall(env, Rebuilt(env, rows), probe) <==>
      v in E.Ids(rows) && Meet(KeysOf(env, StoredEntries(env.keying, t.templates[v].components)), KeysOf(env, probe))
    ensures |E.Matching(t, KeysOf(env, probe))| <= limit ==> E.Ids(rows) == E.Matching(t, KeysOf(env, probe))
  {
    var keys := KeysOf(env, probe);
    E.IdsCount(rows);
    E.RecallComplete(t, keys, limit, rows);
    RebuiltIndex(env, rows);
    ScoredExactly(env, rows, probe, v);
    if v in E.Ids(rows) {
      var row :| row in rows && row.0 == v;
      RowFound(t, keys, limit, rows, row);
    }
  }

  /** The edge read path against native recall, for stores in step and an untruncated recall: the edge
      scores exactly the live visitors native recalls whose template still shares a key with the probe;
      natively an earlier observation of the visitor is enough. */
  lemma EdgeScoresNative(env: Env, t: E.Tables, s: Store, limit: nat, rows: seq<Row>, probe: map<string, Stored>,
                         v: string)
    requires E.Refines(env, t, s)
    requires limit <= B.DEFAULT_MAX_BLOCK && E.Recalled(t, KeysOf(env, probe), limit, rows)
    requires |E.Matching(t, KeysOf(env, probe))| <= limit
    ensures v in Recall(env, Rebuilt(env, rows), probe) <==>
      && v in Recall(env, s, probe) && v in s.lib.records
      && Meet(KeysOf(env, s.lib.records[v].components), KeysOf(env, probe))
  {
    EdgeScores(env, t, limit, rows, probe, v);
    E.RecallRefines(env, t, s, probe);
    assert v in E.Ids(rows) <==> v in Recall(env, s, probe) * s.lib.records.Keys;
    if v in s.lib.records {
      assert E.SameRecord(env.keying, t.templates[v], s.lib.records[v]);
    }
  }

  // ---- The verdict on both sides ----

  /** Both tables give every scalar of the probe the same rarity. */
  ghost predicate SameRarities(k: Keying, f: F.Freq, g: F.Freq, probe: map<string, Stored>) {
    forall n :: n in probe && FrequencyHash(k, probe[n]).Some? ==>
      UEstimate(f, FrequencyHash(k, probe[n]).value) == UEstimate(g, FrequencyHash(k, probe[n]).value)
  }

  /** Nothing has moved the match rate of a component of the probe off its prior. */
  ghost predicate AtPriors(a: A.Agree, probe: map<string, Stored>) {
    forall n :: n in probe ==> MEstimate(a, n, Classify(n).stability.MPrior()) == Classify(n).stability.MPrior()
  }

  /** The template of every live visitor recalled still shares a key with the probe. */
  ghost predicate StillShared(env: Env, s: Store, probe: map<string, Stored>) {
    forall v :: v in Recall(env, s, probe) && v in s.lib.records ==>
      Meet(KeysOf(env, s.lib.records[v].components), KeysOf(env, probe))
  }

  lemma SameWeight(k: Keying, an: Analytic, f: F.Freq, a: A.Agree, g: F.Freq, b: A.Agree, probe: map<string, Stored>,
                   template: map<string, Stored>, n: string)
    requires SameRarities(k, f, g, probe) && AtPriors(a, probe) && AtPriors(b, probe) && n in probe
    ensures Weigher(k, an, f, a, probe, template)(n) == Weigher(k, an, g, b, probe, template)(n)
  {
    assert MEstimate(a, n, Classify(n).stability.MPrior()) == MEstimate(b, n, Classify(n).stability.MPrior());
    if n in template {
      assert Compare(k, f, probe[n], template[n]) == Compare(k, g, probe[n], template[n]);
    }
  }

  lemma {:induction false} SumCongruence(names: seq<string>, f: string -> Option<real>, g: string -> Option<real>)
    requires forall n :: n in names ==> f(n) == g(n)
    ensures SumOver(names, f) == SumOver(names, g)
  {
    if names != [] {
      SumCongruence(names[..|names| - 1], f, g);
    }
  }

  lemma SameScore(k: Keying, an: Analytic, f: F.Freq, a: A.Agree, g: F.Freq, b: A.Agree, probe: map<string, Stored>,
                  template: map<string, Stored>)
    requires SameRarities(k, f, g, probe) && AtPriors(a, probe) && AtPriors(b, probe)
    ensures ScoreCandidate(k, an, f, a, probe, template) == ScoreCandidate(k, an, g, b, probe, template)
  {
    forall n | n in Sorted(probe.Keys)
      ensures Weigher(k, an, f, a, probe, template)(n) == Weigher(k, an, g, b, probe, template)(n)
    {
      SameWeight(k, an, f, a, g, b, probe, template, n);
    }
    SumCongruence(Sorted(probe.Keys), Weigher(k, an, f, a, probe, template), Weigher(k, an, g, b, probe, template));
  }

  lemma SameScoreId(env: Env, s: Store, t: Store, probe: map<string, Stored>, id: string)
    requires SameRarities(env.keying, s.freq, t.freq, probe) && AtPriors(s.agree, probe) && AtPriors(t.agree, probe)
    requires id in s.lib.records && id in t.lib.records
    requires s.lib.records[id].components == t.lib.records[id].components
    ensures ScoreId(env, s, probe, id) == ScoreId(env, t, probe, id)
  {
    SameScore(env.keying, env.analytic, s.freq, s.agree, t.freq, t.agree, probe, s.lib.records[id].components);
  }

  /** The candidates of the rebuilt store are the live ones native recalls, with the same templates. */
  lemma SameCandidates(env: Env, t: E.Tables, s: Store, limit: nat, rows: seq<Row>, probe: map<string, Stored>)
    requires E.Refines(env, t, s) && StillShared(env, s, probe)
    requires limit <= B.DEFAULT_MAX_BLOCK && E.Recalled(t, KeysOf(env, probe), limit, rows)
    requires |E.Matching(t, KeysOf(env, probe))| <= limit
    ensures Recall(env, Rebuilt(env, rows), probe) == Recall(env, s, probe) * s.lib.records.Keys
    ensures forall v :: v in Recall(env, s, probe) && v in s.lib.records ==>
      && v in Rebuilt(env, rows).lib.records
      && Rebuilt(env, rows).lib.records[v].components == s.lib.records[v].components
  {
    forall v ensures v in Recall(env, Rebuilt(env, rows), probe) <==> v in Recall(env, s, probe) && v in s.lib.records {
      EdgeScoresNative(env, t, s, limit, rows, probe, v);
    }
    forall v | v in Recall(env, s, probe) && v in s.lib.records
      ensures v in Rebuilt(env, rows).lib.records
      ensures Rebuilt(env, rows).lib.records[v].components == s.lib.records[v].components
    {
      RebuiltTemplate(env, t, s, limit, rows, probe, v);
    }
  }

  lemma RebuiltTemplate(env: Env, t: E.Tables, s: Store, limit: nat, rows: seq<Row>, probe: map<string, Stored>,
                        v: string)
    requires E.Refines(env, t, s) && v in s.lib.records && v in Recall(env, Rebuilt(env, rows), probe)
    requires limit <= B.DEFAULT_MAX_BLOCK && E.Recalled(t, KeysOf(env, probe), limit, rows)
    ensures v in Rebuilt(env, rows).lib.records
    ensures Rebuilt(env, rows).lib.records[v].components == s.lib.records[v].components
  {
    EdgeScores(env, t, limit, rows, probe, v);
    RebuiltLibrary(env, rows);
    var row :| row in rows && row.0 == v;
    assert E.SameRecord(env.keying, t.templates[v], s.lib.records[v]);
  }

  /** For stores in step and an untruncated recall, the edge reaches the native verdict, up to minus infinity
      for no score, if every live candidate's template still shares a key with the probe, the tables agree on
      the rarity of the probe's scalars, and nothing was learned about its components. */
  lemma EdgeReachesNativeVerdict(env: Env, t: E.Tables, s: Store, limit: nat, rows: seq<Row>, probe: Json,
                                 order: seq<string>)
    requires E.Refines(env, t, s) && StillShared(env, s, StoredMap(env.keying, probe))
    requires limit <= B.DEFAULT_MAX_BLOCK && E.Recalled(t, KeysOf(env, StoredMap(env.keying, probe)), limit, rows)
    requires |E.Matching(t, KeysOf(env, StoredMap(env.keying, probe)))| <= limit
    requires SameRarities(env.keying, s.freq, Rebuilt(env, rows).freq, StoredMap(env.keying, probe))
    requires AtPriors(s.agree, StoredMap(env.keying, probe))
    requires Enumerates(order, Recall(env, s, StoredMap(env.keying, probe)))
    ensures var o := Purging.Filter(order, s.lib.records.Keys);
      && Enumerates(o, Recall(env, Rebuilt(env, rows), StoredMap(env.keying, probe)))
      && Purging.SameVerdict(Evaluate(env, s, probe, order), Evaluate(env, Rebuilt(env, rows), probe, o))
  {
    var stored, live := StoredMap(env.keying, probe), s.lib.records.Keys;
    var o, ideal, rebuilt := Purging.Filter(order, live), Purging.Clean(s), Rebuilt(env, rows);
    SameCandidates(env, t, s, limit, rows, stored);
    Purging.PurgingIsInvisible(env, s, probe, order);
    Purging.RecallOfClean(env, s, stored);
    forall n | n in stored
      ensures MEstimate(rebuilt.agree, n, Classify(n).stability.MPrior()) == Classify(n).stability.MPrior()
    {
      RebuiltUsesPriors(env, rows, n, Classify(n).stability.MPrior());
    }
    forall id | id in o ensures ScoreId(env, ideal, stored, id) == ScoreId(env, rebuilt, stored, id) {
      assert id in Elems(o);
      SameScoreId(env, ideal, rebuilt, stored, id);
    }
    Purging.ScoredInCongruence(Scorer(env, ideal, stored), Scorer(env, rebuilt, stored), o);
  }

  // ---- The engine ----

  lemma RebuiltSnoc(env: Env, front: seq<Row>, row: Row, keep: set<string>)
    requires keep == Everyone(Rebuilt(env, front), row.0)
    ensures Observed(env, TRANSIENT, Rebuilt(env, front), row.0, StoredRow(env, row), 0, keep) ==
      Rebuilt(env, front + [row])
  {
    assert (front + [row])[..|front|] == front;
  }

  class FpEngine {
    const env: Env

    constructor (e: Env)
      ensures env == e
    {
      env := e;
    }

    method BlockingKeysOf(components: Json) returns (keys: seq<Hash32>)
      ensures keys == KeysOf(env, StoredMap(env.keying, components))
    {
      var store := new FuzzyStores.FuzzyStore(env, TRANSIENT);
      var stored := store.ToStoredMap(components);
      keys := BlockingKeys.ComputeKeys(env.keying, env.family.groups, store.lsh, stored);
    }

    static method ObserveRow(store: FuzzyStores.FuzzyStore, ghost front: seq<Row>, row: Row)
      requires store.Wired() && store.policy == TRANSIENT && store.View() == Rebuilt(store.env, front)
      modifies store.records, store.blocking, store.frequency
      ensures store.View() == Rebuilt(store.env, front + [row])
    {
      var isNew;
      ghost var keep;
      isNew, keep := store.Observe(row.0, Obj(row.1), 0);
      OnlyEveryone(Rebuilt(store.env, front), row.0, StoredRow(store.env, row), keep);
      RebuiltSnoc(store.env, front, row, keep);
    }

    /** A fresh store holding every candidate. */
    method Rebuild(candidates: seq<Row>) returns (store: FuzzyStores.FuzzyStore)
      ensures store.Wired() && store.env == env && store.policy == TRANSIENT
      ensures store.View() == Rebuilt(env, candidates)
    {
      store := new FuzzyStores.FuzzyStore(env, TRANSIENT);
      for i := 0 to |candidates|
        invariant store.View() == Rebuilt(env, candidates[..i])
      {
        ObserveRow(store, candidates[..i], candidates[i]);
        TakeSnoc(candidates, i);
      }
      assert candidates[..|candidates|] == candidates;
    }

    /** Observe every candidate, then score the probe. */
    method ScoreAgainst(candidates: seq<Row>, components: Json) returns (outcome: Outcome, ghost order: seq<string>)
      ensures Enumerates(order, Recall(env, Rebuilt(env, candidates), StoredMap(env.keying, components)))
      ensures outcome == Evaluate(env, Rebuilt(env, candidates), components, order)
      ensures Judged(env, Rebuilt(env, candidates), components, outcome)
    {
      var store := Rebuild(candidates);
      ghost var l;
      outcome, l := store.ScoreProbe(components);
      order := l.order;
      ScoringMeans(env, TRANSIENT, Rebuilt(env, candidates), l, outcome);
    }
  }

  lemma ScoringMeans(env: Env, pol: Policy, s: Store, l: Label, outcome: Outcome)
    requires l.ScoreOnly? && Enabled(env, pol, s, l) && ReplyOf(env, pol, s, l) == Answer(outcome)
    ensures Enumerates(l.order, Recall(env, s, StoredMap(env.keying, l.probe)))
    ensures outcome == Evaluate(env, s, l.probe, l.order)
  {
  }
}
