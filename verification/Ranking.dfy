// Ranking scored candidates (crates/fp-core/src/fuzzy/engine.rs, `evaluate`): a stable sort by
// descending score, of which the first two entries decide everything.
module Ranking {
  import opened Basics
  import opened Scoring

  datatype Scored = Scored(id: string, score: Score, compared: nat)

  /** Put `x` before the first entry it is at least as good as. */
  function InsertDesc(x: Scored, ys: seq<Scored>): seq<Scored> {
    if ys == [] || Ge(x.score, ys[0].score) then [x] + ys else [ys[0]] + InsertDesc(x, ys[1..])
  }

  /** The stable sort by descending score. */
  function SortDesc(xs: seq<Scored>): seq<Scored> {
    if xs == [] then [] else InsertDesc(xs[0], SortDesc(xs[1..]))
  }

  ghost predicate Descending(xs: seq<Scored>) {
    forall i, j :: 0 <= i <= j < |xs| ==> Ge(xs[i].score, xs[j].score)
  }

  lemma {:induction false} InsertMultiset(x: Scored, ys: seq<Scored>)
    ensures multiset(InsertDesc(x, ys)) == multiset(ys) + multiset{x}
  {
    if ys != [] && !Ge(x.score, ys[0].score) {
      InsertMultiset(x, ys[1..]);
      assert ys == [ys[0]] + ys[1..];
    }
  }

  lemma PrependDescending(y: Scored, rest: seq<Scored>)
    requires Descending(rest) && forall z :: z in rest ==> Ge(y.score, z.score)
    ensures Descending([y] + rest)
  {
  }

  lemma {:induction false} InsertDescending(x: Scored, ys: seq<Scored>)
    requires Descending(ys)
    ensures Descending(InsertDesc(x, ys))
  {
    if ys != [] && !Ge(x.score, ys[0].score) {
      var rest := InsertDesc(x, ys[1..]);
      InsertDescending(x, ys[1..]);
      InsertMultiset(x, ys[1..]);
      forall z | z in rest ensures Ge(ys[0].score, z.score) {
        assert z in multiset(rest);
        assert z == x || z in ys[1..];
      }
      PrependDescending(ys[0], rest);
    }
  }

  /** The sort rearranges, and orders. */
  lemma {:induction false} SortSorts(xs: seq<Scored>)
    ensures multiset(SortDesc(xs)) == multiset(xs)
    ensures Descending(SortDesc(xs)) && |SortDesc(xs)| == |xs|
  {
    if xs != [] {
      SortSorts(xs[1..]);
      InsertMultiset(xs[0], SortDesc(xs[1..]));
      InsertDescending(xs[0], SortDesc(xs[1..]));
      assert xs == [xs[0]] + xs[1..];
      assert |multiset(SortDesc(xs))| == |multiset(xs)|;
    }
  }

  // ---- Candidates without a record sink below all others ----

  function Live(xs: seq<Scored>): seq<Scored> {
    if xs == [] then [] else (if xs[0].score.Fin? then [xs[0]] else []) + Live(xs[1..])
  }

  function Dead(xs: seq<Scored>): seq<Scored> {
    if xs == [] then [] else (if xs[0].score.Fin? then [] else [xs[0]]) + Dead(xs[1..])
  }

  lemma {:induction false} LiveDeadScores(xs: seq<Scored>)
    ensures forall x :: x in Live(xs) ==> x.score.Fin?
    ensures forall x :: x in Dead(xs) ==> x.score.NegInf?
  {
    if xs != [] { LiveDeadScores(xs[1..]); }
  }

  lemma {:induction false} InsertLive(x: Scored, live: seq<Scored>, dead: seq<Scored>)
    requires x.score.Fin? && forall y :: y in dead ==> y.score.NegInf?
    ensures InsertDesc(x, live + dead) == InsertDesc(x, live) + dead
  {
    if live == [] {
      assert live + dead == dead;
    } else if !Ge(x.score, live[0].score) {
      assert (live + dead)[1..] == live[1..] + dead;
      InsertLive(x, live[1..], dead);
    } else {
      assert [x] + (live + dead) == ([x] + live) + dead;
    }
  }

  lemma {:induction false} InsertDead(x: Scored, live: seq<Scored>, dead: seq<Scored>)
    requires x.score.NegInf?
    requires forall y :: y in live ==> y.score.Fin?
    requires forall y :: y in dead ==> y.score.NegInf?
    ensures InsertDesc(x, live + dead) == live + ([x] + dead)
  {
    if live == [] {
      assert live + dead == dead;
    } else {
      assert (live + dead)[1..] == live[1..] + dead;
      InsertDead(x, live[1..], dead);
    }
  }

  lemma SplitLive(x: Scored, xs: seq<Scored>)
    requires x.score.Fin? && SortDesc(xs) == SortDesc(Live(xs)) + Dead(xs)
    ensures InsertDesc(x, SortDesc(xs)) == InsertDesc(x, SortDesc(Live(xs))) + Dead(xs)
  {
    LiveDeadScores(xs);
    InsertLive(x, SortDesc(Live(xs)), Dead(xs));
  }

  lemma SplitDead(x: Scored, xs: seq<Scored>)
    requires x.score.NegInf? && SortDesc(xs) == SortDesc(Live(xs)) + Dead(xs)
    ensures InsertDesc(x, SortDesc(xs)) == SortDesc(Live(xs)) + ([x] + Dead(xs))
  {
    LiveDeadScores(xs);
    SortSorts(Live(xs));
    forall y | y in SortDesc(Live(xs)) ensures y.score.Fin? {
      assert y in multiset(SortDesc(Live(xs)));
    }
    InsertDead(x, SortDesc(Live(xs)), Dead(xs));
  }

  /** Sorting ranks the live candidates as they would rank alone, then lists the dead ones. */
  lemma {:induction false} SortSplits(xs: seq<Scored>)
    ensures SortDesc(xs) == SortDesc(Live(xs)) + Dead(xs)
  {
    if xs != [] {
      SortSplits(xs[1..]);
      if xs[0].score.Fin? {
        SplitLive(xs[0], xs[1..]);
        assert Live(xs)[1..] == Live(xs[1..]);
      } else {
        SplitDead(xs[0], xs[1..]);
        assert Live(xs) == Live(xs[1..]);
      }
    }
  }

  // ---- The two entries that decide ----

  function Best(xs: seq<Scored>): Option<Scored> {
    var s := SortDesc(xs);
    if |s| > 0 then Some(s[0]) else None
  }

  function Second(xs: seq<Scored>): Option<Score> {
    var s := SortDesc(xs);
    if |s| > 1 then Some(s[1].score) else None
  }

  function BestScore(xs: seq<Scored>): Option<Score> {
    var b := Best(xs);
    if b.Some? then Some(b.value.score) else None
  }

  ghost predicate DistinctIds(xs: seq<Scored>) {
    forall i, j :: 0 <= i < j < |xs| ==> xs[i].id != xs[j].id
  }

  lemma SortedEntry(xs: seq<Scored>, i: nat)
    requires i < |xs|
    ensures i < |SortDesc(xs)| && SortDesc(xs)[i] in xs
  {
    SortSorts(xs);
    assert SortDesc(xs)[i] in multiset(SortDesc(xs));
  }

  lemma {:induction false} DistinctCounts(xs: seq<Scored>, x: Scored)
    requires DistinctIds(xs)
    ensures multiset(xs)[x] <= 1
  {
    if xs != [] {
      assert xs == [xs[0]] + xs[1..];
      DistinctCounts(xs[1..], x);
      if x == xs[0] { assert x !in xs[1..]; }
    }
  }

  /** The best entry is a maximum of all; the second score is the maximum of the others. */
  lemma BestAndSecond(xs: seq<Scored>)
    requires DistinctIds(xs)
    ensures xs == [] ==> Best(xs) == None && Second(xs) == None
    ensures xs != [] ==> Best(xs).Some? && Best(xs).value in xs
    ensures xs != [] ==> forall x :: x in xs ==> Ge(Best(xs).value.score, x.score)
    ensures |xs| > 1 ==> Second(xs).Some? && exists x :: x in xs && x != Best(xs).value && x.score == Second(xs).value
    ensures |xs| > 1 ==> forall x :: x in xs && x != Best(xs).value ==> Ge(Second(xs).value, x.score)
    ensures |xs| <= 1 ==> Second(xs) == None
  {
    SortSorts(xs);
    var s := SortDesc(xs);
    forall x | x in xs ensures x in s { assert x in multiset(xs); }
    if xs != [] { SortedEntry(xs, 0); }
    if |xs| > 1 {
      SortedEntry(xs, 1);
      DistinctCounts(xs, s[0]);
      TwiceInSequence(s);
      forall x | x in xs && x != s[0] ensures Ge(s[1].score, x.score) {
        var i :| 0 <= i < |s| && s[i] == x;
      }
    }
  }

  lemma TwiceInSequence(s: seq<Scored>)
    requires |s| > 1 && multiset(s)[s[0]] <= 1
    ensures s[1] != s[0]
  {
    assert s == [s[0]] + [s[1]] + s[2..];
  }

  /** The candidates as scored in some order of a set of ids. */
  function ScoredIn(score: string -> Scored, order: seq<string>): seq<Scored> {
    seq(|order|, i requires 0 <= i < |order| => score(order[i]))
  }

  ghost predicate Labels(score: string -> Scored) {
    forall id :: score(id).id == id
  }

  lemma ScoredInMembers(score: string -> Scored, order: seq<string>)
    requires Labels(score) && NoDup(order)
    ensures DistinctIds(ScoredIn(score, order))
    ensures forall x: Scored :: x in ScoredIn(score, order) <==> x.id in order && x == score(x.id)
  {
    var xs := ScoredIn(score, order);
    forall x: Scored | x.id in order && x == score(x.id) ensures x in xs {
      var i :| 0 <= i < |order| && order[i] == x.id;
      assert xs[i] == x;
    }
  }

  /** Best score, second score and hence the verdict do not depend on the order in which the
      candidate set is walked; the winner does only when two candidates tie for best. */
  lemma OrderIndependent(score: string -> Scored, ids: set<string>, o1: seq<string>, o2: seq<string>)
    requires Labels(score) && Enumerates(o1, ids) && Enumerates(o2, ids)
    ensures var x1, x2 := ScoredIn(score, o1), ScoredIn(score, o2);
      && BestScore(x1) == BestScore(x2) && Second(x1) == Second(x2)
      && (Best(x1) != Best(x2) ==> Second(x1) == BestScore(x1))
  {
    var x1, x2 := ScoredIn(score, o1), ScoredIn(score, o2);
    ScoredInMembers(score, o1);
    ScoredInMembers(score, o2);
    EnumerationLength(o1, ids);
    EnumerationLength(o2, ids);
    SameMembers(score, ids, o1, o2);
    BestAndSecond(x1);
    BestAndSecond(x2);
    if x1 != [] {
      assert Best(x1).value in x2 && Best(x2).value in x1;
      GeAntisymmetric(Best(x1).value.score, Best(x2).value.score);
    }
    if |x1| > 1 {
      if Best(x1) == Best(x2) {
        SecondOfSame(x1, x2);
      } else {
        GeAntisymmetric(Second(x1).value, Best(x1).value.score);
        GeAntisymmetric(Second(x2).value, Best(x2).value.score);
      }
    }
  }

  /** `w` has the greatest score of all ids. */
  ghost predicate Wins(score: string -> Scored, ids: set<string>, w: string) {
    w in ids && forall id :: id in ids ==> Ge(score(w).score, score(id).score)
  }

  /** The best entry over a candidate set is a winner's; there is none only without candidates. */
  lemma BestOver(score: string -> Scored, ids: set<string>, order: seq<string>)
    requires Labels(score) && Enumerates(order, ids)
    ensures Best(ScoredIn(score, order)).None? <==> ids == {}
    ensures ids != {} ==> var b := Best(ScoredIn(score, order)).value; b == score(b.id) && Wins(score, ids, b.id)
  {
    var xs := ScoredIn(score, order);
    ScoredInMembers(score, order);
    BestAndSecond(xs);
    EnumerationLength(order, ids);
    assert forall id :: id in ids <==> id in Elems(order);
    assert forall id :: id in ids ==> score(id) in xs;
  }

  lemma SameMembers(score: string -> Scored, ids: set<string>, o1: seq<string>, o2: seq<string>)
    requires Labels(score) && Enumerates(o1, ids) && Enumerates(o2, ids)
    ensures forall x :: x in ScoredIn(score, o1) <==> x in ScoredIn(score, o2)
  {
    ScoredInMembers(score, o1);
    ScoredInMembers(score, o2);
    forall id ensures id in o1 <==> id in o2 {
      assert id in Elems(o1) <==> id in Elems(o2);
    }
  }

  lemma SecondOfSame(x1: seq<Scored>, x2: seq<Scored>)
    requires DistinctIds(x1) && DistinctIds(x2) && |x1| > 1 && |x2| > 1
    requires forall x :: x in x1 <==> x in x2
    requires Best(x1) == Best(x2)
    ensures Second(x1) == Second(x2)
  {
    BestAndSecond(x1);
    BestAndSecond(x2);
    var y1 :| y1 in x1 && y1 != Best(x1).value && y1.score == Second(x1).value;
    var y2 :| y2 in x2 && y2 != Best(x2).value && y2.score == Second(x2).value;
    GeAntisymmetric(y1.score, y2.score);
  }

  lemma GeAntisymmetric(a: Score, b: Score)
    requires Ge(a, b) && Ge(b, a)
    ensures a == b
  {
  }
}
