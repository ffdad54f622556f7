// Shared vocabulary: options, 64-bit bounds, and the sorted key order of an ordered map.
module Basics {

  datatype Option<+T> = None | Some(value: T)

  /** Number of values of an unsigned 64-bit word. */
  const U64: int := 0x1_0000_0000_0000_0000

  type u64 = n: int | 0 <= n < U64
  const I64_MAX: int := 0x7FFF_FFFF_FFFF_FFFF
  const I64_MIN: int := -0x8000_0000_0000_0000

  /** Subtraction that saturates at zero, as on unsigned words. */
  function SatSub(a: nat, b: nat): nat {
    if a > b then a - b else 0
  }

  function Min(a: int, b: int): int {
    if a <= b then a else b
  }

  function Max(a: int, b: int): int {
    if a >= b then a else b
  }

  function Clamp(x: real, lo: real, hi: real): real {
    if x < lo then lo else if x > hi then hi else x
  }

  /** The elements of a sequence. */
  ghost function Elems<T>(s: seq<T>): set<T> {
    set x | x in s
  }

  lemma Assoc<T>(a: seq<T>, b: seq<T>, c: seq<T>)
    ensures (a + b) + c == a + (b + c)
  {
  }

  lemma TakeSnoc<T>(s: seq<T>, i: nat)
    requires i < |s|
    ensures s[..i + 1] == s[..i] + [s[i]]
  {
  }

  lemma {:induction false} SubsetSize<T>(a: set<T>, b: set<T>)
    requires a <= b
    ensures |a| <= |b|
    ensures |a| == |b| ==> a == b
  {
    if a != {} {
      var x :| x in a;
      SubsetSize(a - {x}, b - {x});
    }
  }

  lemma SizeOf<K, V>(m: map<K, V>)
    ensures |m| == |m.Keys|
  {
  }

  lemma SameKeysSameSize<K, V>(m: map<K, V>, n: map<K, V>)
    requires m.Keys == n.Keys
    ensures |m| == |n|
  {
    SizeOf(m);
    SizeOf(n);
  }

  /** The first position of `x`, or the length. */
  function FirstAt<T(==)>(s: seq<T>, x: T): (i: nat)
    ensures i <= |s| && (i < |s| ==> s[i] == x) && (i == |s| <==> x !in s)
  {
    if s == [] then 0 else if s[0] == x then 0 else 1 + FirstAt(s[1..], x)
  }

  lemma ElemsCons<T>(x: T, s: seq<T>)
    ensures Elems([x] + s) == {x} + Elems(s)
  {
  }

  lemma ConsTake<T>(s: seq<T>, i: nat)
    requires i < |s|
    ensures s[..i + 1] == [s[0]] + s[1..][..i]
  {
  }

  /** What comes before the first `x` of a sequence that starts with something else. */
  lemma BeforeFirst<T>(s: seq<T>, x: T)
    requires s != [] && s[0] != x && x in s
    ensures Elems(s[..FirstAt(s, x)]) == {s[0]} + Elems(s[1..][..FirstAt(s[1..], x)])
  {
    var i := FirstAt(s[1..], x);
    ConsTake(s, i);
    ElemsCons(s[0], s[1..][..i]);
  }

  /** Whether a capped table of `keys` still has room after `x` and `ahead`: `x` is taken in if it is there
      or there is room for it, and if there is not, there is none later either. */
  lemma RoomAhead<T>(keys: set<T>, x: T, ahead: set<T>, cap: nat)
    ensures |keys + ({x} + ahead)| < cap <==>
      if x in keys || |keys| < cap then |(keys + {x}) + ahead| < cap else |keys + ahead| < cap
  {
    assert keys + ({x} + ahead) == (keys + {x}) + ahead;
    SubsetSize(keys, keys + ahead);
    SubsetSize(keys, keys + ({x} + ahead));
  }

  lemma Appended<T>(a: T, b: T, c: T, d: T)
    ensures [] + [a] == [a] && [a] + [b] == [a, b] && [a, b] + [c] == [a, b, c] && [a, b, c] + [d] == [a, b, c, d]
  {
  }

  lemma TakeOfFront<T>(s: seq<T>, i: nat)
    requires i < |s|
    ensures s[..|s| - 1][..i] == s[..i]
  {
  }

  lemma SplitLast<T>(s: seq<T>)
    requires s != []
    ensures s == s[..|s| - 1] + [s[|s| - 1]]
  {
  }

  ghost predicate NoDup<T>(s: seq<T>) {
    forall i, j :: 0 <= i < j < |s| ==> s[i] != s[j]
  }

  /** Two sequences have an element in common. */
  ghost predicate Meet<T(!new)>(s: seq<T>, t: seq<T>) {
    exists x :: x in s && x in t
  }

  /** An enumeration of a finite set, in any order: how a hash set is iterated. */
  ghost predicate Enumerates<T>(s: seq<T>, elements: set<T>) {
    NoDup(s) && Elems(s) == elements
  }

  lemma SmallEnumerations<T>(x: T)
    ensures Enumerates<T>([], {}) && Enumerates([x], {x})
  {
    assert Elems([x]) == {x};
  }

  lemma {:induction false} EnumerationLength<T>(s: seq<T>, elements: set<T>)
    requires Enumerates(s, elements)
    ensures |s| == |elements|
  {
    if s == [] {
    } else {
      var last := s[|s| - 1];
      var front := s[..|s| - 1];
      assert s == front + [last];
      assert last !in front;
      assert Elems(front) == elements - {last};
      EnumerationLength(front, elements - {last});
    }
  }

  /** Lexicographic order of strings, the order in which an ordered map lists its keys. */
  predicate LexLe(a: string, b: string) {
    a == [] || (b != [] && (a[0] < b[0] || (a[0] == b[0] && LexLe(a[1..], b[1..]))))
  }

  lemma LexReflexive(a: string)
    ensures LexLe(a, a)
  {
  }

  lemma {:induction false} LexAntisymmetric(a: string, b: string)
    requires LexLe(a, b) && LexLe(b, a)
    ensures a == b
  {
    if a != [] && b != [] {
      LexAntisymmetric(a[1..], b[1..]);
      assert a == [a[0]] + a[1..] && b == [b[0]] + b[1..];
    }
  }

  lemma {:induction false} LexTransitive(a: string, b: string, c: string)
    requires LexLe(a, b) && LexLe(b, c)
    ensures LexLe(a, c)
  {
    if a != [] && a[0] == b[0] && b[0] == c[0] {
      LexTransitive(a[1..], b[1..], c[1..]);
    }
  }

  lemma {:induction false} LexTotal(a: string, b: string)
    ensures LexLe(a, b) || LexLe(b, a)
  {
    if a != [] && b != [] && a[0] == b[0] {
      LexTotal(a[1..], b[1..]);
    }
  }

  /** A lower bound of a set within it. */
  ghost predicate IsLeast(s: set<string>, x: string) {
    x in s && forall y :: y in s ==> LexLe(x, y)
  }

  /** Adding `x` to a set with least element `z` leaves the smaller of the two least. */
  lemma LeastWith(s: set<string>, x: string, z: string)
    requires x in s && IsLeast(s - {x}, z)
    ensures IsLeast(s, if LexLe(x, z) then x else z)
  {
    LexTotal(x, z);
    LexReflexive(x);
    forall y | y in s ensures LexLe(if LexLe(x, z) then x else z, y) {
      if y != x {
        assert y in s - {x};
        if LexLe(x, z) { LexTransitive(x, z, y); }
      }
    }
  }

  lemma {:induction false} LeastExists(s: set<string>) returns (z: string)
    requires s != {}
    ensures IsLeast(s, z)
  {
    var x :| x in s;
    if s - {x} == {} {
      assert s == {x};
      LexReflexive(x);
      z := x;
    } else {
      z := LeastExists(s - {x});
      LeastWith(s, x, z);
      z := if LexLe(x, z) then x else z;
    }
  }

  lemma LeastUnique(s: set<string>)
    requires s != {}
    ensures exists x :: x in s && forall y :: y in s ==> LexLe(x, y)
    ensures forall x, y :: x in s && y in s && LexLe(x, y) && LexLe(y, x) ==> x == y
  {
    var z := LeastExists(s);
    forall x, y | x in s && y in s && LexLe(x, y) && LexLe(y, x) ensures x == y {
      LexAntisymmetric(x, y);
    }
  }

  /** The first string of a set in lexicographic order. */
  function Least(s: set<string>): (x: string)
    requires s != {}
    ensures x in s && forall y :: y in s ==> LexLe(x, y)
  {
    LeastUnique(s);
    var x :| x in s && forall y :: y in s ==> LexLe(x, y);
    x
  }

  /** The keys of an ordered map, in iteration order. */
  function Sorted(s: set<string>): (r: seq<string>)
    ensures |r| == |s|
    ensures forall x :: x in r <==> x in s
    ensures NoDup(r)
  {
    if s == {} then []
    else
      var x := Least(s);
      [x] + Sorted(s - {x})
  }

  lemma SortedHead(s: set<string>, x: string)
    requires x in s && forall y :: y in s ==> LexLe(x, y)
    ensures Sorted(s) == [x] + Sorted(s - {x})
  {
    LexAntisymmetric(x, Least(s));
  }
}
