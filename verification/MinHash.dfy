// MinHash-LSH band keys for set components (crates/fp-core/src/fuzzy/minhash.rs).
module MinHash {
  import opened Basics
  import opened Component
  import opened OddAffine
  import C = Canonical

  const NUM_PERM: nat := 16
  const ROWS: nat := 2
  const BANDS: nat := NUM_PERM / ROWS
  const TOP: nat := U64 - 1

  type Family = f: seq<Affine> | |f| == NUM_PERM witness seq(NUM_PERM, _ => Affine(1, 0))

  predicate Odd(f: Family) {
    forall i :: 0 <= i < NUM_PERM ==> f[i].a % 2 == 1
  }

  /** The first eight bytes of a digest as a word. */
  function Leading(h: Hash32): nat {
    h.w0
  }

  function Hasher(p: Affine): Hash32 -> nat {
    h => p.At(Leading(h))
  }

  /** The minimum of one hash over a set, or the largest word for the empty set. */
  ghost function Row(g: Hash32 -> nat, s: set<Hash32>): nat {
    if s == {} then TOP
    else
      var x :| x in s;
      Min(g(x), Row(g, s - {x}))
  }

  ghost function Signature(f: Family, s: set<Hash32>): (r: seq<nat>)
    ensures |r| == NUM_PERM
  {
    seq(NUM_PERM, i requires 0 <= i < NUM_PERM => Row(Hasher(f[i]), s))
  }

  /** The bytes digested into one band key: the band index and its two rows. */
  ghost function BandString(f: Family, s: set<Hash32>, band: nat): Bytes
    requires band < BANDS
  {
    C.BandBytes(band, Signature(f, s)[2 * band], Signature(f, s)[2 * band + 1])
  }

  /** The byte strings digested into the band keys of a set; none for the empty set. */
  ghost function BandStrings(f: Family, s: set<Hash32>): seq<Bytes> {
    if s == {} then [] else seq(BANDS, band requires 0 <= band < BANDS => BandString(f, s, band))
  }

  ghost predicate IsMinimiser(g: Hash32 -> nat, s: set<Hash32>, x: Hash32) {
    x in s && forall y :: y in s ==> g(x) <= g(y)
  }

  /** Adding an element keeps the minimiser or replaces it. */
  lemma MinimiserWith(g: Hash32 -> nat, s: set<Hash32>, x: Hash32, z: Hash32)
    requires x in s && IsMinimiser(g, s - {x}, z)
    ensures IsMinimiser(g, s, if g(x) <= g(z) then x else z)
  {
    forall y | y in s ensures Min(g(x), g(z)) <= g(y) {
      assert y == x || y in s - {x};
    }
  }

  lemma {:induction false} RowAttained(g: Hash32 -> nat, s: set<Hash32>) returns (z: Hash32)
    requires s != {}
    ensures IsMinimiser(g, s, z) && Row(g, s) == Min(g(z), TOP)
  {
    var x :| x in s && Row(g, s) == Min(g(x), Row(g, s - {x}));
    var rest := s - {x};
    if rest == {} {
      assert Row(g, rest) == TOP;
      assert s == {x};
      z := x;
    } else {
      var w := RowAttained(g, rest);
      MinimiserWith(g, s, x, w);
      z := if g(x) <= g(w) then x else w;
      assert Row(g, s) == Min(g(x), Min(g(w), TOP)) == Min(g(z), TOP);
    }
  }

  lemma RowIsMinimum(g: Hash32 -> nat, s: set<Hash32>)
    ensures forall x :: x in s ==> Row(g, s) <= g(x)
    ensures Row(g, s) <= TOP
    ensures s != {} ==> (exists x :: IsMinimiser(g, s, x) && Row(g, s) == Min(g(x), TOP))
  {
    if s != {} {
      var z := RowAttained(g, s);
    }
  }

  /** Hashes are words. */
  ghost predicate Words(g: Hash32 -> nat) {
    forall x :: g(x) <= TOP
  }

  /** Distinct elements have distinct hashes. */
  ghost predicate InjectiveOn(g: Hash32 -> nat, s: set<Hash32>) {
    forall x, y :: x in s && y in s && g(x) == g(y) ==> x == y
  }

  /** The element of least hash. */
  ghost function Minimiser(g: Hash32 -> nat, s: set<Hash32>): (x: Hash32)
    requires s != {}
    ensures IsMinimiser(g, s, x)
    ensures Words(g) ==> g(x) == Row(g, s)
  {
    RowIsMinimum(g, s);
    var x :| IsMinimiser(g, s, x) && Row(g, s) == Min(g(x), TOP);
    x
  }

  /** A lower bound that is attained is the row. */
  lemma RowUnique(g: Hash32 -> nat, s: set<Hash32>, x: Hash32)
    requires IsMinimiser(g, s, x) && Words(g)
    ensures g(x) == Row(g, s)
  {
    assert IsMinimiser(g, s, Minimiser(g, s));
  }

  /** Rows agree exactly when the least element of the union lies in both sets. */
  lemma RowsAgree(g: Hash32 -> nat, a: set<Hash32>, b: set<Hash32>)
    requires a != {} && b != {} && Words(g) && InjectiveOn(g, a + b)
    ensures Row(g, a) == Row(g, b) <==> Minimiser(g, a + b) in a * b
  {
    var x, y, z := Minimiser(g, a), Minimiser(g, b), Minimiser(g, a + b);
    assert g(z) <= g(x) && g(z) <= g(y);
    if Row(g, a) == Row(g, b) {
      assert x == y;
      assert g(z) == g(x) by { assert z in a || z in b; }
    }
  }

  lemma RowOfUnion(g: Hash32 -> nat, a: set<Hash32>, b: set<Hash32>)
    requires Words(g)
    ensures Row(g, a + b) == Min(Row(g, a), Row(g, b))
  {
    RowIsMinimum(g, a);
    RowIsMinimum(g, b);
    if a + b == {} {
    } else if b == {} {
      assert a + b == a;
    } else if a == {} {
      assert a + b == b;
    } else if Row(g, a) <= Row(g, b) {
      RowUnique(g, a + b, Minimiser(g, a));
    } else {
      RowUnique(g, a + b, Minimiser(g, b));
    }
  }

  lemma HasherWords(p: Affine)
    ensures Words(Hasher(p))
  {
    forall x ensures Hasher(p)(x) <= TOP {
      assert Hasher(p)(x) == p.At(Leading(x));
    }
  }

  /** The leading words tell the elements apart. */
  ghost predicate LeadingInjective(s: set<Hash32>) {
    forall x, y :: x in s && y in s && Leading(x) == Leading(y) ==> x == y
  }

  lemma HasherInjective(p: Affine, s: set<Hash32>)
    requires p.a % 2 == 1 && LeadingInjective(s)
    ensures InjectiveOn(Hasher(p), s)
  {
    forall x, y | x in s && y in s && Hasher(p)(x) == Hasher(p)(y) ensures x == y {
      AffineInjective(p, Leading(x), Leading(y));
    }
  }

  /** The signature of a union is the pointwise minimum of the signatures. */
  lemma SignatureOfUnion(f: Family, a: set<Hash32>, b: set<Hash32>)
    ensures forall i :: 0 <= i < NUM_PERM ==>
      Signature(f, a + b)[i] == Min(Signature(f, a)[i], Signature(f, b)[i])
  {
    forall i | 0 <= i < NUM_PERM
      ensures Signature(f, a + b)[i] == Min(Signature(f, a)[i], Signature(f, b)[i])
    {
      HasherWords(f[i]);
      RowOfUnion(Hasher(f[i]), a, b);
    }
  }

  /** Signature row `i` agrees exactly when the minimiser of the union under hash `i` lies in the
      intersection. */
  lemma SignatureRowsAgree(f: Family, a: set<Hash32>, b: set<Hash32>, i: nat)
    requires i < NUM_PERM && a != {} && b != {} && Odd(f) && LeadingInjective(a + b)
    ensures Signature(f, a)[i] == Signature(f, b)[i] <==> Minimiser(Hasher(f[i]), a + b) in a * b
  {
    HasherWords(f[i]);
    HasherInjective(f[i], a + b);
    RowsAgree(Hasher(f[i]), a, b);
  }

  /** A band both of whose row minimisers lie in the intersection. */
  ghost predicate BandShared(f: Family, a: set<Hash32>, b: set<Hash32>, band: nat)
    requires a != {} && band < BANDS
  {
    && Minimiser(Hasher(f[2 * band]), a + b) in a * b
    && Minimiser(Hasher(f[2 * band + 1]), a + b) in a * b
  }

  lemma SignatureWords(f: Family, s: set<Hash32>)
    ensures forall i :: 0 <= i < NUM_PERM ==> Signature(f, s)[i] < U64
  {
    forall i | 0 <= i < NUM_PERM ensures Signature(f, s)[i] < U64 {
      RowIsMinimum(Hasher(f[i]), s);
    }
  }

  /** Band strings are equal exactly for the same band with the same two rows. */
  lemma BandStringsEqual(f: Family, a: set<Hash32>, b: set<Hash32>, i: nat, j: nat)
    requires i < BANDS && j < BANDS
    ensures BandString(f, a, i) == BandString(f, b, j) <==>
            i == j && Signature(f, a)[2 * i] == Signature(f, b)[2 * i]
                   && Signature(f, a)[2 * i + 1] == Signature(f, b)[2 * i + 1]
  {
    var s, t := Signature(f, a), Signature(f, b);
    SignatureWords(f, a);
    SignatureWords(f, b);
    C.BandRoundTrip(i, s[2 * i], s[2 * i + 1]);
    C.BandRoundTrip(j, t[2 * j], t[2 * j + 1]);
  }

  lemma BandStringMember(f: Family, s: set<Hash32>, t: Bytes)
    ensures t in BandStrings(f, s) <==> s != {} && exists band: nat :: band < BANDS && t == BandString(f, s, band)
  {
    var strings := BandStrings(f, s);
    if s != {} {
      forall band: nat | band < BANDS ensures BandString(f, s, band) in strings {
        assert strings[band] == BandString(f, s, band);
      }
      if t in strings {
        var band :| 0 <= band < |strings| && strings[band] == t;
        assert band < BANDS && t == BandString(f, s, band);
      }
    }
  }

  /** Two sets have a band string in common exactly when some band has both its row minimisers
      in the intersection. */
  lemma BandsMeet(f: Family, a: set<Hash32>, b: set<Hash32>)
    requires a != {} && b != {} && Odd(f) && LeadingInjective(a + b)
    ensures Meet(BandStrings(f, a), BandStrings(f, b)) <==>
            (exists band: nat :: band < BANDS && BandShared(f, a, b, band))
  {
    forall band: nat | band < BANDS
      ensures BandString(f, a, band) == BandString(f, b, band) <==> BandShared(f, a, b, band)
    {
      SignatureRowsAgree(f, a, b, 2 * band);
      SignatureRowsAgree(f, a, b, 2 * band + 1);
      BandStringsEqual(f, a, b, band, band);
    }
    if t :| t in BandStrings(f, a) && t in BandStrings(f, b) {
      BandStringMember(f, a, t);
      BandStringMember(f, b, t);
      var i: nat :| i < BANDS && t == BandString(f, a, i);
      var j: nat :| j < BANDS && t == BandString(f, b, j);
      BandStringsEqual(f, a, b, i, j);
      assert BandShared(f, a, b, i);
    }
    if band: nat :| band < BANDS && BandShared(f, a, b, band) {
      BandStringMember(f, a, BandString(f, a, band));
      BandStringMember(f, b, BandString(f, a, band));
    }
  }

  /** Disjoint sets never meet in a band; a set meets itself in every band; the empty set has none. */
  lemma BandExtremes(f: Family, a: set<Hash32>, b: set<Hash32>)
    requires Odd(f) && LeadingInjective(a + b)
    ensures a !! b ==> !Meet(BandStrings(f, a), BandStrings(f, b))
    ensures a != {} ==> forall band: nat :: band < BANDS ==> BandShared(f, a, a, band)
    ensures |BandStrings(f, {})| == 0
  {
    if a != {} && b != {} && a !! b {
      BandsMeet(f, a, b);
    }
    assert a + a == a && a * a == a;
  }

  lemma RowWith(g: Hash32 -> nat, s: set<Hash32>, x: Hash32)
    requires Words(g)
    ensures Row(g, s + {x}) == Min(Row(g, s), g(x))
  {
    RowOfUnion(g, s, {x});
    RowUnique(g, {x}, x);
  }

  // ---- The loops of the source ----

  class MinHashLsh {
    const coefficients: Family

    constructor (f: Family)
      ensures coefficients == f
    {
      coefficients := f;
    }

    /** Fold one element into every slot. */
    method Lower(slots: array<nat>, element: Hash32, ghost done: set<Hash32>)
      requires slots.Length == NUM_PERM && slots[..] == Signature(coefficients, done)
      modifies slots
      ensures slots[..] == Signature(coefficients, done + {element})
    {
      ghost var before, after := Signature(coefficients, done), Signature(coefficients, done + {element});
      var i := 0;
      while i < NUM_PERM
        invariant 0 <= i <= NUM_PERM
        invariant forall j :: 0 <= j < i ==> slots[j] == after[j]
        invariant forall j :: i <= j < NUM_PERM ==> slots[j] == before[j]
      {
        HasherWords(coefficients[i]);
        RowWith(Hasher(coefficients[i]), done, element);
        var hashed := Hasher(coefficients[i])(element);
        if hashed < slots[i] {
          slots[i] := hashed;
        }
        i := i + 1;
      }
    }

    /** The per-permutation minimum, by one pass over the elements in any order. */
    method ComputeSignature(elements: set<Hash32>) returns (signature: seq<nat>)
      ensures signature == Signature(coefficients, elements)
    {
      var slots := new nat[NUM_PERM](_ => TOP);
      var todo := elements;
      ghost var done: set<Hash32> := {};
      assert slots[..] == Signature(coefficients, done);
      while todo != {}
        invariant done !! todo && done + todo == elements
        invariant slots[..] == Signature(coefficients, done)
        decreases todo
      {
        var element :| element in todo;
        Lower(slots, element, done);
        todo, done := todo - {element}, done + {element};
      }
      assert done == elements;
      signature := slots[..];
    }

    /** One byte string per band, or none for the empty set. */
    method ComputeBandStrings(elements: set<Hash32>) returns (strings: seq<Bytes>)
      ensures strings == BandStrings(coefficients, elements)
    {
      if elements == {} {
        return [];
      }
      var signature := ComputeSignature(elements);
      strings := [];
      for band := 0 to BANDS
        invariant |strings| == band
        invariant forall b: nat :: b < band ==> strings[b] == BandString(coefficients, elements, b)
      {
        var next := C.BandBytes(band, signature[2 * band], signature[2 * band + 1]);
        assert next == BandString(coefficients, elements, band);
        strings := strings + [next];
      }
    }
  }

  // ---- In numbers ----

  /** The hash of an element under one pair of coefficients. */
  function ElementHash(p: Affine, x: Hash32): nat {
    (p.a * x.w0 + p.b) % 0x1_0000_0000_0000_0000
  }

  lemma HasherIsElementHash(p: Affine, x: Hash32)
    ensures Hasher(p)(x) == ElementHash(p, x)
  {
  }

  /** Each of the sixteen slots holds the least hash of an element under its coefficients, and all ones for the
      empty set. */
  lemma SignatureMeans(f: Family, s: set<Hash32>, i: nat)
    requires i < 16
    ensures |Signature(f, s)| == 16
    ensures s == {} ==> Signature(f, s)[i] == 0xFFFF_FFFF_FFFF_FFFF
    ensures forall x :: x in s ==> Signature(f, s)[i] <= ElementHash(f[i], x)
    ensures s != {} ==> exists x :: x in s && Signature(f, s)[i] == ElementHash(f[i], x)
  {
    var g := Hasher(f[i]);
    forall x ensures g(x) == ElementHash(f[i], x) {
      HasherIsElementHash(f[i], x);
    }
    RowIsMinimum(g, s);
    if s != {} {
      var x :| IsMinimiser(g, s, x) && Row(g, s) == Min(g(x), TOP);
      assert g(x) <= TOP;
    }
  }

  /** A set that is not empty has eight band strings, each of the band's index and its two slots. */
  lemma BandShape(f: Family, s: set<Hash32>)
    requires s != {}
    ensures |BandStrings(f, s)| == 8 && |Signature(f, s)| == 16
    ensures forall b: nat :: b < 8 ==>
      BandStrings(f, s)[b] == C.BandBytes(b, Signature(f, s)[2 * b], Signature(f, s)[2 * b + 1])
  {
    var strings := BandStrings(f, s);
    forall b: nat | b < 8 ensures strings[b] == C.BandBytes(b, Signature(f, s)[2 * b], Signature(f, s)[2 * b + 1]) {
      assert strings[b] == BandString(f, s, b);
    }
  }

  /** Coefficients read from sixteen seeded digests, the multiplier forced odd. */
  method FromSeed(digest: Bytes -> Hash32, seed: Bytes) returns (f: Family)
    ensures Odd(f)
    ensures forall i: nat :: i < 16 ==>
      var h := digest(seed + C.Word(i));
      f[i].a == h.w0 + (1 - h.w0 % 2) && f[i].b == h.w1
  {
    var slots: seq<Affine> := [];
    for index := 0 to NUM_PERM
      invariant |slots| == index
      invariant forall i: nat :: i < index ==> slots[i] == SeededAffine(digest(seed + C.Word(i)))
    {
      slots := slots + [SeededAffine(digest(seed + C.Word(index)))];
    }
    f := slots;
  }

  function SeededAffine(h: Hash32): (p: Affine)
    ensures p.a % 2 == 1 && Leading(h) <= p.a <= Leading(h) + 1 && p.b < U64
  {
    var low := Leading(h);
    Affine(if low % 2 == 1 then low else low + 1, h.w1)
  }
}
