// Blocking-key material (crates/fp-core/src/fuzzy/canonical.rs): the length-prefixed byte
// strings that are digested into keys, and the decoders that show nothing is lost in them.
module Canonical {
  import opened Basics
  import opened Component

  function Text(s: string): Bytes {
    seq(|s|, i requires 0 <= i < |s| => s[i] as int)
  }

  function CharOf(i: int): char {
    if 0 <= i < 0xD800 || 0xE000 <= i < 0x11_0000 then i as char else '?'
  }

  function Untext(b: Bytes): string {
    seq(|b|, i requires 0 <= i < |b| => CharOf(b[i]))
  }

  /** The `count` low bytes of `n`, least significant first. */
  function LittleEndian(n: nat, count: nat): (r: Bytes)
    ensures |r| == count
  {
    if count == 0 then [] else [n % 256] + LittleEndian(n / 256, count - 1)
  }

  function FromLittleEndian(b: Bytes): int {
    if b == [] then 0 else b[0] + 256 * FromLittleEndian(b[1..])
  }

  function Pow256(k: nat): nat {
    if k == 0 then 1 else 256 * Pow256(k - 1)
  }

  lemma {:induction false} LittleEndianRoundTrip(n: nat, count: nat)
    requires n < Pow256(count)
    ensures FromLittleEndian(LittleEndian(n, count)) == n
  {
    if count > 0 {
      LittleEndianRoundTrip(n / 256, count - 1);
      assert LittleEndian(n, count)[1..] == LittleEndian(n / 256, count - 1);
    }
  }

  const WORD_BYTES: nat := 8

  /** An unsigned 64-bit word, and a signed one in two's complement. */
  function Word(n: nat): (r: Bytes)
    ensures |r| == 8
  {
    LittleEndian(n, WORD_BYTES)
  }

  function SignedWord(n: int): Bytes {
    Word(n % U64)
  }

  function FromSignedWord(b: Bytes): int {
    var u := FromLittleEndian(b);
    if u > I64_MAX then u - U64 else u
  }

  lemma WordRoundTrip(n: nat)
    requires n < U64
    ensures FromLittleEndian(Word(n)) == n
  {
    assert Pow256(8) == U64 by {
      assert Pow256(4) == 0x1_0000_0000;
      assert Pow256(6) == 0x1_0000_0000_0000;
    }
    LittleEndianRoundTrip(n, WORD_BYTES);
  }

  lemma SignedWordRoundTrip(n: int)
    requires I64_MIN <= n <= I64_MAX
    ensures FromSignedWord(SignedWord(n)) == n
  {
    WordRoundTrip(n % U64);
  }

  /** The 32 bytes of a digest. */
  function HashBytes(h: Hash32): (b: Bytes)
    ensures |b| == 32
  {
    Word(h.w0) + Word(h.w1) + Word(h.w2) + Word(h.w3)
  }

  function HashOf(b: Bytes): Hash32
    requires |b| == 32
  {
    Digest(FromWord(b[..8]), FromWord(b[8..16]), FromWord(b[16..24]), FromWord(b[24..]))
  }

  function FromWord(b: Bytes): u64 {
    FromLittleEndian(b) % U64
  }

  lemma FromWordRoundTrip(n: u64)
    ensures FromWord(Word(n)) == n
  {
    WordRoundTrip(n);
  }

  lemma FourFields(a: Bytes, b: Bytes, c: Bytes, d: Bytes)
    requires |a| == 8 && |b| == 8 && |c| == 8 && |d| == 8
    ensures var all := a + b + c + d;
      all[..8] == a && all[8..16] == b && all[16..24] == c && all[24..] == d
  {
  }

  lemma HashRoundTrip(h: Hash32)
    ensures HashOf(HashBytes(h)) == h
  {
    FourFields(Word(h.w0), Word(h.w1), Word(h.w2), Word(h.w3));
    FromWordRoundTrip(h.w0);
    FromWordRoundTrip(h.w1);
    FromWordRoundTrip(h.w2);
    FromWordRoundTrip(h.w3);
  }

  function ScalarBytes(v: Stored): Option<Bytes> {
    match v
    case Category(h) => Some(HashBytes(h))
    case Numeric(n) => Some(SignedWord(n))
    case Set(_) => None
  }

  /** A scalar is a digest or a word, told apart by its length. */
  function ScalarOf(b: Bytes): Option<Stored> {
    if |b| == 32 then Some(Category(HashOf(b)))
    else if |b| == 8 then Some(Numeric(FromSignedWord(b)))
    else None
  }

  predicate Encodable(v: Stored) {
    v.Numeric? ==> I64_MIN <= v.n <= I64_MAX
  }

  lemma ScalarRoundTrip(v: Stored)
    requires Encodable(v) && !v.Set?
    ensures ScalarOf(ScalarBytes(v).value) == Some(v)
  {
    if v.Numeric? {
      SignedWordRoundTrip(v.n);
    } else {
      HashRoundTrip(v.hash);
    }
  }

  /** A length-prefixed field. */
  function Field(b: Bytes): Bytes {
    Word(|b|) + b
  }

  /** Split a byte string into its first field and the rest. */
  function Unfield(b: Bytes): Option<(Bytes, Bytes)> {
    if |b| < 8 then None
    else
      var n := FromLittleEndian(b[..8]);
      if n < 0 || |b| < 8 + n then None else Some((b[8..8 + n], b[8 + n..]))
  }

  lemma UnfieldField(b: Bytes, rest: Bytes)
    requires |b| < U64
    ensures Unfield(Field(b) + rest) == Some((b, rest))
  {
    var all := Field(b) + rest;
    assert all[..8] == Word(|b|);
    WordRoundTrip(|b|);
    assert all[8..8 + |b|] == b;
    assert all[8 + |b|..] == rest;
  }

  // ---- K0: every scalar component, by name ----

  function Scalars(m: map<string, Stored>): map<string, Stored> {
    m - (set name | name in m && m[name].Set?)
  }

  function EntryBytes(name: string, v: Stored): Bytes {
    var b := ScalarBytes(v);
    if b.Some? then Field(Text(name)) + Field(b.value) else []
  }

  /** The concatenation of one byte string per name. */
  function Concat(names: seq<string>, entry: string -> Bytes): Bytes {
    if names == [] then [] else entry(names[0]) + Concat(names[1..], entry)
  }

  function EntryOf(m: map<string, Stored>): string -> Bytes {
    name => if name in m then EntryBytes(name, m[name]) else []
  }

  const K0: Bytes := Text("K0")
  const K1: Bytes := Text("K1")
  const K2: Bytes := Text("K2")
  const BAND: Bytes := Text("minhash-band")

  function AllScalarBytes(m: map<string, Stored>): Option<Bytes> {
    if Scalars(m) == map[] then None else Some(K0 + Concat(Sorted(m.Keys), EntryOf(m)))
  }

  function DecodeEntries(b: Bytes): Option<map<string, Stored>>
    decreases |b|
  {
    if b == [] then Some(map[])
    else
      var name := Unfield(b);
      if name.None? then None else
      var value := Unfield(name.value.1);
      if value.None? then None else
      var v, rest := ScalarOf(value.value.0), DecodeEntries(value.value.1);
      if v.None? || rest.None? then None else Some(rest.value[Untext(name.value.0) := v.value])
  }

  function DecodeAllScalar(b: Bytes): Option<map<string, Stored>> {
    if |b| >= 2 && b[..2] == K0 then DecodeEntries(b[2..]) else None
  }

  predicate EncodableMap(m: map<string, Stored>) {
    forall name :: name in m ==> |name| < U64 && Encodable(m[name])
  }

  lemma UntextText(s: string)
    ensures Untext(Text(s)) == s
  {
  }

  lemma DecodeOneEntry(name: string, v: Stored, rest: Bytes)
    requires |name| < U64 && Encodable(v) && !v.Set?
    requires DecodeEntries(rest).Some?
    ensures DecodeEntries(EntryBytes(name, v) + rest) == Some(DecodeEntries(rest).value[name := v])
  {
    var b := ScalarBytes(v).value;
    var tail := Field(b) + rest;
    assert EntryBytes(name, v) + rest == Field(Text(name)) + tail;
    UnfieldField(Text(name), tail);
    UnfieldField(b, rest);
    UntextText(name);
    ScalarRoundTrip(v);
  }

  /** The scalar components among `names`. */
  ghost function ScalarsAmong(names: seq<string>, m: map<string, Stored>): map<string, Stored>
    requires forall x :: x in names ==> x in m
  {
    m - (set x | x in m && (x !in names || m[x].Set?))
  }

  lemma ScalarsAmongCons(names: seq<string>, m: map<string, Stored>)
    requires names != [] && names[0] !in names[1..]
    requires forall x :: x in names ==> x in m
    ensures var rest := ScalarsAmong(names[1..], m);
      ScalarsAmong(names, m) == if m[names[0]].Set? then rest else rest[names[0] := m[names[0]]]
  {
    assert names == [names[0]] + names[1..];
  }

  /** The first name's entry, then the others'. */
  lemma BodyCons(names: seq<string>, m: map<string, Stored>)
    requires names != [] && names[0] in m
    ensures Concat(names, EntryOf(m)) ==
      (if m[names[0]].Set? then [] else EntryBytes(names[0], m[names[0]])) + Concat(names[1..], EntryOf(m))
  {
  }

  lemma {:induction false} DecodeBody(names: seq<string>, m: map<string, Stored>)
    requires forall x :: x in names ==> x in m
    requires NoDup(names)
    requires EncodableMap(m)
    ensures DecodeEntries(Concat(names, EntryOf(m))) == Some(ScalarsAmong(names, m))
  {
    if names != [] {
      var name, body := names[0], Concat(names[1..], EntryOf(m));
      DecodeBody(names[1..], m);
      ScalarsAmongCons(names, m);
      BodyCons(names, m);
      if m[name].Set? {
        assert [] + body == body;
      } else {
        DecodeOneEntry(name, m[name], body);
      }
    }
  }

  /** The K0 byte string decodes back to exactly the scalar components it was made from. */
  lemma AllScalarRoundTrip(m: map<string, Stored>)
    requires EncodableMap(m) && AllScalarBytes(m).Some?
    ensures DecodeAllScalar(AllScalarBytes(m).value) == Some(Scalars(m))
  {
    var names := Sorted(m.Keys);
    var body := Concat(names, EntryOf(m));
    var all := K0 + body;
    assert |K0| == 2 && all[..2] == K0 && all[2..] == body;
    DecodeBody(names, m);
    assert ScalarsAmong(names, m) == Scalars(m);
  }

  // ---- K1 and K2: a fixed group of members ----

  /** The scalar values of the members, or nothing if one is absent or a set. */
  function Group(m: map<string, Stored>, members: seq<string>): Option<seq<Stored>> {
    if members == [] then Some([])
    else
      var rest := Group(m, members[1..]);
      if members[0] !in m || m[members[0]].Set? || rest.None? then None
      else Some([m[members[0]]] + rest.value)
  }

  function GroupBody(values: seq<Stored>): Bytes {
    if values == [] then []
    else (if values[0].Set? then [] else Field(ScalarBytes(values[0]).value)) + GroupBody(values[1..])
  }

  function GroupBytes(m: map<string, Stored>, namespace: Bytes, members: seq<string>): Option<Bytes> {
    var g := Group(m, members);
    if g.None? then None else Some(namespace + GroupBody(g.value))
  }

  function DecodeGroup(b: Bytes): Option<seq<Stored>>
    decreases |b|
  {
    if b == [] then Some([])
    else
      var field := Unfield(b);
      if field.None? then None else
      var v, rest := ScalarOf(field.value.0), DecodeGroup(field.value.1);
      if v.None? || rest.None? then None else Some([v.value] + rest.value)
  }

  lemma {:induction false} GroupValues(m: map<string, Stored>, members: seq<string>)
    requires EncodableMap(m) && Group(m, members).Some?
    ensures |Group(m, members).value| == |members|
    ensures forall i :: 0 <= i < |members| ==>
      members[i] in m && m[members[i]] == Group(m, members).value[i] &&
      Encodable(Group(m, members).value[i]) && !Group(m, members).value[i].Set?
  {
    if members != [] {
      GroupValues(m, members[1..]);
    }
  }

  lemma DecodeOneField(v: Stored, b: Bytes, rest: Bytes, values: seq<Stored>)
    requires ScalarOf(b) == Some(v) && |b| < U64 && DecodeGroup(rest) == Some(values)
    ensures DecodeGroup(Field(b) + rest) == Some([v] + values)
  {
    UnfieldField(b, rest);
  }

  lemma {:induction false} GroupBodyRoundTrip(values: seq<Stored>)
    requires forall i :: 0 <= i < |values| ==> Encodable(values[i]) && !values[i].Set?
    ensures DecodeGroup(GroupBody(values)) == Some(values)
  {
    if values != [] {
      GroupBodyRoundTrip(values[1..]);
      var b := ScalarBytes(values[0]).value;
      ScalarRoundTrip(values[0]);
      DecodeOneField(values[0], b, GroupBody(values[1..]), values[1..]);
      assert values == [values[0]] + values[1..];
    }
  }

  /** A group key's byte string decodes back to its member values. */
  lemma GroupRoundTrip(m: map<string, Stored>, namespace: Bytes, members: seq<string>)
    requires EncodableMap(m) && GroupBytes(m, namespace, members).Some?
    ensures DecodeGroup(GroupBytes(m, namespace, members).value[|namespace|..]) == Group(m, members)
  {
    GroupValues(m, members);
    var g := Group(m, members).value;
    assert (namespace + GroupBody(g))[|namespace|..] == GroupBody(g);
    GroupBodyRoundTrip(g);
  }

  // ---- MinHash bands ----

  function BandBytes(band: nat, row0: nat, row1: nat): Bytes {
    BAND + Word(band) + Word(row0) + Word(row1)
  }

  function DecodeBand(b: Bytes): Option<(int, int, int)> {
    if |b| == 36 && b[..12] == BAND then
      Some((FromLittleEndian(b[12..20]), FromLittleEndian(b[20..28]), FromLittleEndian(b[28..36])))
    else None
  }

  lemma BandRoundTrip(band: nat, row0: nat, row1: nat)
    requires band < U64 && row0 < U64 && row1 < U64
    ensures DecodeBand(BandBytes(band, row0, row1)) == Some((band, row0, row1))
  {
    var b := BandBytes(band, row0, row1);
    assert |BAND| == 12;
    assert b[..12] == BAND && b[12..20] == Word(band) && b[20..28] == Word(row0) && b[28..36] == Word(row1);
    WordRoundTrip(band);
    WordRoundTrip(row0);
    WordRoundTrip(row1);
  }

  /** Which family of keys a byte string belongs to, by its first two bytes. */
  datatype Namespace = Scalars0 | Group1 | Group2 | Band | Other

  function NamespaceOf(b: Bytes): Namespace {
    if |b| < 2 then Other
    else if b[..2] == K0 then Scalars0
    else if b[..2] == K1 then Group1
    else if b[..2] == K2 then Group2
    else if b[..2] == BAND[..2] then Band
    else Other
  }

  lemma Prefixed(prefix: Bytes, rest: Bytes)
    requires |prefix| >= 2
    ensures (prefix + rest)[..2] == prefix[..2]
  {
  }

  /** No two families produce the same byte string. */
  lemma NamespacesAreDisjoint(body: Bytes)
    ensures NamespaceOf(K0 + body) == Scalars0
    ensures NamespaceOf(K1 + body) == Group1
    ensures NamespaceOf(K2 + body) == Group2
    ensures NamespaceOf(BAND + body) == Band
  {
    assert |K0| == 2 && |K1| == 2 && |K2| == 2 && |BAND| == 12;
    assert K0 == [75, 48] && K1 == [75, 49] && K2 == [75, 50];
    assert BAND[0] == 109 && BAND[..2][0] == 109;
    Prefixed(K0, body);
    Prefixed(K1, body);
    Prefixed(K2, body);
    Prefixed(BAND, body);
  }
}
