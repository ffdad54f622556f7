// Stored forms of fingerprint components (crates/fp-core/src/fuzzy/component.rs) and the
// conversion of a raw JSON observation into its stored map (canonical.rs, mod.rs).
module Component {
  import opened Basics

  /** Bytes are integers; a string is given by its UTF-8 bytes, one character per byte. */
  type Bytes = seq<int>

  /** A 256-bit digest, as its four little-endian words. */
  datatype Hash32 = Digest(w0: u64, w1: u64, w2: u64, w3: u64)

  datatype Number = IntNum(i: int) | FloatNum(r: real)

  datatype Json =
    | Null
    | Bool(b: bool)
    | Num(n: Number)
    | Str(s: string)
    | Arr(items: seq<Json>)
    | Obj(entries: map<string, Json>)

  datatype Stored = Category(hash: Hash32) | Set(items: set<Hash32>) | Numeric(n: int)

  /** What the store treats as given: the salted hash of a value, the unsalted digest used for
      keys, and the decimal text of a number. */
  datatype Keying = Keying(salted: string -> Hash32, digest: Bytes -> Hash32, text: Number -> string)

  datatype Stability = High | Medium | Low {
    function MPrior(): real {
      match this
      case High => 0.95
      case Medium => 0.80
      case Low => 0.50
    }
  }

  datatype Kind = CategoryKind | SetKind | NumericKind

  datatype FieldSpec = FieldSpec(stability: Stability, kind: Kind)

  function Classify(name: string): FieldSpec {
    if name in {"webgl", "platform", "timezone", "audio", "languages"} then FieldSpec(High, CategoryKind)
    else if name in {"cpu_cores", "device_memory"} then FieldSpec(High, NumericKind)
    else if name in {"fonts", "plugins"} then FieldSpec(Medium, SetKind)
    else if name == "screen" then FieldSpec(Medium, NumericKind)
    else if name == "user_agent" then FieldSpec(Low, CategoryKind)
    else FieldSpec(Medium, CategoryKind)
  }

  /** Text of a string, boolean or number; nothing for null, arrays and objects. */
  function CanonicalScalar(k: Keying, value: Json): Option<string> {
    match value
    case Str(s) => Some(s)
    case Bool(b) => Some(if b then "true" else "false")
    case Num(n) => Some(k.text(n))
    case _ => None
  }

  /** The saturating cast to a signed 64-bit word. */
  function ClampI64(i: int): int {
    Max(I64_MIN, Min(I64_MAX, i))
  }

  /** Rounding half away from zero. */
  function Round(r: real): int {
    if r >= 0.0 then (r + 0.5).Floor else -(0.5 - r).Floor
  }

  function ToI64(value: Json): Option<int> {
    match value
    case Num(IntNum(i)) => Some(ClampI64(i))
    case Num(FloatNum(r)) => Some(ClampI64(Round(r)))
    case _ => None
  }

  function HashSet(k: Keying, items: seq<Json>): set<Hash32> {
    set i | 0 <= i < |items| && items[i].Str? :: k.salted(items[i].s)
  }

  /** Stored form of one raw value per the schema, or nothing when it is missing or mismatched. */
  function ToStored(k: Keying, name: string, value: Json): Option<Stored> {
    match Classify(name).kind
    case CategoryKind =>
      var t := CanonicalScalar(k, value);
      if t.Some? then Some(Category(k.salted(t.value))) else None
    case NumericKind =>
      var n := ToI64(value);
      if n.Some? then Some(Numeric(n.value)) else None
    case SetKind =>
      if value.Arr? then Some(Set(HashSet(k, value.items))) else None
  }

  function Entries(components: Json): map<string, Json> {
    if components.Obj? then components.entries else map[]
  }

  function StoredEntries(k: Keying, entries: map<string, Json>): map<string, Stored> {
    map name | name in entries && ToStored(k, name, entries[name]).Some? :: ToStored(k, name, entries[name]).value
  }

  function StoredMap(k: Keying, components: Json): map<string, Stored> {
    StoredEntries(k, Entries(components))
  }

  /** A stored map as every observation produces it: each kind is the one the schema names, and
      numbers fit a signed 64-bit word. */
  predicate WellTyped(m: map<string, Stored>) {
    forall name :: name in m ==>
      match m[name]
      case Category(_) => Classify(name).kind == CategoryKind
      case Set(_) => Classify(name).kind == SetKind
      case Numeric(n) => Classify(name).kind == NumericKind && I64_MIN <= n <= I64_MAX
  }

  lemma StoredMapWellTyped(k: Keying, components: Json)
    ensures WellTyped(StoredMap(k, components))
  {
  }

  // ---- What is stored, from the raw value ----

  /** The names of the schema, by how their values are stored. */
  const NUMERIC_NAMES: set<string> := {"cpu_cores", "device_memory", "screen"}
  const SET_NAMES: set<string> := {"fonts", "plugins"}
  const STABLE_NAMES: set<string> :=
    {"webgl", "platform", "timezone", "audio", "languages", "cpu_cores", "device_memory"}

  /** A number is stored by its value, a set by its elements, and everything else as a category; what is
      rarely changed is expected to agree nineteen times in twenty, the user agent one time in two. */
  lemma SchemaByName(name: string)
    ensures Classify(name).kind == NumericKind <==> name in NUMERIC_NAMES
    ensures Classify(name).kind == SetKind <==> name in SET_NAMES
    ensures Classify(name).stability.MPrior() ==
      if name in STABLE_NAMES then 0.95 else if name == "user_agent" then 0.5 else 0.8
  {
  }

  /** `n` is `r` rounded to a nearest integer, away from zero at a tie, and kept in a signed 64-bit word. */
  predicate Rounds(r: real, n: int) {
    if r >= 9223372036854775807.5 then n == 9223372036854775807
    else if r <= -9223372036854775808.5 then n == -9223372036854775808
    else
      && -0.5 <= n as real - r <= 0.5
      && (n as real - r == 0.5 ==> r > 0.0) && (n as real - r == -0.5 ==> r < 0.0)
  }

  /** What a number is stored as: itself if it is an integer that fits, otherwise the nearer bound; a
      fraction rounded. */
  predicate StoredNumber(n: Number, stored: int) {
    match n
    case IntNum(i) =>
      if i > 9223372036854775807 then stored == 9223372036854775807
      else if i < -9223372036854775808 then stored == -9223372036854775808
      else stored == i
    case FloatNum(r) => Rounds(r, stored)
  }

  lemma RoundIsNearest(r: real)
    ensures -0.5 <= Round(r) as real - r <= 0.5
    ensures Round(r) as real - r == 0.5 ==> r > 0.0
    ensures Round(r) as real - r == -0.5 ==> r < 0.0
  {
  }

  lemma RoundBounds(r: real)
    ensures r >= 9223372036854775807.5 ==> Round(r) > 9223372036854775807
    ensures r <= -9223372036854775808.5 ==> Round(r) < -9223372036854775808
    ensures -9223372036854775808.5 < r < 9223372036854775807.5 ==> I64_MIN <= Round(r) <= I64_MAX
  {
    RoundIsNearest(r);
  }

  lemma NumberStored(value: Json)
    ensures ToI64(value).Some? <==> value.Num?
    ensures value.Num? ==> StoredNumber(value.n, ToI64(value).value)
  {
    if value.Num? && value.n.FloatNum? {
      RoundIsNearest(value.n.r);
      RoundBounds(value.n.r);
    }
  }

  lemma RoundedOnce(r: real, x: int, y: int)
    requires Rounds(r, x) && Rounds(r, y)
    ensures x == y
  {
  }

  /** No two numbers fit that description. */
  lemma StoredNumberUnique(n: Number, x: int, y: int)
    requires StoredNumber(n, x) && StoredNumber(n, y)
    ensures x == y
  {
    if n.FloatNum? { RoundedOnce(n.r, x, y); }
  }

  /** What one raw value is stored as under its name; nothing if it does not suit the name. */
  ghost predicate StoredAs(k: Keying, name: string, value: Json, stored: Stored) {
    if name in NUMERIC_NAMES then value.Num? && stored.Numeric? && StoredNumber(value.n, stored.n)
    else if name in SET_NAMES then
      && value.Arr? && stored.Set?
      && forall h :: h in stored.items <==> exists s :: Str(s) in value.items && k.salted(s) == h
    else
      match value
      case Str(s) => stored == Category(k.salted(s))
      case Bool(b) => stored == Category(k.salted(if b then "true" else "false"))
      case Num(n) => stored == Category(k.salted(k.text(n)))
      case _ => false
  }

  /** Whether a raw value suits its name. */
  predicate Suits(name: string, value: Json) {
    if name in NUMERIC_NAMES then value.Num?
    else if name in SET_NAMES then value.Arr?
    else value.Str? || value.Bool? || value.Num?
  }

  lemma HashSetMeans(k: Keying, items: seq<Json>, h: Hash32)
    ensures h in HashSet(k, items) <==> exists s :: Str(s) in items && k.salted(s) == h
  {
    if h in HashSet(k, items) {
      var i :| 0 <= i < |items| && items[i].Str? && k.salted(items[i].s) == h;
      assert Str(items[i].s) in items;
    }
    forall s | Str(s) in items && k.salted(s) == h ensures h in HashSet(k, items) {
      var i :| 0 <= i < |items| && items[i] == Str(s);
    }
  }

  lemma ValueStored(k: Keying, name: string, value: Json)
    ensures ToStored(k, name, value).Some? <==> Suits(name, value)
    ensures Suits(name, value) ==> StoredAs(k, name, value, ToStored(k, name, value).value)
  {
    SchemaByName(name);
    NumberStored(value);
    if value.Arr? {
      forall h ensures h in HashSet(k, value.items) <==> exists s :: Str(s) in value.items && k.salted(s) == h {
        HashSetMeans(k, value.items, h);
      }
    }
  }

  /** What a stored map holds, from the raw object alone: an entry for exactly the entries of the object that
      suit their names, with what they are stored as; nothing of anything but an object. */
  lemma StoredMapMeans(k: Keying, components: Json, name: string)
    ensures name in StoredMap(k, components) <==>
      components.Obj? && name in components.entries && Suits(name, components.entries[name])
    ensures name in StoredMap(k, components) ==>
      StoredAs(k, name, components.entries[name], StoredMap(k, components)[name])
  {
    if components.Obj? && name in components.entries {
      ValueStored(k, name, components.entries[name]);
    }
  }

  lemma StoredMapsMean(k: Keying, components: Json)
    ensures forall name :: name in StoredMap(k, components) <==>
      components.Obj? && name in components.entries && Suits(name, components.entries[name])
    ensures forall name :: name in StoredMap(k, components) ==>
      StoredAs(k, name, components.entries[name], StoredMap(k, components)[name])
  {
    forall name
      ensures name in StoredMap(k, components) <==>
        components.Obj? && name in components.entries && Suits(name, components.entries[name])
      ensures name in StoredMap(k, components) ==>
        StoredAs(k, name, components.entries[name], StoredMap(k, components)[name])
    {
      StoredMapMeans(k, components, name);
    }
  }

  /** Jaccard similarity; two empty sets are identical. */
  function Jaccard(a: set<Hash32>, b: set<Hash32>): real {
    if a == {} && b == {} then 1.0
    else
      var common := |a * b|;
      UnionSize(a, b);
      common as real / (|a| + |b| - common) as real
  }

  lemma UnionSize(a: set<Hash32>, b: set<Hash32>)
    ensures |a + b| == |a| + |b| - |a * b|
    ensures |a * b| <= |a| && |a * b| <= |b|
    ensures a != {} || b != {} ==> |a| + |b| - |a * b| > 0
  {
    assert a == (a - b) + (a * b) && (a - b) !! (a * b);
    assert a + b == (a - b) + b;
    assert b == (b - a) + (a * b);
    if a != {} || b != {} {
      assert a + b != {};
    }
  }

  /** Similarity is a symmetric fraction, full exactly on equal sets and zero exactly on disjoint
      sets that are not both empty. */
  lemma JaccardLaws(a: set<Hash32>, b: set<Hash32>)
    ensures 0.0 <= Jaccard(a, b) <= 1.0
    ensures Jaccard(a, b) == Jaccard(b, a)
    ensures Jaccard(a, b) == 1.0 <==> a == b
    ensures Jaccard(a, b) == 0.0 <==> a !! b && (a != {} || b != {})
  {
    if a != {} || b != {} {
      UnionSize(a, b);
      assert a * b == b * a;
      assert a * b <= a + b;
      var common, all := |a * b|, |a| + |b| - |a * b|;
      if a != b {
        var x :| (x in a) != (x in b);
        assert x in (a + b) - (a * b);
        assert a + b == (a * b) + ((a + b) - (a * b));
        assert common < all;
      } else {
        assert a * b == a;
      }
      Fraction(common, all);
      assert common == 0 <==> a * b == {};
    }
  }

  lemma Fraction(part: nat, all: nat)
    requires part <= all && all > 0
    ensures 0.0 <= part as real / all as real <= 1.0
    ensures part as real / all as real == 1.0 <==> part == all
    ensures part as real / all as real == 0.0 <==> part == 0
  {
    var q := part as real / all as real;
    assert q * all as real == part as real;
  }
}
