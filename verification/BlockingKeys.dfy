// The blocking keys of a stored map (crates/fp-core/src/fuzzy/mod.rs, canonical.rs): K0 over all
// scalars, K1 and K2 over fixed groups, and one key per MinHash band of the fonts.
module BlockingKeys {
  import opened Basics
  import opened Component
  import opened Canonical
  import MinHash

  function Fonts(m: map<string, Stored>): set<Hash32> {
    if "fonts" in m && m["fonts"].Set? then m["fonts"].items else {}
  }

  function Listed<T>(o: Option<T>): seq<T> {
    if o.Some? then [o.value] else []
  }

  /** The members of the two composite keys. */
  datatype Groups = Groups(k1: seq<string>, k2: seq<string>)

  const GROUPS: Groups := Groups(["webgl", "platform", "timezone"], ["audio", "cpu_cores", "device_memory"])

  /** What keys are derived with. */
  datatype Family = Family(groups: Groups, bands: MinHash.Family)

  /** The byte strings behind a stored map's blocking keys. */
  ghost function KeyStrings(f: Family, m: map<string, Stored>): seq<Bytes> {
    Listed(AllScalarBytes(m)) + Listed(GroupBytes(m, K1, f.groups.k1)) + Listed(GroupBytes(m, K2, f.groups.k2))
    + MinHash.BandStrings(f.bands, Fonts(m))
  }

  ghost function Keys(k: Keying, f: Family, m: map<string, Stored>): seq<Hash32> {
    Digests(k, KeyStrings(f, m))
  }

  function Digests(k: Keying, strings: seq<Bytes>): seq<Hash32> {
    seq(|strings|, i requires 0 <= i < |strings| => k.digest(strings[i]))
  }

  // ---- The K0 string depends on the scalars alone ----

  lemma {:induction false} ConcatSkipsEmpty(s: set<string>, t: set<string>, entry: string -> Bytes)
    requires forall x :: x in s && x !in t ==> entry(x) == []
    ensures Concat(Sorted(s), entry) == Concat(Sorted(s * t), entry)
  {
    if s == {} {
      assert s * t == {};
    } else {
      var x := Least(s);
      ConcatSkipsEmpty(s - {x}, t, entry);
      if x in t {
        SortedHead(s * t, x);
        assert (s - {x}) * t == s * t - {x};
      } else {
        assert (s - {x}) * t == s * t;
      }
    }
  }

  lemma {:induction false} ConcatCongruence(names: seq<string>, g: string -> Bytes, h: string -> Bytes)
    requires forall x :: x in names ==> g(x) == h(x)
    ensures Concat(names, g) == Concat(names, h)
  {
    if names != [] {
      ConcatCongruence(names[1..], g, h);
    }
  }

  lemma {:induction false} ConcatSnoc(names: seq<string>, x: string, g: string -> Bytes)
    ensures Concat(names + [x], g) == Concat(names, g) + g(x)
  {
    if names == [] {
      assert names + [x] == [x];
    } else {
      assert (names + [x])[1..] == names[1..] + [x];
      ConcatSnoc(names[1..], x, g);
    }
  }

  lemma SetEntriesAreEmpty(m: map<string, Stored>, x: string)
    requires x in m && x !in Scalars(m)
    ensures EntryOf(m)(x) == []
  {
  }

  /** The K0 body read from the scalars alone. */
  lemma BodyOfScalars(m: map<string, Stored>)
    ensures Concat(Sorted(m.Keys), EntryOf(m)) == Concat(Sorted(Scalars(m).Keys), EntryOf(Scalars(m)))
  {
    var t := Scalars(m).Keys;
    forall x | x in m.Keys && x !in t ensures EntryOf(m)(x) == [] {
      SetEntriesAreEmpty(m, x);
    }
    ConcatSkipsEmpty(m.Keys, t, EntryOf(m));
    assert m.Keys * t == t;
    forall x | x in Sorted(t) ensures EntryOf(m)(x) == EntryOf(Scalars(m))(x) {
      assert x in t;
    }
    ConcatCongruence(Sorted(t), EntryOf(m), EntryOf(Scalars(m)));
  }

  /** Two maps have the same K0 string exactly when their scalar components agree. */
  lemma AllScalarInjective(m: map<string, Stored>, n: map<string, Stored>)
    requires EncodableMap(m) && EncodableMap(n)
    ensures AllScalarBytes(m) == AllScalarBytes(n) <==> Scalars(m) == Scalars(n)
  {
    if AllScalarBytes(m) == AllScalarBytes(n) && AllScalarBytes(m).Some? {
      AllScalarRoundTrip(m);
      AllScalarRoundTrip(n);
    } else if Scalars(m) == Scalars(n) {
      BodyOfScalars(m);
      BodyOfScalars(n);
    }
  }

  lemma GroupInjective(m: map<string, Stored>, n: map<string, Stored>, namespace: Bytes, members: seq<string>)
    requires EncodableMap(m) && EncodableMap(n)
    ensures GroupBytes(m, namespace, members) == GroupBytes(n, namespace, members) <==>
            Group(m, members) == Group(n, members)
  {
    if Group(m, members).Some? && Group(n, members).Some? {
      GroupRoundTrip(m, namespace, members);
      GroupRoundTrip(n, namespace, members);
    }
  }

  // ---- When two stored maps share a key ----

  /** The digest does not collide on these inputs. */
  ghost predicate CollisionFree(k: Keying, inputs: set<Bytes>) {
    forall x, y :: x in inputs && y in inputs && k.digest(x) == k.digest(y) ==> x == y
  }

  ghost predicate FontsMeet(f: MinHash.Family, a: set<Hash32>, b: set<Hash32>) {
    a != {} && b != {} && exists band: nat :: band < MinHash.BANDS && MinHash.BandShared(f, a, b, band)
  }

  /** What a shared key means for the components. */
  ghost predicate SameIdentity(f: Family, m: map<string, Stored>, n: map<string, Stored>) {
    || (Scalars(m) != map[] && Scalars(m) == Scalars(n))
    || (Group(m, f.groups.k1).Some? && Group(m, f.groups.k1) == Group(n, f.groups.k1))
    || (Group(m, f.groups.k2).Some? && Group(m, f.groups.k2) == Group(n, f.groups.k2))
    || FontsMeet(f.bands, Fonts(m), Fonts(n))
  }

  lemma ScalarTag(m: map<string, Stored>, t: Bytes)
    requires AllScalarBytes(m) == Some(t)
    ensures NamespaceOf(t) == Scalars0
  {
    NamespacesAreDisjoint(Concat(Sorted(m.Keys), EntryOf(m)));
  }

  lemma GroupTag(m: map<string, Stored>, members: seq<string>, t: Bytes)
    ensures GroupBytes(m, K1, members) == Some(t) ==> NamespaceOf(t) == Group1
    ensures GroupBytes(m, K2, members) == Some(t) ==> NamespaceOf(t) == Group2
  {
    var g := Group(m, members);
    if g.Some? { NamespacesAreDisjoint(GroupBody(g.value)); }
  }

  lemma BandTag(f: MinHash.Family, s: set<Hash32>, t: Bytes)
    requires t in MinHash.BandStrings(f, s)
    ensures NamespaceOf(t) == Band
  {
    MinHash.BandStringMember(f, s, t);
    var band: nat :| band < MinHash.BANDS && t == MinHash.BandString(f, s, band);
    BandStringTag(band, MinHash.Signature(f, s)[2 * band], MinHash.Signature(f, s)[2 * band + 1]);
  }

  lemma BandStringTag(band: nat, row0: nat, row1: nat)
    ensures NamespaceOf(BandBytes(band, row0, row1)) == Band
  {
    var body := Word(band) + Word(row0) + Word(row1);
    assert BandBytes(band, row0, row1) == BAND + body;
    NamespacesAreDisjoint(body);
  }

  /** The namespace of a byte string says which component it came from. */
  lemma MemberNamespaces(f: Family, m: map<string, Stored>, t: Bytes)
    requires t in KeyStrings(f, m)
    ensures
      || (NamespaceOf(t) == Scalars0 && AllScalarBytes(m) == Some(t))
      || (NamespaceOf(t) == Group1 && GroupBytes(m, K1, f.groups.k1) == Some(t))
      || (NamespaceOf(t) == Group2 && GroupBytes(m, K2, f.groups.k2) == Some(t))
      || (NamespaceOf(t) == Band && t in MinHash.BandStrings(f.bands, Fonts(m)))
  {
    if AllScalarBytes(m) == Some(t) {
      ScalarTag(m, t);
    } else if GroupBytes(m, K1, f.groups.k1) == Some(t) {
      GroupTag(m, f.groups.k1, t);
    } else if GroupBytes(m, K2, f.groups.k2) == Some(t) {
      GroupTag(m, f.groups.k2, t);
    } else {
      BandTag(f.bands, Fonts(m), t);
    }
  }

  /** Some byte string lies behind keys of both maps exactly when the maps have the same identity. */
  lemma SharedStringMeaning(f: Family, m: map<string, Stored>, n: map<string, Stored>)
    requires EncodableMap(m) && EncodableMap(n) && MinHash.Odd(f.bands)
    requires MinHash.LeadingInjective(Fonts(m) + Fonts(n))
    ensures Meet(KeyStrings(f, m), KeyStrings(f, n)) <==> SameIdentity(f, m, n)
  {
    AllScalarInjective(m, n);
    GroupInjective(m, n, K1, f.groups.k1);
    GroupInjective(m, n, K2, f.groups.k2);
    if Fonts(m) != {} && Fonts(n) != {} {
      MinHash.BandsMeet(f.bands, Fonts(m), Fonts(n));
    }
    if t :| t in KeyStrings(f, m) && t in KeyStrings(f, n) {
      MemberNamespaces(f, m, t);
      MemberNamespaces(f, n, t);
    }
    if SameIdentity(f, m, n) {
      SharedStringExists(f, m, n);
    }
  }

  lemma SharedStringExists(f: Family, m: map<string, Stored>, n: map<string, Stored>)
    requires EncodableMap(m) && EncodableMap(n) && MinHash.Odd(f.bands)
    requires MinHash.LeadingInjective(Fonts(m) + Fonts(n))
    requires SameIdentity(f, m, n)
    ensures Meet(KeyStrings(f, m), KeyStrings(f, n))
  {
    AllScalarInjective(m, n);
    GroupInjective(m, n, K1, f.groups.k1);
    GroupInjective(m, n, K2, f.groups.k2);
    if Scalars(m) != map[] && Scalars(m) == Scalars(n) {
      assert AllScalarBytes(m).value in KeyStrings(f, m);
    } else if Group(m, f.groups.k1).Some? && Group(m, f.groups.k1) == Group(n, f.groups.k1) {
      assert GroupBytes(m, K1, f.groups.k1).value in KeyStrings(f, m);
    } else if Group(m, f.groups.k2).Some? && Group(m, f.groups.k2) == Group(n, f.groups.k2) {
      assert GroupBytes(m, K2, f.groups.k2).value in KeyStrings(f, m);
    } else {
      MinHash.BandsMeet(f.bands, Fonts(m), Fonts(n));
      var t :| t in MinHash.BandStrings(f.bands, Fonts(m)) && t in MinHash.BandStrings(f.bands, Fonts(n));
      assert t in KeyStrings(f, m);
    }
  }

  lemma DigestMember(k: Keying, strings: seq<Bytes>, key: Hash32)
    ensures key in Digests(k, strings) <==> exists t :: t in strings && k.digest(t) == key
  {
    var keys := Digests(k, strings);
    if key in keys {
      var i :| 0 <= i < |keys| && keys[i] == key;
      assert strings[i] in strings;
    }
    if t :| t in strings && k.digest(t) == key {
      var i :| 0 <= i < |strings| && strings[i] == t;
      assert keys[i] == key;
    }
  }

  lemma SharedDigest(k: Keying, s: seq<Bytes>, t: seq<Bytes>)
    requires CollisionFree(k, Elems(s) + Elems(t))
    ensures Meet(Digests(k, s), Digests(k, t)) <==> Meet(s, t)
  {
    if key :| key in Digests(k, s) && key in Digests(k, t) {
      DigestMember(k, s, key);
      DigestMember(k, t, key);
      var x :| x in s && k.digest(x) == key;
      var y :| y in t && k.digest(y) == key;
      assert x in Elems(s) && y in Elems(t);
      assert x == y;
    }
    if x :| x in s && x in t {
      DigestMember(k, s, k.digest(x));
      DigestMember(k, t, k.digest(x));
    }
  }

  /** Two observations share a blocking key exactly when all their scalars agree, or a whole key
      group agrees, or some band has both row minimisers among the common fonts. */
  lemma SharedKeyMeaning(k: Keying, f: Family, m: map<string, Stored>, n: map<string, Stored>)
    requires EncodableMap(m) && EncodableMap(n) && MinHash.Odd(f.bands)
    requires MinHash.LeadingInjective(Fonts(m) + Fonts(n))
    requires CollisionFree(k, Elems(KeyStrings(f, m)) + Elems(KeyStrings(f, n)))
    ensures Meet(Keys(k, f, m), Keys(k, f, n)) <==> SameIdentity(f, m, n)
  {
    SharedStringMeaning(f, m, n);
    SharedDigest(k, KeyStrings(f, m), KeyStrings(f, n));
  }

  // ---- The catch-all key ----

  /** The K0 key of a map with scalars. */
  ghost function ScalarKey(k: Keying, m: map<string, Stored>): Hash32
    requires Scalars(m) != map[]
  {
    k.digest(AllScalarBytes(m).value)
  }

  lemma ScalarKeyOwn(k: Keying, f: Family, m: map<string, Stored>)
    requires Scalars(m) != map[]
    ensures ScalarKey(k, m) in Keys(k, f, m)
  {
    assert AllScalarBytes(m).value in KeyStrings(f, m);
    DigestMember(k, KeyStrings(f, m), ScalarKey(k, m));
  }

  lemma ScalarStringMeaning(f: Family, m: map<string, Stored>, n: map<string, Stored>)
    requires EncodableMap(m) && EncodableMap(n) && Scalars(n) != map[]
    ensures AllScalarBytes(n).value in KeyStrings(f, m) <==> Scalars(m) == Scalars(n)
  {
    var t := AllScalarBytes(n).value;
    AllScalarInjective(m, n);
    ScalarTag(n, t);
    if t in KeyStrings(f, m) {
      MemberNamespaces(f, m, t);
    }
    if Scalars(m) == Scalars(n) {
      assert AllScalarBytes(m) == Some(t);
    }
  }

  /** It is among the keys of exactly the maps with the same scalars. */
  lemma ScalarKeyMeaning(k: Keying, f: Family, m: map<string, Stored>, n: map<string, Stored>)
    requires EncodableMap(m) && EncodableMap(n) && Scalars(n) != map[]
    requires CollisionFree(k, Elems(KeyStrings(f, m)) + Elems(KeyStrings(f, n)))
    ensures ScalarKey(k, n) in Keys(k, f, m) <==> Scalars(m) == Scalars(n)
  {
    var t := AllScalarBytes(n).value;
    ScalarStringMeaning(f, m, n);
    DigestMember(k, KeyStrings(f, m), ScalarKey(k, n));
    assert t in KeyStrings(f, n);
    if x :| x in KeyStrings(f, m) && k.digest(x) == k.digest(t) {
      assert x in Elems(KeyStrings(f, m)) && t in Elems(KeyStrings(f, n));
    }
  }

  // ---- The two groups, by name ----

  predicate HoldsScalar(m: map<string, Stored>, name: string) {
    name in m && !m[name].Set?
  }

  predicate HasDisplay(m: map<string, Stored>) {
    HoldsScalar(m, "webgl") && HoldsScalar(m, "platform") && HoldsScalar(m, "timezone")
  }

  predicate HasHardware(m: map<string, Stored>) {
    HoldsScalar(m, "audio") && HoldsScalar(m, "cpu_cores") && HoldsScalar(m, "device_memory")
  }

  predicate SameDisplay(m: map<string, Stored>, n: map<string, Stored>) {
    && HasDisplay(m) && HasDisplay(n)
    && m["webgl"] == n["webgl"] && m["platform"] == n["platform"] && m["timezone"] == n["timezone"]
  }

  predicate SameHardware(m: map<string, Stored>, n: map<string, Stored>) {
    && HasHardware(m) && HasHardware(n)
    && m["audio"] == n["audio"] && m["cpu_cores"] == n["cpu_cores"] && m["device_memory"] == n["device_memory"]
  }

  /** The K1 key of a map that holds the display components. */
  ghost function DisplayKey(k: Keying, m: map<string, Stored>): Hash32
    requires HasDisplay(m)
  {
    k.digest(K1 + GroupBody([m["webgl"], m["platform"], m["timezone"]]))
  }

  /** The K2 key of a map that holds the hardware components. */
  ghost function HardwareKey(k: Keying, m: map<string, Stored>): Hash32
    requires HasHardware(m)
  {
    k.digest(K2 + GroupBody([m["audio"], m["cpu_cores"], m["device_memory"]]))
  }

  lemma GroupHead(m: map<string, Stored>, x: string, rest: seq<string>)
    ensures Group(m, [x] + rest) ==
      if HoldsScalar(m, x) && Group(m, rest).Some? then Some([m[x]] + Group(m, rest).value) else None
  {
    assert ([x] + rest)[1..] == rest;
  }

  lemma Three<T>(a: T, b: T, c: T)
    ensures [c] + [] == [c] && [b] + [c] == [b, c] && [a] + [b, c] == [a, b, c]
  {
  }

  lemma GroupOfThree(m: map<string, Stored>, a: string, b: string, c: string)
    ensures Group(m, [a, b, c]) ==
      if HoldsScalar(m, a) && HoldsScalar(m, b) && HoldsScalar(m, c) then Some([m[a], m[b], m[c]]) else None
  {
    Three(a, b, c);
    assert Group(m, []) == Some([]);
    GroupHead(m, c, []);
    GroupHead(m, b, [c]);
    GroupHead(m, a, [b, c]);
    if HoldsScalar(m, a) && HoldsScalar(m, b) && HoldsScalar(m, c) {
      Three(m[a], m[b], m[c]);
    }
  }

  lemma NamedGroups(m: map<string, Stored>)
    ensures Group(m, GROUPS.k1) == if HasDisplay(m) then Some([m["webgl"], m["platform"], m["timezone"]]) else None
    ensures Group(m, GROUPS.k2) == if HasHardware(m) then Some([m["audio"], m["cpu_cores"], m["device_memory"]])
      else None
  {
    GroupOfThree(m, "webgl", "platform", "timezone");
    GroupOfThree(m, "audio", "cpu_cores", "device_memory");
  }

  lemma SameThree<T>(a: T, b: T, c: T, x: T, y: T, z: T)
    ensures [a, b, c] == [x, y, z] <==> a == x && b == y && c == z
  {
    if [a, b, c] == [x, y, z] {
      assert [a, b, c][0] == x && [a, b, c][1] == y && [a, b, c][2] == z;
    }
  }

  /** The shipped groups give a map these two keys, as soon as it holds their components. */
  lemma NamedKeys(k: Keying, f: Family, m: map<string, Stored>)
    requires f.groups == GROUPS
    ensures HasDisplay(m) ==> DisplayKey(k, m) in Keys(k, f, m)
    ensures HasHardware(m) ==> HardwareKey(k, m) in Keys(k, f, m)
  {
    NamedGroups(m);
    DigestMemberOf(k, KeyStrings(f, m));
    if HasDisplay(m) { assert GroupBytes(m, K1, f.groups.k1).value in KeyStrings(f, m); }
    if HasHardware(m) { assert GroupBytes(m, K2, f.groups.k2).value in KeyStrings(f, m); }
  }

  lemma DigestMemberOf(k: Keying, strings: seq<Bytes>)
    ensures forall t :: t in strings ==> k.digest(t) in Digests(k, strings)
  {
    forall t | t in strings ensures k.digest(t) in Digests(k, strings) {
      DigestMember(k, strings, k.digest(t));
    }
  }

  lemma SameGroupsByName(m: map<string, Stored>, n: map<string, Stored>)
    ensures Group(m, GROUPS.k1).Some? && Group(m, GROUPS.k1) == Group(n, GROUPS.k1) <==> SameDisplay(m, n)
    ensures Group(m, GROUPS.k2).Some? && Group(m, GROUPS.k2) == Group(n, GROUPS.k2) <==> SameHardware(m, n)
  {
    NamedGroups(m);
    NamedGroups(n);
    if HasDisplay(m) && HasDisplay(n) {
      SameThree(m["webgl"], m["platform"], m["timezone"], n["webgl"], n["platform"], n["timezone"]);
    }
    if HasHardware(m) && HasHardware(n) {
      SameThree(m["audio"], m["cpu_cores"], m["device_memory"], n["audio"], n["cpu_cores"], n["device_memory"]);
    }
  }

  /** Under the shipped groups two maps share a key exactly if they agree in webgl, platform and timezone, in audio,
      cpu_cores and device_memory, in all their scalars, or in a band of their fonts. */
  lemma SharedKeyByName(k: Keying, f: Family, m: map<string, Stored>, n: map<string, Stored>)
    requires f.groups == GROUPS && EncodableMap(m) && EncodableMap(n) && MinHash.Odd(f.bands)
    requires MinHash.LeadingInjective(Fonts(m) + Fonts(n))
    requires CollisionFree(k, Elems(KeyStrings(f, m)) + Elems(KeyStrings(f, n)))
    ensures Meet(Keys(k, f, m), Keys(k, f, n)) <==>
      || SameDisplay(m, n) || SameHardware(m, n) || (Scalars(m) != map[] && Scalars(m) == Scalars(n))
      || FontsMeet(f.bands, Fonts(m), Fonts(n))
  {
    SharedKeyMeaning(k, f, m, n);
    SameGroupsByName(m, n);
  }

  // ---- The loops of the source ----

  lemma AbsentMember(m: map<string, Stored>, members: seq<string>, i: nat)
    requires i < |members| && members[i] !in m
    ensures Group(m, members).None?
  {
    if i > 0 {
      AbsentMember(m, members[1..], i - 1);
    }
  }

  /** An observation overlays a group it carries whole. */
  lemma {:induction false} GroupOverlay(t: map<string, Stored>, last: map<string, Stored>, members: seq<string>)
    ensures Group(last, members).Some? ==> Group(t + last, members) == Group(last, members)
  {
    if members != [] {
      GroupOverlay(t, last, members[1..]);
    }
  }

  /** What lets a template drifted by `last` keep a key of that observation: a whole group, fonts, or all
      the scalars of the template. */
  ghost predicate KeepsKey(f: Family, t: map<string, Stored>, last: map<string, Stored>) {
    || Group(last, f.groups.k1).Some?
    || Group(last, f.groups.k2).Some?
    || Fonts(last) != {}
    || (Scalars(last) != map[] && Scalars(t).Keys <= last.Keys)
  }

  lemma OverlaidScalars(t: map<string, Stored>, last: map<string, Stored>)
    ensures Scalars(t + last) == Scalars(last) <==> Scalars(t).Keys <= last.Keys
    ensures Scalars(last) != map[] ==> Scalars(t + last) != map[]
  {
    if Scalars(t + last) == Scalars(last) {
      forall n | n in Scalars(t) ensures n in last {
        assert n in Scalars(t + last) || n in last;
      }
    }
    if n :| n in Scalars(last) {
      assert n in Scalars(t + last);
    }
  }

  lemma DriftedIdentity(f: Family, t: map<string, Stored>, last: map<string, Stored>)
    requires MinHash.Odd(f.bands) && MinHash.LeadingInjective(Fonts(last))
    ensures SameIdentity(f, t + last, last) <==> KeepsKey(f, t, last)
  {
    GroupOverlay(t, last, f.groups.k1);
    GroupOverlay(t, last, f.groups.k2);
    OverlaidScalars(t, last);
    if Fonts(last) != {} {
      assert Fonts(t + last) == Fonts(last);
      assert Fonts(last) + Fonts(last) == Fonts(last);
      MinHash.BandExtremes(f.bands, Fonts(last), Fonts(last));
      assert MinHash.BandShared(f.bands, Fonts(last), Fonts(last), 0);
    }
  }

  /** Keys come from single observations, not from the merged template: a template shares a key with the
      observation that last drifted it exactly when that observation carried a whole group or fonts, or
      named every scalar the template had. */
  lemma DriftedSharesKey(k: Keying, f: Family, t: map<string, Stored>, last: map<string, Stored>)
    requires EncodableMap(t) && EncodableMap(last) && MinHash.Odd(f.bands)
    requires MinHash.LeadingInjective(Fonts(t + last) + Fonts(last))
    requires CollisionFree(k, Elems(KeyStrings(f, t + last)) + Elems(KeyStrings(f, last)))
    ensures Meet(Keys(k, f, t + last), Keys(k, f, last)) <==> KeepsKey(f, t, last)
  {
    SharedKeyMeaning(k, f, t + last, last);
    DriftedIdentity(f, t, last);
  }

  /** No whole group. */
  predicate Sparse(m: map<string, Stored>) {
    "platform" !in m && "cpu_cores" !in m
  }

  /** Maps without whole groups, one without fonts, have the same identity only with the same scalars. */
  lemma SparseIdentity(f: Family, m: map<string, Stored>, n: map<string, Stored>)
    requires f.groups == GROUPS && Sparse(m) && Fonts(n) == {}
    ensures SameIdentity(f, m, n) ==> Scalars(m) == Scalars(n)
  {
    AbsentMember(m, GROUPS.k1, 1);
    AbsentMember(m, GROUPS.k2, 1);
  }

  ghost predicate HasScalar(names: seq<string>, m: map<string, Stored>) {
    exists name :: name in names && name in m && !m[name].Set?
  }

  lemma HasScalarSnoc(names: seq<string>, x: string, m: map<string, Stored>)
    requires x in m
    ensures HasScalar(names + [x], m) <==> HasScalar(names, m) || !m[x].Set?
  {
    assert x in names + [x];
    if HasScalar(names, m) {
      var y :| y in names && y in m && !m[y].Set?;
      assert y in names + [x];
    }
  }

  lemma HasScalarAll(names: seq<string>, m: map<string, Stored>)
    requires forall x :: x in names <==> x in m
    ensures HasScalar(names, m) <==> Scalars(m) != map[]
  {
    if HasScalar(names, m) {
      var y :| y in names && y in m && !m[y].Set?;
      assert y in Scalars(m);
    }
    if Scalars(m) != map[] {
      var y :| y in Scalars(m);
      assert y in names;
    }
  }

  /** Feed one byte string per name to the hasher, in order. */
  method Feed(names: seq<string>, entry: string -> Bytes) returns (fed: Bytes)
    ensures fed == Concat(names, entry)
  {
    fed := [];
    for i := 0 to |names|
      invariant fed == Concat(names[..i], entry)
    {
      assert names[..i + 1] == names[..i] + [names[i]];
      ConcatSnoc(names[..i], names[i], entry);
      fed := fed + entry(names[i]);
    }
    assert names[..|names|] == names;
  }

  method AnyScalar(names: seq<string>, m: map<string, Stored>) returns (any: bool)
    requires forall x :: x in names ==> x in m
    ensures any <==> HasScalar(names, m)
  {
    any := false;
    for i := 0 to |names|
      invariant any <==> HasScalar(names[..i], m)
    {
      assert names[..i + 1] == names[..i] + [names[i]];
      HasScalarSnoc(names[..i], names[i], m);
      any := any || !m[names[i]].Set?;
    }
    assert names[..|names|] == names;
  }

  /** Every scalar, in name order, digested after its namespace; nothing when there is none. */
  method AllScalarKey(k: Keying, m: map<string, Stored>) returns (key: Option<Hash32>)
    ensures Listed(key) == Digests(k, Listed(AllScalarBytes(m)))
  {
    var names := Sorted(m.Keys);
    var fed := Feed(names, EntryOf(m));
    var any := AnyScalar(names, m);
    HasScalarAll(names, m);
    key := if any then Some(k.digest(K0 + fed)) else None;
  }

  /** The first member's field, then the others'. */
  lemma GroupFront(m: map<string, Stored>, members: seq<string>, fed: Bytes)
    requires members != []
    ensures var x := members[0];
      if x !in m || m[x].Set? then Group(m, members).None?
      else
        && (Group(m, members).None? <==> Group(m, members[1..]).None?)
        && (Group(m, members).Some? ==>
              fed + GroupBody(Group(m, members).value) ==
              (fed + Field(ScalarBytes(m[x]).value)) + GroupBody(Group(m, members[1..]).value))
  {
    if Group(m, members).Some? {
      assert Group(m, members).value[1..] == Group(m, members[1..]).value;
    }
  }

  /** Feed a group of members to the hasher, giving up at an absent or set member. */
  method GroupKey(k: Keying, m: map<string, Stored>, namespace: Bytes, members: seq<string>)
    returns (key: Option<Hash32>)
    ensures Listed(key) == Digests(k, Listed(GroupBytes(m, namespace, members)))
  {
    var fed := namespace;
    var i := 0;
    while i < |members|
      invariant 0 <= i <= |members|
      invariant Group(m, members).None? <==> Group(m, members[i..]).None?
      invariant Group(m, members).Some? ==>
        fed + GroupBody(Group(m, members[i..]).value) == namespace + GroupBody(Group(m, members).value)
    {
      assert members[i..][1..] == members[i + 1..];
      GroupFront(m, members[i..], fed);
      if members[i] !in m {
        return None;
      }
      var value := m[members[i]];
      if value.Set? {
        return None;
      }
      fed := fed + Field(ScalarBytes(value).value);
      i := i + 1;
    }
    assert members[i..] == [];
    assert fed + [] == fed;
    key := Some(k.digest(fed));
  }

  lemma DigestsOfSum(k: Keying, s: seq<Bytes>, t: seq<Bytes>)
    ensures Digests(k, s + t) == Digests(k, s) + Digests(k, t)
  {
  }

  /** All blocking keys of a stored map. */
  method ComputeKeys(k: Keying, groups: Groups, lsh: MinHash.MinHashLsh, m: map<string, Stored>)
    returns (keys: seq<Hash32>)
    ensures keys == Keys(k, Family(groups, lsh.coefficients), m)
  {
    var key0 := AllScalarKey(k, m);
    var key1 := GroupKey(k, m, K1, groups.k1);
    var key2 := GroupKey(k, m, K2, groups.k2);
    var strings := lsh.ComputeBandStrings(Fonts(m));
    ghost var s0, s1, s2 :=
      Listed(AllScalarBytes(m)), Listed(GroupBytes(m, K1, groups.k1)), Listed(GroupBytes(m, K2, groups.k2));
    DigestsOfSum(k, s0, s1);
    DigestsOfSum(k, s0 + s1, s2);
    DigestsOfSum(k, s0 + s1 + s2, strings);
    keys := Listed(key0) + Listed(key1) + Listed(key2) + Digests(k, strings);
  }
}
