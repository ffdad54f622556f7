// Runs that show where claims about the store fail (crates/fp-core/src/fuzzy/mod.rs, engine.rs): a
// stale entry of an id minted again turns a new device into a match; stale entries that fill a block
// turn a match into a new device; and a probe equal to a drifted template is not recalled.
module Counterexamples {
  import opened Basics
  import opened Component
  import opened Canonical
  import opened Scoring
  import opened Engine
  import opened BlockingKeys
  import opened Purging
  import opened Scenarios
  import MinHash
  import Templates
  import B = Blocking
  import Edge = VelocityObject
  import V = Velocity

  /** A store's surroundings, a device `e`, one component more than it has, and a font. */
  datatype World = World(env: Env, pol: Policy, e: Raw, name: string, value: string, font: string) {
    ghost function Palette(): set<Hash32>
      requires Device(env.keying, e)
    {
      (set n | n in e :: Hashed(env.keying, e, n)) + {env.keying.salted(value)}
    }

    /** The shipped groups and an odd permutation family; a base-two logarithm; the new component is not
        one of the device's and its value hashes differently; the tables have room. */
    ghost predicate Ready() {
      && Logarithm(env.analytic) && env.family.groups == GROUPS && MinHash.Odd(env.family.bands)
      && Device(env.keying, e) && PlainName(name) && name !in e
      && (forall n :: n in e ==> Hashed(env.keying, e, n) != env.keying.salted(value))
      && RoomFor(pol, Palette()) && pol.maxBlock >= 1
    }

    // The stored forms: bare, with fonts, with empty fonts, with the further component.

    function Bare(): Stores {
      StoredEntries(env.keying, e)
    }

    function Fonted(m: Stores): Stores {
      m["fonts" := Set({env.keying.salted(font)})]
    }

    function Unfonted(m: Stores): Stores {
      m["fonts" := Set({})]
    }

    function Extended(m: Stores): Stores {
      m[name := Category(env.keying.salted(value))]
    }

    // The observations behind them.

    function RawFonted(c: Raw): Raw {
      c["fonts" := Arr([Str(font)])]
    }

    function RawUnfonted(c: Raw): Raw {
      c["fonts" := Arr([])]
    }

    function RawExtended(c: Raw): Raw {
      c[name := Str(value)]
    }

    lemma Forms(c: Raw)
      requires PlainName(name)
      ensures StoredEntries(env.keying, RawFonted(c)) == Fonted(StoredEntries(env.keying, c))
      ensures StoredEntries(env.keying, RawUnfonted(c)) == Unfonted(StoredEntries(env.keying, c))
      ensures StoredEntries(env.keying, RawExtended(c)) == Extended(StoredEntries(env.keying, c))
    {
      WithFonts(env.keying, c, [Str(font)]);
      WithFonts(env.keying, c, []);
      WithScalar(env.keying, c, name, value);
      FewFonts(env.keying, font);
    }
  }

  lemma FewFonts(k: Keying, font: string)
    ensures HashSet(k, []) == {} && HashSet(k, [Str(font)]) == {k.salted(font)}
  {
    var items := [Str(font)];
    assert 0 < |items| && items[0].Str? && k.salted(items[0].s) in HashSet(k, items);
  }

  // ---- Keys in common ----

  /** Plain categories, with no fonts but this one. */
  ghost predicate Tame(w: World, m: Stores) {
    && (forall n :: n in m ==> if n == "fonts" then m[n].Set? else PlainName(n) && m[n].Category?)
    && Fonts(m) <= {w.env.keying.salted(w.font)}
  }

  lemma TameFacts(w: World, m: Stores)
    requires Tame(w, m)
    ensures EncodableMap(m) && Sparse(m)
  {
    assert Classify("platform").stability == High && Classify("cpu_cores").stability == High;
  }

  /** Digests tell the key strings of these maps apart. */
  ghost predicate Apart(w: World, m: Stores, n: Stores) {
    CollisionFree(w.env.keying, Elems(KeyStrings(w.env.family, m)) + Elems(KeyStrings(w.env.family, n)))
  }

  lemma OneFontLeads(h: Hash32, a: set<Hash32>, b: set<Hash32>)
    requires a <= {h} && b <= {h}
    ensures MinHash.LeadingInjective(a + b)
  {
  }

  lemma KeysMean(env: Env, m: Stores, n: Stores)
    requires EncodableMap(m) && EncodableMap(n) && MinHash.Odd(env.family.bands)
    requires MinHash.LeadingInjective(Fonts(m) + Fonts(n))
    ensures CollisionFree(env.keying, Elems(KeyStrings(env.family, m)) + Elems(KeyStrings(env.family, n))) ==>
      (Meet(KeysOf(env, m), KeysOf(env, n)) <==> SameIdentity(env.family, m, n))
  {
    if CollisionFree(env.keying, Elems(KeyStrings(env.family, m)) + Elems(KeyStrings(env.family, n))) {
      SharedKeyMeaning(env.keying, env.family, m, n);
    }
  }

  lemma TameKeys(w: World, m: Stores, n: Stores)
    requires w.Ready() && Tame(w, m) && Tame(w, n)
    ensures Apart(w, m, n) ==> (Meet(KeysOf(w.env, m), KeysOf(w.env, n)) <==> SameIdentity(w.env.family, m, n))
  {
    TameFacts(w, m);
    TameFacts(w, n);
    OneFontLeads(w.env.keying.salted(w.font), Fonts(m), Fonts(n));
    KeysMean(w.env, m, n);
  }

  lemma SameScalarsMeet(w: World, m: Stores, n: Stores)
    requires w.Ready() && Tame(w, m) && Tame(w, n) && Apart(w, m, n)
    requires Scalars(m) == Scalars(n) && Scalars(m) != map[]
    ensures Meet(KeysOf(w.env, m), KeysOf(w.env, n))
  {
    TameKeys(w, m, n);
  }

  lemma SameFontsMeet(w: World, m: Stores, n: Stores)
    requires w.Ready() && Tame(w, m) && Tame(w, n) && Apart(w, m, n)
    requires Fonts(m) == Fonts(n) && Fonts(m) != {}
    ensures Meet(KeysOf(w.env, m), KeysOf(w.env, n))
  {
    TameKeys(w, m, n);
    assert Fonts(m) + Fonts(m) == Fonts(m);
    MinHash.BandExtremes(w.env.family.bands, Fonts(m), Fonts(m));
    assert MinHash.BandShared(w.env.family.bands, Fonts(m), Fonts(n), 0);
  }

  lemma OtherScalarsPart(w: World, m: Stores, n: Stores)
    requires w.Ready() && Tame(w, m) && Tame(w, n) && Apart(w, m, n)
    requires Scalars(m) != Scalars(n) && Fonts(n) == {}
    ensures !Meet(KeysOf(w.env, m), KeysOf(w.env, n))
  {
    TameKeys(w, m, n);
    TameFacts(w, m);
    SparseIdentity(w.env.family, m, n);
  }

  // ---- The observations ----

  lemma BareKeys(w: World)
    requires w.Ready()
    ensures w.Bare().Keys == w.e.Keys && |w.Bare()| >= 9
    ensures "fonts" !in w.Bare() && w.name !in w.Bare() && w.name != "fonts"
  {
    DeviceStored(w.env.keying, w.e);
    NoFontsInDevice(w.env.keying, w.e);
    SizeOf(w.e);
    SizeOf(w.Bare());
    assert Classify("fonts").kind == SetKind;
  }

  lemma BareScalars(w: World)
    requires w.Ready()
    ensures Scalars(w.Bare()) == w.Bare()
  {
    DeviceStored(w.env.keying, w.e);
  }

  lemma BareVariant(w: World)
    requires w.Ready()
    ensures Variant(w.env.keying, w.e, w.Palette(), w.Bare()) && Tame(w, w.Bare())
    ensures Scalars(w.Bare()) == w.Bare() && w.Bare().Keys == w.e.Keys
    ensures "fonts" !in w.Bare() && w.name !in w.Bare() && w.name != "fonts"
  {
    BareKeys(w);
    BareScalars(w);
    DeviceStored(w.env.keying, w.e);
  }

  lemma NoSets(m: Stores)
    requires forall n :: n in m ==> !m[n].Set?
    ensures Scalars(m) == m
  {
  }

  lemma ScalarsWithSet(m: Stores, name: string, items: set<Hash32>)
    requires name !in m && forall n :: n in m ==> !m[n].Set?
    ensures Scalars(m[name := Set(items)]) == m
  {
  }

  lemma StillVariant(k: Keying, e: Raw, palette: set<Hash32>, m: Stores, items: set<Hash32>, n: Stores)
    requires Device(k, e) && Variant(k, e, palette, m) && "fonts" !in m && "fonts" !in e
    requires n == m["fonts" := Set(items)] && Scalars(n) == Scalars(m)
    ensures Variant(k, e, palette, n)
  {
  }

  lemma SetVariant(w: World, m: Stores, items: set<Hash32>)
    requires w.Ready() && Variant(w.env.keying, w.e, w.Palette(), m) && "fonts" !in m
    ensures Scalars(m["fonts" := Set(items)]) == m == Scalars(m)
    ensures Variant(w.env.keying, w.e, w.Palette(), m["fonts" := Set(items)])
  {
    NoFontsInDevice(w.env.keying, w.e);
    NoSets(m);
    ScalarsWithSet(m, "fonts", items);
    StillVariant(w.env.keying, w.e, w.Palette(), m, items, m["fonts" := Set(items)]);
  }

  lemma SetTame(w: World, m: Stores, items: set<Hash32>)
    requires Tame(w, m) && items <= {w.env.keying.salted(w.font)}
    ensures Tame(w, m["fonts" := Set(items)]) && Fonts(m["fonts" := Set(items)]) == items
  {
  }

  /** Fonts or none on top of a variant without any. */
  lemma FontsVariant(w: World, m: Stores)
    requires w.Ready() && Variant(w.env.keying, w.e, w.Palette(), m) && Tame(w, m) && "fonts" !in m
    ensures Variant(w.env.keying, w.e, w.Palette(), w.Fonted(m)) && Tame(w, w.Fonted(m))
    ensures Variant(w.env.keying, w.e, w.Palette(), w.Unfonted(m)) && Tame(w, w.Unfonted(m))
    ensures Scalars(w.Fonted(m)) == Scalars(m) && Scalars(w.Unfonted(m)) == Scalars(m) && Scalars(m) == m
    ensures Fonts(w.Fonted(m)) == {w.env.keying.salted(w.font)} && Fonts(w.Unfonted(m)) == {}
  {
    SetVariant(w, m, {w.env.keying.salted(w.font)});
    SetVariant(w, m, {});
    SetTame(w, m, {w.env.keying.salted(w.font)});
    SetTame(w, m, {});
  }

  lemma ExtendedSize(w: World, out: set<string>)
    requires w.Ready() && |out| <= 1
    ensures |w.Extended(w.Bare() - out)| >= 9
  {
    var m := w.Extended(w.Bare() - out);
    DeviceStored(w.env.keying, w.e);
    SizeOf(m);
    SizeOf(w.e);
    LeavesMost(w.e.Keys, out);
    assert m.Keys == (w.e.Keys - out) + {w.name};
  }

  lemma ExtendedTame(w: World, out: set<string>)
    requires w.Ready()
    ensures var m := w.Extended(w.Bare() - out);
      Tame(w, m) && "fonts" !in m && Scalars(m) == m
  {
    BareKeys(w);
    DeviceStored(w.env.keying, w.e);
    NoSets(w.Extended(w.Bare() - out));
  }

  /** The further component, with one of the device's left out or none. */
  lemma ExtendedVariant(w: World, out: set<string>)
    requires w.Ready() && |out| <= 1
    ensures var m := w.Extended(w.Bare() - out);
      Variant(w.env.keying, w.e, w.Palette(), m) && Tame(w, m) && "fonts" !in m && Scalars(m) == m
  {
    ExtendedSize(w, out);
    ExtendedTame(w, out);
    ExtendedValues(w, out);
  }

  /** Its values are the device's and the further one, all different. */
  lemma ExtendedValues(w: World, out: set<string>)
    requires w.Ready()
    ensures var m := w.Extended(w.Bare() - out);
      && (forall n :: n in m ==> n != "fonts" && PlainName(n) && m[n].Category? && m[n].hash in w.Palette())
      && (forall a, b :: a in m && b in m && m[a] == m[b] ==> a == b)
      && (forall n :: n in m && n in w.e ==> m[n] == Category(Hashed(w.env.keying, w.e, n)))
  {
    DeviceStored(w.env.keying, w.e);
    BareKeys(w);
  }

  lemma LeavesMost(keys: set<string>, out: set<string>)
    requires |out| <= 1
    ensures |keys - out| >= |keys| - 1
  {
    SubsetSize(keys * out, out);
    assert keys == (keys - out) + (keys * out);
  }

  // ---- Runs of the device ----

  lemma EmptyKnowsNobody(w: World, v: string)
    requires w.Ready()
    ensures OnlyFiled(w.env, EMPTY.index, v, []) && Kept(w.env.keying, w.e, w.Palette(), 0, EMPTY.freq, EMPTY.agree)
  {
  }

  lemma NobodyShares(env: Env, m: Stores)
    ensures !Shares(env, [], m)
  {
  }

  /** The device is seen first. */
  lemma FirstSeen(w: World, v: string, l: Label, t: Store)
    requires w.Ready() && v == w.env.deriveId(Obj(w.e))
    requires l == Sighting(w.e, 0, [], v) && t == Next(w.env, w.pol, EMPTY, l)
    ensures Mints(w.env, w.pol, EMPTY, l, v)
    ensures Knows(w.env, t, v, w.Bare(), 0, [w.Bare()]) && Warm(w.env, w.e, w.Palette(), 0, t)
  {
    BareVariant(w);
    EmptyKnowsNobody(w, v);
    RecallsOnly(w.env, EMPTY, v, [], w.Bare());
    NobodyShares(w.env, w.Bare());
    MintStep(w.env, w.pol, w.e, w.Palette(), 0, EMPTY, w.e, w.Bare(), 0, []);
    FiledMore(w.env, EMPTY.index, w.pol.maxBlock, v, [], w.Bare());
    Appended(w.Bare(), w.Bare(), w.Bare(), w.Bare());
  }

  lemma SharesFirst(env: Env, ms: seq<Stores>, m': Stores, m: Stores)
    requires m' in ms && Meet(KeysOf(env, m'), KeysOf(env, m))
    ensures Shares(env, ms, m)
  {
  }

  lemma FontedRecognised(w: World)
    requires w.Ready() && Apart(w, w.Bare(), w.Fonted(w.Bare()))
    ensures Recognised(w.env, w.e, w.Palette(), w.Bare(), [w.Bare()], w.Fonted(w.Bare()))
  {
    var m0, m1 := w.Bare(), w.Fonted(w.Bare());
    BareVariant(w);
    BareKeys(w);
    FontsVariant(w, m0);
    SameScalarsMeet(w, m0, m1);
    SharesFirst(w.env, [m0], m0, m1);
    CommonWithBare(w, m1);
  }

  lemma Overlays(m: Stores, n: Stores)
    requires m.Keys <= n.Keys
    ensures m + n == n
  {
  }

  /** Then with fonts: it matches by its scalars. */
  lemma SeenWithFonts(w: World, s: Store, v: string, l: Label, t: Store)
    requires w.Ready() && Apart(w, w.Bare(), w.Fonted(w.Bare()))
    requires Knows(w.env, s, v, w.Bare(), 0, [w.Bare()]) && Warm(w.env, w.e, w.Palette(), 0, s)
    requires l == Sighting(w.RawFonted(w.e), 0, [v], v) && t == Next(w.env, w.pol, s, l)
    ensures Matches(w.env, w.pol, s, l, v)
    ensures Knows(w.env, t, v, w.Fonted(w.Bare()), 0, [w.Bare(), w.Fonted(w.Bare())])
    ensures Warm(w.env, w.e, w.Palette(), 1, t)
  {
    var m0, m1 := w.Bare(), w.Fonted(w.Bare());
    LogarithmPowers(w.env.analytic);
    w.Forms(w.e);
    FontedRecognised(w);
    MatchStep(w.env, w.pol, w.e, w.Palette(), 0, s, v, m0, 0, [m0], w.RawFonted(w.e), m1, 0);
    Appended(m0, m1, m0, m1);
    Overlays(m0, m1);
  }

  /** A map that names the whole device has all of it in common with the bare template. */
  lemma CommonWithBare(w: World, m: Stores)
    requires w.Ready() && w.e.Keys <= m.Keys
    ensures Comparable(w.e, m, w.Bare())
  {
    BareVariant(w);
    assert m.Keys * w.Bare().Keys == w.e.Keys;
    assert m.Keys * w.Bare().Keys * w.e.Keys == w.e.Keys;
    SizeOf(w.e);
  }

  // ---- A template that drifted away from its keys ----

  /** The device without `x` but with the further component, and fonts. */
  function OtherPart(w: World, x: string): Raw {
    w.RawFonted(w.RawExtended(w.e - {x}))
  }

  function OtherStored(w: World, x: string): Stores {
    w.Fonted(w.Extended(w.Bare() - {x}))
  }

  lemma OtherForms(w: World, x: string)
    requires w.Ready()
    ensures StoredEntries(w.env.keying, OtherPart(w, x)) == OtherStored(w, x)
    ensures Variant(w.env.keying, w.e, w.Palette(), OtherStored(w, x)) && Tame(w, OtherStored(w, x))
    ensures Scalars(OtherStored(w, x)) == w.Extended(w.Bare() - {x})
    ensures Fonts(OtherStored(w, x)) == {w.env.keying.salted(w.font)}
  {
    WithoutScalar(w.env.keying, w.e, x);
    w.Forms(w.e - {x});
    w.Forms(w.RawExtended(w.e - {x}));
    ExtendedVariant(w, {x});
    FontsVariant(w, w.Extended(w.Bare() - {x}));
  }

  lemma CommonKeys(keys: set<string>, x: string, name: string, fonts: string)
    requires name !in keys && fonts !in keys && name != fonts
    ensures (((keys - {x}) + {name}) + {fonts}) * (keys + {fonts}) == (keys - {x}) + {fonts}
    ensures ((keys - {x}) + {fonts}) * keys == keys - {x}
  {
  }

  lemma KeysOfParts(m: Stores, x: string, name: string, fonts: string, h: Stored, f: Stored)
    ensures (m - {x})[name := h][fonts := f].Keys == ((m.Keys - {x}) + {name}) + {fonts}
    ensures m[fonts := f].Keys == m.Keys + {fonts} && m[name := h][fonts := f].Keys == (m.Keys + {name}) + {fonts}
  {
  }

  lemma CommonWithFonts(w: World, x: string)
    requires w.Ready()
    ensures Comparable(w.e, OtherStored(w, x), w.Fonted(w.Bare()))
  {
    BareKeys(w);
    CommonKeys(w.e.Keys, x, w.name, "fonts");
    KeysOfParts(w.Bare(), x, w.name, "fonts", Category(w.env.keying.salted(w.value)),
                Set({w.env.keying.salted(w.font)}));
    SizeOf(w.e);
    LeavesMost(w.e.Keys, {x});
  }

  lemma OtherRecognised(w: World, x: string)
    requires w.Ready() && Apart(w, w.Fonted(w.Bare()), OtherStored(w, x))
    ensures Recognised(w.env, w.e, w.Palette(), w.Fonted(w.Bare()), [w.Bare(), w.Fonted(w.Bare())], OtherStored(w, x))
  {
    var m0, m1, m2 := w.Bare(), w.Fonted(w.Bare()), OtherStored(w, x);
    BareVariant(w);
    FontsVariant(w, m0);
    OtherForms(w, x);
    SameFontsMeet(w, m1, m2);
    SharesFirst(w.env, [m0, m1], m1, m2);
    CommonWithFonts(w, x);
  }

  /** Third, with fonts and the further component but without `x`: it matches by its fonts. */
  lemma SeenByFonts(w: World, x: string, s: Store, v: string, l: Label, t: Store)
    requires w.Ready() && Apart(w, w.Fonted(w.Bare()), OtherStored(w, x))
    requires Knows(w.env, s, v, w.Fonted(w.Bare()), 0, [w.Bare(), w.Fonted(w.Bare())])
    requires Warm(w.env, w.e, w.Palette(), 1, s)
    requires l == Sighting(OtherPart(w, x), 0, [v], v) && t == Next(w.env, w.pol, s, l)
    ensures Matches(w.env, w.pol, s, l, v)
    ensures Knows(w.env, t, v, w.Fonted(w.Bare()) + OtherStored(w, x), 0,
                  [w.Bare(), w.Fonted(w.Bare()), OtherStored(w, x)])
    ensures Warm(w.env, w.e, w.Palette(), 2, t)
  {
    var m0, m1, m2 := w.Bare(), w.Fonted(w.Bare()), OtherStored(w, x);
    LogarithmPowers(w.env.analytic);
    OtherForms(w, x);
    OtherRecognised(w, x);
    MatchStep(w.env, w.pol, w.e, w.Palette(), 1, s, v, m1, 0, [m0, m1], OtherPart(w, x), m2, 0);
    Appended(m0, m1, m2, m0);
  }

  lemma OverlayParts(m: Stores, x: string, name: string, fonts: string, h: Stored, f: Stored, g: Stored)
    requires x in m && name !in m && fonts !in m && name != fonts
    ensures m[fonts := f] + (m - {x})[name := h][fonts := f] == m[name := h][fonts := f]
    ensures m[name := h][fonts := f] + m[fonts := g] == m[name := h][fonts := g]
  {
  }

  /** The template after the third observation names everything. */
  lemma DriftedTemplate(w: World, x: string)
    requires w.Ready() && x in w.e
    ensures w.Fonted(w.Bare()) + OtherStored(w, x) == w.Fonted(w.Extended(w.Bare()))
    ensures w.Fonted(w.Extended(w.Bare())) + w.Unfonted(w.Bare()) == w.Unfonted(w.Extended(w.Bare()))
  {
    BareKeys(w);
    var h := Category(w.env.keying.salted(w.value));
    OverlayParts(w.Bare(), x, w.name, "fonts", h, Set({w.env.keying.salted(w.font)}), Set({}));
  }

  lemma UnfontedRecognised(w: World, x: string)
    requires w.Ready() && Apart(w, w.Bare(), w.Unfonted(w.Bare()))
    ensures Recognised(w.env, w.e, w.Palette(), w.Fonted(w.Extended(w.Bare())),
                       [w.Bare(), w.Fonted(w.Bare()), OtherStored(w, x)], w.Unfonted(w.Bare()))
  {
    var m0, m3 := w.Bare(), w.Unfonted(w.Bare());
    BareVariant(w);
    BareKeys(w);
    FontsVariant(w, m0);
    WholeExtended(w);
    SameScalarsMeet(w, m0, m3);
    SharesFirst(w.env, [m0, w.Fonted(m0), OtherStored(w, x)], m0, m3);
    CommonWithDrifted(w);
  }

  /** Last, the device alone with an empty font list: it matches by its scalars and empties the fonts. */
  lemma SeenWithoutFonts(w: World, x: string, s: Store, v: string, l: Label, t: Store)
    requires w.Ready() && x in w.e && Apart(w, w.Bare(), w.Unfonted(w.Bare()))
    requires Knows(w.env, s, v, w.Fonted(w.Extended(w.Bare())), 0, [w.Bare(), w.Fonted(w.Bare()), OtherStored(w, x)])
    requires Warm(w.env, w.e, w.Palette(), 2, s)
    requires l == Sighting(w.RawUnfonted(w.e), 0, [v], v) && t == Next(w.env, w.pol, s, l)
    ensures Matches(w.env, w.pol, s, l, v)
    ensures Knows(w.env, t, v, w.Unfonted(w.Extended(w.Bare())), 0,
                  [w.Bare(), w.Fonted(w.Bare()), OtherStored(w, x), w.Unfonted(w.Bare())])
  {
    var m0, m1, m2, m3, t3 :=
      w.Bare(), w.Fonted(w.Bare()), OtherStored(w, x), w.Unfonted(w.Bare()), w.Fonted(w.Extended(w.Bare()));
    LogarithmPowers(w.env.analytic);
    w.Forms(w.e);
    UnfontedRecognised(w, x);
    MatchStep(w.env, w.pol, w.e, w.Palette(), 2, s, v, t3, 0, [m0, m1, m2], w.RawUnfonted(w.e), m3, 0);
    Appended(m0, m1, m2, m3);
    DriftedTemplate(w, x);
  }

  lemma WithoutNothing(m: Stores)
    ensures m - {} == m
  {
  }

  /** The whole device with the further component. */
  lemma WholeExtended(w: World)
    requires w.Ready()
    ensures var m := w.Extended(w.Bare());
      && Variant(w.env.keying, w.e, w.Palette(), w.Fonted(m)) && Tame(w, w.Unfonted(m)) && Tame(w, w.Fonted(m))
      && Variant(w.env.keying, w.e, w.Palette(), w.Unfonted(m))
      && Scalars(w.Unfonted(m)) == m && Fonts(w.Unfonted(m)) == {}
      && Scalars(w.Fonted(m)) == m && Fonts(w.Fonted(m)) == {w.env.keying.salted(w.font)}
  {
    ExtendedVariant(w, {});
    WithoutNothing(w.Bare());
    FontsVariant(w, w.Extended(w.Bare()));
  }

  lemma CommonWhole(keys: set<string>, name: string, fonts: string)
    requires name !in keys && fonts !in keys
    ensures (keys + {fonts}) * ((keys + {name}) + {fonts}) == keys + {fonts}
    ensures (keys + {fonts}) * keys == keys
  {
  }

  lemma CommonWithDrifted(w: World)
    requires w.Ready()
    ensures Comparable(w.e, w.Unfonted(w.Bare()), w.Fonted(w.Extended(w.Bare())))
  {
    BareKeys(w);
    CommonWhole(w.e.Keys, w.name, "fonts");
    KeysOfParts(w.Bare(), "", w.name, "fonts", Category(w.env.keying.salted(w.value)),
                Set({w.env.keying.salted(w.font)}));
    KeysOfParts(w.Bare(), "", w.name, "fonts", Category(w.env.keying.salted(w.value)), Set({}));
    SizeOf(w.e);
  }

  /** Digests tell apart the key strings of the four observations and of the drifted template. */
  ghost predicate DriftApart(w: World, x: string) {
    var m0, m1, m2, m3, t :=
      w.Bare(), w.Fonted(w.Bare()), OtherStored(w, x), w.Unfonted(w.Bare()), w.Unfonted(w.Extended(w.Bare()));
    && Apart(w, m0, m1) && Apart(w, m1, m2) && Apart(w, m0, m3)
    && Apart(w, m0, t) && Apart(w, m1, t) && Apart(w, m2, t) && Apart(w, m3, t)
  }

  lemma NoneShares(env: Env, a: Stores, b: Stores, c: Stores, d: Stores, t: Stores)
    requires !Meet(KeysOf(env, a), KeysOf(env, t)) && !Meet(KeysOf(env, b), KeysOf(env, t))
    requires !Meet(KeysOf(env, c), KeysOf(env, t)) && !Meet(KeysOf(env, d), KeysOf(env, t))
    ensures !Shares(env, [a, b, c, d], t)
  {
  }

  lemma DriftedScalars(m: Stores, x: string, name: string, h: Stored)
    requires x in m && name !in m
    ensures m != m[name := h] && (m - {x})[name := h] != m[name := h]
  {
    assert name in m[name := h] && x in m[name := h] && x !in (m - {x})[name := h];
  }

  /** The drifted template shares no key with any of the four observations. */
  lemma DriftedSharesNothing(w: World, x: string)
    requires w.Ready() && x in w.e && DriftApart(w, x)
    ensures !Shares(w.env, [w.Bare(), w.Fonted(w.Bare()), OtherStored(w, x), w.Unfonted(w.Bare())],
                    w.Unfonted(w.Extended(w.Bare())))
  {
    var m0, t := w.Bare(), w.Unfonted(w.Extended(w.Bare()));
    BareVariant(w);
    FontsVariant(w, m0);
    OtherForms(w, x);
    WholeExtended(w);
    DriftedScalars(m0, x, w.name, Category(w.env.keying.salted(w.value)));
    OtherScalarsPart(w, m0, t);
    OtherScalarsPart(w, w.Fonted(m0), t);
    OtherScalarsPart(w, OtherStored(w, x), t);
    OtherScalarsPart(w, w.Unfonted(m0), t);
    NoneShares(w.env, m0, w.Fonted(m0), OtherStored(w, x), w.Unfonted(m0), t);
  }

  /** The run of four steps, each possible where it is taken. */
  lemma FourSteps(env: Env, pol: Policy, a: Label, b: Label, c: Label, d: Label)
    ensures var s1 := Next(env, pol, EMPTY, a);
      var s2 := Next(env, pol, s1, b);
      var s3 := Next(env, pol, s2, c);
      && Run(env, pol, [a, b, c]) == s3 && Run(env, pol, [a, b, c, d]) == Next(env, pol, s3, d)
      && Run(env, pol, [a]) == s1 && Run(env, pol, [a, b]) == s2
      && (Enabled(env, pol, EMPTY, a) && Enabled(env, pol, s1, b) && Enabled(env, pol, s2, c) ==>
          Feasible(env, pol, [a, b, c]))
      && (Feasible(env, pol, [a, b, c]) && Enabled(env, pol, s3, d) ==> Feasible(env, pol, [a, b, c, d]))
  {
    Appended(a, b, c, d);
    RunSnoc(env, pol, [], a);
    RunSnoc(env, pol, [a], b);
    RunSnoc(env, pol, [a, b], c);
    RunSnoc(env, pol, [a, b, c], d);
  }

  /** The run: four observations of one device, the first new, the others matched. */
  function DriftRun(w: World, x: string): seq<Label> {
    var v := w.env.deriveId(Obj(w.e));
    [Sighting(w.e, 0, [], v), Sighting(w.RawFonted(w.e), 0, [v], v), Sighting(OtherPart(w, x), 0, [v], v),
     Sighting(w.RawUnfonted(w.e), 0, [v], v)]
  }

  /** The probe equal to the template the run ends with. */
  function DriftProbe(w: World): Raw {
    w.RawUnfonted(w.RawExtended(w.e))
  }

  lemma DriftChain(w: World, x: string, v: string, a: Label, b: Label, c: Label, d: Label, s1: Store, s2: Store,
                   s3: Store, s4: Store)
    requires w.Ready() && x in w.e && DriftApart(w, x) && v == w.env.deriveId(Obj(w.e))
    requires a == Sighting(w.e, 0, [], v) && s1 == Next(w.env, w.pol, EMPTY, a)
    requires b == Sighting(w.RawFonted(w.e), 0, [v], v) && s2 == Next(w.env, w.pol, s1, b)
    requires c == Sighting(OtherPart(w, x), 0, [v], v) && s3 == Next(w.env, w.pol, s2, c)
    requires d == Sighting(w.RawUnfonted(w.e), 0, [v], v) && s4 == Next(w.env, w.pol, s3, d)
    ensures Mints(w.env, w.pol, EMPTY, a, v) && Matches(w.env, w.pol, s1, b, v)
    ensures Matches(w.env, w.pol, s2, c, v) && Matches(w.env, w.pol, s3, d, v)
    ensures Knows(w.env, s4, v, w.Unfonted(w.Extended(w.Bare())), 0,
                  [w.Bare(), w.Fonted(w.Bare()), OtherStored(w, x), w.Unfonted(w.Bare())])
  {
    FirstSeen(w, v, a, s1);
    SeenWithFonts(w, s1, v, b, s2);
    SeenByFonts(w, x, s2, v, c, s3);
    DriftedTemplate(w, x);
    SeenWithoutFonts(w, x, s3, v, d, s4);
  }

  lemma FourPossible(env: Env, pol: Policy, v: string, a: Label, b: Label, c: Label, d: Label, s1: Store, s2: Store,
                     s3: Store)
    requires s1 == Next(env, pol, EMPTY, a) && s2 == Next(env, pol, s1, b) && s3 == Next(env, pol, s2, c)
    ensures
      Mints(env, pol, EMPTY, a, v) && Matches(env, pol, s1, b, v) && Matches(env, pol, s2, c, v)
      && Matches(env, pol, s3, d, v) ==>
      Feasible(env, pol, [a, b, c, d])
    ensures Run(env, pol, [a, b, c, d]) == Next(env, pol, s3, d)
  {
    FourSteps(env, pol, a, b, c, d);
  }

  lemma DriftRunKnows(w: World, x: string)
    requires w.Ready() && x in w.e && DriftApart(w, x)
    ensures Feasible(w.env, w.pol, DriftRun(w, x))
    ensures Knows(w.env, Run(w.env, w.pol, DriftRun(w, x)), w.env.deriveId(Obj(w.e)),
                  w.Unfonted(w.Extended(w.Bare())), 0,
                  [w.Bare(), w.Fonted(w.Bare()), OtherStored(w, x), w.Unfonted(w.Bare())])
  {
    var v := w.env.deriveId(Obj(w.e));
    var a, b := Sighting(w.e, 0, [], v), Sighting(w.RawFonted(w.e), 0, [v], v);
    var c, d := Sighting(OtherPart(w, x), 0, [v], v), Sighting(w.RawUnfonted(w.e), 0, [v], v);
    var s1 := Next(w.env, w.pol, EMPTY, a);
    var s2 := Next(w.env, w.pol, s1, b);
    var s3 := Next(w.env, w.pol, s2, c);
    DriftChain(w, x, v, a, b, c, d, s1, s2, s3, Next(w.env, w.pol, s3, d));
    FourPossible(w.env, w.pol, v, a, b, c, d, s1, s2, s3);
  }

  /** After a possible run, a probe equal to the live template of its only visitor recalls nobody and is
      judged a new device. */
  lemma DriftedProbeEscapes(w: World, x: string)
    requires w.Ready() && x in w.e && DriftApart(w, x)
    ensures var s, v, probe := Run(w.env, w.pol, DriftRun(w, x)), w.env.deriveId(Obj(w.e)), Obj(DriftProbe(w));
      && Feasible(w.env, w.pol, DriftRun(w, x))
      && v in s.lib.records && s.lib.records[v].components == StoredMap(w.env.keying, probe)
      && Recall(w.env, s, StoredMap(w.env.keying, probe)) == {}
      && Evaluate(w.env, s, probe, []).decision == NewDevice
  {
    var s, v := Run(w.env, w.pol, DriftRun(w, x)), w.env.deriveId(Obj(w.e));
    var t := w.Unfonted(w.Extended(w.Bare()));
    DriftRunKnows(w, x);
    w.Forms(w.e);
    w.Forms(w.RawExtended(w.e));
    DriftedSharesNothing(w, x);
    RecallsOnly(w.env, s, v, [w.Bare(), w.Fonted(w.Bare()), OtherStored(w, x), w.Unfonted(w.Bare())], t);
    NobodyRecalled(w.env, s, Obj(DriftProbe(w)));
  }

  // ---- A stale entry that comes back ----

  /** The whole device with the further component and fonts. */
  function LateProbe(w: World): Raw {
    w.RawFonted(w.RawExtended(w.e))
  }

  /** The device, the device with fonts, a purge, and the device again. */
  function RevivalRun(w: World): seq<Label> {
    var v := w.env.deriveId(Obj(w.e));
    [Sighting(w.e, 0, [], v), Sighting(w.RawFonted(w.e), 0, [v], v), Purge(1, 0), Sighting(w.e, 1, [v], v)]
  }

  ghost predicate RevivalApart(w: World) {
    var m0, m1, q := w.Bare(), w.Fonted(w.Bare()), w.Fonted(w.Extended(w.Bare()));
    Apart(w, m0, m1) && Apart(w, m0, m0) && Apart(w, m1, q) && Apart(w, q, m0)
  }

  /** After the purge nobody is known, but `v` is still filed. */
  ghost predicate Haunted(w: World, s: Store, v: string, ms: seq<Stores>)
    requires Device(w.env.keying, w.e)
  {
    s.lib.records == map[] && OnlyFiled(w.env, s.index, v, ms) && Warm(w.env, w.e, w.Palette(), 1, s)
  }

  lemma RevivalChain(w: World, v: string, a: Label, b: Label, c: Label, s1: Store, s2: Store, s3: Store)
    requires w.Ready() && RevivalApart(w) && v == w.env.deriveId(Obj(w.e))
    requires a == Sighting(w.e, 0, [], v) && s1 == Next(w.env, w.pol, EMPTY, a)
    requires b == Sighting(w.RawFonted(w.e), 0, [v], v) && s2 == Next(w.env, w.pol, s1, b)
    requires c == Purge(1, 0) && s3 == Next(w.env, w.pol, s2, c)
    ensures Mints(w.env, w.pol, EMPTY, a, v) && Matches(w.env, w.pol, s1, b, v)
    ensures OnlyFiled(w.env, s1.index, v, [w.Bare()]) && v in s1.lib.records
    ensures Haunted(w, s3, v, [w.Bare(), w.Fonted(w.Bare())])
  {
    FirstSeen(w, v, a, s1);
    SeenWithFonts(w, s1, v, b, s2);
    PurgeEmpties(w.env, w.pol, s2, v, 1);
  }

  lemma HasKeys(w: World)
    requires w.Ready() && Apart(w, w.Bare(), w.Bare())
    ensures Meet(KeysOf(w.env, w.Bare()), KeysOf(w.env, w.Bare()))
  {
    BareVariant(w);
    BareKeys(w);
    SameScalarsMeet(w, w.Bare(), w.Bare());
  }

  lemma BareShares(w: World, m: Stores)
    requires w.Ready() && Apart(w, w.Bare(), w.Bare())
    ensures Shares(w.env, [w.Bare(), m], w.Bare())
  {
    HasKeys(w);
    assert w.Bare() in [w.Bare(), m];
  }

  /** The device is new again, under its old id. */
  lemma SeenAgain(w: World, s: Store, v: string, order: seq<string>, ms: seq<Stores>, l: Label, t: Store)
    requires w.Ready() && v == w.env.deriveId(Obj(w.e)) && Haunted(w, s, v, ms)
    requires Enumerates(order, Recall(w.env, s, w.Bare()))
    requires l == Sighting(w.e, 1, order, v) && t == Next(w.env, w.pol, s, l)
    ensures Mints(w.env, w.pol, s, l, v)
    ensures Knows(w.env, t, v, w.Bare(), 1, ms + [w.Bare()]) && Warm(w.env, w.e, w.Palette(), 1, t)
  {
    BareVariant(w);
    MintStep(w.env, w.pol, w.e, w.Palette(), 1, s, w.e, w.Bare(), 1, order);
    FiledMore(w.env, s.index, w.pol.maxBlock, v, ms, w.Bare());
  }

  lemma FontsMeetLate(w: World)
    requires w.Ready() && RevivalApart(w)
    ensures Meet(KeysOf(w.env, w.Fonted(w.Bare())), KeysOf(w.env, w.Fonted(w.Extended(w.Bare()))))
  {
    BareVariant(w);
    SetTame(w, w.Bare(), {w.env.keying.salted(w.font)});
    WholeExtended(w);
    SameFontsMeet(w, w.Fonted(w.Bare()), w.Fonted(w.Extended(w.Bare())));
  }

  lemma LateShares(w: World)
    requires w.Ready() && RevivalApart(w)
    ensures Shares(w.env, [w.Bare(), w.Fonted(w.Bare()), w.Bare()], w.Fonted(w.Extended(w.Bare())))
  {
    var m0, m1, q := w.Bare(), w.Fonted(w.Bare()), w.Fonted(w.Extended(w.Bare()));
    FontsMeetLate(w);
    SharesFirst(w.env, [m0, m1, m0], m1, q);
  }

  lemma LateCommon(w: World)
    requires w.Ready()
    ensures Comparable(w.e, w.Fonted(w.Extended(w.Bare())), w.Bare())
  {
    BareKeys(w);
    KeysOfParts(w.Bare(), "", w.name, "fonts", Category(w.env.keying.salted(w.value)),
                Set({w.env.keying.salted(w.font)}));
    CommonWithBare(w, w.Fonted(w.Extended(w.Bare())));
  }

  lemma LateRecognised(w: World)
    requires w.Ready() && RevivalApart(w)
    ensures Recognised(w.env, w.e, w.Palette(), w.Bare(), [w.Bare(), w.Fonted(w.Bare()), w.Bare()],
                       w.Fonted(w.Extended(w.Bare())))
  {
    BareVariant(w);
    WholeExtended(w);
    LateShares(w);
    LateCommon(w);
  }

  /** The late probe matches the returned visitor through the stale entries of its fonts. */
  lemma LateProbeMatches(w: World, s: Store, v: string)
    requires w.Ready() && RevivalApart(w) && Warm(w.env, w.e, w.Palette(), 1, s)
    requires Knows(w.env, s, v, w.Bare(), 1, [w.Bare(), w.Fonted(w.Bare()), w.Bare()])
    ensures Recall(w.env, s, StoredMap(w.env.keying, Obj(LateProbe(w)))) == {v}
    ensures Evaluate(w.env, s, Obj(LateProbe(w)), [v]).decision == Match
  {
    var m0, m1, q := w.Bare(), w.Fonted(w.Bare()), w.Fonted(w.Extended(w.Bare()));
    LogarithmPowers(w.env.analytic);
    LateForms(w);
    LateRecognised(w);
    WarmFor(w.env, w.e, w.Palette(), 1, s);
    RecognisedScores(w.env, w.e, w.Palette(), s, v, m0, 1, [m0, m1, m0], q);
    OnlyCandidateMatches(w.env, s, Obj(LateProbe(w)), v);
  }

  lemma LateForms(w: World)
    requires w.Ready()
    ensures StoredMap(w.env.keying, Obj(LateProbe(w))) == w.Fonted(w.Extended(w.Bare()))
  {
    w.Forms(w.e);
    w.Forms(w.RawExtended(w.e));
  }

  lemma LateSharesNothing(w: World)
    requires w.Ready() && RevivalApart(w)
    ensures !Shares(w.env, [w.Bare()], w.Fonted(w.Extended(w.Bare())))
  {
    var m0, q := w.Bare(), w.Fonted(w.Extended(w.Bare()));
    BareVariant(w);
    WholeExtended(w);
    DriftedScalarsWhole(m0, w.name, Category(w.env.keying.salted(w.value)));
    OtherScalarsPart(w, q, m0);
    OnlyOneShares(w.env, m0, q);
  }

  lemma OnlyOneShares(env: Env, m: Stores, q: Stores)
    ensures Shares(env, [m], q) <==> Meet(KeysOf(env, q), KeysOf(env, m))
  {
    MeetBack(KeysOf(env, m), KeysOf(env, q));
    assert m in [m];
  }

  /** Without them it recalls nobody. */
  lemma LateProbeIsNew(w: World, s: Store, v: string)
    requires w.Ready() && RevivalApart(w) && OnlyFiled(w.env, s.index, v, [w.Bare()])
    ensures Recall(w.env, s, StoredMap(w.env.keying, Obj(LateProbe(w)))) == {}
    ensures Evaluate(w.env, s, Obj(LateProbe(w)), []).decision == NewDevice
  {
    LateForms(w);
    LateSharesNothing(w);
    RecallsOnly(w.env, s, v, [w.Bare()], w.Fonted(w.Extended(w.Bare())));
    NobodyRecalled(w.env, s, Obj(LateProbe(w)));
  }

  lemma NobodyRecalled(env: Env, s: Store, probe: Json)
    requires Recall(env, s, StoredMap(env.keying, probe)) == {}
    ensures Evaluate(env, s, probe, []).decision == NewDevice
  {
    SmallEnumerations("");
    NobodyIsNew(env, s, probe, []);
  }

  lemma DriftedScalarsWhole(m: Stores, name: string, h: Stored)
    requires name !in m
    ensures m[name := h] != m
  {
    assert name in m[name := h];
  }

  lemma MeetBack(s: seq<Hash32>, t: seq<Hash32>)
    ensures Meet(s, t) <==> Meet(t, s)
  {
  }

  // ---- The ideal store meanwhile ----

  /** Insertions into blocks that hold only `v` are disturbed by nothing. */
  lemma AloneUndisturbed(env: Env, pol: Policy, s: Store, l: Label, v: string, ms: seq<Stores>)
    requires OnlyFiled(env, s.index, v, ms) && pol.maxBlock >= 1
    requires v in s.lib.records || ms == []
    ensures Touched(env, s, l) == Some(v) ==> Undisturbed(env, pol, s, l)
  {
    forall key ensures B.Accepts(s.index, pol.maxBlock, key, v) {
      if !s.index.Holds(key, v) {
        assert forall u :: u in s.index.Block(key) ==> s.index.Holds(key, u);
        assert s.index.Block(key) == {};
      }
    }
  }

  lemma MatchTouches(env: Env, pol: Policy, s: Store, l: Label, v: string)
    requires Matches(env, pol, s, l, v) || Mints(env, pol, s, l, v)
    ensures Touched(env, s, l) == Some(v) && Enabled(env, pol, s, l)
  {
  }

  lemma QuietThree(env: Env, pol: Policy, a: Label, b: Label, c: Label)
    requires c.Purge?
    requires Undisturbed(env, pol, EMPTY, a) && Undisturbed(env, pol, Next(env, pol, EMPTY, a), b)
    ensures Quiet(env, pol, [a, b, c])
  {
    Appended(a, b, c, c);
    RunSnoc(env, pol, [], a);
    QuietSnoc(env, pol, [], a);
    QuietSnoc(env, pol, [a], b);
    QuietSnoc(env, pol, [a, b], c);
  }

  lemma RevivalQuiet(w: World, v: string, a: Label, b: Label, c: Label, s1: Store)
    requires w.Ready() && c.Purge? && s1 == Next(w.env, w.pol, EMPTY, a)
    requires Mints(w.env, w.pol, EMPTY, a, v) && Matches(w.env, w.pol, s1, b, v)
    requires OnlyFiled(w.env, s1.index, v, [w.Bare()]) && v in s1.lib.records
    ensures Quiet(w.env, w.pol, [a, b, c])
  {
    EmptyKnowsNobody(w, v);
    MatchTouches(w.env, w.pol, EMPTY, a, v);
    AloneUndisturbed(w.env, w.pol, EMPTY, a, v, []);
    MatchTouches(w.env, w.pol, s1, b, v);
    AloneUndisturbed(w.env, w.pol, s1, b, v, [w.Bare()]);
    QuietThree(w.env, w.pol, a, b, c);
  }

  /** Up to the purge nothing stale disturbs the run, so the ideal store has nobody filed. */
  lemma RevivalIdeal(w: World, v: string, a: Label, b: Label, c: Label, s1: Store, s2: Store, s3: Store)
    requires w.Ready() && RevivalApart(w) && v == w.env.deriveId(Obj(w.e))
    requires a == Sighting(w.e, 0, [], v) && s1 == Next(w.env, w.pol, EMPTY, a)
    requires b == Sighting(w.RawFonted(w.e), 0, [v], v) && s2 == Next(w.env, w.pol, s1, b)
    requires c == Purge(1, 0) && s3 == Next(w.env, w.pol, s2, c)
    ensures Feasible(w.env, w.pol, [a, b, c]) && Run(w.env, w.pol, [a, b, c]) == s3
    ensures Haunted(w, s3, v, [w.Bare(), w.Fonted(w.Bare())])
    ensures IdealRun(w.env, w.pol, [a, b, c]) == Clean(s3)
  {
    RevivalChain(w, v, a, b, c, s1, s2, s3);
    FourSteps(w.env, w.pol, a, b, c, c);
    MatchTouches(w.env, w.pol, EMPTY, a, v);
    MatchTouches(w.env, w.pol, s1, b, v);
    RevivalQuiet(w, v, a, b, c, s1);
    RunsStayInStep(w.env, w.pol, [a, b, c]);
  }

  /** Scrubbing the haunted store leaves nobody filed. */
  lemma ScrubbedHaunted(w: World, s: Store, v: string, ms: seq<Stores>)
    requires w.Ready() && Haunted(w, s, v, ms)
    ensures Haunted(w, Clean(s), v, [])
  {
    ScrubbedRelation(s.index, {});
  }

  /** Scrubbing a store that knows only `v` changes nobody's filing. */
  lemma ScrubbedKnows(env: Env, s: Store, v: string, template: Stores, seen: nat, ms: seq<Stores>)
    requires Knows(env, s, v, template, seen, ms)
    ensures Knows(env, Clean(s), v, template, seen, ms)
  {
    ScrubbedRelation(s.index, {v});
  }

  lemma FilterNobody(order: seq<string>)
    ensures Filter(order, {}) == []
  {
    FilterAll(order, {});
  }

  lemma RevivalReturns(w: World, v: string, s3: Store, d: Label, s4: Store)
    requires w.Ready() && RevivalApart(w) && v == w.env.deriveId(Obj(w.e))
    requires Haunted(w, s3, v, [w.Bare(), w.Fonted(w.Bare())])
    requires d == Sighting(w.e, 1, [v], v) && s4 == Next(w.env, w.pol, s3, d)
    ensures Mints(w.env, w.pol, s3, d, v)
    ensures Knows(w.env, s4, v, w.Bare(), 1, [w.Bare(), w.Fonted(w.Bare()), w.Bare()])
    ensures Warm(w.env, w.e, w.Palette(), 1, s4)
  {
    var m0, m1 := w.Bare(), w.Fonted(w.Bare());
    BareShares(w, m1);
    RecallsOnly(w.env, s3, v, [m0, m1], m0);
    SmallEnumerations(v);
    SeenAgain(w, s3, v, [v], [m0, m1], d, s4);
    Appended(m0, m1, m0, m0);
  }

  lemma NobodyFiled(env: Env, s: Store, v: string, m: Stores)
    requires OnlyFiled(env, s.index, v, [])
    ensures Enumerates([], Recall(env, s, m))
  {
    RecallsOnly(env, s, v, [], m);
    NobodyShares(env, m);
    SmallEnumerations("");
  }

  /** To a store that knows nobody, a sighting has no candidates. */
  lemma TranslatedAlone(s: Store, probe: Raw, now: nat, order: seq<string>, v: string)
    requires s.lib.records == map[]
    ensures Translate(s, Sighting(probe, now, order, v)) == Sighting(probe, now, [], v)
  {
    assert s.lib.records.Keys == {};
    FilterNobody(order);
  }

  /** The ideal store's last step. */
  lemma IdealReturns(w: World, v: string, s3: Store, d: Label, t: Store)
    requires w.Ready() && v == w.env.deriveId(Obj(w.e))
    requires Haunted(w, s3, v, [w.Bare(), w.Fonted(w.Bare())])
    requires d == Sighting(w.e, 1, [v], v) && t == Clean(Next(w.env, w.pol, Clean(s3), Translate(s3, d)))
    ensures OnlyFiled(w.env, t.index, v, [w.Bare()])
  {
    var ideal, l := Clean(s3), Sighting(w.e, 1, [], v);
    TranslatedAlone(s3, w.e, 1, [v], v);
    ScrubbedHaunted(w, s3, v, [w.Bare(), w.Fonted(w.Bare())]);
    NobodyFiled(w.env, ideal, v, w.Bare());
    SeenAgain(w, ideal, v, [], [], l, Next(w.env, w.pol, ideal, l));
    Appended(w.Bare(), w.Bare(), w.Bare(), w.Bare());
    ScrubbedKnows(w.env, Next(w.env, w.pol, ideal, l), v, w.Bare(), 1, [w.Bare()]);
  }

  lemma IdealSnoc(env: Env, pol: Policy, ls: seq<Label>, l: Label)
    ensures IdealRun(env, pol, ls + [l]) ==
      Clean(Next(env, pol, IdealRun(env, pol, ls), Translate(Run(env, pol, ls), l)))
  {
    assert (ls + [l])[..|ls|] == ls;
  }

  /** A stale entry decides: after a possible run the same probe matches the returned visitor in the
      store, and is a new device in the store that scrubs, because the store still has the returned
      visitor filed under keys of before the purge. */
  lemma StaleEntryDecides(w: World)
    requires w.Ready() && RevivalApart(w)
    ensures var ls, v, probe := RevivalRun(w), w.env.deriveId(Obj(w.e)), Obj(LateProbe(w));
      var stored := StoredMap(w.env.keying, probe);
      && Feasible(w.env, w.pol, ls)
      && Recall(w.env, Run(w.env, w.pol, ls), stored) == {v}
      && Evaluate(w.env, Run(w.env, w.pol, ls), probe, [v]).decision == Match
      && Recall(w.env, IdealRun(w.env, w.pol, ls), stored) == {}
      && Evaluate(w.env, IdealRun(w.env, w.pol, ls), probe, []).decision == NewDevice
  {
    var v := w.env.deriveId(Obj(w.e));
    var a, b, c, d := Sighting(w.e, 0, [], v), Sighting(w.RawFonted(w.e), 0, [v], v), Purge(1, 0),
        Sighting(w.e, 1, [v], v);
    var s1 := Next(w.env, w.pol, EMPTY, a);
    var s2 := Next(w.env, w.pol, s1, b);
    var s3 := Next(w.env, w.pol, s2, c);
    RevivalEnds(w, v, a, b, c, d, s1, s2, s3, Run(w.env, w.pol, [a, b, c, d]), IdealRun(w.env, w.pol, [a, b, c, d]));
    LateProbeMatches(w, Run(w.env, w.pol, [a, b, c, d]), v);
    LateProbeIsNew(w, IdealRun(w.env, w.pol, [a, b, c, d]), v);
  }

  lemma RevivalEnds(w: World, v: string, a: Label, b: Label, c: Label, d: Label, s1: Store, s2: Store, s3: Store,
                    s: Store, t: Store)
    requires w.Ready() && RevivalApart(w) && v == w.env.deriveId(Obj(w.e))
    requires a == Sighting(w.e, 0, [], v) && s1 == Next(w.env, w.pol, EMPTY, a)
    requires b == Sighting(w.RawFonted(w.e), 0, [v], v) && s2 == Next(w.env, w.pol, s1, b)
    requires c == Purge(1, 0) && s3 == Next(w.env, w.pol, s2, c) && d == Sighting(w.e, 1, [v], v)
    requires s == Run(w.env, w.pol, [a, b, c, d]) && t == IdealRun(w.env, w.pol, [a, b, c, d])
    ensures Feasible(w.env, w.pol, [a, b, c, d])
    ensures Knows(w.env, s, v, w.Bare(), 1, [w.Bare(), w.Fonted(w.Bare()), w.Bare()])
    ensures Warm(w.env, w.e, w.Palette(), 1, s)
    ensures OnlyFiled(w.env, t.index, v, [w.Bare()])
  {
    RevivalIdeal(w, v, a, b, c, s1, s2, s3);
    Appended(a, b, c, d);
    RunSnoc(w.env, w.pol, [a, b, c], d);
    IdealSnoc(w.env, w.pol, [a, b, c], d);
    RevivalReturns(w, v, s3, d, s);
    MatchTouches(w.env, w.pol, s3, d, v);
    IdealReturns(w, v, s3, d, t);
  }

  // ---- Stale entries that fill a block ----

  function Padding(n: nat): seq<Json> {
    if n == 0 then [] else Padding(n - 1) + [Arr([])]
  }

  /** The device with a component no store keeps: the `i`-th of many observations stored alike. */
  function Lookalike(w: World, i: nat): Raw {
    w.e[w.name := Arr(Padding(i))]
  }

  function Id(w: World, i: nat): string {
    w.env.deriveId(Obj(Lookalike(w, i)))
  }

  function Ids(w: World, n: nat): set<string> {
    if n == 0 then {} else Ids(w, n - 1) + {Id(w, n - 1)}
  }

  /** The lookalikes up to `n` get different ids. */
  ghost predicate DistinctIds(w: World, n: nat) {
    forall i, j :: 0 <= i < j <= n ==> Id(w, i) != Id(w, j)
  }

  lemma {:induction false} IdsBefore(w: World, i: nat, j: nat, n: nat)
    requires DistinctIds(w, n) && i <= j <= n
    ensures Id(w, j) !in Ids(w, i)
  {
    if i > 0 {
      IdsBefore(w, i - 1, j, n);
    }
  }

  lemma {:induction false} IdsCount(w: World, i: nat, n: nat)
    requires DistinctIds(w, n) && i <= n
    ensures |Ids(w, i)| == i
  {
    if i > 0 {
      IdsCount(w, i - 1, n);
      IdsBefore(w, i - 1, i - 1, n);
    }
  }

  lemma LookalikeForm(w: World, i: nat)
    requires w.Ready()
    ensures StoredEntries(w.env.keying, Lookalike(w, i)) == w.Bare()
  {
    WithUnstorable(w.env.keying, w.e, w.name, Padding(i));
  }

  function Arrival(w: World, i: nat): Label {
    Sighting(Lookalike(w, i), 2 * i, Sorted(Ids(w, i)), Id(w, i))
  }

  /** Each lookalike is seen once and purged at once. */
  function CrowdRun(w: World, n: nat): seq<Label> {
    if n == 0 then []
    else (CrowdRun(w, n - 1) + [Arrival(w, n - 1)]) + [Purge(2 * (n - 1) + 1, 0)]
  }

  lemma CrowdRunSnoc(w: World, i: nat)
    ensures CrowdRun(w, i + 1) == (CrowdRun(w, i) + [Arrival(w, i)]) + [Purge(2 * i + 1, 0)]
  {
  }

  /** These visitors and no others are filed under the device's keys. */
  ghost predicate FiledAs(w: World, ix: B.Index, ids: set<string>) {
    forall key, u :: ix.Holds(key, u) <==> u in ids && key in KeysOf(w.env, w.Bare())
  }

  /** Nobody is known, but the first `n` lookalikes are filed. */
  ghost predicate Crowded(w: World, s: Store, n: nat)
    requires Device(w.env.keying, w.e)
  {
    s.lib.records == map[] && FiledAs(w, s.index, Ids(w, n)) && Kept(w.env.keying, w.e, w.Palette(), 0, s.freq, s.agree)
  }

  lemma CrowdedBlock(w: World, ix: B.Index, ids: set<string>, key: Hash32)
    requires FiledAs(w, ix, ids) && key in KeysOf(w.env, w.Bare())
    ensures ix.Block(key) == ids
  {
    forall u ensures u in ix.Block(key) <==> u in ids {
      assert ix.Holds(key, u) <==> u in ids;
    }
  }

  /** A further lookalike finds room under every key or under none. */
  lemma CrowdRoom(w: World, ix: B.Index, i: nat)
    requires FiledAs(w, ix, Ids(w, i)) && DistinctIds(w, w.pol.maxBlock) && i <= w.pol.maxBlock
    ensures forall key :: key in KeysOf(w.env, w.Bare()) ==>
      (B.Accepts(ix, w.pol.maxBlock, key, Id(w, i)) <==> i < w.pol.maxBlock)
  {
    IdsCount(w, i, w.pol.maxBlock);
    IdsBefore(w, i, i, w.pol.maxBlock);
    forall key | key in KeysOf(w.env, w.Bare())
      ensures B.Accepts(ix, w.pol.maxBlock, key, Id(w, i)) <==> i < w.pol.maxBlock
    {
      CrowdedBlock(w, ix, Ids(w, i), key);
    }
  }

  /** So it joins the others, or is filed nowhere. */
  lemma CrowdFiled(w: World, ix: B.Index, i: nat)
    requires FiledAs(w, ix, Ids(w, i)) && DistinctIds(w, w.pol.maxBlock) && i <= w.pol.maxBlock
    ensures FiledAs(w, B.InsertedAll(ix, w.pol.maxBlock, KeysOf(w.env, w.Bare()), Id(w, i)),
                    if i < w.pol.maxBlock then Ids(w, i + 1) else Ids(w, i))
  {
    CrowdRoom(w, ix, i);
    B.InsertedAllRelation(ix, w.pol.maxBlock, KeysOf(w.env, w.Bare()), Id(w, i));
  }

  lemma AllRecalled(ix: B.Index, keys: seq<Hash32>, ids: set<string>)
    requires keys != [] && forall key, u :: ix.Holds(key, u) <==> u in ids && key in keys
    ensures B.Candidates(ix, keys) == ids
  {
    assert keys[0] in keys;
    forall u ensures u in B.Candidates(ix, keys) <==> u in ids {
      B.CandidatesAreImage(ix, keys, u);
      assert ix.Holds(keys[0], u) <==> u in ids;
    }
  }

  lemma CrowdRecalled(w: World, s: Store, ids: set<string>)
    requires w.Ready() && Apart(w, w.Bare(), w.Bare()) && FiledAs(w, s.index, ids)
    ensures Recall(w.env, s, w.Bare()) == ids
  {
    HasKeys(w);
    AllRecalled(s.index, KeysOf(w.env, w.Bare()), ids);
  }

  lemma SortedEnumerates(ids: set<string>)
    ensures Enumerates(Sorted(ids), ids)
  {
    assert Elems(Sorted(ids)) == ids;
  }

  /** A lookalike is a new device to a store without records. */
  lemma CrowdMints(w: World, s: Store, i: nat, order: seq<string>, l: Label, t: Store)
    requires w.Ready() && s.lib.records == map[] && Kept(w.env.keying, w.e, w.Palette(), 0, s.freq, s.agree)
    requires Enumerates(order, Recall(w.env, s, w.Bare()))
    requires l == Sighting(Lookalike(w, i), 2 * i, order, Id(w, i)) && t == Next(w.env, w.pol, s, l)
    ensures Mints(w.env, w.pol, s, l, Id(w, i))
    ensures t.lib.records.Keys == {Id(w, i)} && t.lib.records[Id(w, i)].components == w.Bare()
    ensures t.lib.records[Id(w, i)].lastSeen == 2 * i
    ensures t.index == B.InsertedAll(s.index, w.pol.maxBlock, KeysOf(w.env, w.Bare()), Id(w, i))
    ensures Warm(w.env, w.e, w.Palette(), 0, t)
  {
    BareVariant(w);
    LookalikeForm(w, i);
    MintStep(w.env, w.pol, w.e, w.Palette(), 0, s, Lookalike(w, i), w.Bare(), 2 * i, order);
  }

  /** Its entries disturb nothing while there is room. */
  lemma CrowdUndisturbed(w: World, s: Store, i: nat, l: Label)
    requires w.Ready() && Crowded(w, s, i) && DistinctIds(w, w.pol.maxBlock) && i < w.pol.maxBlock
    requires l.Identify? && l.probe == Obj(Lookalike(w, i)) && Mints(w.env, w.pol, s, l, Id(w, i))
    ensures Undisturbed(w.env, w.pol, s, l)
  {
    LookalikeForm(w, i);
    CrowdRoom(w, s.index, i);
    MatchTouches(w.env, w.pol, s, l, Id(w, i));
  }

  /** One lookalike comes and goes. */
  lemma CrowdStep(w: World, s: Store, i: nat, l: Label, m: Label, t: Store, u: Store)
    requires w.Ready() && Apart(w, w.Bare(), w.Bare()) && Crowded(w, s, i) && DistinctIds(w, w.pol.maxBlock)
    requires i < w.pol.maxBlock
    requires l == Arrival(w, i) && t == Next(w.env, w.pol, s, l)
    requires m == Purge(2 * i + 1, 0) && u == Next(w.env, w.pol, t, m)
    ensures Enabled(w.env, w.pol, s, l) && Undisturbed(w.env, w.pol, s, l)
    ensures Crowded(w, u, i + 1)
  {
    CrowdRecalled(w, s, Ids(w, i));
    SortedEnumerates(Ids(w, i));
    CrowdMints(w, s, i, Sorted(Ids(w, i)), l, t);
    CrowdUndisturbed(w, s, i, l);
    CrowdFiled(w, s.index, i);
    PurgeEmpties(w.env, w.pol, t, Id(w, i), 2 * i + 1);
  }

  lemma QuietSnoc(env: Env, pol: Policy, ls: seq<Label>, l: Label)
    ensures Quiet(env, pol, ls + [l]) <==> Quiet(env, pol, ls) && Undisturbed(env, pol, Run(env, pol, ls), l)
  {
    assert (ls + [l])[..|ls|] == ls;
  }

  lemma PurgeIsQuiet(env: Env, pol: Policy, s: Store, now: nat)
    ensures Enabled(env, pol, s, Purge(now, 0)) && Undisturbed(env, pol, s, Purge(now, 0))
  {
  }

  lemma TwoMore(env: Env, pol: Policy, ls: seq<Label>, l: Label, now: nat)
    requires Feasible(env, pol, ls) && Quiet(env, pol, ls)
    requires Enabled(env, pol, Run(env, pol, ls), l) && Undisturbed(env, pol, Run(env, pol, ls), l)
    ensures var m := Purge(now, 0);
      && Feasible(env, pol, (ls + [l]) + [m]) && Quiet(env, pol, (ls + [l]) + [m])
      && Run(env, pol, (ls + [l]) + [m]) == Next(env, pol, Next(env, pol, Run(env, pol, ls), l), m)
  {
    RunSnoc(env, pol, ls, l);
    QuietSnoc(env, pol, ls, l);
    RunSnoc(env, pol, ls + [l], Purge(now, 0));
    QuietSnoc(env, pol, ls + [l], Purge(now, 0));
    PurgeIsQuiet(env, pol, Run(env, pol, ls + [l]), now);
  }

  /** A possible run in which nothing stale disturbs a step, and that leaves `n` lookalikes filed. */
  ghost predicate Gathers(w: World, ls: seq<Label>, n: nat)
    requires Device(w.env.keying, w.e)
  {
    Feasible(w.env, w.pol, ls) && Quiet(w.env, w.pol, ls) && Crowded(w, Run(w.env, w.pol, ls), n)
  }

  lemma CrowdGrows(w: World, i: nat, front: seq<Label>, l: Label, ls: seq<Label>)
    requires w.Ready() && Apart(w, w.Bare(), w.Bare()) && DistinctIds(w, w.pol.maxBlock) && i < w.pol.maxBlock
    requires l == Arrival(w, i)
    requires Gathers(w, front, i) && ls == (front + [l]) + [Purge(2 * i + 1, 0)]
    ensures Gathers(w, ls, i + 1)
  {
    var s, m := Run(w.env, w.pol, front), Purge(2 * i + 1, 0);
    var t := Next(w.env, w.pol, s, l);
    CrowdStep(w, s, i, l, m, t, Next(w.env, w.pol, t, m));
    TwoMore(w.env, w.pol, front, l, 2 * i + 1);
  }

  lemma NobodyGathers(w: World)
    requires w.Ready()
    ensures Gathers(w, [], 0)
  {
  }

  /** Up to the block size, lookalikes fill the device's blocks and the ideal store stays in step. */
  lemma {:induction false} CrowdGathers(w: World, n: nat, ls: seq<Label>)
    requires w.Ready() && Apart(w, w.Bare(), w.Bare()) && DistinctIds(w, w.pol.maxBlock) && n <= w.pol.maxBlock
    requires ls == CrowdRun(w, n)
    ensures Gathers(w, ls, n)
  {
    if n == 0 {
      NobodyGathers(w);
    } else {
      var i, front := n - 1, CrowdRun(w, n - 1);
      CrowdGathers(w, i, front);
      CrowdRunSnoc(w, i);
      CrowdGrows(w, i, front, Arrival(w, i), ls);
    }
  }

  /** The last lookalike, for which the blocks are full. */
  function Latecomer(w: World): Label {
    Arrival(w, w.pol.maxBlock)
  }

  /** In the store it is known but filed nowhere. */
  lemma CrowdedOut(w: World, s: Store, t: Store, v: string)
    requires w.Ready() && Apart(w, w.Bare(), w.Bare()) && Crowded(w, s, w.pol.maxBlock)
    requires DistinctIds(w, w.pol.maxBlock)
    requires t == Next(w.env, w.pol, s, Latecomer(w)) && v == Id(w, w.pol.maxBlock)
    ensures Mints(w.env, w.pol, s, Latecomer(w), v)
    ensures t.lib.records.Keys == {v} && t.lib.records[v].components == w.Bare()
    ensures Recall(w.env, t, w.Bare()) == Ids(w, w.pol.maxBlock) && v !in Ids(w, w.pol.maxBlock)
  {
    var cap := w.pol.maxBlock;
    CrowdRecalled(w, s, Ids(w, cap));
    SortedEnumerates(Ids(w, cap));
    CrowdMints(w, s, cap, Sorted(Ids(w, cap)), Latecomer(w), t);
    CrowdFiled(w, s.index, cap);
    CrowdRecalled(w, t, Ids(w, cap));
    IdsBefore(w, cap, cap, cap);
  }

  lemma ScrubbedCrowd(w: World, s: Store, n: nat, v: string)
    requires w.Ready() && Crowded(w, s, n)
    ensures Clean(s).lib.records == map[] && OnlyFiled(w.env, Clean(s).index, v, [])
    ensures Kept(w.env.keying, w.e, w.Palette(), 0, Clean(s).freq, Clean(s).agree)
  {
    ScrubbedRelation(s.index, {});
    assert s.lib.records.Keys == {};
  }

  /** In the ideal store it is known and filed. */
  lemma CrowdCleared(w: World, s: Store, v: string, t: Store)
    requires w.Ready() && Crowded(w, s, w.pol.maxBlock) && v == Id(w, w.pol.maxBlock)
    requires t == Clean(Next(w.env, w.pol, Clean(s), Translate(s, Latecomer(w))))
    ensures Knows(w.env, t, v, w.Bare(), 2 * w.pol.maxBlock, [w.Bare()]) && Warm(w.env, w.e, w.Palette(), 0, t)
  {
    var cap, ideal := w.pol.maxBlock, Clean(s);
    var l := Sighting(Lookalike(w, cap), 2 * cap, [], v);
    TranslatedAlone(s, Lookalike(w, cap), 2 * cap, Sorted(Ids(w, cap)), v);
    ScrubbedCrowd(w, s, cap, v);
    NobodyFiled(w.env, ideal, v, w.Bare());
    CrowdMints(w, ideal, cap, [], l, Next(w.env, w.pol, ideal, l));
    FiledMore(w.env, ideal.index, cap, v, [], w.Bare());
    Appended(w.Bare(), w.Bare(), w.Bare(), w.Bare());
    ScrubbedKnows(w.env, Next(w.env, w.pol, ideal, l), v, w.Bare(), 2 * cap, [w.Bare()]);
  }

  /** There it matches when it is seen again. */
  lemma LatecomerMatches(w: World, t: Store, v: string, seen: nat)
    requires w.Ready() && Apart(w, w.Bare(), w.Bare()) && Warm(w.env, w.e, w.Palette(), 0, t)
    requires Knows(w.env, t, v, w.Bare(), seen, [w.Bare()])
    ensures var probe := Obj(Lookalike(w, w.pol.maxBlock));
      && Recall(w.env, t, StoredMap(w.env.keying, probe)) == {v}
      && Evaluate(w.env, t, probe, [v]).decision == Match && Evaluate(w.env, t, probe, [v]).visitorId == v
  {
    LogarithmPowers(w.env.analytic);
    BareVariant(w);
    LookalikeForm(w, w.pol.maxBlock);
    HasKeys(w);
    OnlyOneShares(w.env, w.Bare(), w.Bare());
    CommonWithBare(w, w.Bare());
    WarmFor(w.env, w.e, w.Palette(), 0, t);
    RecognisedScores(w.env, w.e, w.Palette(), t, v, w.Bare(), seen, [w.Bare()], w.Bare());
    OnlyCandidateMatches(w.env, t, Obj(Lookalike(w, w.pol.maxBlock)), v);
  }

  /** In the store it is new again, although its record is live. */
  lemma LatecomerIsNew(w: World, t: Store, v: string, ids: set<string>)
    requires w.Ready() && t.lib.records.Keys == {v} && v !in ids
    requires Recall(w.env, t, w.Bare()) == ids
    ensures var probe := Obj(Lookalike(w, w.pol.maxBlock));
      && Enumerates(Sorted(ids), Recall(w.env, t, StoredMap(w.env.keying, probe)))
      && Evaluate(w.env, t, probe, Sorted(ids)).decision == NewDevice
  {
    LookalikeForm(w, w.pol.maxBlock);
    SortedEnumerates(ids);
    NobodyIsNew(w.env, t, Obj(Lookalike(w, w.pol.maxBlock)), Sorted(ids));
  }

  /** Stale entries decide by taking up room: after a possible run, whose only live visitor has just been
      observed, the same observation matches that visitor in the store that scrubs, and is a new device in
      the store, where entries of purged visitors fill each of its blocks. */
  lemma StaleEntriesCrowdOut(w: World)
    requires w.Ready() && Apart(w, w.Bare(), w.Bare()) && DistinctIds(w, w.pol.maxBlock)
    ensures var cap := w.pol.maxBlock;
      var ls, v, probe := CrowdRun(w, cap) + [Latecomer(w)], Id(w, cap), Obj(Lookalike(w, cap));
      var s, ideal, stored := Run(w.env, w.pol, ls), IdealRun(w.env, w.pol, ls), StoredMap(w.env.keying, probe);
      && Feasible(w.env, w.pol, ls)
      && s.lib.records.Keys == {v} && s.lib.records[v].components == stored
      && Enumerates(Sorted(Ids(w, cap)), Recall(w.env, s, stored))
      && Evaluate(w.env, s, probe, Sorted(Ids(w, cap))).decision == NewDevice
      && Recall(w.env, ideal, stored) == {v}
      && Evaluate(w.env, ideal, probe, [v]).decision == Match && Evaluate(w.env, ideal, probe, [v]).visitorId == v
  {
    var cap := w.pol.maxBlock;
    var front, l, v := CrowdRun(w, cap), Latecomer(w), Id(w, cap);
    var s0 := Run(w.env, w.pol, front);
    CrowdGathers(w, cap, front);
    RunsStayInStep(w.env, w.pol, front);
    RunSnoc(w.env, w.pol, front, l);
    IdealSnoc(w.env, w.pol, front, l);
    var s, ideal := Run(w.env, w.pol, front + [l]), IdealRun(w.env, w.pol, front + [l]);
    CrowdedOut(w, s0, s, v);
    MatchTouches(w.env, w.pol, s0, l, v);
    LookalikeForm(w, cap);
    LatecomerIsNew(w, s, v, Ids(w, cap));
    CrowdCleared(w, s0, v, ideal);
    LatecomerMatches(w, ideal, v, 2 * cap);
  }

  // ---- An id minted twice under one address ----

  lemma MintVelocity(env: Env, pol: Policy, s: Store, l: Label, t: Store)
    requires l.Identify? && l.ja4 == None && l.now == 0 && t == Next(env, pol, s, l)
    ensures VerdictOf(env, s, l).decision == NewDevice ==> t.vel == Bumped(pol, s.vel, l.ip, 0)
  {
  }

  lemma TwoBumps(pol: Policy, ip: string)
    requires pol.maxVelocity.Some? ==> pol.maxVelocity.value >= 1
    ensures V.Count(Bumped(pol, Bumped(pol, V.EMPTY, Some(ip), 0), Some(ip), 0), ip, 0, V.WINDOW) == 2
  {
    var one, two: seq<nat> := [0], [0, 0];
    assert one[1..] == [] && two[1..] == one && [] + [0] == one && one + [0] == two;
    assert V.Since(one, 0) == one && V.Since(two, 0) == two;
    var v := Bumped(pol, V.EMPTY, Some(ip), 0);
    assert v.events == map[ip := one];
    assert Bumped(pol, v, Some(ip), 0).events == map[ip := two];
  }

  /** A possible run mints the same id twice under one address: natively two events, on the edge one device. */
  lemma RemintCountsOnceOnEdge(env: Env, pol: Policy, ip: string, l: Label, s: Store, t: Store)
    requires env.family.groups == GROUPS && (pol.maxVelocity.Some? ==> pol.maxVelocity.value >= 1)
    requires l == Templates.EmptyProbe(env, Some(ip), None)
    requires s == Run(env, pol, [l]) && t == Run(env, pol, [l, l])
    ensures var v, e := env.deriveId(Obj(map[])), Edge.Event(env.deriveId(Obj(map[])), 0);
      && Feasible(env, pol, [l, l])
      && VerdictOf(env, EMPTY, l).decision == NewDevice && VerdictOf(env, EMPTY, l).visitorId == v
      && VerdictOf(env, s, l).decision == NewDevice && VerdictOf(env, s, l).visitorId == v
      && V.Count(t.vel, ip, 0, V.WINDOW) == 2 && Edge.EdgeAnswer([e, e]) == 1
  {
    Templates.SecondEmptyProbeRemints(env, pol, Some(ip), None);
    Appended(l, l, l, l);
    RunSnoc(env, pol, [], l);
    RunSnoc(env, pol, [l], l);
    MintVelocity(env, pol, EMPTY, l, s);
    MintVelocity(env, pol, s, l, t);
    TwoBumps(pol, ip);
    var e, op := Edge.Event(env.deriveId(Obj(map[])), 0), V.RecordOp(ip, 0);
    Edge.RepeatCounted(e, ip, [e, e], [op, op]);
  }
}
