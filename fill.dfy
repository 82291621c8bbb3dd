/**
 * The catalog completion pass: every product gets a description of a
 * bounded length that ends in a call to action, a specs dictionary whose
 * seven standard keys are filled with defaults where blank, and exactly
 * three image slots (`main`, `alt1`, `alt2` under `/products/<slug>/`).
 *
 * The key and material names below are the Russian words the pass writes.
 * The sentences of the generated description are not part of this model:
 * they are a `Wording` the caller hands in, with only the facts about them
 * that the length logic relies on.
 */
module Fill {
  import opened Wrappers
  import opened Text
  import opened SpecMap
  import Dedup
  import Enrich

  // ---------------------------------------------------------------------------
  // mergeSpecsObject

  /** JavaScript's `!src[k]` for a dictionary of strings: missing or empty. */
  predicate Unset(v: Option<string>) { v.None? || v.value == [] }

  /** An addition the merge takes: a non-empty key with a value that is not blank. */
  predicate Usable(e: Entry) { e.key != [] && !NoNonWs(e.value) }

  /** One pass of the merge loop: fill key `e.key` with the trimmed value if it is unset. */
  function MergeStep(src: Specs, e: Entry): Specs {
    if Usable(e) && Unset(Get(src, e.key)) then Put(src, e.key, Trim(e.value)) else src
  }

  /** The result of merging `adds`, in order, into `src`. */
  function Merged(src: Specs, adds: seq<Entry>): Specs
    decreases |adds|
  {
    if adds == [] then src else Merged(MergeStep(src, adds[0]), adds[1..])
  }

  /** `mergeSpecsObject(existing, additions)`: a copy of `existing` updated in a loop. */
  method MergeSpecs(existing: Specs, additions: seq<Entry>) returns (src: Specs)
    ensures src == Merged(existing, additions)
  {
    src := existing;
    for i := 0 to |additions|
      invariant Merged(src, additions[i..]) == Merged(existing, additions)
    {
      var e := additions[i];
      assert additions[i..][1..] == additions[i + 1..];
      if e.key == [] {
        continue;
      }
      var val := Trim(e.value);
      TrimEmpty(e.value);
      if val == [] {
        continue;
      }
      if Unset(Get(src, e.key)) {
        src := Put(src, e.key, val);
      }
    }
  }

  /** A key that already has a non-empty value keeps it: the merge never overwrites. */
  lemma {:induction false} MergeKeepsSet(src: Specs, adds: seq<Entry>, k: string)
    requires !Unset(Get(src, k))
    ensures Get(Merged(src, adds), k) == Get(src, k)
    decreases |adds|
  {
    if adds != [] {
      var e := adds[0];
      if Usable(e) && Unset(Get(src, e.key)) {
        PutOther(src, e.key, Trim(e.value), k);
      }
      MergeKeepsSet(MergeStep(src, e), adds[1..], k);
    }
  }

  /** Every key of the original dictionary is still there. */
  lemma {:induction false} MergeKeepsKeys(src: Specs, adds: seq<Entry>, k: string)
    requires Has(src, k)
    ensures Has(Merged(src, adds), k)
    decreases |adds|
  {
    if adds != [] {
      var e := adds[0];
      if Usable(e) && Unset(Get(src, e.key)) {
        PutFacts(src, e.key, Trim(e.value));
      }
      MergeKeepsKeys(MergeStep(src, e), adds[1..], k);
    }
  }

  /** After the merge every usable addition's key has a non-empty value. */
  lemma {:induction false} MergeFills(src: Specs, adds: seq<Entry>, i: nat)
    requires i < |adds| && Usable(adds[i])
    ensures !Unset(Get(Merged(src, adds), adds[i].key))
    decreases |adds|
  {
    var e := adds[0];
    if i == 0 {
      if Unset(Get(src, e.key)) {
        TrimEmpty(e.value);
        PutGet(src, e.key, Trim(e.value));
      }
      MergeKeepsSet(MergeStep(src, e), adds[1..], e.key);
    } else {
      MergeFills(MergeStep(src, e), adds[1..], i - 1);
    }
  }

  /**
   * A value the merge changed was unset before, and is now the trimmed value
   * of a usable addition with that key.
   */
  lemma {:induction false} MergeFrom(src: Specs, adds: seq<Entry>, k: string)
    requires Get(Merged(src, adds), k) != Get(src, k)
    ensures Unset(Get(src, k))
    ensures exists i :: 0 <= i < |adds| && adds[i].key == k && Usable(adds[i])
                        && Get(Merged(src, adds), k) == Some(Trim(adds[i].value))
    decreases |adds|
  {
    var e := adds[0];
    var next := MergeStep(src, e);
    if !Unset(Get(src, k)) {
      MergeKeepsSet(src, adds, k);
    }
    if Get(Merged(next, adds[1..]), k) != Get(next, k) {
      MergeFrom(next, adds[1..], k);
      var i :| 0 <= i < |adds[1..]| && adds[1..][i].key == k && Usable(adds[1..][i])
               && Get(Merged(next, adds[1..]), k) == Some(Trim(adds[1..][i].value));
      assert adds[i + 1] == adds[1..][i];
    } else {
      assert Get(next, k) != Get(src, k);
      if e.key != k {
        PutOther(src, e.key, Trim(e.value), k);
      }
      PutGet(src, e.key, Trim(e.value));
    }
  }

  /** A key no usable addition names keeps its value. */
  lemma {:induction false} MergeSkips(src: Specs, adds: seq<Entry>, k: string)
    requires forall i :: 0 <= i < |adds| && adds[i].key == k ==> !Usable(adds[i])
    ensures Get(Merged(src, adds), k) == Get(src, k)
    decreases |adds|
  {
    if adds != [] {
      var e := adds[0];
      if Usable(e) && Unset(Get(src, e.key)) {
        PutOther(src, e.key, Trim(e.value), k);
      }
      forall i | 0 <= i < |adds[1..]| && adds[1..][i].key == k ensures !Usable(adds[1..][i]) {
        assert adds[1..][i] == adds[i + 1];
      }
      MergeSkips(MergeStep(src, e), adds[1..], k);
    }
  }

  /** The merge keeps the keys of the dictionary distinct. */
  lemma {:induction false} MergeUnique(src: Specs, adds: seq<Entry>)
    requires UniqueKeys(src)
    ensures UniqueKeys(Merged(src, adds))
    decreases |adds|
  {
    if adds != [] {
      var e := adds[0];
      if Usable(e) && Unset(Get(src, e.key)) {
        PutUnique(src, e.key, Trim(e.value));
      }
      MergeUnique(MergeStep(src, e), adds[1..]);
    }
  }

  /** When every usable addition's key is already set, the merge changes nothing. */
  lemma {:induction false} MergeNoop(src: Specs, adds: seq<Entry>)
    requires forall i :: 0 <= i < |adds| && Usable(adds[i]) ==> !Unset(Get(src, adds[i].key))
    ensures Merged(src, adds) == src
    decreases |adds|
  {
    if adds != [] {
      assert MergeStep(src, adds[0]) == src;
      forall i | 0 <= i < |adds[1..]| && Usable(adds[1..][i])
        ensures !Unset(Get(src, adds[1..][i].key))
      {
        assert adds[1..][i] == adds[i + 1];
      }
      MergeNoop(src, adds[1..]);
    }
  }

  /** Merging the same additions a second time changes nothing. */
  lemma MergeIdempotent(src: Specs, adds: seq<Entry>)
    ensures Merged(Merged(src, adds), adds) == Merged(src, adds)
  {
    forall i | 0 <= i < |adds| && Usable(adds[i])
      ensures !Unset(Get(Merged(src, adds), adds[i].key))
    {
      MergeFills(src, adds, i);
    }
    MergeNoop(Merged(src, adds), adds);
  }

  // ---------------------------------------------------------------------------
  // toSpecsArray

  datatype NamedSpec = NamedSpec(name: string, value: string)

  /** `Object.entries(specs).filter(([k, v]) => k && String(v).trim()).map(...)`. */
  function SpecsArray(m: Specs): (r: seq<NamedSpec>)
    ensures |r| <= |m|
  {
    if m == [] then []
    else (if Usable(m[0]) then [NamedSpec(m[0].key, m[0].value)] else []) + SpecsArray(m[1..])
  }

  /** One element per usable entry, with the value untrimmed. */
  lemma {:induction false} SpecsArrayMembers(m: Specs, k: string, v: string)
    ensures NamedSpec(k, v) in SpecsArray(m) <==> Entry(k, v) in m && Usable(Entry(k, v))
  {
    if m != [] {
      SpecsArrayMembers(m[1..], k, v);
      assert m == [m[0]] + m[1..];
    }
  }

  /** The array follows the order of the dictionary: it distributes over concatenation. */
  lemma {:induction false} SpecsArrayConcat(a: Specs, b: Specs)
    ensures SpecsArray(a + b) == SpecsArray(a) + SpecsArray(b)
  {
    if a != [] {
      assert (a + b)[1..] == a[1..] + b;
      SpecsArrayConcat(a[1..], b);
    } else {
      assert a + b == b;
    }
  }

  // ---------------------------------------------------------------------------
  // defaultsForCategory and guessMaterialFromName

  const MaterialKey := "Материал"
  const BrandKey := "Бренд"
  const CountryKey := "Страна"
  const SizeKey := "Размер"
  const WeightKey := "Вес"
  const VolumeKey := "Объём"
  const ColourKey := "Цвет"

  const Porcelain := "Фарфор"
  const Ceramic := "Керамика"
  const Glass := "Стекло"
  const Plastic := "Пластик"
  const Steel := "Нержавеющая сталь"
  const Wood := "Дерево"
  const Transparent := "Прозрачный"
  const White := "Белый"
  const DefaultBrand := "Ardesto"
  const DefaultCountry := "Китай"
  const DefaultSize := "25 см"
  const DefaultWeight := "500 г"
  const DefaultVolume := "0.5 л"
  const Materials := {Porcelain, Ceramic, Glass, Plastic, Steel, Wood}

  // The keyword tests, on text that is already lower-cased.
  predicate SaysPorcelain(s: string) { Contains(s, "фарфор") || Contains(s, "porcelain") }
  predicate SaysCeramic(s: string) { Contains(s, "керам") || Contains(s, "ceram") }
  predicate SaysGlass(s: string) { Contains(s, "стекло") || Contains(s, "glass") }
  predicate SaysSteel(s: string) { Contains(s, "нерж") || Contains(s, "сталь") || Contains(s, "steel") }
  predicate SaysPlastic(s: string) {
    Contains(s, "пластик") || Contains(s, "poly") || Contains(s, "pp") || Contains(s, "pe")
  }
  predicate SaysWood(s: string) {
    Contains(s, "дерев") || Contains(s, "wood") || Contains(s, "дуб") || Contains(s, "бук")
    || Contains(s, "акац")
  }

  /** The material `defaultsForCategory` picks for the lower-cased text `s`. */
  function CategoryMaterial(s: string): string {
    if SaysPorcelain(s) then Porcelain
    else if SaysCeramic(s) then Ceramic
    else if SaysGlass(s) then Glass
    else if SaysPlastic(s) then Plastic
    else Steel
  }

  /** `defaultsForCategory(category, name)`. */
  function CategoryDefaults(category: string, name: string): (r: Specs)
    ensures |r| == 4 && r[0].key == MaterialKey && r[1].key == ColourKey
            && r[2].key == SizeKey && r[3].key == WeightKey
    ensures r[0].value in Materials && r[1].value in {Transparent, White}
  {
    var s := Lower(category + " " + name);
    [Entry(MaterialKey, CategoryMaterial(s)),
     Entry(ColourKey, if SaysGlass(s) then Transparent else White),
     Entry(SizeKey, "Универсальный"),
     Entry(WeightKey, "Уточняется")]
  }

  /**
   * The category defaults: the material follows the precedence porcelain,
   * ceramic, glass, plastic and falls back to steel; the steel keywords
   * themselves never change the outcome; the colour is transparent exactly
   * for glass.
   */
  lemma CategoryDefaultsSpec(category: string, name: string)
    ensures var s := Lower(category + " " + name);
            var r := CategoryDefaults(category, name);
            && (r[0].value == Porcelain <==> SaysPorcelain(s))
            && (r[0].value == Ceramic <==> !SaysPorcelain(s) && SaysCeramic(s))
            && (r[0].value == Glass <==> !SaysPorcelain(s) && !SaysCeramic(s) && SaysGlass(s))
            && (r[0].value == Plastic <==>
                  !SaysPorcelain(s) && !SaysCeramic(s) && !SaysGlass(s) && SaysPlastic(s))
            && (r[0].value == Steel <==>
                  !SaysPorcelain(s) && !SaysCeramic(s) && !SaysGlass(s) && !SaysPlastic(s))
            && (r[1].value == Transparent <==> SaysGlass(s))
  {
  }

  /** `guessMaterialFromName(name)`: a different precedence, and wood. */
  function GuessMaterial(name: string): (r: string)
    ensures r != []
  {
    var s := Lower(name);
    if SaysPorcelain(s) then Porcelain
    else if SaysGlass(s) then Glass
    else if SaysCeramic(s) then Ceramic
    else if SaysSteel(s) then Steel
    else if SaysPlastic(s) then Plastic
    else if SaysWood(s) then Wood
    else Porcelain
  }

  // ---------------------------------------------------------------------------
  // guessSizeFromName: name.match(/(\d{2,3})(\s?см|\s?mm|\s?мм|\s?cm)?/i)

  predicate DigitPairAt(s: string, j: nat) { j + 1 < |s| && IsDigit(s[j]) && IsDigit(s[j + 1]) }

  /** Where the leftmost match starts: the first two adjacent digits at or after `i`. */
  function FirstDigitPair(s: string, i: nat): (r: Option<nat>)
    requires i <= |s|
    ensures r.Some? ==> i <= r.value && DigitPairAt(s, r.value)
                        && forall j :: i <= j < r.value ==> !DigitPairAt(s, j)
    ensures r.None? ==> forall j :: i <= j < |s| ==> !DigitPairAt(s, j)
    decreases |s| - i
  {
    if i + 1 >= |s| then None
    else if DigitPairAt(s, i) then Some(i)
    else FirstDigitPair(s, i + 1)
  }

  /** The unit the optional group takes at `k`, lower-cased, if one is there. */
  function UnitAt(s: string, k: nat): (r: Option<string>)
    ensures r.Some? ==> r.value in {"см", "mm", "мм", "cm"}
  {
    var j := if k < |s| && IsWs(s[k]) then k + 1 else k;
    if j + 2 <= |s| && Lower(s[j..j + 2]) in {"см", "mm", "мм", "cm"} then Some(Lower(s[j..j + 2]))
    else None
  }

  /** `guessSizeFromName(name)`. */
  function GuessSize(name: string): (r: string)
  {
    match FirstDigitPair(name, 0)
    case None => ""
    case Some(i) =>
      var len := if i + 2 < |name| && IsDigit(name[i + 2]) then 3 else 2;
      var unit := UnitAt(name, i + len);
      name[i..i + len] + (if unit == Some("mm") || unit == Some("мм") then " мм" else " см")
  }

  /**
   * The size guess is empty exactly when the name has no two adjacent digits;
   * otherwise it is the first run of two or three digits followed by " мм"
   * when a millimetre unit follows and by " см" otherwise.
   */
  lemma GuessSizeSpec(name: string)
    ensures var r := GuessSize(name);
            && (r == [] <==> forall j :: 0 <= j < |name| ==> !DigitPairAt(name, j))
            && (r != [] ==>
                  && (|r| == 5 || |r| == 6)
                  && AllDigits(r[..|r| - 3])
                  && (EndsWith(r, " см") || EndsWith(r, " мм"))
                  && exists i :: 0 <= i && i + |r| - 3 <= |name| && name[i..i + |r| - 3] == r[..|r| - 3]
                                 && DigitPairAt(name, i) && forall j :: 0 <= j < i ==> !DigitPairAt(name, j))
  {
    match FirstDigitPair(name, 0)
    case None =>
      assert GuessSize(name) == [];
      assert forall j :: 0 <= j < |name| ==> !DigitPairAt(name, j);
    case Some(i) =>
      GuessSizeAt(name, i);
  }

  /** The guess once the first digit pair is known to start at `i`. */
  lemma GuessSizeAt(name: string, i: nat)
    requires FirstDigitPair(name, 0) == Some(i)
    ensures var r := GuessSize(name);
            && (|r| == 5 || |r| == 6)
            && AllDigits(r[..|r| - 3]) && name[i..i + |r| - 3] == r[..|r| - 3]
            && (EndsWith(r, " см") || EndsWith(r, " мм"))
  {
    var r := GuessSize(name);
    var len := if i + 2 < |name| && IsDigit(name[i + 2]) then 3 else 2;
    var u := if UnitAt(name, i + len) == Some("mm") || UnitAt(name, i + len) == Some("мм") then " мм" else " см";
    assert r == name[i..i + len] + u;
    assert |u| == 3;
    assert r[..|r| - 3] == name[i..i + len];
    assert r[|r| - 3..] == u;
  }

  // ---------------------------------------------------------------------------
  // stage 2: completing the seven standard keys

  /** The fields of a catalog record the pass reads or writes; an absent field is empty. */
  datatype Item = Item(name: string, category: string, material: string, brand: Enrich.BrandField,
                       country: string, color: string, size: string, diameter: string,
                       weight: string, volume: string, capacity: string,
                       description: string, specs: Specs, specsArray: seq<NamedSpec>,
                       imageUrl: string, images: seq<string>)

  const SevenKeys := [MaterialKey, BrandKey, CountryKey, SizeKey, WeightKey, VolumeKey, ColourKey]

  /** The dictionary literal `{ keys[0]: values[0], ... }`. */
  function Entries(keys: seq<string>, values: seq<string>): (r: seq<Entry>)
    requires |keys| == |values|
    ensures |r| == |keys| && forall i :: 0 <= i < |r| ==> r[i] == Entry(keys[i], values[i])
  {
    seq(|keys|, i requires 0 <= i < |keys| => Entry(keys[i], values[i]))
  }

  /** `m[k] || ...`: the value, or the empty string when the key is missing. */
  function Value(v: Option<string>): string { if v.Some? then v.value else "" }

  /** The first-stage additions: each field as given, or empty. */
  function BaseSpecs(p: Item): seq<Entry> {
    [Entry(MaterialKey, p.material), Entry(BrandKey, Enrich.BrandName(p.brand)),
     Entry(CountryKey, p.country), Entry(ColourKey, p.color),
     Entry(SizeKey, Or(p.size, p.diameter)), Entry(WeightKey, p.weight),
     Entry(VolumeKey, Or(p.volume, p.capacity))]
  }

  /**
   * What the second stage derives from the record's category and name: the
   * four category defaults, and the material and size guessed from the name.
   */
  datatype Guesses = Guesses(material: string, colour: string, size: string, weight: string,
                             nameMaterial: string, nameSize: string)

  function GuessesOf(p: Item): Guesses {
    var cat := CategoryDefaults(p.category, p.name);
    Guesses(Value(Get(cat, MaterialKey)), Value(Get(cat, ColourKey)), Value(Get(cat, SizeKey)),
            Value(Get(cat, WeightKey)), GuessMaterial(p.name), GuessSize(p.name))
  }

  /** The values of the seven standard keys, in the order the pass lists them. */
  datatype Defaults = Defaults(material: string, brand: string, country: string, size: string,
                               weight: string, volume: string, colour: string)

  /** The dictionary literal listing `d` under the seven standard keys. */
  function AsEntries(d: Defaults): (r: seq<Entry>)
    ensures |r| == 7 && forall i :: 0 <= i < 7 ==> r[i].key == SevenKeys[i]
  {
    [Entry(MaterialKey, d.material), Entry(BrandKey, d.brand), Entry(CountryKey, d.country),
     Entry(SizeKey, d.size), Entry(WeightKey, d.weight), Entry(VolumeKey, d.volume),
     Entry(ColourKey, d.colour)]
  }

  predicate NoneBlank(d: Defaults) {
    && !NoNonWs(d.material) && !NoNonWs(d.brand) && !NoNonWs(d.country) && !NoNonWs(d.size)
    && !NoNonWs(d.weight) && !NoNonWs(d.volume) && !NoNonWs(d.colour)
  }

  lemma AsEntriesUsable(d: Defaults)
    requires NoneBlank(d)
    ensures forall i :: 0 <= i < 7 ==> Usable(AsEntries(d)[i])
  {
  }

  /**
   * The second-stage defaults as written: a field is taken whenever it is a
   * non-empty string, even one of white space only, which the merge then
   * trims to nothing and skips.
   */
  function DefaultsAsWritten(p: Item, g: Guesses): Defaults {
    Defaults(Or(Or(p.material, g.material), g.nameMaterial),
             Or(Enrich.BrandName(p.brand), DefaultBrand),
             Or(p.country, DefaultCountry),
             Or(Or(Or(Or(p.size, p.diameter), g.nameSize), g.size), DefaultSize),
             Or(Or(p.weight, g.weight), DefaultWeight),
             Or(Or(p.volume, p.capacity), DefaultVolume),
             Or(Or(p.color, g.colour), White))
  }

  function StageTwoDefaultsAsWritten(p: Item): seq<Entry> { AsEntries(DefaultsAsWritten(p, GuessesOf(p))) }

  /** A record of that kind: a brand of one space and nothing else. */
  const BlankBrandItem := Item("", "", "", Enrich.BrandText(" "), "", "", "", "", "", "", "",
                               "", [], [], "", [])

  /** As written, the blank brand wins over the default, whatever the guesses. */
  lemma AsWrittenSkipsBlankBrand(g: Guesses)
    ensures !Has(Merged([], AsEntries(DefaultsAsWritten(BlankBrandItem, g))), BrandKey)
  {
    var adds := AsEntries(DefaultsAsWritten(BlankBrandItem, g));
    assert adds[1].value == " ";
    forall i | 0 <= i < |adds| && adds[i].key == BrandKey ensures !Usable(adds[i]) {
      assert SevenKeys[i] == BrandKey;
      assert i == 1;
    }
    MergeSkips([], adds, BrandKey);
  }

  /** So the completed specs of that record have no brand. */
  lemma AsWrittenLeavesBrandMissing()
    ensures !Has(Merged([], StageTwoDefaultsAsWritten(BlankBrandItem)), BrandKey)
  {
    AsWrittenSkipsBlankBrand(GuessesOf(BlankBrandItem));
  }

  /** `a || b` where a value of white space only counts as missing. */
  function OrBlank(a: string, b: string): string {
    if !NoNonWs(a) then a else b
  }

  /** A fallback that is not blank makes the whole choice not blank. */
  lemma OrBlankNotBlank(a: string, b: string)
    requires !NoNonWs(b)
    ensures !NoNonWs(OrBlank(a, b))
  {
  }

  /** A word that starts with a character other than white space is not blank. */
  lemma WordNotBlank(s: string)
    requires s != [] && !IsWs(s[0])
    ensures !NoNonWs(s)
  {
  }

  /** The second-stage defaults with a blank field treated as missing. */
  function DefaultsWith(p: Item, g: Guesses): Defaults {
    Defaults(OrBlank(OrBlank(p.material, g.material), g.nameMaterial),
             OrBlank(Enrich.BrandName(p.brand), DefaultBrand),
             OrBlank(p.country, DefaultCountry),
             OrBlank(OrBlank(OrBlank(OrBlank(p.size, p.diameter), g.nameSize), g.size), DefaultSize),
             OrBlank(OrBlank(p.weight, g.weight), DefaultWeight),
             OrBlank(OrBlank(p.volume, p.capacity), DefaultVolume),
             OrBlank(OrBlank(p.color, g.colour), White))
  }

  function StageTwoDefaults(p: Item): seq<Entry> { AsEntries(DefaultsWith(p, GuessesOf(p))) }

  /** A value that is empty or holds some character other than white space. */
  predicate NotWsOnly(s: string) { s == [] || !NoNonWs(s) }

  /** Where neither side is white space only, the two fallbacks choose alike. */
  lemma OrBlankAgrees(a: string, b: string)
    requires NotWsOnly(a) && NotWsOnly(b)
    ensures OrBlank(a, b) == Or(a, b) && NotWsOnly(Or(a, b))
  {
  }

  /**
   * The defaults as written and the intended ones agree on every record and
   * guess set none of whose fields is white space only.
   */
  lemma DefaultsAgree(p: Item, g: Guesses)
    requires NotWsOnly(p.material) && NotWsOnly(g.material) && NotWsOnly(g.nameMaterial)
    requires NotWsOnly(Enrich.BrandName(p.brand)) && NotWsOnly(p.country)
    requires NotWsOnly(p.size) && NotWsOnly(p.diameter) && NotWsOnly(g.nameSize) && NotWsOnly(g.size)
    requires NotWsOnly(p.weight) && NotWsOnly(g.weight) && NotWsOnly(p.volume) && NotWsOnly(p.capacity)
    requires NotWsOnly(p.color) && NotWsOnly(g.colour)
    ensures DefaultsAsWritten(p, g) == DefaultsWith(p, g)
  {
    WordNotBlank(DefaultBrand);
    WordNotBlank(DefaultCountry);
    WordNotBlank(DefaultSize);
    WordNotBlank(DefaultWeight);
    WordNotBlank(DefaultVolume);
    WordNotBlank(White);
    OrBlankAgrees(p.material, g.material);
    OrBlankAgrees(Or(p.material, g.material), g.nameMaterial);
    OrBlankAgrees(Enrich.BrandName(p.brand), DefaultBrand);
    OrBlankAgrees(p.country, DefaultCountry);
    OrBlankAgrees(p.size, p.diameter);
    OrBlankAgrees(Or(p.size, p.diameter), g.nameSize);
    OrBlankAgrees(Or(Or(p.size, p.diameter), g.nameSize), g.size);
    OrBlankAgrees(Or(Or(Or(p.size, p.diameter), g.nameSize), g.size), DefaultSize);
    OrBlankAgrees(p.weight, g.weight);
    OrBlankAgrees(Or(p.weight, g.weight), DefaultWeight);
    OrBlankAgrees(p.volume, p.capacity);
    OrBlankAgrees(Or(p.volume, p.capacity), DefaultVolume);
    OrBlankAgrees(p.color, g.colour);
    OrBlankAgrees(Or(p.color, g.colour), White);
  }

  /** No second-stage default is blank, whatever the guesses. */
  lemma DefaultsNotBlank(p: Item, g: Guesses)
    requires !NoNonWs(g.nameMaterial)
    ensures NoneBlank(DefaultsWith(p, g))
  {
    OrBlankNotBlank(OrBlank(p.material, g.material), g.nameMaterial);
    WordNotBlank(DefaultBrand);
    WordNotBlank(DefaultCountry);
    WordNotBlank(DefaultSize);
    WordNotBlank(DefaultWeight);
    WordNotBlank(DefaultVolume);
    WordNotBlank(White);
    OrBlankNotBlank(Enrich.BrandName(p.brand), DefaultBrand);
    OrBlankNotBlank(p.country, DefaultCountry);
    OrBlankNotBlank(OrBlank(OrBlank(OrBlank(p.size, p.diameter), g.nameSize), g.size), DefaultSize);
    OrBlankNotBlank(OrBlank(p.weight, g.weight), DefaultWeight);
    OrBlankNotBlank(OrBlank(p.volume, p.capacity), DefaultVolume);
    OrBlankNotBlank(OrBlank(p.color, g.colour), White);
  }

  /** The material guessed from the name is never blank. */
  lemma GuessesOfFilled(p: Item)
    ensures !NoNonWs(GuessesOf(p).nameMaterial)
  {
    var m := GuessMaterial(p.name);
    assert m in Materials;
    WordNotBlank(m);
  }

  /** After the second stage the seven standard keys all have non-empty values. */
  lemma StageTwoCompletes(specs: Specs, p: Item)
    ensures var r := Merged(specs, StageTwoDefaults(p));
            && !Unset(Get(r, MaterialKey)) && !Unset(Get(r, BrandKey)) && !Unset(Get(r, CountryKey))
            && !Unset(Get(r, SizeKey)) && !Unset(Get(r, WeightKey)) && !Unset(Get(r, VolumeKey))
            && !Unset(Get(r, ColourKey))
  {
    var g := GuessesOf(p);
    var adds := AsEntries(DefaultsWith(p, g));
    GuessesOfFilled(p);
    DefaultsNotBlank(p, g);
    AsEntriesUsable(DefaultsWith(p, g));
    MergeFills(specs, adds, 0);
    MergeFills(specs, adds, 1);
    MergeFills(specs, adds, 2);
    MergeFills(specs, adds, 3);
    MergeFills(specs, adds, 4);
    MergeFills(specs, adds, 5);
    MergeFills(specs, adds, 6);
  }

  /**
   * The fallbacks behind the category defaults never apply: the material is
   * never guessed from the name, and the size, weight and colour literals are
   * never used, because the category defaults always have a value there.
   */
  lemma CategoryDefaultsShadowFallbacks(p: Item)
    ensures var d := DefaultsWith(p, GuessesOf(p));
            var cat := CategoryDefaults(p.category, p.name);
            && d.material == OrBlank(p.material, cat[0].value)
            && d.weight == OrBlank(p.weight, cat[3].value)
            && d.colour == OrBlank(p.color, cat[1].value)
  {
    var cat := CategoryDefaults(p.category, p.name);
    assert Get(cat, MaterialKey) == Some(cat[0].value);
    assert Get(cat, ColourKey) == Some(cat[1].value);
    assert cat[1..][1..] == cat[2..] && cat[2..][1..] == cat[3..];
    assert Get(cat[3..], WeightKey) == Some(cat[3].value);
    assert Get(cat[2..], WeightKey) == Some(cat[3].value);
    assert Get(cat[1..], WeightKey) == Some(cat[3].value);
    assert Get(cat, WeightKey) == Some(cat[3].value);
    WordNotBlank(cat[0].value);
    WordNotBlank(cat[1].value);
    WordNotBlank(cat[3].value);
  }

  // ---------------------------------------------------------------------------
  // generateDescription

  /**
   * The fixed text of a generated description: the text before and after the
   * product name in the opening sentence, the text around the material and
   * around the brand in their sentences, two fixed sentences, the call to
   * action, the pattern that recognises it, and the two sentences the length
   * loop appends in turn.
   */
  datatype Wording = Wording(introOpen: string, introClose: string,
                             materialOpen: string, materialClose: string,
                             brandOpen: string, brandClose: string,
                             design: string, usage: string,
                             cta: string, ctaMark: string,
                             more: string, moreAgain: string)

  /**
   * What the logic relies on and the pass's own text satisfies: the first
   * extra sentence is not empty, and the call to action matches its pattern.
   */
  predicate Worded(w: Wording) { w.more != [] && HasCta(w.cta, w) }

  /** The case-insensitive test for the call to action. */
  predicate HasCta(s: string, w: Wording) { Contains(Lower(s), Lower(w.ctaMark)) }

  /** JavaScript truthiness of the brand: a non-empty string or any record. */
  predicate BrandGiven(b: Enrich.BrandField) {
    match b
    case BrandText(t) => t != []
    case BrandRecord(_) => true
    case NoBrand => false
  }

  /** `typeof brand === 'string' ? brand : brand?.name || brand`, as interpolated. */
  function BrandShown(b: Enrich.BrandField): string {
    match b
    case BrandText(t) => t
    case BrandRecord(n) => if n != [] then n else "[object Object]"
    case NoBrand => "undefined"
  }

  /** The sentences of a generated description, before the call to action. */
  function Parts(name: string, material: string, brand: Enrich.BrandField, w: Wording): seq<string> {
    [w.introOpen + name + w.introClose]
    + (if material != [] then [w.materialOpen + material + w.materialClose] else [])
    + (if BrandGiven(brand) then [w.brandOpen + BrandShown(brand) + w.brandClose] else [])
    + [w.design, w.usage]
  }

  /** The call to action appended unless the text already has it. */
  function WithCta(d: string, w: Wording): string { if HasCta(d, w) then d else d + w.cta }

  /** The length loop: extra sentences until the text reaches 250 characters or passes 280. */
  function Extended(d: string, w: Wording): string
    requires w.more != []
    decreases 250 - |d|
  {
    if |d| >= 250 then d
    else if |d + w.more| > 280 then d + w.more
    else Extended(d + w.more + w.moreAgain, w)
  }

  /** The characters `/[.,;:\-\s]+$/u` strips. */
  predicate IsCutJunk(c: char) { c == '.' || c == ',' || c == ';' || c == ':' || c == '-' || IsWs(c) }

  /** How many such characters `s` ends with. */
  function TrailingJunk(s: string): (n: nat)
    ensures n <= |s|
    ensures n < |s| ==> !IsCutJunk(s[|s| - n - 1])
  {
    if s != [] && IsCutJunk(s[|s| - 1]) then 1 + TrailingJunk(s[..|s| - 1]) else 0
  }

  /** A text over 500 characters cut to 497, stripped of trailing punctuation, plus `...`. */
  function Shortened(d: string): string {
    if |d| > 500 then
      var head := d[..497];
      head[..|head| - TrailingJunk(head)] + "..."
    else d
  }

  /** `generateDescription(name, material, brand)`. */
  function Description(name: string, material: string, brand: Enrich.BrandField, w: Wording): string
    requires w.more != []
  {
    Shortened(Extended(WithCta(Join(Parts(name, material, brand, w), " "), w), w))
  }

  /** The length loop of `generateDescription`. */
  method Lengthen(d: string, w: Wording) returns (desc: string)
    requires w.more != []
    ensures desc == Extended(d, w)
  {
    desc := d;
    while |desc| < 250
      invariant Extended(desc, w) == Extended(d, w)
      decreases 250 - |desc|
    {
      ghost var before := desc;
      desc := desc + w.more;
      if |desc| > 280 {
        assert desc == Extended(before, w);
        break;
      }
      desc := desc + w.moreAgain;
    }
  }

  method GenerateDescription(name: string, material: string, brand: Enrich.BrandField, w: Wording)
    returns (desc: string)
    requires w.more != []
    ensures desc == Description(name, material, brand, w)
  {
    var parts := DescriptionParts(name, material, brand, w);
    desc := Join(parts, " ");
    if !HasCta(desc, w) {
      desc := desc + w.cta;
    }
    desc := Lengthen(desc, w);
    desc := Shorten(desc);
  }

  /** The sentences of the description, in order. */
  method DescriptionParts(name: string, material: string, brand: Enrich.BrandField, w: Wording)
    returns (parts: seq<string>)
    ensures parts == Parts(name, material, brand, w)
  {
    parts := [w.introOpen + name + w.introClose];
    if material != [] {
      parts := parts + [w.materialOpen + material + w.materialClose];
    }
    if BrandGiven(brand) {
      parts := parts + [w.brandOpen + BrandShown(brand) + w.brandClose];
    }
    parts := parts + [w.design, w.usage];
  }

  /** The cut to 500 characters. */
  method Shorten(d: string) returns (desc: string)
    ensures desc == Shortened(d)
  {
    desc := d;
    if |desc| > 500 {
      var head := desc[..497];
      desc := head[..|head| - TrailingJunk(head)] + "...";
    }
  }

  /**
   * The length loop only appends; it ends at 250 characters or more, and,
   * when it ran at all, before 280 characters plus the two extra sentences.
   */
  lemma {:induction false} ExtendedSpec(d: string, w: Wording)
    requires w.more != []
    ensures var r := Extended(d, w);
            && |r| >= 250 && |d| <= |r| && r[..|d|] == d
            && (|d| >= 250 ==> r == d)
            && (|d| < 250 ==> |r| <= 280 + |w.more| + |w.moreAgain|)
    decreases 250 - |d|
  {
    if |d| < 250 && |d + w.more| <= 280 {
      var d' := d + w.more + w.moreAgain;
      ExtendedSpec(d', w);
      var r := Extended(d', w);
      assert r[..|d|] == r[..|d'|][..|d|];
    }
  }

  /** Appending keeps the call to action. */
  lemma HasCtaAppend(d: string, tail: string, w: Wording)
    requires HasCta(d, w)
    ensures HasCta(d + tail, w)
  {
    LowerAppend(d, tail);
    ContainsAppendRight(Lower(d), Lower(tail), Lower(w.ctaMark));
  }

  /** The text the length loop starts from has the call to action. */
  lemma WithCtaHasCta(d: string, w: Wording)
    requires Worded(w)
    ensures HasCta(WithCta(d, w), w)
  {
    if !HasCta(d, w) {
      LowerAppend(d, w.cta);
      ContainsAppendLeft(Lower(d), Lower(w.cta), Lower(w.ctaMark));
    }
  }

  /** Shortening bounds the text by 500 and otherwise leaves it alone. */
  lemma ShortenedSpec(d: string)
    ensures var r := Shortened(d);
            && |r| <= 500
            && (|d| <= 500 ==> r == d)
            && (|d| > 500 ==>
                  && EndsWith(r, "...") && |r| - 3 <= 497 && r[..|r| - 3] == d[..|r| - 3]
                  && (|r| > 3 ==> !IsCutJunk(r[|r| - 4])))
  {
    if |d| > 500 {
      var head := d[..497];
      var kept := head[..|head| - TrailingJunk(head)];
      var r := kept + "...";
      assert r[..|r| - 3] == kept;
      if |r| > 3 {
        assert r[|r| - 4] == head[|head| - TrailingJunk(head) - 1];
      }
    }
  }

  /**
   * A generated description is at most 500 characters; the text before the
   * cut always has the call to action; when that text is not over 500 it is
   * the result, at least 250 characters long and with the call to action,
   * and otherwise the result is a prefix of it followed by `...`.
   */
  lemma DescriptionSpec(name: string, material: string, brand: Enrich.BrandField, w: Wording)
    requires Worded(w)
    ensures var e := Extended(WithCta(Join(Parts(name, material, brand, w), " "), w), w);
            var r := Description(name, material, brand, w);
            && |r| <= 500 && HasCta(e, w)
            && (|e| <= 500 ==> r == e && |r| >= 250 && HasCta(r, w))
            && (|e| > 500 ==> EndsWith(r, "...") && r[..|r| - 3] == e[..|r| - 3])
  {
    var d := WithCta(Join(Parts(name, material, brand, w), " "), w);
    var e := Extended(d, w);
    WithCtaHasCta(Join(Parts(name, material, brand, w), " "), w);
    ExtendedSpec(d, w);
    assert e == d + e[|d|..];
    HasCtaAppend(d, e[|d|..], w);
    ShortenedSpec(e);
  }

  const DefaultName := "Товар"

  /** The description as the pass generates it for a record. */
  function Generated(p: Item, w: Wording): string
    requires w.more != []
  {
    Description(Or(p.name, DefaultName), p.material, p.brand, w)
  }

  /** The first stage: a description under 60 characters after trimming is generated. */
  function FirstDescription(p: Item, w: Wording): string
    requires w.more != []
  {
    if |Trim(p.description)| < 60 then Generated(p, w) else p.description
  }

  /**
   * The second stage: a description under 250 characters after trimming, or
   * without the call to action, is generated again.
   */
  function SecondDescription(d: string, p: Item, w: Wording): string
    requires w.more != []
  {
    var now := Trim(d);
    if |now| < 250 || !HasCta(now, w) then Generated(p, w) else d
  }

  /**
   * After the second stage the description is the generated one or an
   * existing text of at least 250 characters with the call to action, and a
   * second run of the stage keeps it.
   */
  lemma SecondDescriptionSpec(d: string, p: Item, w: Wording)
    requires w.more != []
    ensures var r := SecondDescription(d, p, w);
            && (r == Generated(p, w) || (r == d && |Trim(d)| >= 250 && HasCta(Trim(d), w)))
            && SecondDescription(r, p, w) == r
  {
  }

  // ---------------------------------------------------------------------------
  // ensureThreeLocalImages

  datatype Slot = Main | Alt1 | Alt2

  function Rank(s: Slot): nat {
    match s
    case Main => 0
    case Alt1 => 1
    case Alt2 => 2
  }

  function FileName(s: Slot): string {
    match s
    case Main => "main.webp"
    case Alt1 => "alt1.webp"
    case Alt2 => "alt2.webp"
  }

  /** `/products/<slug>/<file>`. */
  function SlotUrl(slug: string, s: Slot): string { "/products/" + slug + "/" + FileName(s) }

  const NoImage := "/no-image.svg"

  /** Which of the three slot files exist; the pass's `localSet` tracks exactly these. */
  datatype Slots = Slots(main: bool, alt1: bool, alt2: bool)

  predicate Filled(f: Slots, s: Slot) {
    match s
    case Main => f.main
    case Alt1 => f.alt1
    case Alt2 => f.alt2
  }

  function With(f: Slots, s: Slot): (r: Slots)
    ensures Filled(r, s) && forall t :: t != s ==> Filled(r, t) == Filled(f, t)
  {
    match s
    case Main => f.(main := true)
    case Alt1 => f.(alt1 := true)
    case Alt2 => f.(alt2 := true)
  }

  /** `localSet.size`. */
  function Count(f: Slots): (n: nat)
    ensures n <= 3
    ensures n == 3 <==> f.main && f.alt1 && f.alt2
  {
    (if f.main then 1 else 0) + (if f.alt1 then 1 else 0) + (if f.alt2 then 1 else 0)
  }

  lemma CountWith(f: Slots, s: Slot)
    requires !Filled(f, s)
    ensures Count(With(f, s)) == Count(f) + 1
  {
  }

  /** The slot the next image goes to: the first free one in main, alt1, alt2 order. */
  function NextSlot(f: Slots): (s: Slot)
    ensures Count(f) < 3 ==> !Filled(f, s)
    ensures forall t :: Rank(t) < Rank(s) ==> Filled(f, t)
  {
    if !f.main then Main else if !f.alt1 then Alt1 else Alt2
  }

  /** The slot files so far and the slots written, in order. */
  datatype Progress = Progress(files: Slots, writes: seq<Slot>)

  function Record(st: Progress, s: Slot): Progress { Progress(With(st.files, s), st.writes + [s]) }

  /** A write into the next free slot that succeeded or did not. */
  function Try(st: Progress, ok: bool): Progress { if ok then Record(st, NextSlot(st.files)) else st }

  /** `/^https?:/i`. */
  predicate IsHttp(u: string) { StartsWith(Lower(u), "http:") || StartsWith(Lower(u), "https:") }

  /**
   * The outcomes of the file operations the pass performs, which this model
   * takes as given: whether a `/imported/` file exists, whether converting it
   * or downloading a URL into a slot succeeds, the URLs an image search
   * returns, whether the last-resort download or the placeholder for a slot
   * succeeds, and whether copying the main file into a slot succeeds.
   */
  datatype ImageEnv = ImageEnv(importedExists: string -> bool, copied: (string, Slot) -> bool,
                               downloaded: (string, Slot) -> bool, found: seq<string>,
                               fallback: Slot -> bool, placeholder: Slot -> bool,
                               duplicated: Slot -> bool)

  /** What one entry of the existing image list contributes. */
  function ConvertOne(st: Progress, u: string, env: ImageEnv): Progress {
    var t := NextSlot(st.files);
    if StartsWith(u, "/products/") then st
    else if StartsWith(u, "/imported/") then Try(st, env.importedExists(u) && env.copied(u, t))
    else if IsHttp(u) then Try(st, env.downloaded(u, t))
    else st
  }

  /** The existing images converted into slots, until three are filled. */
  function Converted(st: Progress, us: seq<string>, env: ImageEnv): Progress
    decreases |us|
  {
    if us == [] || Count(st.files) >= 3 then st
    else Converted(ConvertOne(st, us[0], env), us[1..], env)
  }

  /** Search results downloaded into slots, until three are filled. */
  function Downloaded(st: Progress, urls: seq<string>, env: ImageEnv): Progress
    decreases |urls|
  {
    if urls == [] || Count(st.files) >= 3 then st
    else Downloaded(Try(st, env.downloaded(urls[0], NextSlot(st.files))), urls[1..], env)
  }

  /** The last-resort download, or else a placeholder, for every free slot in order. */
  function LastResort(st: Progress, slots: seq<Slot>, env: ImageEnv): Progress
    decreases |slots|
  {
    if slots == [] || Count(st.files) >= 3 then st
    else
      var s := slots[0];
      var next := if !Filled(st.files, s) && (env.fallback(s) || env.placeholder(s)) then Record(st, s) else st;
      LastResort(next, slots[1..], env)
  }

  /** The main file copied into the free alternative slots. */
  function Duplicated(st: Progress, env: ImageEnv): Progress {
    if Count(st.files) < 3 && st.files.main then
      var a := if !st.files.alt1 && env.duplicated(Alt1) then Record(st, Alt1) else st;
      if Count(a.files) < 3 && !a.files.alt2 && env.duplicated(Alt2) then Record(a, Alt2) else a
    else st
  }

  const SlotOrder := [Main, Alt1, Alt2]

  /** Everything `ensureThreeLocalImages` does to the slot files. */
  function ThreeImages(files0: Slots, images: seq<string>, env: ImageEnv): Progress {
    var st1 := Converted(Progress(files0, []), Dedup.Distinct(images), env);
    var st2 := if Count(st1.files) < 3 then Downloaded(st1, Dedup.Distinct(env.found), env) else st1;
    var st3 := if Count(st2.files) < 3 then LastResort(st2, SlotOrder, env) else st2;
    Duplicated(st3, env)
  }

  /** The existing slot URLs in main, alt1, alt2 order. */
  function Present(slug: string, f: Slots): (r: seq<string>)
    ensures |r| == Count(f)
  {
    (if f.main then [SlotUrl(slug, Main)] else [])
    + (if f.alt1 then [SlotUrl(slug, Alt1)] else [])
    + (if f.alt2 then [SlotUrl(slug, Alt2)] else [])
  }

  /** The finished list: the existing slots padded with the placeholder to three. */
  function Finalised(slug: string, f: Slots): (r: seq<string>)
    ensures |r| == 3
  {
    Present(slug, f) + seq(3 - Count(f), _ => NoImage)
  }

  /** The loop over the existing images (lines 487-523). */
  method ConvertImages(st0: Progress, current: seq<string>, env: ImageEnv) returns (st: Progress)
    ensures st == Converted(st0, current, env)
  {
    st := st0;
    var i := 0;
    while i < |current|
      invariant 0 <= i <= |current|
      invariant Converted(st, current[i..], env) == Converted(st0, current, env)
    {
      if Count(st.files) >= 3 {
        break;
      }
      var u := current[i];
      var target := NextSlot(st.files);
      if StartsWith(u, "/products/") {
      } else if StartsWith(u, "/imported/") {
        if env.importedExists(u) && env.copied(u, target) {
          st := Record(st, target);
        }
      } else if IsHttp(u) {
        if env.downloaded(u, target) {
          st := Record(st, target);
        }
      }
      assert current[i..][1..] == current[i + 1..];
      i := i + 1;
    }
  }

  /** The loop over the search results (lines 533-549). */
  method DownloadImages(st0: Progress, urls: seq<string>, env: ImageEnv) returns (st: Progress)
    ensures st == Downloaded(st0, urls, env)
  {
    st := st0;
    var j := 0;
    while j < |urls|
      invariant 0 <= j <= |urls|
      invariant Downloaded(st, urls[j..], env) == Downloaded(st0, urls, env)
    {
      if Count(st.files) >= 3 {
        break;
      }
      st := Try(st, env.downloaded(urls[j], NextSlot(st.files)));
      assert urls[j..][1..] == urls[j + 1..];
      j := j + 1;
    }
  }

  /** The loop over the three slots with the last-resort image or a placeholder (lines 555-585). */
  method LastResortImages(st0: Progress, env: ImageEnv) returns (st: Progress)
    ensures st == LastResort(st0, SlotOrder, env)
  {
    st := st0;
    var k := 0;
    while k < |SlotOrder|
      invariant 0 <= k <= |SlotOrder|
      invariant LastResort(st, SlotOrder[k..], env) == LastResort(st0, SlotOrder, env)
    {
      if Count(st.files) >= 3 {
        break;
      }
      var slot := SlotOrder[k];
      if !Filled(st.files, slot) && (env.fallback(slot) || env.placeholder(slot)) {
        st := Record(st, slot);
      }
      assert SlotOrder[k..][1..] == SlotOrder[k + 1..];
      k := k + 1;
    }
  }

  /** The finished image list (lines 622-629). */
  method FinaliseImages(slug: string, files: Slots) returns (ordered: seq<string>)
    ensures ordered == Finalised(slug, files)
  {
    ordered := [];
    if files.main {
      ordered := ordered + [SlotUrl(slug, Main)];
    }
    if files.alt1 {
      ordered := ordered + [SlotUrl(slug, Alt1)];
    }
    if files.alt2 {
      ordered := ordered + [SlotUrl(slug, Alt2)];
    }
    assert ordered == Present(slug, files);
    while |ordered| < 3
      invariant Count(files) <= |ordered| <= 3
      invariant ordered == Present(slug, files) + seq(|ordered| - Count(files), _ => NoImage)
    {
      ordered := ordered + [NoImage];
    }
  }

  /** `ensureThreeLocalImages`: the slot files it leaves and the image list it sets. */
  method EnsureThreeImages(slug: string, images0: seq<string>, files0: Slots, env: ImageEnv)
    returns (files: Slots, images: seq<string>, imageUrl: string)
    ensures files == ThreeImages(files0, images0, env).files
    ensures images == Finalised(slug, files) && imageUrl == images[0]
  {
    var st := ConvertImages(Progress(files0, []), Dedup.Distinct(images0), env);
    if Count(st.files) < 3 {
      st := DownloadImages(st, Dedup.Distinct(env.found), env);
    }
    if Count(st.files) < 3 {
      st := LastResortImages(st, env);
    }
    if Count(st.files) < 3 && st.files.main {
      if !st.files.alt1 && env.duplicated(Alt1) {
        st := Record(st, Alt1);
      }
      if Count(st.files) < 3 && !st.files.alt2 && env.duplicated(Alt2) {
        st := Record(st, Alt2);
      }
    }
    files := st.files;
    images := FinaliseImages(slug, files);
    imageUrl := images[0];
  }

  /**
   * What the pass does to the slot files is sound: no slot is written twice,
   * no slot that already existed is written, and the files at the end are
   * the initial ones plus the written ones.
   */
  predicate Sound(files0: Slots, st: Progress) {
    && (forall i, j :: 0 <= i < j < |st.writes| ==> st.writes[i] != st.writes[j])
    && (forall s :: s in st.writes ==> !Filled(files0, s))
    && (forall s :: Filled(st.files, s) <==> Filled(files0, s) || s in st.writes)
  }

  lemma RecordSound(files0: Slots, st: Progress, s: Slot)
    requires Sound(files0, st) && !Filled(st.files, s)
    ensures Sound(files0, Record(st, s))
  {
  }

  lemma TrySound(files0: Slots, st: Progress, ok: bool)
    requires Sound(files0, st) && Count(st.files) < 3
    ensures Sound(files0, Try(st, ok))
  {
    if ok {
      RecordSound(files0, st, NextSlot(st.files));
    }
  }

  lemma {:induction false} ConvertedSound(files0: Slots, st: Progress, us: seq<string>, env: ImageEnv)
    requires Sound(files0, st)
    ensures Sound(files0, Converted(st, us, env))
    decreases |us|
  {
    if us != [] && Count(st.files) < 3 {
      TrySound(files0, st, env.importedExists(us[0]) && env.copied(us[0], NextSlot(st.files)));
      TrySound(files0, st, env.downloaded(us[0], NextSlot(st.files)));
      ConvertedSound(files0, ConvertOne(st, us[0], env), us[1..], env);
    }
  }

  lemma {:induction false} DownloadedSound(files0: Slots, st: Progress, urls: seq<string>, env: ImageEnv)
    requires Sound(files0, st)
    ensures Sound(files0, Downloaded(st, urls, env))
    decreases |urls|
  {
    if urls != [] && Count(st.files) < 3 {
      var ok := env.downloaded(urls[0], NextSlot(st.files));
      TrySound(files0, st, ok);
      DownloadedSound(files0, Try(st, ok), urls[1..], env);
    }
  }

  lemma {:induction false} LastResortSound(files0: Slots, st: Progress, slots: seq<Slot>, env: ImageEnv)
    requires Sound(files0, st)
    ensures Sound(files0, LastResort(st, slots, env))
    decreases |slots|
  {
    if slots != [] && Count(st.files) < 3 {
      var s := slots[0];
      if !Filled(st.files, s) && (env.fallback(s) || env.placeholder(s)) {
        RecordSound(files0, st, s);
        LastResortSound(files0, Record(st, s), slots[1..], env);
      } else {
        LastResortSound(files0, st, slots[1..], env);
      }
    }
  }

  lemma DuplicatedSound(files0: Slots, st: Progress, env: ImageEnv)
    requires Sound(files0, st)
    ensures Sound(files0, Duplicated(st, env))
  {
    if Count(st.files) < 3 && st.files.main {
      var a := if !st.files.alt1 && env.duplicated(Alt1) then Record(st, Alt1) else st;
      if !st.files.alt1 && env.duplicated(Alt1) {
        RecordSound(files0, st, Alt1);
      }
      if Count(a.files) < 3 && !a.files.alt2 && env.duplicated(Alt2) {
        RecordSound(files0, a, Alt2);
      }
    }
  }

  /** The whole pass is sound, whatever the file operations return. */
  lemma ThreeImagesSound(files0: Slots, images: seq<string>, env: ImageEnv)
    ensures Sound(files0, ThreeImages(files0, images, env))
  {
    var st0 := Progress(files0, []);
    var st1 := Converted(st0, Dedup.Distinct(images), env);
    ConvertedSound(files0, st0, Dedup.Distinct(images), env);
    var st2 := if Count(st1.files) < 3 then Downloaded(st1, Dedup.Distinct(env.found), env) else st1;
    DownloadedSound(files0, st1, Dedup.Distinct(env.found), env);
    var st3 := if Count(st2.files) < 3 then LastResort(st2, SlotOrder, env) else st2;
    LastResortSound(files0, st2, SlotOrder, env);
    DuplicatedSound(files0, st3, env);
  }

  /** A product whose three slot files already exist is left alone. */
  lemma ThreeImagesKeepsComplete(files0: Slots, images: seq<string>, env: ImageEnv)
    requires Count(files0) == 3
    ensures ThreeImages(files0, images, env) == Progress(files0, [])
  {
  }

  lemma {:induction false} LastResortFills(st: Progress, slots: seq<Slot>, env: ImageEnv)
    requires forall s :: env.placeholder(s)
    ensures var r := LastResort(st, slots, env);
            && (forall s :: Filled(st.files, s) ==> Filled(r.files, s))
            && (Count(r.files) == 3 || forall s :: s in slots ==> Filled(r.files, s))
    decreases |slots|
  {
    if slots != [] && Count(st.files) < 3 {
      var s := slots[0];
      var next := if !Filled(st.files, s) then Record(st, s) else st;
      LastResortFills(next, slots[1..], env);
    }
  }

  /** When the placeholder can always be written, every product ends with three slot files. */
  lemma ThreeImagesFull(files0: Slots, images: seq<string>, env: ImageEnv)
    requires forall s :: env.placeholder(s)
    ensures Count(ThreeImages(files0, images, env).files) == 3
  {
    var st1 := Converted(Progress(files0, []), Dedup.Distinct(images), env);
    var st2 := if Count(st1.files) < 3 then Downloaded(st1, Dedup.Distinct(env.found), env) else st1;
    if Count(st2.files) < 3 {
      LastResortFills(st2, SlotOrder, env);
      var r := LastResort(st2, SlotOrder, env);
      assert Main in SlotOrder && Alt1 in SlotOrder && Alt2 in SlotOrder;
    }
  }

  /**
   * The finished list has three entries: the existing slot URLs in main,
   * alt1, alt2 order, then the placeholder; its first entry, which becomes
   * the main image, is the main slot when that file exists.
   */
  lemma FinalisedSpec(slug: string, f: Slots)
    ensures var r := Finalised(slug, f);
            && |r| == 3
            && r[..Count(f)] == Present(slug, f)
            && (forall i :: Count(f) <= i < 3 ==> r[i] == NoImage)
            && (f.main <==> r[0] == SlotUrl(slug, Main))
            && (Count(f) == 0 <==> r[0] == NoImage)
  {
    var r := Finalised(slug, f);
    assert r[..Count(f)] == Present(slug, f);
    var at := |"/products/" + slug + "/"|;
    assert |NoImage| < at + 9;
    if Count(f) > 0 {
      assert r[0] == Present(slug, f)[0];
      if !f.main {
        assert r[0] == SlotUrl(slug, Alt1) || r[0] == SlotUrl(slug, Alt2);
        assert SlotUrl(slug, Main)[at] == 'm';
        assert SlotUrl(slug, Alt1)[at] == 'a' && SlotUrl(slug, Alt2)[at] == 'a';
      }
    }
  }

  // ---------------------------------------------------------------------------
  // One product, and the whole catalogue

  /**
   * What the image stages meet for one product: its slug, its image list as
   * the first image pass leaves it, the slot files that then exist, and the
   * outcomes of the second pass's file operations.
   */
  datatype ImageWorld = ImageWorld(slug: string, images: seq<string>, files: Slots, env: ImageEnv)

  /** A product after every stage of the pass (lines 247-703). */
  function Completed(p: Item, world: ImageWorld, w: Wording): Item
    requires w.more != []
  {
    var specs1 := Merged(p.specs, BaseSpecs(p));
    var files := ThreeImages(world.files, world.images, world.env).files;
    var images := Finalised(world.slug, files);
    var specs2 := Merged(specs1, StageTwoDefaults(p));
    p.(description := SecondDescription(FirstDescription(p, w), p, w),
       specs := specs2, specsArray := SpecsArray(specs2),
       imageUrl := images[0], images := images)
  }

  /** The body of the per-product task. */
  method FillProduct(p: Item, world: ImageWorld, w: Wording) returns (q: Item)
    requires w.more != []
    ensures q == Completed(p, world, w)
  {
    q := p;
    if |Trim(q.description)| < 60 {
      var d := GenerateDescription(Or(p.name, DefaultName), p.material, p.brand, w);
      q := q.(description := d);
    }
    assert q.description == FirstDescription(p, w);
    var specs := MergeSpecs(q.specs, BaseSpecs(p));
    q := q.(specs := specs, specsArray := SpecsArray(specs));
    var files, images, imageUrl := EnsureThreeImages(world.slug, world.images, world.files, world.env);
    q := q.(images := images, imageUrl := imageUrl);
    var now := Trim(q.description);
    if |now| < 250 || !HasCta(now, w) {
      var d := GenerateDescription(Or(p.name, DefaultName), p.material, p.brand, w);
      q := q.(description := d);
    }
    assert q.description == SecondDescription(FirstDescription(p, w), p, w);
    specs := MergeSpecs(q.specs, StageTwoDefaults(p));
    q := q.(specs := specs, specsArray := SpecsArray(specs));
  }

  /**
   * After the pass a product has all seven standard characteristics set,
   * keeps every characteristic it already had, and lists its
   * characteristics again as pairs.
   */
  lemma CompletedSpecs(p: Item, world: ImageWorld, w: Wording)
    requires w.more != []
    ensures var r := Completed(p, world, w).specs;
            && !Unset(Get(r, MaterialKey)) && !Unset(Get(r, BrandKey)) && !Unset(Get(r, CountryKey))
            && !Unset(Get(r, SizeKey)) && !Unset(Get(r, WeightKey)) && !Unset(Get(r, VolumeKey))
            && !Unset(Get(r, ColourKey))
            && (forall k :: !Unset(Get(p.specs, k)) ==> Get(r, k) == Get(p.specs, k))
    ensures forall k, v :: NamedSpec(k, v) in Completed(p, world, w).specsArray
                       <==> Entry(k, v) in Completed(p, world, w).specs && Usable(Entry(k, v))
  {
    var specs1 := Merged(p.specs, BaseSpecs(p));
    var r := Merged(specs1, StageTwoDefaults(p));
    assert Completed(p, world, w).specs == r;
    StageTwoCompletes(specs1, p);
    forall k | !Unset(Get(p.specs, k))
      ensures Get(r, k) == Get(p.specs, k)
    {
      MergeKeepsSet(p.specs, BaseSpecs(p), k);
      MergeKeepsSet(specs1, StageTwoDefaults(p), k);
    }
    forall k, v
      ensures NamedSpec(k, v) in SpecsArray(r) <==> Entry(k, v) in r && Usable(Entry(k, v))
    {
      SpecsArrayMembers(r, k, v);
    }
  }

  /**
   * After the pass a product has three images, the first of them as its
   * main image, and either its own description of at least 250 characters
   * with the call to action or a generated one; its other fields are
   * unchanged.
   */
  lemma CompletedRest(p: Item, world: ImageWorld, w: Wording)
    requires w.more != []
    ensures var q := Completed(p, world, w);
            && |q.images| == 3 && q.imageUrl == q.images[0]
            && (q.description == Generated(p, w)
                || (|Trim(q.description)| >= 250 && HasCta(Trim(q.description), w)))
            && q.(description := p.description, specs := p.specs, specsArray := p.specsArray,
                  imageUrl := p.imageUrl, images := p.images) == p
  {
    SecondDescriptionSpec(FirstDescription(p, w), p, w);
  }

  /** Every product of a catalogue completed, in order. */
  function CompletedAll(ps: seq<Item>, worlds: seq<ImageWorld>, w: Wording): (r: seq<Item>)
    requires w.more != [] && |worlds| == |ps|
    ensures |r| == |ps|
  {
    if ps == [] then []
    else CompletedAll(ps[..|ps| - 1], worlds[..|ps| - 1], w) + [Completed(ps[|ps| - 1], worlds[|ps| - 1], w)]
  }
  /** Each product of the completed catalogue is the one completed from the product at its place. */
  lemma {:induction false} CompletedAllAt(ps: seq<Item>, worlds: seq<ImageWorld>, w: Wording, i: nat)
    requires w.more != [] && |worlds| == |ps| && i < |ps|
    ensures CompletedAll(ps, worlds, w)[i] == Completed(ps[i], worlds[i], w)
    decreases |ps|
  {
    if i < |ps| - 1 {
      CompletedAllAt(ps[..|ps| - 1], worlds[..|ps| - 1], w, i);
    }
  }

  lemma CompletedAllStep(ps: seq<Item>, worlds: seq<ImageWorld>, w: Wording, i: nat)
    requires w.more != [] && |worlds| == |ps| && i < |ps|
    ensures CompletedAll(ps[..i + 1], worlds[..i + 1], w)
         == CompletedAll(ps[..i], worlds[..i], w) + [Completed(ps[i], worlds[i], w)]
  {
    assert ps[..i + 1][..i] == ps[..i] && worlds[..i + 1][..i] == worlds[..i];
  }
  lemma Splice<T>(a: seq<T>, b: seq<T>, x: T)
    requires b != []
    ensures (a + b)[|a| := x] == a + [x] + b[1..]
  {
  }
  /** The pass over the catalogue: every product is completed in place. */
  method FillAll(products: array<Item>, worlds: seq<ImageWorld>, w: Wording)
    requires w.more != [] && |worlds| == products.Length
    modifies products
    ensures products[..] == CompletedAll(old(products[..]), worlds, w)
  {
    ghost var before := products[..];
    for i := 0 to products.Length
      invariant products[..] == CompletedAll(before[..i], worlds[..i], w) + before[i..]
    {
      ghost var done := CompletedAll(before[..i], worlds[..i], w);
      ghost var rest := before[i..];
      assert products[i] == before[i];
      var q := FillProduct(products[i], worlds[i], w);
      products[i] := q;
      CompletedAllStep(before, worlds, w, i);
      Splice(done, rest, q);
      assert rest[1..] == before[i + 1..];
    }
    assert before[..products.Length] == before && worlds[..products.Length] == worlds;
  }
}
