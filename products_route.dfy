/**
 * The catalog listing endpoint `GET /api/products` (app/api/products/route.ts)
 * on its file-database branch: a response cache keyed by the query string,
 * the filter chain over the records of `data/products.json`, the sort modes,
 * the default "plates first, then a stable daily shuffle" ordering driven by a
 * 32-bit FNV-1a hash, pagination with `Array.prototype.slice`, and the card
 * projection of each listed record.
 */
module ProductsRoute {
  import opened Wrappers
  import opened Text
  import opened SpecMap
  import Sorting
  import opened Dedup
  import Enrich
  import opened Catalog

  // ---------------------------------------------------------------------------
  // the response cache (`getFromCache` / `setCache`)

  /** How long a cached response is served, in milliseconds. */
  const CacheTtlMs := 30000

  datatype CacheEntry<D> = CacheEntry(ts: int, data: D)

  /** What `getFromCache(key)` returns at time `now`. */
  function Served<D>(entries: map<string, CacheEntry<D>>, key: string, now: int): Option<D> {
    if key in entries && now - entries[key].ts <= CacheTtlMs then Some(entries[key].data) else None
  }

  /** The cache after `getFromCache(key)` at time `now`: an expired entry is deleted. */
  function AfterGet<D>(entries: map<string, CacheEntry<D>>, key: string, now: int): map<string, CacheEntry<D>> {
    if key in entries && now - entries[key].ts > CacheTtlMs then entries - {key} else entries
  }

  /** A response stored at `ts` is served at `now` exactly while it is at most the TTL old. */
  lemma ServedAfterSet<D>(entries: map<string, CacheEntry<D>>, key: string, data: D, ts: int, now: int)
    ensures Served(entries[key := CacheEntry(ts, data)], key, now) == Some(data) <==> now - ts <= CacheTtlMs
    ensures now - ts > CacheTtlMs ==> Served(entries[key := CacheEntry(ts, data)], key, now) == None
  {
  }

  /** Storing one key changes nothing that is served for another. */
  lemma ServedOtherKey<D>(entries: map<string, CacheEntry<D>>, key: string, other: string, e: CacheEntry<D>, now: int)
    requires other != key
    ensures Served(entries[key := e], other, now) == Served(entries, other, now)
  {
  }

  /**
   * Reading never changes what is served: the entry that was served is kept,
   * an expired one is gone afterwards, and every other key is untouched.
   */
  lemma AfterGetSpec<D>(entries: map<string, CacheEntry<D>>, key: string, now: int)
    ensures Served(AfterGet(entries, key, now), key, now) == Served(entries, key, now)
    ensures Served(entries, key, now).None? ==> key !in AfterGet(entries, key, now)
    ensures forall k :: k != key ==> (k in AfterGet(entries, key, now) <==> k in entries)
    ensures forall k :: k != key && k in entries ==> AfterGet(entries, key, now)[k] == entries[k]
  {
  }

  /** Once an entry has expired it stays expired. */
  lemma ExpiryIsFinal<D>(entries: map<string, CacheEntry<D>>, key: string, now: int, later: int)
    requires key in entries && Served(entries, key, now).None? && now <= later
    ensures Served(entries, key, later).None?
  {
  }

  /** The module-level `cache` map. */
  class Cache<D> {
    var entries: map<string, CacheEntry<D>>

    constructor ()
      ensures entries == map[]
    {
      entries := map[];
    }

    /** `getFromCache(key)` with `Date.now() == now`. */
    method Get(key: string, now: int) returns (r: Option<D>)
      modifies this
      ensures r == Served(old(entries), key, now)
      ensures entries == AfterGet(old(entries), key, now)
    {
      if key !in entries {
        return None;
      }
      var c := entries[key];
      if now - c.ts > CacheTtlMs {
        entries := entries - {key};
        return None;
      }
      return Some(c.data);
    }

    /** `setCache(key, data)` with `Date.now() == now`. */
    method Set(key: string, data: D, now: int)
      modifies this
      ensures entries == old(entries)[key := CacheEntry(now, data)]
    {
      entries := entries[key := CacheEntry(now, data)];
    }
  }

  // ---------------------------------------------------------------------------
  // the 32-bit FNV-1a hash over UTF-16 code units

  const FnvOffset: bv32 := 2166136261
  const FnvPrime: bv32 := 16777619

  /** The UTF-16 code units of one character: a surrogate pair outside the Basic Multilingual Plane. */
  function Units(c: char): (r: seq<nat>)
    ensures 1 <= |r| <= 2
    ensures |r| == 1 <==> (c as int) < 0x10000
    ensures forall k :: 0 <= k < |r| ==> r[k] < 0x10000
  {
    if (c as int) < 0x10000 then [c as int]
    else
      var v := (c as int) - 0x10000;
      [0xD800 + v / 0x400, 0xDC00 + v % 0x400]
  }

  /** What `s.charCodeAt(i)` reads for `i` from 0 to `s.length - 1`. */
  function Utf16(s: string): (r: seq<nat>)
    ensures |r| >= |s|
    ensures forall k :: 0 <= k < |r| ==> r[k] < 0x10000
  {
    if s == [] then [] else Utf16(s[..|s| - 1]) + Units(s[|s| - 1])
  }

  /** A surrogate pair decodes back to the character it came from. */
  lemma UnitsDecode(c: char)
    requires (c as int) >= 0x10000
    ensures 0xD800 <= Units(c)[0] < 0xDC00 && 0xDC00 <= Units(c)[1] < 0xE000
    ensures (Units(c)[0] - 0xD800) * 0x400 + (Units(c)[1] - 0xDC00) + 0x10000 == c as int
  {
  }

  /** A string inside the Basic Multilingual Plane has one code unit per character. */
  lemma {:induction false} Utf16Bmp(s: string)
    requires forall i :: 0 <= i < |s| ==> (s[i] as int) < 0x10000
    ensures Utf16(s) == seq(|s|, i requires 0 <= i < |s| => s[i] as int)
  {
    if s != [] {
      Utf16Bmp(s[..|s| - 1]);
    }
  }

  /** FNV-1a: start from the offset basis; per unit, xor it in and multiply by the prime, both modulo 2^32. */
  function Fnv1a(units: seq<nat>): bv32
    requires forall k :: 0 <= k < |units| ==> units[k] < 0x10000
  {
    if units == [] then FnvOffset else Mix(Fnv1a(units[..|units| - 1]), units[|units| - 1])
  }

  /** One FNV-1a round. */
  function Mix(h: bv32, u: nat): bv32
    requires u < 0x10000
  {
    (h ^ (u as bv32)) * FnvPrime
  }

  /** The published FNV-1a test vectors for "" and "a". */
  lemma FnvVectors()
    ensures Fnv1a(Utf16("")) == 0x811C9DC5
    ensures Fnv1a(Utf16("a")) == 0xE40C292C
  {
    assert Utf16("a") == [0x61];
    assert Fnv1a([0x61]) == Mix(FnvOffset, 0x61);
  }

  /** `hash(s)`: `Math.imul` and the final `>>> 0` keep `h` to its low 32 bits. */
  method Hash(s: string) returns (h: bv32)
    ensures h == Fnv1a(Utf16(s))
  {
    var units := Utf16(s);
    h := FnvOffset;
    var i := 0;
    while i < |units|
      invariant 0 <= i <= |units|
      invariant h == Fnv1a(units[..i])
    {
      assert units[..i + 1][..i] == units[..i];
      h := Mix(h, units[i]);
      i := i + 1;
    }
    assert units[..|units|] == units;
  }

  // ---------------------------------------------------------------------------
  // `normDim` and `normVol`

  /** The millimetre units `normDim` recognises, lower-cased, in the order the pattern tries them. */
  const DimUnits := ["мм", "cm", "см", "mm"]
  const Centimetres := ["см", "cm"]
  /** The millilitre units `normVol` recognises, in the order the pattern tries them. */
  const VolUnits := ["мл", "ml", "л", "l"]
  const Litres := ["л", "l"]

  /** The position of the first digit, or `|s|`. */
  function FirstDigit(s: string): (i: nat)
    ensures i <= |s|
    ensures forall k :: 0 <= k < i ==> !IsDigit(s[k])
    ensures i < |s| ==> IsDigit(s[i])
  {
    if s == [] || IsDigit(s[0]) then 0 else 1 + FirstDigit(s[1..])
  }

  /** The end of the run of digits that starts at `i`. */
  function DigitsFrom(s: string, i: nat): (j: nat)
    requires i <= |s|
    ensures i <= j <= |s| && AllDigits(s[i..j]) && (j < |s| ==> !IsDigit(s[j]))
    decreases |s| - i
  {
    if i < |s| && IsDigit(s[i]) then DigitsFrom(s, i + 1) else i
  }

  /** The end of the run of white space that starts at `i`. */
  function WsFrom(s: string, i: nat): (j: nat)
    requires i <= |s|
    ensures i <= j <= |s| && (forall k :: i <= k < j ==> IsWs(s[k])) && (j < |s| ==> !IsWs(s[j]))
    decreases |s| - i
  {
    if i < |s| && IsWs(s[i]) then WsFrom(s, i + 1) else i
  }

  /** The first unit (matched case-insensitively) that `s` has at `i`, or `""`. */
  function UnitAt(s: string, i: nat, units: seq<string>): (u: string)
    requires i <= |s|
    ensures u == [] || u in units
  {
    if units == [] then []
    else if |units[0]| <= |s| - i && Lower(s[i..i + |units[0]|]) == units[0] then units[0]
    else UnitAt(s, i, units[1..])
  }

  /** The groups of `/([0-9]+[\.,]?[0-9]*)\s*(unit)?/i`: the whole and fractional digits, and the unit. */
  datatype Reading = Reading(whole: string, frac: string, unit: string)

  function Read(v: string, units: seq<string>): (r: Option<Reading>)
    ensures r.None? <==> forall k :: 0 <= k < |v| ==> !IsDigit(v[k])
    ensures r.Some? ==> r.value.whole != [] && AllDigits(r.value.whole) && AllDigits(r.value.frac)
  {
    var i := FirstDigit(v);
    if i == |v| then None
    else
      var j := DigitsFrom(v, i);
      var k := if j < |v| && (v[j] == '.' || v[j] == ',') then DigitsFrom(v, j + 1) else j;
      var frac := if k > j then v[j + 1..k] else [];
      Some(Reading(v[i..j], frac, UnitAt(v, WsFrom(v, k), units)))
  }

  function Pow10(n: nat): (r: nat)
    ensures r >= 1
  {
    if n == 0 then 1 else 10 * Pow10(n - 1)
  }

  /**
   * `Math.round(toNumber(m[1]) * factor)` in exact arithmetic: the digits spell
   * `num / den` (with `,` read as the decimal point), and rounding half up is
   * `floor(x + 1/2)`.
   */
  function Rounded(m: Reading, factor: nat): nat
    requires AllDigits(m.whole) && AllDigits(m.frac)
  {
    var den := Pow10(|m.frac|);
    var num := Mul(DigitsValue(m.whole), den) + DigitsValue(m.frac);
    Quot(2 * Mul(num, factor) + den, 2 * den)
  }

  function Mul(a: nat, b: nat): nat { a * b }

  function Quot(a: nat, b: nat): nat
    requires b > 0
  {
    a / b
  }

  /** Rounding changes nothing for a whole number. */
  lemma RoundedInteger(d: string, u: string, factor: nat)
    requires AllDigits(d)
    ensures Rounded(Reading(d, [], u), factor) == factor * DigitsValue(d)
  {
    var n := DigitsValue(d);
    assert (n * 1 + 0) * factor == factor * n;
  }

  /**
   * `normDim` / `normVol`: trim; blank gives `""`; text without a digit comes
   * back trimmed; otherwise the first number, multiplied by `factor` when its
   * unit is one of `scaled`, is rounded and written with the `base` unit.
   */
  function Normalize(val: string, units: seq<string>, scaled: seq<string>, factor: nat, base: string): (r: string)
    ensures Trim(val) == [] ==> r == []
    ensures (forall k :: 0 <= k < |Trim(val)| ==> !IsDigit(Trim(val)[k])) ==> r == Trim(val)
  {
    var v := Trim(val);
    if v == [] then []
    else
      match Read(v, units)
      case None => v
      case Some(m) =>
        NatToString(Rounded(m, if m.unit in scaled then factor else 1)) + " " + base
  }

  function NormDim(val: string): string { Normalize(val, DimUnits, Centimetres, 10, "мм") }

  function NormVol(val: string): string { Normalize(val, VolUnits, Litres, 1000, "мл") }

  /** What `Normalize` gives for a non-blank input is never blank. */
  lemma NormalizeNotBlank(val: string, units: seq<string>, scaled: seq<string>, factor: nat, base: string)
    requires Trim(val) != []
    ensures Trim(Normalize(val, units, scaled, factor, base)) != []
  {
    var v := Trim(val);
    TrimShape(val);
    match Read(v, units)
    case None =>
      TrimIdentity(v);
    case Some(m) =>
      var n := NatToString(Rounded(m, if m.unit in scaled then factor else 1));
      var r := n + " " + base;
      assert !IsWs(r[0]) by { assert r[0] == n[0] && IsDigit(n[0]); }
      assert LeadingWs(r) == 0;
  }

  /** Reading an integer written after a stretch without digits, before any white space and unit. */
  lemma ReadInteger(pre: string, d: string, w: string, tail: string, units: seq<string>)
    requires forall k :: 0 <= k < |pre| ==> !IsDigit(pre[k])
    requires d != [] && AllDigits(d) && NoNonWs(w)
    requires tail == [] || (!IsWs(tail[0]) && !IsDigit(tail[0]) && tail[0] != '.' && tail[0] != ',')
    ensures Read(pre + d + w + tail, units) == Some(Reading(d, [], UnitAt(tail, 0, units)))
  {
    var v := pre + d + w + tail;
    var i, j, e := |pre|, |pre| + |d|, |pre| + |d| + |w|;
    assert forall k :: 0 <= k < i ==> v[k] == pre[k];
    assert forall k :: i <= k < j ==> v[k] == d[k - i];
    assert forall k :: j <= k < e ==> v[k] == w[k - j];
    assert e < |v| ==> v[e] == tail[0];
    assert v[i..j] == d;
    assert v[e..] == tail;
    ReadAt(v, i, j, e, units);
    UnitAtSuffix(v, e, units);
  }

  /** Reading a number that ends at `j` and is followed by white space up to `e`. */
  lemma ReadAt(v: string, i: nat, j: nat, e: nat, units: seq<string>)
    requires i < j <= e <= |v|
    requires forall k :: 0 <= k < i ==> !IsDigit(v[k])
    requires forall k :: i <= k < j ==> IsDigit(v[k])
    requires forall k :: j <= k < e ==> IsWs(v[k])
    requires j < |v| ==> !IsDigit(v[j]) && v[j] != '.' && v[j] != ','
    requires e < |v| ==> !IsWs(v[e])
    ensures Read(v, units) == Some(Reading(v[i..j], [], UnitAt(v, e, units)))
  {
    DigitsRun(v, i, j);
    WsRun(v, j, e);
  }

  lemma {:induction false} DigitsRun(s: string, i: nat, j: nat)
    requires i <= j <= |s|
    requires forall k :: i <= k < j ==> IsDigit(s[k])
    requires j < |s| ==> !IsDigit(s[j])
    ensures DigitsFrom(s, i) == j
    decreases j - i
  {
    if i < j {
      DigitsRun(s, i + 1, j);
    }
  }

  lemma {:induction false} WsRun(s: string, i: nat, j: nat)
    requires i <= j <= |s|
    requires forall k :: i <= k < j ==> IsWs(s[k])
    requires j < |s| ==> !IsWs(s[j])
    ensures WsFrom(s, i) == j
    decreases j - i
  {
    if i < j {
      WsRun(s, i + 1, j);
    }
  }

  lemma {:induction false} UnitAtSuffix(s: string, i: nat, units: seq<string>)
    requires i <= |s|
    ensures UnitAt(s, i, units) == UnitAt(s[i..], 0, units)
  {
    if units != [] {
      if |units[0]| <= |s| - i {
        assert s[i..i + |units[0]|] == s[i..][0..|units[0]|];
      }
      UnitAtSuffix(s, i, units[1..]);
    }
  }

  /** An integer with no unit after it: `normDim("25")` is `"25 мм"`, `normVol("330")` is `"330 мл"`. */
  lemma NormalizeBareInteger(val: string, pre: string, d: string, w: string, tail: string,
                             units: seq<string>, scaled: seq<string>, factor: nat, base: string)
    requires Trim(val) == pre + d + w + tail
    requires forall k :: 0 <= k < |pre| ==> !IsDigit(pre[k])
    requires d != [] && AllDigits(d) && NoNonWs(w)
    requires tail == [] || (!IsWs(tail[0]) && !IsDigit(tail[0]) && tail[0] != '.' && tail[0] != ',')
    requires UnitAt(tail, 0, units) !in scaled
    ensures Normalize(val, units, scaled, factor, base) == NatToString(DigitsValue(d)) + " " + base
  {
    ReadInteger(pre, d, w, tail, units);
    RoundedInteger(d, UnitAt(tail, 0, units), 1);
  }

  /** An integer followed by a scaled unit: `normDim("12 см")` is `"120 мм"`, `normVol("2 л")` is `"2000 мл"`. */
  lemma NormalizeScaledInteger(val: string, pre: string, d: string, w: string, tail: string,
                               units: seq<string>, scaled: seq<string>, factor: nat, base: string)
    requires Trim(val) == pre + d + w + tail
    requires forall k :: 0 <= k < |pre| ==> !IsDigit(pre[k])
    requires d != [] && AllDigits(d) && NoNonWs(w)
    requires tail == [] || (!IsWs(tail[0]) && !IsDigit(tail[0]) && tail[0] != '.' && tail[0] != ',')
    requires UnitAt(tail, 0, units) in scaled
    ensures Normalize(val, units, scaled, factor, base) == NatToString(factor * DigitsValue(d)) + " " + base
  {
    ReadInteger(pre, d, w, tail, units);
    RoundedInteger(d, UnitAt(tail, 0, units), factor);
  }

  lemma DimBaseUnit()
    ensures UnitAt("мм", 0, DimUnits) == "мм"
  {
    LowerBasicCyrillic('м');
    assert Lower("мм"[0..2]) == "мм";
  }

  lemma VolBaseUnit()
    ensures UnitAt("мл", 0, VolUnits) == "мл"
  {
    LowerBasicCyrillic('м');
    LowerBasicCyrillic('л');
    assert Lower("мл"[0..2]) == "мл";
  }

  /** What `Normalize` can give: blank, the digit-free input trimmed, or a whole number and the base unit. */
  lemma NormalizeForms(val: string, units: seq<string>, scaled: seq<string>, factor: nat, base: string)
    returns (k: nat)
    ensures var r := Normalize(val, units, scaled, factor, base);
      r == [] || (r == Trim(val) && forall i :: 0 <= i < |r| ==> !IsDigit(r[i])) || r == NatToString(k) + " " + base
  {
    var v := Trim(val);
    if v != [] && Read(v, units).Some? {
      var m := Read(v, units).value;
      k := Rounded(m, if m.unit in scaled then factor else 1);
    } else {
      k := 0;
    }
  }

  /** A whole number with the base unit normalises to itself. */
  lemma NormalizeOutput(k: nat, units: seq<string>, scaled: seq<string>, factor: nat, base: string)
    requires base != [] && !IsWs(base[0]) && !IsDigit(base[0]) && base[0] != '.' && base[0] != ','
    requires !IsWs(base[|base| - 1])
    requires UnitAt(base, 0, units) !in scaled
    ensures Normalize(NatToString(k) + " " + base, units, scaled, factor, base) == NatToString(k) + " " + base
  {
    var n := NatToString(k);
    var r := n + " " + base;
    assert r == [] + n + " " + base;
    assert !IsWs(r[0]) by { assert r[0] == n[0] && IsDigit(n[0]); }
    assert r[|r| - 1] == base[|base| - 1];
    TrimIdentity(r);
    NormalizeBareInteger(r, [], n, " ", base, units, scaled, factor, base);
    NatToStringRoundTrip(k);
  }

  /** A result of `Normalize` is a fixed point of it, given a base unit that reads back unscaled. */
  lemma NormalizeTwice(val: string, units: seq<string>, scaled: seq<string>, factor: nat, base: string)
    requires base != [] && !IsWs(base[0]) && !IsDigit(base[0]) && base[0] != '.' && base[0] != ','
    requires !IsWs(base[|base| - 1])
    requires UnitAt(base, 0, units) !in scaled
    ensures Normalize(Normalize(val, units, scaled, factor, base), units, scaled, factor, base)
         == Normalize(val, units, scaled, factor, base)
  {
    var r := Normalize(val, units, scaled, factor, base);
    var k := NormalizeForms(val, units, scaled, factor, base);
    if r != [] && r != NatToString(k) + " " + base {
      TrimShape(val);
      TrimIdentity(r);
    } else if r != [] {
      NormalizeOutput(k, units, scaled, factor, base);
    }
  }

  /** Normalising a dimension twice changes nothing more. */
  lemma NormDimIdempotent(val: string)
    ensures NormDim(NormDim(val)) == NormDim(val)
  {
    DimBaseUnit();
    NormalizeTwice(val, DimUnits, Centimetres, 10, "мм");
  }

  /** Normalising a volume twice changes nothing more. */
  lemma NormVolIdempotent(val: string)
    ensures NormVol(NormVol(val)) == NormVol(val)
  {
    VolBaseUnit();
    NormalizeTwice(val, VolUnits, Litres, 1000, "мл");
  }

  // ---------------------------------------------------------------------------
  // `mapMaterial` and `mapColor`

  /** The canonical material names, in the order their rules are tried. */
  const MaterialNames := ["костяной фарфор", "фарфор", "фаянс", "каменная керамика", "керамика",
                          "боросиликатное стекло", "закаленное стекло", "опаловое стекло", "стекло",
                          "нержавеющая сталь", "алюминий", "чугун", "медь", "латунь", "эмаль",
                          "меламин", "поликарбонат", "полипропилен", "полиэтилен", "акрил", "тритан",
                          "пвх", "пластик", "дерево", "бамбук", "ротанг", "сланец", "мрамор", "гранит",
                          "камень", "силикон", "стеклокерамика"]

  /** The canonical colour names, in the order their rules are tried. */
  const ColorNames := ["прозрачный", "черный", "белый", "бордовый", "красный", "синий", "голубой",
                       "бирюзовый", "фиолетовый", "розовый", "оранжевый", "желтый", "зеленый",
                       "дымчатый", "янтарный", "золотистый", "серебристый", "бронзовый", "медный",
                       "графитовый", "серый", "бежевый", "коричневый", "кремовый"]

  /**
   * What a normaliser does with its input: trimmed and lower-cased, blank gives
   * `""`, otherwise the name of the first rule that accepts it, or the
   * lower-cased text itself when no rule does.
   */
  function Canonical(tests: seq<string -> bool>, names: seq<string>, v: string): string {
    var s := Lower(Trim(v));
    if s == [] then [] else FirstMatch(tests, names, s).GetOr(s)
  }

  lemma CanonicalSpec(tests: seq<string -> bool>, names: seq<string>, v: string)
    ensures Lower(Trim(v)) == [] ==> Canonical(tests, names, v) == []
    ensures Lower(Trim(v)) != [] && (forall i :: 0 <= i < |tests| && i < |names| ==> !tests[i](Lower(Trim(v))))
            ==> Canonical(tests, names, v) == Lower(Trim(v))
    ensures forall i :: 0 <= i < |tests| && i < |names| && Lower(Trim(v)) != [] && tests[i](Lower(Trim(v)))
                        && (forall j :: 0 <= j < i ==> !tests[j](Lower(Trim(v))))
                        ==> Canonical(tests, names, v) == names[i]
  {
    var s := Lower(Trim(v));
    var i := FirstHit(tests, s);
    forall k | 0 <= k < |tests| && k < |names| && s != [] && tests[k](s) && (forall j :: 0 <= j < k ==> !tests[j](s))
      ensures Canonical(tests, names, v) == names[k]
    {
      assert i == k;
    }
  }

  /** The canonical name is one of the names, the lower-cased input, or blank. */
  lemma CanonicalRange(tests: seq<string -> bool>, names: seq<string>, v: string)
    ensures var r := Canonical(tests, names, v); r == [] || r == Lower(Trim(v)) || r in names
  {
  }

  /** Normalising a canonical name changes nothing when the name's own rule is the first to accept it. */
  lemma CanonicalOfName(tests: seq<string -> bool>, names: seq<string>, i: nat)
    requires i < |tests| && i < |names| && names[i] != [] && Lower(Trim(names[i])) == names[i]
    requires tests[i](names[i]) && forall j :: 0 <= j < i ==> !tests[j](names[i])
    ensures Canonical(tests, names, names[i]) == names[i]
  {
    CanonicalSpec(tests, names, names[i]);
  }

  /** `mapMaterial(v)`, with the rules' regular expressions given as `tests`. */
  function MapMaterial(env: Env, v: string): string { Canonical(env.materialTests, MaterialNames, v) }

  /** `mapColor(v)`, with the rules' regular expressions given as `tests`. */
  function MapColor(env: Env, v: string): string { Canonical(env.colorTests, ColorNames, v) }

  /** `/(стекло|glass)/i`. */
  predicate GlassTest(s: string) { Contains(s, "стекло") || Contains(s, "glass") }

  /** `/(стеклокерам|glass\s*ceramic)/i` on lower-cased text. */
  predicate GlassCeramicTest(s: string) {
    Contains(s, "стеклокерам") || exists i :: 0 <= i <= |s| && GlassCeramicAt(s, i)
  }

  /** `glass\s*ceramic` at position `i`. */
  predicate GlassCeramicAt(s: string, i: nat) {
    i + 5 <= |s| && s[i..i + 5] == "glass" && StartsWith(s[WsFrom(s, i + 5)..], "ceramic")
  }

  /** What starts at a position of a string, the string contains. */
  lemma {:induction false} ContainsAt(s: string, i: nat, p: string)
    requires i + |p| <= |s| && s[i..i + |p|] == p
    ensures Contains(s, p)
    decreases i
  {
    if i > 0 {
      assert s[1..][i - 1..i - 1 + |p|] == s[i..i + |p|];
      ContainsAt(s[1..], i - 1, p);
    }
  }

  /** A string containing `p + q` contains `p`. */
  lemma {:induction false} ContainsPrefixOf(s: string, p: string, q: string)
    requires Contains(s, p + q)
    ensures Contains(s, p)
    decreases |s|
  {
    if StartsWith(s, p + q) {
      assert s[..|p|] == (p + q)[..|p|] == p;
    } else {
      ContainsPrefixOf(s[1..], p, q);
    }
  }

  /** Every text the glass-ceramic rule accepts, the glass rule accepts as well. */
  lemma GlassCeramicIsGlass(s: string)
    ensures GlassCeramicTest(s) ==> GlassTest(s)
  {
    if Contains(s, "стеклокерам") {
      assert "стеклокерам" == "стекло" + "керам";
      ContainsPrefixOf(s, "стекло", "керам");
    } else if exists i :: 0 <= i <= |s| && GlassCeramicAt(s, i) {
      var k :| 0 <= k <= |s| && GlassCeramicAt(s, k);
      ContainsAt(s, k, "glass");
    }
  }

  /**
   * The glass-ceramic rule comes after the glass rule, which accepts
   * everything it accepts: `mapMaterial` never yields `стеклокерамика`.
   */
  lemma GlassCeramicUnreachable(env: Env, v: string)
    requires |env.materialTests| == |MaterialNames|
    requires forall s :: env.materialTests[8](s) == GlassTest(s)
    requires forall s :: env.materialTests[31](s) == GlassCeramicTest(s)
    ensures MapMaterial(env, v) != "стеклокерамика"
  {
    var s := Lower(Trim(v));
    GlassCeramicIsGlass(s);
    assert "стеклокерамика"[..|"стекло"|] == "стекло";
    if s == "стеклокерамика" {
      ContainsAt(s, 0, "стекло");
    }
    var i := FirstHit(env.materialTests, s);
    assert i != 31;
    assert forall j :: 0 <= j < 31 ==> MaterialNames[j] != "стеклокерамика";
    CanonicalRange(env.materialTests, MaterialNames, v);
  }

  // ---------------------------------------------------------------------------
  // the query and the filter chain

  /**
   * The query parameters as the handler reads them: `page` 1 and `pageSize`
   * 24 when absent, `sort` "popular" when absent, `q` trimmed, any other
   * absent text parameter `""`, an absent price bound 0.
   */
  datatype Query = Query(page: int, pageSize: int, sort: string, inStock: string, category: string,
                         subcategory: string, material: string, brand: string, color: string,
                         q: string, priceMin: int, priceMax: int)

  /**
   * What the handler takes from the JavaScript engine: the regular-expression
   * rules of `mapMaterial` and `mapColor`, the keyword rules of each curated
   * category (`kwBySlug`, aligned with `CuratedSlugs`), the rules of
   * `detectCategory` (aligned with the first ten curated slugs), and
   * `localeCompare(_, 'ru') <= 0`.
   */
  datatype Env = Env(materialTests: seq<string -> bool>, colorTests: seq<string -> bool>,
                     keywordTable: seq<seq<string -> bool>>, categoryTests: seq<string -> bool>,
                     localeLe: (string, string) -> bool)

  /** `Number(x.price) || 0`. */
  function PriceOf(p: Record): int { p.price.GetOr(0) }

  function Always(): Record -> bool { _ => true }

  function InCategory(c: string): Record -> bool { (x: Record) => x.categorySlug == c }

  function MentionsAny(rules: seq<string -> bool>): Record -> bool { (p: Record) => AnyTest(rules, SearchText(p)) }

  /** The category filter: exact slug matches when there are any, else the slug's keyword rules. */
  function CategoryTest(arr: seq<Record>, env: Env, c: string): Record -> bool {
    if Kept(arr, InCategory(c)) != [] then InCategory(c)
    else MentionsAny(KeywordsOf(CuratedSlugs, env.keywordTable, c))
  }

  function InSubcategory(c: string): Record -> bool { (x: Record) => x.subcategorySlug == c }

  function MadeOf(env: Env, m: string): Record -> bool {
    (x: Record) => var xm := MapMaterial(env, MaterialRaw(x)); xm != [] && xm == m
  }

  function ByBrand(b: string): Record -> bool { (x: Record) => Lower(BrandOf(x)) == b }

  function Coloured(env: Env, c: string): Record -> bool {
    (x: Record) => var xc := MapColor(env, ColorRaw(x)); xc != [] && xc == c
  }

  function Mentions(qq: string): Record -> bool {
    (x: Record) => Contains(Lower(TitleOf(x)), qq) || Contains(Lower(x.description), qq)
  }

  function PricedFrom(n: int): Record -> bool { (x: Record) => PriceOf(x) >= n }

  function PricedUpTo(n: int): Record -> bool { (x: Record) => PriceOf(x) <= n }

  function Priced(): Record -> bool { (x: Record) => PriceOf(x) > 0 }

  /** The number of filters in the chain. */
  const Filters := 9

  /** The `n`-th filter of the chain, or one that keeps everything when its parameter is absent. */
  function Test(arr: seq<Record>, q: Query, env: Env, n: nat): Record -> bool {
    if n == 0 then CategoryStep(arr, env, q.category)
    else if n == 1 then SubcategoryStep(q.subcategory)
    else if n == 2 then MaterialStep(env, q.material)
    else if n == 3 then BrandStep(q.brand)
    else if n == 4 then ColorStep(env, q.color)
    else if n == 5 then TextStep(q.q)
    else if n == 6 then PriceMinStep(q.priceMin)
    else if n == 7 then PriceMaxStep(q.priceMax)
    else if n == 8 then InStockStep(q.inStock)
    else Always()
  }

  function CategoryStep(arr: seq<Record>, env: Env, c: string): Record -> bool {
    if c != [] then CategoryTest(arr, env, c) else Always()
  }
  function SubcategoryStep(c: string): Record -> bool { if c != [] then InSubcategory(c) else Always() }
  function MaterialStep(env: Env, m: string): Record -> bool { if m != [] then MadeOf(env, MapMaterial(env, m)) else Always() }
  function BrandStep(b: string): Record -> bool { if b != [] then ByBrand(Lower(b)) else Always() }
  function ColorStep(env: Env, c: string): Record -> bool { if c != [] then Coloured(env, MapColor(env, c)) else Always() }
  function TextStep(qq: string): Record -> bool { if qq != [] then Mentions(Lower(qq)) else Always() }
  function PriceMinStep(n: int): Record -> bool { if n != 0 then PricedFrom(n) else Always() }
  function PriceMaxStep(n: int): Record -> bool { if n != 0 then PricedUpTo(n) else Always() }
  function InStockStep(flag: string): Record -> bool { if flag == "true" then Priced() else Always() }

  /** The first filters of the chain are the category, subcategory and material ones. */
  lemma FirstSteps(arr: seq<Record>, q: Query, env: Env)
    ensures Test(arr, q, env, 0) == CategoryStep(arr, env, q.category)
    ensures Test(arr, q, env, 1) == SubcategoryStep(q.subcategory)
    ensures Test(arr, q, env, 2) == MaterialStep(env, q.material)
  {
  }

  /** The middle filters are the brand, colour and text ones. */
  lemma MiddleSteps(arr: seq<Record>, q: Query, env: Env)
    ensures Test(arr, q, env, 3) == BrandStep(q.brand)
    ensures Test(arr, q, env, 4) == ColorStep(env, q.color)
    ensures Test(arr, q, env, 5) == TextStep(q.q)
  {
  }

  /** The last filters are the price and stock ones. */
  lemma LastSteps(arr: seq<Record>, q: Query, env: Env)
    ensures Test(arr, q, env, 6) == PriceMinStep(q.priceMin)
    ensures Test(arr, q, env, 7) == PriceMaxStep(q.priceMax)
    ensures Test(arr, q, env, 8) == InStockStep(q.inStock)
  {
  }

  /** Passing the first `n` filters. */
  function UpTo(arr: seq<Record>, q: Query, env: Env, n: nat): Record -> bool {
    (x: Record) => forall k :: 0 <= k < n ==> Test(arr, q, env, k)(x)
  }

  /** Passing the whole chain. */
  function Accepts(arr: seq<Record>, q: Query, env: Env): Record -> bool { UpTo(arr, q, env, Filters) }

  /** Applying one more filter to what passed the first `n`. */
  lemma Advance(arr: seq<Record>, q: Query, env: Env, n: nat)
    ensures Kept(Kept(arr, UpTo(arr, q, env, n)), Test(arr, q, env, n)) == Kept(arr, UpTo(arr, q, env, n + 1))
  {
    KeptKept(arr, UpTo(arr, q, env, n), Test(arr, q, env, n), UpTo(arr, q, env, n + 1));
  }

  /** The list after the first `n` filters, each applied to the previous one's output. */
  function Stage(arr: seq<Record>, q: Query, env: Env, n: nat): seq<Record> {
    if n == 0 then arr else Kept(Stage(arr, q, env, n - 1), Test(arr, q, env, n - 1))
  }

  /** One more filter applied to the list after `n` of them. */
  lemma StageNext(arr: seq<Record>, q: Query, env: Env, n: nat, prev: seq<Record>, t: Record -> bool)
    requires prev == Stage(arr, q, env, n) && t == Test(arr, q, env, n)
    ensures Kept(prev, t) == Stage(arr, q, env, n + 1)
  {
  }

  /** No filter at all keeps everything. */
  lemma NoFilters(arr: seq<Record>, q: Query, env: Env)
    ensures Kept(arr, UpTo(arr, q, env, 0)) == arr
  {
    KeptEverything(arr, UpTo(arr, q, env, 0));
  }

  /** Filtering one after another keeps what passes all of the filters at once. */
  lemma {:induction false} StageSpec(arr: seq<Record>, q: Query, env: Env, n: nat)
    ensures Stage(arr, q, env, n) == Kept(arr, UpTo(arr, q, env, n))
  {
    if n == 0 {
      NoFilters(arr, q, env);
    } else {
      StageSpec(arr, q, env, n - 1);
      Advance(arr, q, env, n - 1);
    }
  }

  /** A filter step whose parameter is absent changes nothing. */
  lemma Skip(s: seq<Record>)
    ensures Kept(s, Always()) == s
  {
    KeptEverything(s, Always());
  }

  /** The category step of the chain, on the whole database. */
  method FilterCategory(arr: seq<Record>, env: Env, c: string) returns (tmp: seq<Record>)
    ensures tmp == Kept(arr, CategoryTest(arr, env, c))
  {
    tmp := Kept(arr, InCategory(c));
    if tmp == [] {
      var rules := KeywordsOf(CuratedSlugs, env.keywordTable, c);
      if rules != [] {
        tmp := Kept(arr, MentionsAny(rules));
      } else {
        KeptNothing(arr, MentionsAny(rules));
      }
    }
  }

  /** `if (subcategory)`: records filed under the subcategory. */
  method FilterSubcategory(arr: seq<Record>, q: Query, env: Env, s: seq<Record>) returns (r: seq<Record>)
    ensures r == Kept(s, SubcategoryStep(q.subcategory))
  {
    if q.subcategory != [] {
      r := Kept(s, InSubcategory(q.subcategory));
    } else {
      r := s;
      Skip(s);
    }
  }

  /** `if (material)`: records whose canonical material is the query's. */
  method FilterMaterial(arr: seq<Record>, q: Query, env: Env, s: seq<Record>) returns (r: seq<Record>)
    ensures r == Kept(s, MaterialStep(env, q.material))
  {
    if q.material != [] {
      var mQuery := MapMaterial(env, q.material);
      r := Kept(s, MadeOf(env, mQuery));
    } else {
      r := s;
      Skip(s);
    }
  }

  /** `if (brand)`: records whose brand is the query's, ignoring case. */
  method FilterBrand(arr: seq<Record>, q: Query, env: Env, s: seq<Record>) returns (r: seq<Record>)
    ensures r == Kept(s, BrandStep(q.brand))
  {
    if q.brand != [] {
      r := Kept(s, ByBrand(Lower(q.brand)));
    } else {
      r := s;
      Skip(s);
    }
  }

  /** `if (color)`: records whose canonical colour is the query's. */
  method FilterColor(arr: seq<Record>, q: Query, env: Env, s: seq<Record>) returns (r: seq<Record>)
    ensures r == Kept(s, ColorStep(env, q.color))
  {
    if q.color != [] {
      var cQuery := MapColor(env, q.color);
      r := Kept(s, Coloured(env, cQuery));
    } else {
      r := s;
      Skip(s);
    }
  }

  /** `if (q)`: records whose title or description contains the query, ignoring case. */
  method FilterText(arr: seq<Record>, q: Query, env: Env, s: seq<Record>) returns (r: seq<Record>)
    ensures r == Kept(s, TextStep(q.q))
  {
    if q.q != [] {
      r := Kept(s, Mentions(Lower(q.q)));
    } else {
      r := s;
      Skip(s);
    }
  }

  /** `if (priceMin)`: records priced at least `priceMin`. */
  method FilterPriceMin(arr: seq<Record>, q: Query, env: Env, s: seq<Record>) returns (r: seq<Record>)
    ensures r == Kept(s, PriceMinStep(q.priceMin))
  {
    if q.priceMin != 0 {
      r := Kept(s, PricedFrom(q.priceMin));
    } else {
      r := s;
      Skip(s);
    }
  }

  /** `if (priceMax)`: records priced at most `priceMax`. */
  method FilterPriceMax(arr: seq<Record>, q: Query, env: Env, s: seq<Record>) returns (r: seq<Record>)
    ensures r == Kept(s, PriceMaxStep(q.priceMax))
  {
    if q.priceMax != 0 {
      r := Kept(s, PricedUpTo(q.priceMax));
    } else {
      r := s;
      Skip(s);
    }
  }

  /** `if (inStock === 'true')`: records with a positive price. */
  method FilterInStock(arr: seq<Record>, q: Query, env: Env, s: seq<Record>) returns (r: seq<Record>)
    ensures r == Kept(s, InStockStep(q.inStock))
  {
    if q.inStock == "true" {
      r := Kept(s, Priced());
    } else {
      r := s;
      Skip(s);
    }
  }

  /**
   * The filter chain of the file-database branch: `filtered` narrowed once per
   * filter, in the handler's order.
   */
  method FilterRecords(arr: seq<Record>, q: Query, env: Env) returns (filtered: seq<Record>)
    ensures filtered == Kept(arr, Accepts(arr, q, env))
  {
    filtered := arr;
    if q.category != [] {
      filtered := FilterCategory(arr, env, q.category);
    } else {
      Skip(filtered);
    }
    FirstSteps(arr, q, env);
    MiddleSteps(arr, q, env);
    LastSteps(arr, q, env);
    StageNext(arr, q, env, 0, arr, Test(arr, q, env, 0));
    ghost var prev := filtered;
    filtered := FilterSubcategory(arr, q, env, filtered);
    StageNext(arr, q, env, 1, prev, Test(arr, q, env, 1));
    prev := filtered;
    filtered := FilterMaterial(arr, q, env, filtered);
    StageNext(arr, q, env, 2, prev, Test(arr, q, env, 2));
    prev := filtered;
    filtered := FilterBrand(arr, q, env, filtered);
    StageNext(arr, q, env, 3, prev, Test(arr, q, env, 3));
    prev := filtered;
    filtered := FilterColor(arr, q, env, filtered);
    StageNext(arr, q, env, 4, prev, Test(arr, q, env, 4));
    prev := filtered;
    filtered := FilterText(arr, q, env, filtered);
    StageNext(arr, q, env, 5, prev, Test(arr, q, env, 5));
    prev := filtered;
    filtered := FilterPriceMin(arr, q, env, filtered);
    StageNext(arr, q, env, 6, prev, Test(arr, q, env, 6));
    prev := filtered;
    filtered := FilterPriceMax(arr, q, env, filtered);
    StageNext(arr, q, env, 7, prev, Test(arr, q, env, 7));
    prev := filtered;
    filtered := FilterInStock(arr, q, env, filtered);
    StageNext(arr, q, env, 8, prev, Test(arr, q, env, 8));
    StageSpec(arr, q, env, Filters);
  }

  /** Every filter whose parameter is present accepts `x`, each written out on its own. */
  predicate Passes(arr: seq<Record>, q: Query, env: Env, x: Record) {
    && (q.category != [] ==> CategoryTest(arr, env, q.category)(x))
    && (q.subcategory != [] ==> x.subcategorySlug == q.subcategory)
    && (q.material != [] ==> MapMaterial(env, MaterialRaw(x)) != [] && MapMaterial(env, MaterialRaw(x)) == MapMaterial(env, q.material))
    && (q.brand != [] ==> Lower(BrandOf(x)) == Lower(q.brand))
    && (q.color != [] ==> MapColor(env, ColorRaw(x)) != [] && MapColor(env, ColorRaw(x)) == MapColor(env, q.color))
    && (q.q != [] ==> Contains(Lower(TitleOf(x)), Lower(q.q)) || Contains(Lower(x.description), Lower(q.q)))
    && (q.priceMin != 0 ==> PriceOf(x) >= q.priceMin)
    && (q.priceMax != 0 ==> PriceOf(x) <= q.priceMax)
    && (q.inStock == "true" ==> PriceOf(x) > 0)
  }

  /** The chain accepts a record exactly when every present filter does. */
  lemma AcceptsMeaning(arr: seq<Record>, q: Query, env: Env, x: Record)
    ensures Accepts(arr, q, env)(x) <==> Passes(arr, q, env, x)
  {
    AcceptsAllNine(arr, q, env, x);
    FirstSteps(arr, q, env);
    MiddleSteps(arr, q, env);
    LastSteps(arr, q, env);
    FirstStepsMeaning(arr, q, env, x);
    LaterStepsMeaning(q, env, x);
  }

  lemma AcceptsAllNine(arr: seq<Record>, q: Query, env: Env, x: Record)
    ensures Accepts(arr, q, env)(x) <==>
      Test(arr, q, env, 0)(x) && Test(arr, q, env, 1)(x) && Test(arr, q, env, 2)(x)
      && Test(arr, q, env, 3)(x) && Test(arr, q, env, 4)(x) && Test(arr, q, env, 5)(x)
      && Test(arr, q, env, 6)(x) && Test(arr, q, env, 7)(x) && Test(arr, q, env, 8)(x)
  {
    var t := (k: nat) => Test(arr, q, env, k)(x);
    assert Accepts(arr, q, env)(x) <==> t(0) && t(1) && t(2) && t(3) && t(4) && t(5) && t(6) && t(7) && t(8);
  }

  lemma FirstStepsMeaning(arr: seq<Record>, q: Query, env: Env, x: Record)
    ensures CategoryStep(arr, env, q.category)(x) <==> (q.category != [] ==> CategoryTest(arr, env, q.category)(x))
    ensures SubcategoryStep(q.subcategory)(x) <==> (q.subcategory != [] ==> x.subcategorySlug == q.subcategory)
    ensures MaterialStep(env, q.material)(x) <==>
      (q.material != [] ==> MapMaterial(env, MaterialRaw(x)) != [] && MapMaterial(env, MaterialRaw(x)) == MapMaterial(env, q.material))
  {
  }

  lemma LaterStepsMeaning(q: Query, env: Env, x: Record)
    ensures BrandStep(q.brand)(x) <==> (q.brand != [] ==> Lower(BrandOf(x)) == Lower(q.brand))
    ensures ColorStep(env, q.color)(x) <==>
      (q.color != [] ==> MapColor(env, ColorRaw(x)) != [] && MapColor(env, ColorRaw(x)) == MapColor(env, q.color))
    ensures TextStep(q.q)(x) <==> (q.q != [] ==> Contains(Lower(TitleOf(x)), Lower(q.q)) || Contains(Lower(x.description), Lower(q.q)))
    ensures PriceMinStep(q.priceMin)(x) <==> (q.priceMin != 0 ==> PriceOf(x) >= q.priceMin)
    ensures PriceMaxStep(q.priceMax)(x) <==> (q.priceMax != 0 ==> PriceOf(x) <= q.priceMax)
    ensures InStockStep(q.inStock)(x) <==> (q.inStock == "true" ==> PriceOf(x) > 0)
  {
  }

  /**
   * What the chain keeps: a sub-bag of the database, in database order, and a
   * record is kept exactly when it is in the database and passes every present filter.
   */
  lemma AcceptsSpec(arr: seq<Record>, q: Query, env: Env, x: Record)
    ensures multiset(Kept(arr, Accepts(arr, q, env))) <= multiset(arr)
    ensures x in Kept(arr, Accepts(arr, q, env)) <==> x in arr && Passes(arr, q, env, x)
  {
    KeptSub(arr, Accepts(arr, q, env));
    KeptMembers(arr, Accepts(arr, q, env));
    AcceptsMeaning(arr, q, env, x);
  }

  /** With a category given, a record filed under it is kept over every keyword match. */
  lemma CategoryPrefersExact(arr: seq<Record>, env: Env, c: string, x: Record)
    requires exists y :: y in arr && y.categorySlug == c
    ensures CategoryTest(arr, env, c)(x) <==> x.categorySlug == c
  {
    var y :| y in arr && y.categorySlug == c;
    KeptMembers(arr, InCategory(c));
    assert y in Kept(arr, InCategory(c));
  }

  /** A category nothing is filed under and that has no keyword rules lists nothing. */
  lemma UnknownCategoryIsEmpty(arr: seq<Record>, env: Env, c: string)
    requires forall y :: y in arr ==> y.categorySlug != c
    requires c !in CuratedSlugs
    ensures Kept(arr, CategoryTest(arr, env, c)) == []
  {
    KeptNone(arr, InCategory(c));
    KeptNothing(arr, CategoryTest(arr, env, c));
  }

  // ---------------------------------------------------------------------------
  // sort modes (`filtered.sort(cmp)`, with `le(a, b)` meaning `cmp(a, b) <= 0`)

  /** `sort === 'new'`: newest `createdAt` first. */
  function NewestFirst(): (Record, Record) -> bool {
    (a: Record, b: Record) => b.createdAt <= a.createdAt
  }

  /**
   * `sort === 'price_asc'`, comparing `Number(p.price) || Infinity`: an
   * unpriced record sorts after every priced one, and two unpriced ones
   * compare equal (`Infinity - Infinity` is `NaN`, which the sort takes as 0).
   */
  function CheapestFirst(): (Record, Record) -> bool {
    (a: Record, b: Record) => PriceOf(b) == 0 || (PriceOf(a) != 0 && PriceOf(a) <= PriceOf(b))
  }

  /** `Number(p.price) || -1`. */
  function DescKey(p: Record): int { if PriceOf(p) != 0 then PriceOf(p) else -1 }

  /** `sort === 'price_desc'`: dearest first, an unpriced record as if priced -1. */
  function DearestFirst(): (Record, Record) -> bool {
    (a: Record, b: Record) => DescKey(b) <= DescKey(a)
  }

  /** `sort === 'material_asc'`: canonical materials in Russian collation order. */
  function ByMaterialName(env: Env): (Record, Record) -> bool {
    (a: Record, b: Record) => env.localeLe(MapMaterial(env, MaterialRaw(a)), MapMaterial(env, MaterialRaw(b)))
  }

  /** `sort === 'color_asc'`: canonical colours in Russian collation order. */
  function ByColorName(env: Env): (Record, Record) -> bool {
    (a: Record, b: Record) => env.localeLe(MapColor(env, ColorRaw(a)), MapColor(env, ColorRaw(b)))
  }

  /** The comparator a sort mode selects; any other mode leaves the order alone. */
  function OrderFor(sort: string, env: Env): Option<(Record, Record) -> bool> {
    if sort == "new" then Some(NewestFirst())
    else if sort == "price_asc" then Some(CheapestFirst())
    else if sort == "price_desc" then Some(DearestFirst())
    else if sort == "material_asc" then Some(ByMaterialName(env))
    else if sort == "color_asc" then Some(ByColorName(env))
    else None
  }

  /** The list after the sort the mode selects. */
  function SortedFor(s: seq<Record>, sort: string, env: Env): seq<Record> {
    match OrderFor(sort, env)
    case None => s
    case Some(le) => Sorting.Sort(s, le)
  }

  /** Ordering by a text key in a total collation order is a total preorder. */
  lemma ByNameTotal(le: (string, string) -> bool, key: Record -> string)
    requires Sorting.TotalPreorder(le)
    ensures Sorting.TotalPreorder((a: Record, b: Record) => le(key(a), key(b)))
  {
  }

  /** Every comparator a sort mode selects orders consistently, given a consistent collation. */
  lemma OrdersTotal(sort: string, env: Env)
    requires Sorting.TotalPreorder(env.localeLe)
    ensures OrderFor(sort, env).Some? ==> Sorting.TotalPreorder(OrderFor(sort, env).value)
  {
    if sort == "material_asc" {
      ByNameTotal(env.localeLe, (p: Record) => MapMaterial(env, MaterialRaw(p)));
    } else if sort == "color_asc" {
      ByNameTotal(env.localeLe, (p: Record) => MapColor(env, ColorRaw(p)));
    }
  }

  /** A sort mode permutes the list, and the listed modes leave it sorted by their comparator. */
  lemma SortedForSpec(s: seq<Record>, sort: string, env: Env)
    requires Sorting.TotalPreorder(env.localeLe)
    ensures multiset(SortedFor(s, sort, env)) == multiset(s)
    ensures OrderFor(sort, env).None? ==> SortedFor(s, sort, env) == s
    ensures OrderFor(sort, env).Some? ==> Sorting.SortedBy(SortedFor(s, sort, env), OrderFor(sort, env).value)
  {
    OrdersTotal(sort, env);
    if OrderFor(sort, env).Some? {
      Sorting.SortSorted(s, OrderFor(sort, env).value);
    }
  }

  /** Sorted by `price_asc`, no unpriced record comes before a priced one. */
  lemma UnpricedLast(s: seq<Record>, env: Env, i: nat, j: nat)
    requires Sorting.TotalPreorder(env.localeLe)
    requires i < j < |SortedFor(s, "price_asc", env)|
    ensures var r := SortedFor(s, "price_asc", env);
      PriceOf(r[j]) != 0 ==> PriceOf(r[i]) != 0 && PriceOf(r[i]) <= PriceOf(r[j])
  {
    SortedForSpec(s, "price_asc", env);
  }

  // ---------------------------------------------------------------------------
  // the default ordering: plates first, then a daily shuffle

  /** `isPlate`: filed under plates, or mentioning plates or dishes. */
  predicate IsPlate(p: Record) {
    Contains(Lower(p.categorySlug), "blyuda-tarelki") || Contains(SearchText(p), "тарелк") || Contains(SearchText(p), "блюд")
  }

  predicate NotPlate(p: Record) { !IsPlate(p) }

  /** `String(p.slug || p.id || p.title || '')`. */
  function IdOf(p: Record): string { Or(p.slug, Or(p.id, p.title)) }

  /** `keyFor(p)`: the record's hash mixed with the day's seed, as an unsigned number. */
  function ShuffleKey(seed: bv32, p: Record): int { (Fnv1a(Utf16(IdOf(p))) ^ seed) as int }

  function Shuffle(seed: bv32): (Record, Record) -> bool {
    (a: Record, b: Record) => ShuffleKey(seed, a) <= ShuffleKey(seed, b)
  }

  /** `[...plates, ...rest]` with `rest` sorted by `keyFor`. */
  function DefaultOrder(s: seq<Record>, seed: bv32): seq<Record> {
    Kept(s, IsPlate) + Sorting.Sort(Kept(s, NotPlate), Shuffle(seed))
  }

  /** Whether the default ordering applies: no sort mode (or `popular`) and no category. */
  predicate DefaultApplies(q: Query) { (q.sort == [] || q.sort == "popular") && q.category == [] }

  /**
   * The default ordering permutes the list: the plates come first, in their
   * order, and every other record after them, in increasing shuffle key.
   */
  lemma DefaultOrderSpec(s: seq<Record>, seed: bv32)
    ensures var r := DefaultOrder(s, seed); var k := |Kept(s, IsPlate)|;
      && multiset(r) == multiset(s)
      && r[..k] == Kept(s, IsPlate)
      && (forall i :: 0 <= i < k ==> IsPlate(r[i]))
      && (forall i :: k <= i < |r| ==> !IsPlate(r[i]))
      && Sorting.SortedBy(r[k..], Shuffle(seed))
  {
    var plates, rest := Kept(s, IsPlate), Kept(s, NotPlate);
    var sorted := Sorting.Sort(rest, Shuffle(seed));
    var r := plates + sorted;
    KeptSplit(s, IsPlate, NotPlate);
    KeptMembers(s, IsPlate);
    KeptMembers(s, NotPlate);
    assert r[..|plates|] == plates && r[|plates|..] == sorted;
    forall i | 0 <= i < |plates| ensures IsPlate(r[i]) {
      assert r[i] == plates[i] && plates[i] in plates;
    }
    forall i | |plates| <= i < |r| ensures !IsPlate(r[i]) {
      assert r[i] == sorted[i - |plates|] && sorted[i - |plates|] in multiset(sorted);
    }
    Sorting.SortSorted(rest, Shuffle(seed));
  }

  // ---------------------------------------------------------------------------
  // pagination (`Array.prototype.slice`)

  /** How `slice` reads an index: a negative one counts from the end; both are clamped to the list. */
  function Clamp(x: int, len: nat): (r: nat)
    ensures r <= len
    ensures 0 <= x ==> r == if x < len then x else len
    ensures x < 0 ==> r == if len + x < 0 then 0 else len + x
  {
    if x < 0 then (if len + x < 0 then 0 else len + x) else if x > len then len else x
  }

  /** `s.slice(start, end)`. */
  function JsSlice<T>(s: seq<T>, start: int, end: int): seq<T> {
    var a, b := Clamp(start, |s|), Clamp(end, |s|);
    if a < b then s[a..b] else []
  }

  /** A slice `n` wide holds at most `n` elements, in the list's order. */
  lemma SliceBound<T>(s: seq<T>, start: int, n: int)
    requires n >= 0
    ensures |JsSlice(s, start, start + n)| <= n
    ensures multiset(JsSlice(s, start, start + n)) <= multiset(s)
  {
    var a, b := Clamp(start, |s|), Clamp(start + n, |s|);
    if a < b {
      assert s == s[..a] + s[a..b] + s[b..];
    }
  }

  /** From a start inside the list, the slice is the run of the list from there. */
  lemma SliceFrom<T>(s: seq<T>, start: int, n: int)
    requires 0 <= start && 0 <= n
    ensures JsSlice(s, start, start + n) == if start < |s| then s[start..if start + n < |s| then start + n else |s|] else []
  {
  }

  /** `(page - 1) * pageSize`. */
  function Offset(page: int, pageSize: int): int { (page - 1) * pageSize }

  // ---------------------------------------------------------------------------
  // the card of a listed record

  /** `firstNonEmpty(...vals)`: the first value that is not blank, or `""`. */
  function FirstFilled(vals: seq<string>): (r: string)
    ensures r == [] || Trim(r) != []
  {
    if vals == [] then []
    else if Trim(vals[0]) != [] then vals[0]
    else FirstFilled(vals[1..])
  }

  /** The result is empty exactly when every value is blank, and otherwise it is the first value that is not. */
  lemma FirstFilledSpec(vals: seq<string>)
    ensures var r := FirstFilled(vals);
      (r == [] <==> forall i :: 0 <= i < |vals| ==> Trim(vals[i]) == [])
      && (r != [] ==> exists i :: 0 <= i < |vals| && r == vals[i] && forall j :: 0 <= j < i ==> Trim(vals[j]) == [])
  {
    var i := FirstFilledAt(vals);
    if i < |vals| {
      assert FirstFilled(vals) == vals[i];
    }
  }

  /** The position the result comes from: the first value that is not blank, or `|vals|`. */
  lemma {:induction false} FirstFilledAt(vals: seq<string>) returns (i: nat)
    ensures i <= |vals| && forall j :: 0 <= j < i ==> Trim(vals[j]) == []
    ensures i < |vals| ==> Trim(vals[i]) != [] && FirstFilled(vals) == vals[i]
    ensures i == |vals| ==> FirstFilled(vals) == []
  {
    if vals == [] {
      i := 0;
    } else if Trim(vals[0]) != [] {
      i := 0;
    } else {
      var k := FirstFilledAt(vals[1..]);
      i := k + 1;
      assert forall j :: 1 <= j < |vals| ==> vals[j] == vals[1..][j - 1];
    }
  }

  /** The spec values a card reads, each `""` or not blank. */
  datatype Raw = Raw(material: string, color: string, capacity: string, diameter: string,
                     height: string, width: string, length: string, size: string)

  predicate Filled(v: string) { v == [] || Trim(v) != [] }

  predicate RawFilled(r: Raw) {
    Filled(r.material) && Filled(r.color) && Filled(r.capacity) && Filled(r.diameter)
    && Filled(r.height) && Filled(r.width) && Filled(r.length) && Filled(r.size)
  }

  /** `materialRaw`, `colorRaw`, `capacityRaw`, ...: each the first non-blank of its keys. */
  function RawOf(p: Record): (r: Raw)
    ensures RawFilled(r)
  {
    var sp := p.specs;
    Raw(FirstFilled([p.material, Lookup(sp, "Материал"), Lookup(sp, "материал"), Lookup(sp, "Material")]),
        FirstFilled([p.color, Lookup(sp, "Цвет"), Lookup(sp, "цвет"), Lookup(sp, "Color")]),
        FirstFilled([Lookup(sp, "Объем"), Lookup(sp, "Объём"), Lookup(sp, "Емкость"), Lookup(sp, "Capacity")]),
        FirstFilled([Lookup(sp, "Диаметр (мм)"), Lookup(sp, "Диаметр"), Lookup(sp, "Диаметр (см)")]),
        FirstFilled([Lookup(sp, "Высота (мм)"), Lookup(sp, "Высота")]),
        FirstFilled([Lookup(sp, "Ширина"), Lookup(sp, "Ширина (мм)")]),
        FirstFilled([Lookup(sp, "Длина"), Lookup(sp, "Длина (мм)")]),
        FirstFilled([Lookup(sp, "Размер"), Lookup(sp, "Размеры"), Lookup(sp, "Size")]))
  }

  /** The first of `images`, else `imageUrl`. */
  function FirstImage(p: Record): string { if |p.images| > 0 then p.images[0] else p.imageUrl }

  /** The card's image: a leading `public/` or `/public/` becomes `/`. */
  function CardImage(p: Record): (u: string)
    ensures !StartsWith(u, "public/")
    ensures !StartsWith(FirstImage(p), "public/") && !StartsWith(FirstImage(p), "/public/") ==> u == FirstImage(p)
    ensures u == FirstImage(p) || (u != [] && u[0] == '/' && EndsWith(FirstImage(p), u[1..]))
  {
    var img0 := FirstImage(p);
    var u1 := if StartsWith(img0, "public/") then "/" + img0[7..] else img0;
    assert StartsWith(img0, "public/") ==> EndsWith(img0, u1[1..]) by {
      if StartsWith(img0, "public/") { assert u1[1..] == img0[7..] == img0[|img0| - |u1[1..]|..]; }
    }
    assert StartsWith(img0, "public/") ==> u1[0] == '/';
    if StartsWith(u1, "/public/") then
      var u := "/" + u1[8..];
      assert u1[8..] == u1[1..][7..];
      assert u[1..] == u1[8..];
      u
    else u1
  }

  /** `shortSpecs`: material, colour and volume when present, then the size while fewer than three. */
  function ShortSpecs(r: Raw): (s: seq<string>)
    ensures |s| <= 3
  {
    Picked(r.material, r.color, r.capacity, r.size, NormVol(r.capacity), NormDim(r.size))
  }

  /** The short specs from the raw values `m`, `c`, `cap`, `size` and the normalised volume `nv` and size `nd`. */
  function Picked(m: string, c: string, cap: string, size: string, nv: string, nd: string): (s: seq<string>)
    ensures |s| <= 3
  {
    var a := (if m != [] then [m] else []) + (if c != [] then [c] else []) + (if cap != [] then [nv] else []);
    if |a| < 3 && size != [] then a + [nd] else a
  }

  /** Each short spec is one of the values present, normalised where it is a volume or a size. */
  lemma ShortSpecsFrom(r: Raw, v: string)
    requires v in ShortSpecs(r)
    ensures (v == r.material && r.material != []) || (v == r.color && r.color != [])
            || (v == NormVol(r.capacity) && r.capacity != []) || (v == NormDim(r.size) && r.size != [])
  {
    PickedFrom(r.material, r.color, r.capacity, r.size, NormVol(r.capacity), NormDim(r.size), v);
  }

  lemma PickedFrom(m: string, c: string, cap: string, size: string, nv: string, nd: string, v: string)
    requires v in Picked(m, c, cap, size, nv, nd)
    ensures (v == m && m != []) || (v == c && c != []) || (v == nv && cap != []) || (v == nd && size != [])
  {
  }

  /** No short spec is blank, and the material leads when there is one. */
  lemma ShortSpecsSpec(r: Raw)
    requires RawFilled(r)
    ensures forall i :: 0 <= i < |ShortSpecs(r)| ==> Trim(ShortSpecs(r)[i]) != []
    ensures r.material != [] ==> ShortSpecs(r)[0] == r.material
  {
    if r.capacity != [] {
      NormalizeNotBlank(r.capacity, VolUnits, Litres, 1000, "мл");
    }
    if r.size != [] {
      NormalizeNotBlank(r.size, DimUnits, Centimetres, 10, "мм");
    }
    PickedSpec(r.material, r.color, r.capacity, r.size, NormVol(r.capacity), NormDim(r.size));
  }

  lemma PickedSpec(m: string, c: string, cap: string, size: string, nv: string, nd: string)
    requires Filled(m) && Filled(c) && (cap != [] ==> Trim(nv) != []) && (size != [] ==> Trim(nd) != [])
    ensures forall i :: 0 <= i < |Picked(m, c, cap, size, nv, nd)| ==> Trim(Picked(m, c, cap, size, nv, nd)[i]) != []
    ensures m != [] ==> Picked(m, c, cap, size, nv, nd)[0] == m
  {
    var p := Picked(m, c, cap, size, nv, nd);
    forall i | 0 <= i < |p| ensures Trim(p[i]) != [] {
      PickedFrom(m, c, cap, size, nv, nd, p[i]);
    }
  }

  /** One labelled value of a card (`{ label, value, kind }`). */
  datatype Highlight = Highlight(caption: string, value: string, kind: string)

  /** `push` keeps a highlight only when its value is not blank. */
  predicate Shown(h: Highlight) { Trim(h.value) != [] }

  /** `sizeCombined`: the size, else the length, width and height present, each normalised, joined by ` × `. */
  function SizeCombined(r: Raw): string {
    var dims := NonEmpty([r.length, r.width, r.height]);
    Or(r.size, Join(seq(|dims|, i requires 0 <= i < |dims| => NormDim(dims[i])), " × "))
  }

  /** The slugs `detectCategory` can guess, in the order it tries them. */
  const DetectedSlugs := CuratedSlugs[..10]

  /** `detectCategory(p)`: the record's own category slug, trimmed, else the first slug whose rule its text matches. */
  function DetectCategory(env: Env, p: Record): (c: string)
    ensures Trim(p.categorySlug) != [] ==> c == Trim(p.categorySlug)
    ensures Trim(p.categorySlug) == [] ==> c == [] || c in DetectedSlugs
  {
    var cs := Trim(p.categorySlug);
    if cs != [] then cs else FirstMatch(env.categoryTests, DetectedSlugs, SearchText(p)).GetOr("")
  }

  /** The three highlights a category calls for, blank ones included. */
  function Candidates(cat: string, r: Raw): (hs: seq<Highlight>)
    ensures |hs| == 3
  {
    var mat := Highlight("Материал", r.material, "material");
    var col := Highlight("Цвет", r.color, "color");
    var vol := Highlight("Объем", NormVol(r.capacity), "volume");
    var size := Highlight("Размер", SizeCombined(r), "size");
    if Contains(cat, "blyuda-tarelki") then
      [Highlight("Диаметр", NormDim(Or(r.diameter, SizeCombined(r))), "diameter"), mat, col]
    else if Contains(cat, "stakany") || Contains(cat, "bokaly") || Contains(cat, "stopki-i-ryumki") then [vol, mat, col]
    else if Contains(cat, "kruzhki") then [vol, mat, col]
    else if Contains(cat, "stolovye-pribory") then [Highlight("Длина", NormDim(r.length), "length"), mat, col]
    else if Contains(cat, "banki") || Contains(cat, "konteynery-i-emkosti-dlya-hraneniya") then [vol, size, mat]
    else if Contains(cat, "salatniki") then [Highlight("Диаметр", NormDim(r.diameter), "diameter"), mat, col]
    else if Contains(cat, "barnyy-inventar") then [vol, mat, size]
    else [mat, if r.capacity != [] then vol else size, col]
  }

  /** `highlights`: the category's candidates whose value is not blank, in order. */
  function Highlights(cat: string, r: Raw): (hs: seq<Highlight>)
    ensures |hs| <= 3
    ensures forall h :: h in hs <==> h in Candidates(cat, r) && Shown(h)
  {
    KeptMembers(Candidates(cat, r), Shown);
    Kept(Candidates(cat, r), Shown)
  }

  /** A card: `brand` only when the record has one, `material` and `color` only when not blank. */
  datatype Card = Card(id: string, slug: string, name: string, brand: Option<Enrich.BrandField>,
                       price: Option<int>, imageUrl: string, shortSpecs: seq<string>,
                       highlights: seq<Highlight>, material: Option<string>, color: Option<string>)

  /** `p.brand ? { name: p.brand } : null`. */
  function BrandPart(b: Enrich.BrandField): Option<Enrich.BrandField> {
    match b
    case NoBrand => None
    case BrandText(t) => if t == [] then None else Some(b)
    case BrandRecord(_) => Some(b)
  }

  function CardOf(env: Env, p: Record): Card {
    var r := RawOf(p);
    Card(p.slug, p.slug, TitleOf(p), BrandPart(p.brand), p.price, CardImage(p), ShortSpecs(r),
         Highlights(DetectCategory(env, p), r),
         if r.material != [] then Some(r.material) else None,
         if r.color != [] then Some(r.color) else None)
  }

  /** What a card shows: at most three short specs and three highlights, none blank. */
  lemma CardSpec(env: Env, p: Record)
    ensures var c := CardOf(env, p);
      && |c.shortSpecs| <= 3 && (forall i :: 0 <= i < |c.shortSpecs| ==> Trim(c.shortSpecs[i]) != [])
      && |c.highlights| <= 3 && (forall h :: h in c.highlights ==> Trim(h.value) != [])
      && !StartsWith(c.imageUrl, "public/")
      && (c.material.Some? ==> Trim(c.material.value) != [])
      && (c.color.Some? ==> Trim(c.color.value) != [])
  {
    ShortSpecsSpec(RawOf(p));
  }

  // ---------------------------------------------------------------------------
  // the response

  datatype Payload = Payload(total: nat, page: int, pageSize: int, items: seq<Card>)

  /** The records in listing order: filtered, sorted, then the default ordering when it applies. */
  function Listing(arr: seq<Record>, q: Query, env: Env, seed: bv32): seq<Record> {
    var sorted := SortedFor(Kept(arr, Accepts(arr, q, env)), q.sort, env);
    if DefaultApplies(q) then DefaultOrder(sorted, seed) else sorted
  }

  function Cards(env: Env, ps: seq<Record>): (cs: seq<Card>)
    ensures |cs| == |ps| && forall i :: 0 <= i < |ps| ==> cs[i] == CardOf(env, ps[i])
  {
    seq(|ps|, i requires 0 <= i < |ps| => CardOf(env, ps[i]))
  }

  /** The payload of the file-database branch. */
  function PageOf(arr: seq<Record>, q: Query, env: Env, seed: bv32): Payload {
    var l := Listing(arr, q, env, seed);
    var start := Offset(q.page, q.pageSize);
    Payload(|l|, q.page, q.pageSize, Cards(env, JsSlice(l, start, start + q.pageSize)))
  }

  /** The listing is a rearrangement of exactly the records the filters keep. */
  lemma ListingPermutes(arr: seq<Record>, q: Query, env: Env, seed: bv32)
    requires Sorting.TotalPreorder(env.localeLe)
    ensures multiset(Listing(arr, q, env, seed)) == multiset(Kept(arr, Accepts(arr, q, env)))
  {
    var f := Kept(arr, Accepts(arr, q, env));
    SortedForSpec(f, q.sort, env);
    DefaultOrderSpec(SortedFor(f, q.sort, env), seed);
  }

  /** A record is listed exactly when it is in the database and passes every present filter. */
  lemma ListingSpec(arr: seq<Record>, q: Query, env: Env, seed: bv32, x: Record)
    requires Sorting.TotalPreorder(env.localeLe)
    ensures x in Listing(arr, q, env, seed) <==> x in arr && Passes(arr, q, env, x)
  {
    ListingPermutes(arr, q, env, seed);
    AcceptsSpec(arr, q, env, x);
    assert x in Listing(arr, q, env, seed) <==> x in multiset(Listing(arr, q, env, seed));
    assert x in Kept(arr, Accepts(arr, q, env)) <==> x in multiset(Kept(arr, Accepts(arr, q, env)));
  }

  /**
   * `total` counts every record the filters keep, whatever the page, and a
   * page holds at most `pageSize` cards, one per listed record.
   */
  lemma PageSpec(arr: seq<Record>, q: Query, env: Env, seed: bv32)
    requires Sorting.TotalPreorder(env.localeLe)
    requires q.pageSize >= 0
    ensures PageOf(arr, q, env, seed).total == |Kept(arr, Accepts(arr, q, env))|
    ensures |PageOf(arr, q, env, seed).items| <= q.pageSize
  {
    ListingPermutes(arr, q, env, seed);
    var l := Listing(arr, q, env, seed);
    assert |l| == |multiset(l)|;
    assert |Kept(arr, Accepts(arr, q, env))| == |multiset(Kept(arr, Accepts(arr, q, env)))|;
    SliceBound(l, Offset(q.page, q.pageSize), q.pageSize);
  }

  /** The filtered, sorted and ordered records, before paging. */
  method ListRecords(arr: seq<Record>, q: Query, env: Env, today: string) returns (filtered: seq<Record>)
    ensures filtered == Listing(arr, q, env, Fnv1a(Utf16(today)))
  {
    filtered := FilterRecords(arr, q, env);
    filtered := SortedFor(filtered, q.sort, env);
    if DefaultApplies(q) {
      var seed := Hash(today);
      filtered := DefaultOrder(filtered, seed);
    }
  }

  /** The file-database branch once the cache missed: filter, sort, order, paginate and project. */
  method BuildPage(arr: seq<Record>, q: Query, env: Env, today: string) returns (resp: Payload)
    ensures resp == PageOf(arr, q, env, Fnv1a(Utf16(today)))
  {
    var filtered := ListRecords(arr, q, env, today);
    var start := Offset(q.page, q.pageSize);
    var items := Cards(env, JsSlice(filtered, start, start + q.pageSize));
    resp := Payload(|filtered|, q.page, q.pageSize, items);
  }

  /**
   * `GET /api/products` on the file database: the cached payload when one is
   * fresh; otherwise the filters, the sort, the default ordering (seeded with
   * the hash of `today`, the date as `YYYY-MM-DD`), the page and its cards,
   * cached under `key` at time `later`. `db` is the parsed database, `None`
   * when reading or parsing it failed, which yields an empty payload.
   */
  method Serve(cache: Cache<Payload>, key: string, now: int, later: int, db: Option<seq<Record>>,
               q: Query, env: Env, today: string) returns (resp: Payload)
    modifies cache
    ensures Served(old(cache.entries), key, now).Some? ==>
      resp == Served(old(cache.entries), key, now).value && cache.entries == old(cache.entries)
    ensures Served(old(cache.entries), key, now).None? && db.None? ==>
      resp == Payload(0, q.page, q.pageSize, []) && cache.entries == AfterGet(old(cache.entries), key, now)
    ensures Served(old(cache.entries), key, now).None? && db.Some? ==>
      resp == PageOf(db.value, q, env, Fnv1a(Utf16(today)))
      && cache.entries == AfterGet(old(cache.entries), key, now)[key := CacheEntry(later, resp)]
  {
    var cached := cache.Get(key, now);
    if cached.Some? {
      AfterGetSpec(old(cache.entries), key, now);
      return cached.value;
    }
    if db.None? {
      return Payload(0, q.page, q.pageSize, []);
    }
    resp := BuildPage(db.value, q, env, today);
    cache.Set(key, resp, later);
  }
}
