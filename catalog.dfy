/**
 * The records of the storefront's file database (`data/products.json`) as the
 * listing and facet endpoints read them, and what both endpoints share: the
 * lower-cased search text of a record, the material and colour it names, the
 * brand text, the first-match rule chains the material and colour
 * normalisers are written as, and the curated category table.
 */
module Catalog {
  import opened Wrappers
  import opened Text
  import opened SpecMap
  import Enrich

  /**
   * One record. A missing text field is `""`; a price that is missing or not
   * a number is `None`; `createdAt` is the time value `new Date(createdAt || 0)`
   * gives.
   */
  datatype Record = Record(slug: string, id: string, title: string, name: string, description: string,
                           specs: Specs, categorySlug: string, subcategorySlug: string,
                           material: string, color: string, brand: Enrich.BrandField,
                           price: Option<int>, createdAt: int, images: seq<string>, imageUrl: string)

  /** `p.title || p.name || ''`. */
  function TitleOf(p: Record): string { Or(p.title, p.name) }

  /** `specs[k]`, or `""` when the key is missing. */
  function Lookup(m: Specs, k: string): string { Get(m, k).GetOr("") }

  /** `Object.values(specs)`. */
  function Values(m: Specs): (r: seq<string>)
    ensures |r| == |m| && forall i :: 0 <= i < |m| ==> r[i] == m[i].value
  {
    seq(|m|, i requires 0 <= i < |m| => m[i].value)
  }

  /** `[p.title || p.name || '', p.description || '', ...Object.values(p.specs)].join(' ').toLowerCase()`. */
  function SearchText(p: Record): string {
    Lower(Join([TitleOf(p), p.description] + Values(p.specs), " "))
  }

  /** `typeof p.brand === 'string' ? p.brand : (p.brand?.name || '')`. */
  function BrandOf(p: Record): string { Enrich.BrandName(p.brand) }

  /** `p.material || specs['Материал'] || specs['материал'] || specs['Material'] || ''`. */
  function MaterialRaw(p: Record): string {
    Or(p.material, Or(Lookup(p.specs, "Материал"), Or(Lookup(p.specs, "материал"), Lookup(p.specs, "Material"))))
  }

  /** `p.color || specs['Цвет'] || specs['цвет'] || specs['Color'] || ''`. */
  function ColorRaw(p: Record): string {
    Or(p.color, Or(Lookup(p.specs, "Цвет"), Or(Lookup(p.specs, "цвет"), Lookup(p.specs, "Color"))))
  }

  // ---------------------------------------------------------------------------
  // first-match rule chains

  /** The position of the first test that accepts `s`, or `|tests|`. */
  function FirstHit(tests: seq<string -> bool>, s: string): (i: nat)
    ensures i <= |tests|
    ensures forall j :: 0 <= j < i ==> !tests[j](s)
    ensures i < |tests| ==> tests[i](s)
  {
    if tests == [] || tests[0](s) then 0 else 1 + FirstHit(tests[1..], s)
  }

  /**
   * A chain of `if (test_i(s)) return name_i`: the name paired with the first
   * test that accepts `s`, or nothing when none does (a name without a test,
   * or a test without a name, takes no part).
   */
  function FirstMatch(tests: seq<string -> bool>, names: seq<string>, s: string): (r: Option<string>)
    ensures r.None? <==> forall i :: 0 <= i < |tests| && i < |names| ==> !tests[i](s)
    ensures r.Some? ==> exists i :: 0 <= i < |tests| && i < |names| && tests[i](s) && r.value == names[i]
                                    && forall j :: 0 <= j < i ==> !tests[j](s)
  {
    var i := FirstHit(tests, s);
    if i < |tests| && i < |names| then Some(names[i]) else None
  }

  /** `tests.some((re) => re.test(s))`. */
  predicate AnyTest(tests: seq<string -> bool>, s: string) {
    FirstHit(tests, s) < |tests|
  }

  lemma AnyTestSpec(tests: seq<string -> bool>, s: string)
    ensures AnyTest(tests, s) <==> exists i :: 0 <= i < |tests| && tests[i](s)
  {
  }

  // ---------------------------------------------------------------------------
  // the curated category table

  /** The slugs of the curated categories, in definition order. */
  const CuratedSlugs := ["blyuda-tarelki", "stakany", "kruzhki", "stolovye-pribory", "bokaly",
                         "stopki-i-ryumki", "salatniki", "konteynery-i-emkosti-dlya-hraneniya",
                         "banki", "barnyy-inventar", "vspomogatelnyy-inventar"]

  /** Their display names. */
  const CuratedNames := ["Тарелки", "Стаканы", "Кружки", "Столовые приборы", "Бокалы",
                         "Стопки и рюмки", "Салатники", "Контейнеры и емкости",
                         "Банки", "Барный инвентарь", "Аксессуары"]

  /** `kwBySlug[slug] || []`: the keyword tests listed for `slug`, none for a slug not listed. */
  function KeywordsOf(slugs: seq<string>, table: seq<seq<string -> bool>>, slug: string): (r: seq<string -> bool>)
    ensures slug !in slugs ==> r == []
    ensures forall i :: 0 <= i < |slugs| && i < |table| && slugs[i] == slug && slug !in slugs[..i] ==> r == table[i]
  {
    if slugs == [] || table == [] then []
    else if slugs[0] == slug then table[0]
    else
      var r := KeywordsOf(slugs[1..], table[1..], slug);
      assert forall i :: 1 <= i < |slugs| ==> slugs[1..][..i - 1] == slugs[1..i];
      r
  }
}
