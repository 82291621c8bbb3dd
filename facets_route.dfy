/**
 * The facet endpoint `GET /api/facets` (app/api/facets/route.ts) on its
 * file-database branch: a single cached response that expires after a
 * minute; the display normaliser and the title-case material and colour
 * normalisers; per-facet counters filled in one pass over the records, in
 * first-seen order; the category hierarchy read from `data/categories.json`;
 * the curated category counts; and the assembly of the response, each list
 * sorted by count, falling back to the counts derived from the records when
 * the hierarchy file yields nothing.
 */
module FacetsRoute {
  import opened Wrappers
  import opened Text
  import opened Dedup
  import Sorting
  import Casing
  import opened Catalog
  import ProductsRoute

  // ---------------------------------------------------------------------------
  // the single-slot cache (`getCached` / `setCached`)

  /** How long the cached response is served, in milliseconds. */
  const FacetsTtlMs := 60000

  datatype Slot<D> = Slot(ts: int, data: D)

  /** What `getCached()` returns at time `now`. */
  function Fresh<D>(slot: Option<Slot<D>>, now: int): Option<D> {
    if slot.Some? && now - slot.value.ts <= FacetsTtlMs then Some(slot.value.data) else None
  }

  /** The slot after `getCached()` at time `now`: an expired response is dropped. */
  function SlotAfterGet<D>(slot: Option<Slot<D>>, now: int): Option<Slot<D>> {
    if slot.Some? && now - slot.value.ts > FacetsTtlMs then None else slot
  }

  /** A response stored at `ts` is served exactly while at most a minute old. */
  lemma FreshAfterSet<D>(data: D, ts: int, now: int)
    ensures Fresh(Some(Slot(ts, data)), now) == (if now - ts <= 60000 then Some(data) else None)
  {
  }

  /** Whenever nothing is served the slot is left empty, and a served slot is kept as it was. */
  lemma SlotAfterGetSpec<D>(slot: Option<Slot<D>>, now: int)
    ensures Fresh(slot, now).None? ==> SlotAfterGet(slot, now) == None
    ensures Fresh(slot, now).Some? ==> SlotAfterGet(slot, now) == slot
  {
  }

  /** The module-level `facetsCache` variable. */
  class FacetsCache<D> {
    var slot: Option<Slot<D>>

    constructor ()
      ensures slot == None
    {
      slot := None;
    }

    /** `getCached()` with `Date.now() == now`. */
    method Get(now: int) returns (r: Option<D>)
      modifies this
      ensures r == Fresh(old(slot), now)
      ensures slot == SlotAfterGet(old(slot), now)
    {
      if slot.None? {
        return None;
      }
      if now - slot.value.ts > FacetsTtlMs {
        slot := None;
        return None;
      }
      return Some(slot.value.data);
    }

    /** `setCached(data)` with `Date.now() == now`. */
    method Set(data: D, now: int)
      modifies this
      ensures slot == Some(Slot(now, data))
    {
      slot := Some(Slot(now, data));
    }
  }

  // ---------------------------------------------------------------------------
  // `normalize`, `mapMaterial`, `mapColor`

  /** `normalize(s)`: trimmed, lower-cased, the first letter upper-cased; blank gives `""`. */
  function Normalize(v: string): string { Casing.CapWord(Lower(Trim(v))) }

  /** Upper-casing a lower-cased letter and lower-casing it again gives it back. */
  lemma CaseRoundTrip(c: char)
    ensures LowerChar(UpperChar(LowerChar(c))) == LowerChar(c)
  {
    CharRoundTrip(c);
    CharRoundTrip(LowerChar(c));
  }

  lemma NormalizeSpec(v: string)
    ensures Normalize(v) == [] <==> Trim(v) == []
    ensures |Normalize(v)| == |Trim(v)|
    ensures Lower(Normalize(v)) == Lower(Trim(v))
  {
    var l := Lower(Trim(v));
    if l != [] {
      var r := Normalize(v);
      assert r == [UpperChar(l[0])] + l[1..];
      LowerAppend([UpperChar(l[0])], l[1..]);
      LowerIdempotent(Trim(v));
      LowerAppend([l[0]], l[1..]);
      assert Lower(l[1..]) == l[1..];
      CaseRoundTrip(Trim(v)[0]);
      assert Lower([UpperChar(l[0])]) == [l[0]];
      assert l == [l[0]] + l[1..];
    }
  }

  /** Normalising twice changes nothing more. */
  lemma NormalizeIdempotent(v: string)
    ensures Normalize(Normalize(v)) == Normalize(v)
  {
    var t := Trim(v);
    var r := Normalize(v);
    NormalizeSpec(v);
    if t != [] {
      TrimShape(v);
      CaseKeepsWs(t[0]);
      CaseKeepsWs(LowerChar(t[0]));
      CaseKeepsWs(t[|t| - 1]);
      CaseKeepsWs(LowerChar(t[|t| - 1]));
      assert r[0] == UpperChar(LowerChar(t[0]));
      assert |r| > 1 ==> r[|r| - 1] == LowerChar(t[|t| - 1]);
      TrimIdentity(r);
      var l := Lower(t);
      assert Lower(r) == Lower(t) == l;
    }
  }

  /** The facet names of the material rules, in the order they are tried. */
  const MaterialNames := ["Костяной фарфор", "Фарфор", "Фаянс", "Каменная керамика", "Керамика",
                          "Боросиликатное стекло", "Закаленное стекло", "Опаловое стекло", "Стекло",
                          "Нержавеющая сталь", "Алюминий", "Чугун", "Медь", "Латунь", "Эмаль",
                          "Меламин", "Поликарбонат", "Полипропилен", "Полиэтилен", "Акрил", "Тритан",
                          "ПВХ", "Пластик", "Дерево", "Бамбук", "Ротанг", "Сланец", "Мрамор", "Гранит",
                          "Камень", "Силикон", "Стеклокерамика"]

  /** The facet names of the colour rules; the fourth rule covers both red and burgundy. */
  const ColorNames := ["Прозрачный", "Черный", "Белый", "Красный", "Синий", "Голубой",
                       "Бирюзовый", "Фиолетовый", "Розовый", "Оранжевый", "Желтый", "Зеленый",
                       "Дымчатый", "Янтарный", "Золотистый", "Серебристый", "Бронзовый", "Медный",
                       "Графитовый", "Серый", "Бежевый", "Коричневый", "Кремовый"]

  /** `mapMaterial(v)`: the name of the first rule that accepts the lower-cased text, else `normalize(v)`. */
  function MapMaterial(tests: seq<string -> bool>, v: string): string {
    var s := Lower(Trim(v));
    if s == [] then [] else FirstMatch(tests, MaterialNames, s).GetOr(Normalize(v))
  }

  /** `/бордов|марсал/i`. */
  predicate Burgundy(s: string) { Contains(s, "бордов") || Contains(s, "марсал") }

  /** `mapColor(v)`: like `mapMaterial`, the red rule answering "Бордовый" for burgundy text. */
  function MapColor(tests: seq<string -> bool>, v: string): string {
    var s := Lower(Trim(v));
    if s == [] then []
    else
      match FirstMatch(tests, ColorNames, s)
      case None => Normalize(v)
      case Some(n) => if n == "Красный" && Burgundy(s) then "Бордовый" else n
  }

  /** A material facet is blank only for blank input, and is a rule's name or the normalised text. */
  lemma MapMaterialSpec(tests: seq<string -> bool>, v: string)
    ensures MapMaterial(tests, v) == [] <==> Trim(v) == []
    ensures Trim(v) != [] ==> MapMaterial(tests, v) in MaterialNames || MapMaterial(tests, v) == Normalize(v)
  {
    NormalizeSpec(v);
    assert Lower(Trim(v)) == [] <==> Trim(v) == [];
  }

  /** A colour facet is blank only for blank input, and is a rule's name, "Бордовый", or the normalised text. */
  lemma MapColorSpec(tests: seq<string -> bool>, v: string)
    ensures MapColor(tests, v) == [] <==> Trim(v) == []
    ensures Trim(v) != [] ==> MapColor(tests, v) in ColorNames || MapColor(tests, v) == "Бордовый" || MapColor(tests, v) == Normalize(v)
  {
    NormalizeSpec(v);
    assert Lower(Trim(v)) == [] <==> Trim(v) == [];
  }

  lemma LowerBurgundy()
    ensures |Lower("Бордовый")| >= 6 && Lower("Бордовый")[..6] == "бордов"
  {
    var b := "Бордовый";
    LowerBasicCyrillic('Б');
    LowerBasicCyrillic('о');
    LowerBasicCyrillic('р');
    LowerBasicCyrillic('д');
    LowerBasicCyrillic('в');
    var l := Lower(b);
    assert l[0] == 'б' && l[1] == 'о' && l[2] == 'р' && l[3] == 'д' && l[4] == 'о' && l[5] == 'в';
  }

  lemma BurgundyIsNoRuleName()
    ensures "Бордовый" !in ColorNames
  {
  }

  /** Text that normalises to "Бордовый" names burgundy. */
  lemma NormalizedBurgundy(v: string)
    requires Normalize(v) == "Бордовый"
    ensures Burgundy(Lower(Trim(v)))
  {
    NormalizeSpec(v);
    LowerBurgundy();
    ProductsRoute.ContainsAt(Lower(Trim(v)), 0, "бордов");
  }

  /** "Бордовый" comes only from text that names burgundy. */
  lemma BurgundyOnlyFromText(tests: seq<string -> bool>, v: string)
    requires MapColor(tests, v) == "Бордовый"
    ensures Burgundy(Lower(Trim(v)))
  {
    BurgundyIsNoRuleName();
    if FirstMatch(tests, ColorNames, Lower(Trim(v))).None? {
      NormalizedBurgundy(v);
    }
  }

  // ---------------------------------------------------------------------------
  // the counters (`Map<string, number>`, in first-seen order)

  /** One counter entry, `{ name, count }` in the response. */
  datatype Bucket = Bucket(name: string, count: nat)

  function Names(bs: seq<Bucket>): (r: seq<string>)
    ensures |r| == |bs| && forall i :: 0 <= i < |bs| ==> r[i] == bs[i].name
  {
    seq(|bs|, i requires 0 <= i < |bs| => bs[i].name)
  }

  /** `m.get(k) || 0`. */
  function CountOf(bs: seq<Bucket>, k: string): nat {
    if bs == [] then 0 else if bs[0].name == k then bs[0].count else CountOf(bs[1..], k)
  }

  /** The sum of the counts. */
  function Sum(bs: seq<Bucket>): nat {
    if bs == [] then 0 else bs[0].count + Sum(bs[1..])
  }

  /** `m.set(k, (m.get(k) || 0) + 1)`: a new key goes last, a known one keeps its place. */
  function Bump(bs: seq<Bucket>, k: string): seq<Bucket> {
    if bs == [] then [Bucket(k, 1)]
    else if bs[0].name == k then [Bucket(k, bs[0].count + 1)] + bs[1..]
    else [bs[0]] + Bump(bs[1..], k)
  }

  /** Bumping a key adds one to its count and nothing to any other, and adds a name only when new. */
  lemma BumpSpec(bs: seq<Bucket>, k: string)
    ensures CountOf(Bump(bs, k), k) == CountOf(bs, k) + 1
    ensures forall j :: j != k ==> CountOf(Bump(bs, k), j) == CountOf(bs, j)
    ensures Sum(Bump(bs, k)) == Sum(bs) + 1
    ensures Names(Bump(bs, k)) == if k in Names(bs) then Names(bs) else Names(bs) + [k]
  {
    BumpCounts(bs, k);
    BumpNames(bs, k);
  }

  lemma {:induction false} BumpCounts(bs: seq<Bucket>, k: string)
    ensures CountOf(Bump(bs, k), k) == CountOf(bs, k) + 1
    ensures forall j :: j != k ==> CountOf(Bump(bs, k), j) == CountOf(bs, j)
    ensures Sum(Bump(bs, k)) == Sum(bs) + 1
  {
    if bs != [] && bs[0].name != k {
      BumpCounts(bs[1..], k);
    }
  }

  lemma {:induction false} BumpNames(bs: seq<Bucket>, k: string)
    ensures Names(Bump(bs, k)) == if k in Names(bs) then Names(bs) else Names(bs) + [k]
  {
    if bs != [] && bs[0].name != k {
      BumpNames(bs[1..], k);
      NamesCons(bs[0], bs[1..]);
      NamesCons(bs[0], Bump(bs[1..], k));
      assert bs == [bs[0]] + bs[1..];
      assert (k in Names(bs)) == (k in Names(bs[1..]));
    } else if bs != [] {
      NamesCons(bs[0], bs[1..]);
      NamesCons(Bucket(k, bs[0].count + 1), bs[1..]);
    }
  }

  lemma NamesCons(b: Bucket, bs: seq<Bucket>)
    ensures Names([b] + bs) == [b.name] + Names(bs)
  {
  }

  /** The counter of `key` over the records, empty keys skipped: `if (k) m.set(k, ...)`. */
  function TallyBy(arr: seq<Record>, key: Record -> string): seq<Bucket> {
    if arr == [] then []
    else
      var t := TallyBy(arr[..|arr| - 1], key);
      var k := key(arr[|arr| - 1]);
      if k == [] then t else Bump(t, k)
  }

  function HasKey(key: Record -> string, k: string): Record -> bool { (p: Record) => key(p) == k }

  function Keyed(key: Record -> string): Record -> bool { (p: Record) => key(p) != [] }

  /**
   * Each record adds one to the count of its key and to no other: a
   * non-empty key's count is the number of records with that key, the names
   * are distinct and never empty, and the counts add up to the number of
   * records with a key.
   */
  lemma {:induction false} TallySpec(arr: seq<Record>, key: Record -> string)
    ensures forall k :: k != [] ==> CountOf(TallyBy(arr, key), k) == |Kept(arr, HasKey(key, k))|
    ensures NoDups(Names(TallyBy(arr, key))) && [] !in Names(TallyBy(arr, key))
    ensures Sum(TallyBy(arr, key)) == |Kept(arr, Keyed(key))|
  {
    if arr != [] {
      var init := arr[..|arr| - 1];
      TallySpec(init, key);
      forall k | k != [] ensures CountOf(TallyBy(arr, key), k) == |Kept(arr, HasKey(key, k))| {
        TallyStep(arr, key, k);
      }
      var k := key(arr[|arr| - 1]);
      if k != [] {
        BumpSpec(TallyBy(init, key), k);
      }
    }
  }

  /** One record more: the count of one key. */
  lemma TallyStep(arr: seq<Record>, key: Record -> string, k: string)
    requires arr != [] && k != []
    requires CountOf(TallyBy(arr[..|arr| - 1], key), k) == |Kept(arr[..|arr| - 1], HasKey(key, k))|
    ensures CountOf(TallyBy(arr, key), k) == |Kept(arr, HasKey(key, k))|
  {
    var last := key(arr[|arr| - 1]);
    if last != [] {
      BumpSpec(TallyBy(arr[..|arr| - 1], key), last);
    }
  }

  /** No counter exceeds the number of records, nor does their sum. */
  lemma TallyBound(arr: seq<Record>, key: Record -> string)
    ensures Sum(TallyBy(arr, key)) <= |arr|
    ensures forall k :: CountOf(TallyBy(arr, key), k) <= |arr|
  {
    TallySpec(arr, key);
    forall k ensures CountOf(TallyBy(arr, key), k) <= |arr| {
      if k == [] {
        CountOfMissing(TallyBy(arr, key), k);
      }
    }
  }

  /** A name that is not there counts 0. */
  lemma {:induction false} CountOfMissing(bs: seq<Bucket>, k: string)
    requires k !in Names(bs)
    ensures CountOf(bs, k) == 0
  {
    if bs != [] {
      assert Names(bs[1..]) == Names(bs)[1..];
      CountOfMissing(bs[1..], k);
    }
  }

  /** `.sort((a, b) => b[1] - a[1])`: largest count first. */
  function ByCount(): (Bucket, Bucket) -> bool { (a: Bucket, b: Bucket) => b.count <= a.count }

  lemma ByCountTotal()
    ensures Sorting.TotalPreorder(ByCount())
  {
  }

  /** A counter's entries, largest count first, equal counts in first-seen order. */
  function Ranked(bs: seq<Bucket>): seq<Bucket> { Sorting.Sort(bs, ByCount()) }

  lemma RankedSpec(bs: seq<Bucket>)
    ensures multiset(Ranked(bs)) == multiset(bs)
    ensures forall i, j :: 0 <= i < j < |Ranked(bs)| ==> Ranked(bs)[j].count <= Ranked(bs)[i].count
  {
    ByCountTotal();
    Sorting.SortSorted(bs, ByCount());
  }

  /** The brand key: `normalize(brand text)`. */
  function BrandKey(): Record -> string { (p: Record) => Normalize(BrandOf(p)) }

  /** The material key: `mapMaterial(String(materialRaw))`. */
  function MaterialKey(tests: seq<string -> bool>): Record -> string { (p: Record) => MapMaterial(tests, MaterialRaw(p)) }

  /** The colour key: `mapColor(String(colorRaw))`. */
  function ColorKey(tests: seq<string -> bool>): Record -> string { (p: Record) => MapColor(tests, ColorRaw(p)) }

  /** The category key: `p.categorySlug`. */
  function CategoryKey(): Record -> string { (p: Record) => p.categorySlug }

  /** A counter entry is counted under its own name when the names are distinct. */
  lemma {:induction false} CountOfMember(bs: seq<Bucket>, b: Bucket)
    requires NoDups(Names(bs)) && b in bs
    ensures CountOf(bs, b.name) == b.count
  {
    if bs[0] != b {
      var k :| 0 <= k < |bs| && bs[k] == b;
      assert Names(bs)[0] != Names(bs)[k];
      assert Names(bs[1..]) == Names(bs)[1..];
      assert bs[1..][k - 1] == b;
      CountOfMember(bs[1..], b);
    }
  }

  /**
   * What a facet list of counts promises: every entry names a non-empty key
   * with the number of records that have it, every key a record has is
   * listed, and the largest counts come first.
   */
  ghost predicate CountsOf(bs: seq<Bucket>, arr: seq<Record>, key: Record -> string) {
    (forall b :: b in bs ==> b.name != [] && b.count == |Kept(arr, HasKey(key, b.name))|)
    && (forall i :: 0 <= i < |arr| && key(arr[i]) != [] ==> key(arr[i]) in Names(bs))
    && (forall i, j :: 0 <= i < j < |bs| ==> bs[j].count <= bs[i].count)
  }

  /** A counter filled over the records and ranked is such a list. */
  lemma RankedTallySpec(arr: seq<Record>, key: Record -> string)
    ensures CountsOf(Ranked(TallyBy(arr, key)), arr, key)
  {
    var t := TallyBy(arr, key);
    var r := Ranked(t);
    TallySpec(arr, key);
    RankedSpec(t);
    forall b | b in r
      ensures b.name != [] && b.count == |Kept(arr, HasKey(key, b.name))|
    {
      assert b in multiset(t);
      var k :| 0 <= k < |t| && t[k] == b;
      assert Names(t)[k] == b.name;
      CountOfMember(t, b);
    }
    forall i | 0 <= i < |arr| && key(arr[i]) != []
      ensures key(arr[i]) in Names(r)
    {
      var k := key(arr[i]);
      KeptMembers(arr, HasKey(key, k));
      assert arr[i] in Kept(arr, HasKey(key, k));
      if k !in Names(t) {
        CountOfMissing(t, k);
      }
      var n :| 0 <= n < |t| && Names(t)[n] == k;
      assert t[n] in multiset(r);
      var m :| 0 <= m < |r| && r[m] == t[n];
      assert Names(r)[m] == k;
    }
  }

  // ---------------------------------------------------------------------------
  // the subcategory counters (`subSet`: one counter per category slug)

  /** The subcategory counter of one category slug. */
  datatype Group = Group(cat: string, subs: seq<Bucket>)

  /** The category slugs, in first-seen order. */
  function Cats(gs: seq<Group>): (r: seq<string>)
    ensures |r| == |gs| && forall i :: 0 <= i < |gs| ==> r[i] == gs[i].cat
  {
    seq(|gs|, i requires 0 <= i < |gs| => gs[i].cat)
  }

  /** `subSet.get(c)`, an empty counter when `c` has none. */
  function GroupOf(gs: seq<Group>, c: string): seq<Bucket> {
    if gs == [] then [] else if gs[0].cat == c then gs[0].subs else GroupOf(gs[1..], c)
  }

  /** Creating the counter of `c` when it is missing, then bumping `s` in it. */
  function BumpIn(gs: seq<Group>, c: string, s: string): seq<Group> {
    if gs == [] then [Group(c, Bump([], s))]
    else if gs[0].cat == c then [Group(c, Bump(gs[0].subs, s))] + gs[1..]
    else [gs[0]] + BumpIn(gs[1..], c, s)
  }

  /** Bumping under `c` bumps `c`'s counter and no other, and adds a category only when new. */
  lemma BumpInSpec(gs: seq<Group>, c: string, s: string)
    ensures GroupOf(BumpIn(gs, c, s), c) == Bump(GroupOf(gs, c), s)
    ensures forall d :: d != c ==> GroupOf(BumpIn(gs, c, s), d) == GroupOf(gs, d)
    ensures Cats(BumpIn(gs, c, s)) == if c in Cats(gs) then Cats(gs) else Cats(gs) + [c]
  {
    BumpInGroups(gs, c, s);
    BumpInCats(gs, c, s);
  }

  lemma {:induction false} BumpInGroups(gs: seq<Group>, c: string, s: string)
    ensures GroupOf(BumpIn(gs, c, s), c) == Bump(GroupOf(gs, c), s)
    ensures forall d :: d != c ==> GroupOf(BumpIn(gs, c, s), d) == GroupOf(gs, d)
  {
    if gs != [] && gs[0].cat != c {
      BumpInGroups(gs[1..], c, s);
    }
  }

  lemma {:induction false} BumpInCats(gs: seq<Group>, c: string, s: string)
    ensures Cats(BumpIn(gs, c, s)) == if c in Cats(gs) then Cats(gs) else Cats(gs) + [c]
  {
    if gs != [] && gs[0].cat != c {
      BumpInCats(gs[1..], c, s);
      CatsCons(gs[0], gs[1..]);
      CatsCons(gs[0], BumpIn(gs[1..], c, s));
      assert gs == [gs[0]] + gs[1..];
      assert (c in Cats(gs)) == (c in Cats(gs[1..]));
    } else if gs != [] {
      CatsCons(gs[0], gs[1..]);
      CatsCons(Group(c, Bump(gs[0].subs, s)), gs[1..]);
    }
  }

  lemma CatsCons(g: Group, gs: seq<Group>)
    ensures Cats([g] + gs) == [g.cat] + Cats(gs)
  {
  }

  /** `subSet` after the records: a record with both slugs counts under its category. */
  function SubTally(arr: seq<Record>): seq<Group> {
    if arr == [] then []
    else
      var t := SubTally(arr[..|arr| - 1]);
      var p := arr[|arr| - 1];
      if p.categorySlug != [] && p.subcategorySlug != [] then BumpIn(t, p.categorySlug, p.subcategorySlug) else t
  }

  function InPair(c: string, k: string): Record -> bool {
    (p: Record) => p.categorySlug == c && p.subcategorySlug == k
  }

  /** The count of subcategory `k` under category `c` is the number of records with both slugs. */
  lemma {:induction false} SubTallySpec(arr: seq<Record>)
    ensures forall c, k :: c != [] && k != [] ==> CountOf(GroupOf(SubTally(arr), c), k) == |Kept(arr, InPair(c, k))|
  {
    if arr != [] {
      var init := arr[..|arr| - 1];
      SubTallySpec(init);
      var p := arr[|arr| - 1];
      var t := SubTally(init);
      forall c, k | c != [] && k != [] ensures CountOf(GroupOf(SubTally(arr), c), k) == |Kept(arr, InPair(c, k))| {
        if p.categorySlug != [] && p.subcategorySlug != [] {
          BumpInSpec(t, p.categorySlug, p.subcategorySlug);
          if c == p.categorySlug {
            BumpSpec(GroupOf(t, c), p.subcategorySlug);
          }
        }
      }
    }
  }

  /** The categories are distinct and never empty, and so are the subcategories under each. */
  lemma {:induction false} SubTallyNames(arr: seq<Record>)
    ensures NoDups(Cats(SubTally(arr))) && [] !in Cats(SubTally(arr))
    ensures forall c :: NoDups(Names(GroupOf(SubTally(arr), c))) && [] !in Names(GroupOf(SubTally(arr), c))
  {
    if arr != [] {
      var init := arr[..|arr| - 1];
      SubTallyNames(init);
      var p := arr[|arr| - 1];
      var t := SubTally(init);
      if p.categorySlug != [] && p.subcategorySlug != [] {
        var c0, s0 := p.categorySlug, p.subcategorySlug;
        var t' := BumpIn(t, c0, s0);
        assert SubTally(arr) == t';
        BumpInSpec(t, c0, s0);
        BumpSpec(GroupOf(t, c0), s0);
        if c0 !in Cats(t) { NoDupsSnoc(Cats(t), c0); }
        if s0 !in Names(GroupOf(t, c0)) { NoDupsSnoc(Names(GroupOf(t, c0)), s0); }
        forall c ensures NoDups(Names(GroupOf(t', c))) && [] !in Names(GroupOf(t', c)) {
          if c != c0 { assert GroupOf(t', c) == GroupOf(t, c); }
        }
      }
    }
  }

  /** The counter stored at a position is the one found by its category. */
  lemma {:induction false} GroupOfAt(gs: seq<Group>, i: nat)
    requires NoDups(Cats(gs)) && i < |gs|
    ensures GroupOf(gs, gs[i].cat) == gs[i].subs
  {
    if i > 0 {
      assert Cats(gs)[0] != Cats(gs)[i];
      assert Cats(gs[1..]) == Cats(gs)[1..];
      GroupOfAt(gs[1..], i - 1);
    }
  }

  // ---------------------------------------------------------------------------
  // the curated category counts (`curatedCounts`)

  /** The keyword tests of the curated definition at `j`; none when the table has no row for it. */
  function RulesAt(table: seq<seq<string -> bool>>, j: nat): seq<string -> bool> {
    if j < |table| then table[j] else []
  }

  /** `curatedCounts.get(slug) || 0`. */
  function Get0(m: map<string, nat>, k: string): nat { if k in m then m[k] else 0 }

  /** The inner loop over the first `n` curated definitions, for one record's search text. */
  function CuratedStep(m: map<string, nat>, table: seq<seq<string -> bool>>, text: string, n: nat): map<string, nat>
    requires n <= |CuratedSlugs|
  {
    StepOver(CuratedSlugs, m, HitsOf(table, text), n)
  }

  /** Whether the `j`-th rules of `table` match `text`. */
  function HitsOf(table: seq<seq<string -> bool>>, text: string): nat -> bool {
    (j: nat) => AnyTest(RulesAt(table, j), text)
  }

  /** The same loop over any list of keys, the `j`-th one bumped when `hitAt(j)`. */
  function StepOver(slugs: seq<string>, m: map<string, nat>, hitAt: nat -> bool, n: nat): map<string, nat>
    requires n <= |slugs|
  {
    if n == 0 then m
    else
      var m' := StepOver(slugs, m, hitAt, n - 1);
      var slug := slugs[n - 1];
      if hitAt(n - 1) then m'[slug := Get0(m', slug) + 1] else m'
  }

  /** `curatedCounts` after the records. */
  function CuratedTally(arr: seq<Record>, table: seq<seq<string -> bool>>): map<string, nat> {
    if arr == [] then map[]
    else CuratedStep(CuratedTally(arr[..|arr| - 1], table), table, SearchText(arr[|arr| - 1]), |CuratedSlugs|)
  }

  lemma CuratedDistinct()
    ensures NoDups(CuratedSlugs)
  {
  }

  /** One pass adds one to each definition whose keywords the text mentions, and nothing else. */
  lemma {:induction false} CuratedStepSpec(m: map<string, nat>, table: seq<seq<string -> bool>>, text: string, n: nat)
    requires n <= |CuratedSlugs|
    ensures forall j :: 0 <= j < |CuratedSlugs| ==>
      Get0(CuratedStep(m, table, text, n), CuratedSlugs[j])
        == Get0(m, CuratedSlugs[j]) + (if j < n && AnyTest(RulesAt(table, j), text) then 1 else 0)
  {
    forall j | 0 <= j < |CuratedSlugs|
      ensures Get0(CuratedStep(m, table, text, n), CuratedSlugs[j])
        == Get0(m, CuratedSlugs[j]) + (if j < n && AnyTest(RulesAt(table, j), text) then 1 else 0)
    {
      CuratedDistinct();
      StepOverAt(CuratedSlugs, m, HitsOf(table, text), n, j);
    }
  }

  /** The pass at one key `j` of distinct keys. */
  lemma {:induction false} StepOverAt(slugs: seq<string>, m: map<string, nat>, hitAt: nat -> bool, n: nat, j: nat)
    requires NoDups(slugs) && n <= |slugs| && j < |slugs|
    ensures Get0(StepOver(slugs, m, hitAt, n), slugs[j]) == Get0(m, slugs[j]) + (if j < n && hitAt(j) then 1 else 0)
  {
    if n > 0 {
      StepOverAt(slugs, m, hitAt, n - 1, j);
      if j != n - 1 {
        assert slugs[j] != slugs[n - 1];
      }
    }
  }

  /** A curated count is the number of records whose search text one of its keywords matches. */
  lemma {:induction false} CuratedTallySpec(arr: seq<Record>, table: seq<seq<string -> bool>>)
    ensures forall j :: 0 <= j < |CuratedSlugs| ==>
      Get0(CuratedTally(arr, table), CuratedSlugs[j]) == |Kept(arr, ProductsRoute.MentionsAny(RulesAt(table, j)))|
  {
    if arr != [] {
      var init := arr[..|arr| - 1];
      CuratedTallySpec(init, table);
      CuratedStepSpec(CuratedTally(init, table), table, SearchText(arr[|arr| - 1]), |CuratedSlugs|);
    }
  }

  // ---------------------------------------------------------------------------
  // the category hierarchy (`data/categories.json`)

  /** A row of the hierarchy file; a missing or empty `parentSlug` is `""`. */
  datatype CatRow = CatRow(slug: string, name: string, parentSlug: string)

  /** `{ slug, name, count? }` in the response. */
  datatype Category = Category(slug: string, name: string, count: Option<nat>)

  /** The subcategories listed under one category slug. */
  datatype SubGroup = SubGroup(parent: string, items: seq<Category>)

  function Entry(r: CatRow): Category { Category(r.slug, r.name, None) }

  function Slugs(cs: seq<Category>): (r: seq<string>)
    ensures |r| == |cs| && forall i :: 0 <= i < |cs| ==> r[i] == cs[i].slug
  {
    seq(|cs|, i requires 0 <= i < |cs| => cs[i].slug)
  }

  /** `top[c.slug] = c`: a known slug keeps its place and takes the new entry, a new one goes last. */
  function Put(top: seq<Category>, c: Category): seq<Category> {
    if top == [] then [c]
    else if top[0].slug == c.slug then [c] + top[1..]
    else [top[0]] + Put(top[1..], c)
  }

  lemma PutSpec(top: seq<Category>, c: Category)
    requires NoDups(Slugs(top))
    ensures forall x :: x in Put(top, c) <==> x == c || (x in top && x.slug != c.slug)
    ensures Slugs(Put(top, c)) == if c.slug in Slugs(top) then Slugs(top) else Slugs(top) + [c.slug]
  {
    PutMembers(top, c);
    PutSlugs(top, c);
  }

  lemma {:induction false} PutMembers(top: seq<Category>, c: Category)
    requires NoDups(Slugs(top))
    ensures forall x :: x in Put(top, c) <==> x == c || (x in top && x.slug != c.slug)
  {
    if top != [] {
      NoDupsTail(top);
      forall x | x in top[1..] ensures x.slug != top[0].slug {
        var k :| 1 <= k < |top| && top[k] == x;
        assert Slugs(top)[0] != Slugs(top)[k];
      }
      assert top == [top[0]] + top[1..];
      if top[0].slug != c.slug {
        PutMembers(top[1..], c);
      }
    }
  }

  lemma NoDupsTail(top: seq<Category>)
    requires top != [] && NoDups(Slugs(top))
    ensures NoDups(Slugs(top[1..]))
  {
    forall i, j | 0 <= i < j < |top| - 1 ensures Slugs(top[1..])[i] != Slugs(top[1..])[j] {
      assert Slugs(top)[i + 1] != Slugs(top)[j + 1];
    }
  }

  lemma {:induction false} PutSlugs(top: seq<Category>, c: Category)
    ensures Slugs(Put(top, c)) == if c.slug in Slugs(top) then Slugs(top) else Slugs(top) + [c.slug]
  {
    if top != [] {
      SlugsCons(top[0], top[1..]);
      assert top == [top[0]] + top[1..];
      if top[0].slug != c.slug {
        PutSlugs(top[1..], c);
        SlugsCons(top[0], Put(top[1..], c));
        assert (c.slug in Slugs(top)) == (c.slug in Slugs(top[1..]));
      } else {
        SlugsCons(c, top[1..]);
      }
    }
  }

  lemma SlugsCons(x: Category, cs: seq<Category>)
    ensures Slugs([x] + cs) == [x.slug] + Slugs(cs)
  {
  }

  /** `Object.values(top)` after the rows. */
  function TopOf(rows: seq<CatRow>): seq<Category> {
    if rows == [] then []
    else
      var t := TopOf(rows[..|rows| - 1]);
      var r := rows[|rows| - 1];
      if r.parentSlug == [] then Put(t, Entry(r)) else t
  }

  /** Row `i` names a top-level category that no later top-level row names again. */
  ghost predicate Latest(rows: seq<CatRow>, i: int)
    requires 0 <= i < |rows|
  {
    rows[i].parentSlug == [] && forall j :: i < j < |rows| ==> rows[j].parentSlug != [] || rows[j].slug != rows[i].slug
  }

  /**
   * The top-level categories are the rows without a parent, one per slug,
   * each with the name of the last row for its slug and no count.
   */
  lemma {:induction false} TopSpec(rows: seq<CatRow>)
    ensures NoDups(Slugs(TopOf(rows)))
    ensures forall c :: c in TopOf(rows) <==> exists i :: 0 <= i < |rows| && Latest(rows, i) && c == Entry(rows[i])
  {
    if rows != [] {
      TopSpec(rows[..|rows| - 1]);
      var init, r := rows[..|rows| - 1], rows[|rows| - 1];
      InitLast(rows);
      if r.parentSlug == [] {
        TopPut(init, r);
      } else {
        TopSkip(init, r);
      }
      assert TopMembers(rows, TopOf(rows));
    }
  }

  /** `t` holds the entries of exactly the latest top-level rows. */
  ghost predicate TopMembers(rows: seq<CatRow>, t: seq<Category>) {
    forall c :: c in t <==> exists i :: 0 <= i < |rows| && Latest(rows, i) && c == Entry(rows[i])
  }

  /** A row stays latest after one more row unless that row is top-level with its slug. */
  lemma LatestSnoc(rows: seq<CatRow>, i: nat)
    requires i < |rows| - 1
    ensures Latest(rows, i) <==> Latest(rows[..|rows| - 1], i) && (rows[|rows| - 1].parentSlug != [] || rows[|rows| - 1].slug != rows[i].slug)
  {
  }

  lemma TopPut(init: seq<CatRow>, r: CatRow)
    requires r.parentSlug == []
    requires NoDups(Slugs(TopOf(init))) && TopMembers(init, TopOf(init))
    ensures NoDups(Slugs(TopOf(init + [r]))) && TopMembers(init + [r], TopOf(init + [r]))
  {
    var rows := init + [r];
    assert rows[..|rows| - 1] == init;
    var t := TopOf(init);
    PutSpec(t, Entry(r));
    assert Latest(rows, |rows| - 1);
    forall c ensures c in TopOf(rows) <==> exists i :: 0 <= i < |rows| && Latest(rows, i) && c == Entry(rows[i]) {
      if c in t && c.slug != r.slug {
        var i :| 0 <= i < |init| && Latest(init, i) && c == Entry(init[i]);
        LatestSnoc(rows, i);
        assert Latest(rows, i);
      }
      if exists i :: 0 <= i < |rows| && Latest(rows, i) && c == Entry(rows[i]) {
        var i :| 0 <= i < |rows| && Latest(rows, i) && c == Entry(rows[i]);
        if i < |init| {
          LatestSnoc(rows, i);
          assert Latest(init, i);
        }
      }
    }
  }

  lemma TopSkip(init: seq<CatRow>, r: CatRow)
    requires r.parentSlug != []
    requires NoDups(Slugs(TopOf(init))) && TopMembers(init, TopOf(init))
    ensures NoDups(Slugs(TopOf(init + [r]))) && TopMembers(init + [r], TopOf(init + [r]))
  {
    var rows := init + [r];
    assert rows[..|rows| - 1] == init;
    var t := TopOf(init);
    forall c ensures c in TopOf(rows) <==> exists i :: 0 <= i < |rows| && Latest(rows, i) && c == Entry(rows[i]) {
      if c in t {
        var i :| 0 <= i < |init| && Latest(init, i) && c == Entry(init[i]);
        LatestSnoc(rows, i);
        assert Latest(rows, i);
      }
      if exists i :: 0 <= i < |rows| && Latest(rows, i) && c == Entry(rows[i]) {
        var i :| 0 <= i < |rows| && Latest(rows, i) && c == Entry(rows[i]);
        LatestSnoc(rows, i);
        assert Latest(init, i);
      }
    }
  }

  /** `subs[parent].push(c)`, creating the list when it is missing. */
  function Append(gs: seq<SubGroup>, parent: string, c: Category): seq<SubGroup> {
    if gs == [] then [SubGroup(parent, [c])]
    else if gs[0].parent == parent then [SubGroup(parent, gs[0].items + [c])] + gs[1..]
    else [gs[0]] + Append(gs[1..], parent, c)
  }

  function Parents(gs: seq<SubGroup>): (r: seq<string>)
    ensures |r| == |gs| && forall i :: 0 <= i < |gs| ==> r[i] == gs[i].parent
  {
    seq(|gs|, i requires 0 <= i < |gs| => gs[i].parent)
  }

  /** `subs[parent] || []`. */
  function ItemsOf(gs: seq<SubGroup>, parent: string): seq<Category> {
    if gs == [] then [] else if gs[0].parent == parent then gs[0].items else ItemsOf(gs[1..], parent)
  }

  lemma AppendSpec(gs: seq<SubGroup>, parent: string, c: Category)
    ensures ItemsOf(Append(gs, parent, c), parent) == ItemsOf(gs, parent) + [c]
    ensures forall d :: d != parent ==> ItemsOf(Append(gs, parent, c), d) == ItemsOf(gs, d)
    ensures Parents(Append(gs, parent, c)) == if parent in Parents(gs) then Parents(gs) else Parents(gs) + [parent]
  {
    AppendItems(gs, parent, c);
    forall d | d != parent ensures ItemsOf(Append(gs, parent, c), d) == ItemsOf(gs, d) {
      AppendOthers(gs, parent, c, d);
    }
    AppendParents(gs, parent, c);
  }

  lemma {:induction false} AppendItems(gs: seq<SubGroup>, parent: string, c: Category)
    ensures ItemsOf(Append(gs, parent, c), parent) == ItemsOf(gs, parent) + [c]
  {
    if gs != [] && gs[0].parent != parent {
      AppendItems(gs[1..], parent, c);
    }
  }

  lemma {:induction false} AppendOthers(gs: seq<SubGroup>, parent: string, c: Category, d: string)
    requires d != parent
    ensures ItemsOf(Append(gs, parent, c), d) == ItemsOf(gs, d)
  {
    if gs != [] && gs[0].parent != parent {
      AppendOthers(gs[1..], parent, c, d);
    }
  }

  lemma {:induction false} AppendParents(gs: seq<SubGroup>, parent: string, c: Category)
    ensures Parents(Append(gs, parent, c)) == if parent in Parents(gs) then Parents(gs) else Parents(gs) + [parent]
  {
    if gs != [] && gs[0].parent != parent {
      AppendParents(gs[1..], parent, c);
      assert Parents(gs) == [gs[0].parent] + Parents(gs[1..]);
      assert Parents(Append(gs, parent, c)) == [gs[0].parent] + Parents(Append(gs[1..], parent, c));
    } else if gs != [] {
      assert Parents(gs) == [parent] + Parents(gs[1..]);
      assert Parents(Append(gs, parent, c)) == [parent] + Parents(gs[1..]);
    }
  }

  /** The `subs` object after the rows. */
  function SubsOf(rows: seq<CatRow>): seq<SubGroup> {
    if rows == [] then []
    else
      var t := SubsOf(rows[..|rows| - 1]);
      var r := rows[|rows| - 1];
      if r.parentSlug == [] then t else Append(t, r.parentSlug, Entry(r))
  }

  function Entries(rows: seq<CatRow>): (r: seq<Category>)
    ensures |r| == |rows| && forall i :: 0 <= i < |rows| ==> r[i] == Entry(rows[i])
  {
    seq(|rows|, i requires 0 <= i < |rows| => Entry(rows[i]))
  }

  function ChildOf(parent: string): CatRow -> bool { (r: CatRow) => r.parentSlug == parent }

  /**
   * The subcategories of a parent are exactly its child rows, in file order,
   * duplicates kept; each parent is listed once and is never empty.
   */
  lemma {:induction false} SubsSpec(rows: seq<CatRow>)
    ensures forall p :: p != [] ==> ItemsOf(SubsOf(rows), p) == Entries(Kept(rows, ChildOf(p)))
    ensures NoDups(Parents(SubsOf(rows))) && [] !in Parents(SubsOf(rows))
  {
    if rows != [] {
      var init := rows[..|rows| - 1];
      var r := rows[|rows| - 1];
      SubsSpec(init);
      forall p | p != [] ensures ItemsOf(SubsOf(rows), p) == Entries(Kept(rows, ChildOf(p))) {
        SubsStep(rows, p);
      }
      if r.parentSlug != [] {
        AppendSpec(SubsOf(init), r.parentSlug, Entry(r));
      }
    }
  }

  /** One row more: the items of one parent. */
  lemma SubsStep(rows: seq<CatRow>, p: string)
    requires rows != [] && p != []
    requires ItemsOf(SubsOf(rows[..|rows| - 1]), p) == Entries(Kept(rows[..|rows| - 1], ChildOf(p)))
    ensures ItemsOf(SubsOf(rows), p) == Entries(Kept(rows, ChildOf(p)))
  {
    var init := rows[..|rows| - 1];
    var r := rows[|rows| - 1];
    var k := Kept(init, ChildOf(p));
    assert Kept(rows, ChildOf(p)) == k + (if r.parentSlug == p then [r] else []);
    if r.parentSlug == p {
      AppendItems(SubsOf(init), p, Entry(r));
      EntriesSnoc(k, r);
    } else {
      assert k + [] == k;
      if r.parentSlug != [] {
        AppendOthers(SubsOf(init), r.parentSlug, Entry(r), p);
      }
    }
  }

  lemma EntriesSnoc(k: seq<CatRow>, r: CatRow)
    ensures Entries(k + [r]) == Entries(k) + [Entry(r)]
  {
    assert |Entries(k + [r])| == |Entries(k) + [Entry(r)]|;
  }

  /** The loop over the rows of the hierarchy file. */
  method ReadHierarchy(rows: seq<CatRow>) returns (top: seq<Category>, subs: seq<SubGroup>)
    ensures top == TopOf(rows) && subs == SubsOf(rows)
  {
    top, subs := [], [];
    var i := 0;
    while i < |rows|
      invariant i <= |rows|
      invariant top == TopOf(rows[..i]) && subs == SubsOf(rows[..i])
    {
      var c := rows[i];
      if c.parentSlug == [] {
        top := Put(top, Entry(c));
      } else {
        subs := Append(subs, c.parentSlug, Entry(c));
      }
      assert rows[..i + 1][..i] == rows[..i];
      i := i + 1;
    }
    assert rows[..|rows|] == rows;
  }

  // ---------------------------------------------------------------------------
  // the counting loop

  /** The rules the normalisers and the curated counts use, each regular expression taken as a test. */
  datatype Rules = Rules(materialTests: seq<string -> bool>, colorTests: seq<string -> bool>,
                         keywordTable: seq<seq<string -> bool>>)

  /** The inner loop: one more for each curated definition whose keywords the text mentions. */
  method CountCurated(m: map<string, nat>, table: seq<seq<string -> bool>>, text: string) returns (r: map<string, nat>)
    ensures r == CuratedStep(m, table, text, |CuratedSlugs|)
  {
    r := m;
    for j := 0 to |CuratedSlugs|
      invariant r == CuratedStep(m, table, text, j)
    {
      r := CuratedBump(m, r, table, text, j);
    }
  }

  /** One turn of the inner loop: one more under the `j`-th definition when its keywords match. */
  method CuratedBump(ghost m: map<string, nat>, r: map<string, nat>, table: seq<seq<string -> bool>>, text: string, j: nat)
    returns (r': map<string, nat>)
    requires j < |CuratedSlugs| && r == CuratedStep(m, table, text, j)
    ensures r' == CuratedStep(m, table, text, j + 1)
  {
    var slug := CuratedSlugs[j];
    r' := r;
    if AnyTest(RulesAt(table, j), text) {
      r' := r[slug := Get0(r, slug) + 1];
    }
    assert HitsOf(table, text)(j) == AnyTest(RulesAt(table, j), text);
  }

  /** One more record for a counter. */
  lemma TallyNext(arr: seq<Record>, i: nat, key: Record -> string)
    requires i < |arr|
    ensures TallyBy(arr[..i + 1], key) == if key(arr[i]) == [] then TallyBy(arr[..i], key) else Bump(TallyBy(arr[..i], key), key(arr[i]))
  {
    assert arr[..i + 1][..i] == arr[..i];
  }

  lemma SubTallyNext(arr: seq<Record>, i: nat)
    requires i < |arr|
    ensures SubTally(arr[..i + 1]) ==
      if arr[i].categorySlug != [] && arr[i].subcategorySlug != [] then BumpIn(SubTally(arr[..i]), arr[i].categorySlug, arr[i].subcategorySlug)
      else SubTally(arr[..i])
  {
    assert arr[..i + 1][..i] == arr[..i];
  }

  lemma CuratedTallyNext(arr: seq<Record>, i: nat, table: seq<seq<string -> bool>>)
    requires i < |arr|
    ensures CuratedTally(arr[..i + 1], table) == CuratedStep(CuratedTally(arr[..i], table), table, SearchText(arr[i]), |CuratedSlugs|)
  {
    assert arr[..i + 1][..i] == arr[..i];
  }

  /** The loop over the records that fills every counter at once. */
  method CountRecords(arr: seq<Record>, rules: Rules)
    returns (catSet: seq<Bucket>, subSet: seq<Group>, brands: seq<Bucket>, materials: seq<Bucket>,
             colors: seq<Bucket>, curated: map<string, nat>)
    ensures catSet == TallyBy(arr, CategoryKey()) && subSet == SubTally(arr)
    ensures brands == TallyBy(arr, BrandKey())
    ensures materials == TallyBy(arr, MaterialKey(rules.materialTests))
    ensures colors == TallyBy(arr, ColorKey(rules.colorTests))
    ensures curated == CuratedTally(arr, rules.keywordTable)
  {
    catSet, subSet, brands, materials, colors, curated := [], [], [], [], [], map[];
    var i := 0;
    while i < |arr|
      invariant i <= |arr|
      invariant catSet == TallyBy(arr[..i], CategoryKey()) && subSet == SubTally(arr[..i])
      invariant brands == TallyBy(arr[..i], BrandKey())
      invariant materials == TallyBy(arr[..i], MaterialKey(rules.materialTests))
      invariant colors == TallyBy(arr[..i], ColorKey(rules.colorTests))
      invariant curated == CuratedTally(arr[..i], rules.keywordTable)
    {
      var p := arr[i];
      TallyNext(arr, i, CategoryKey());
      SubTallyNext(arr, i);
      TallyNext(arr, i, BrandKey());
      TallyNext(arr, i, MaterialKey(rules.materialTests));
      TallyNext(arr, i, ColorKey(rules.colorTests));
      CuratedTallyNext(arr, i, rules.keywordTable);
      if p.categorySlug != [] {
        catSet := Bump(catSet, p.categorySlug);
      }
      if p.categorySlug != [] && p.subcategorySlug != [] {
        subSet := BumpIn(subSet, p.categorySlug, p.subcategorySlug);
      }
      var brand := Normalize(BrandOf(p));
      if brand != [] {
        brands := Bump(brands, brand);
      }
      var material := MapMaterial(rules.materialTests, MaterialRaw(p));
      if material != [] {
        materials := Bump(materials, material);
      }
      var color := MapColor(rules.colorTests, ColorRaw(p));
      if color != [] {
        colors := Bump(colors, color);
      }
      curated := CountCurated(curated, rules.keywordTable, SearchText(p));
      i := i + 1;
    }
    assert arr[..|arr|] == arr;
  }

  // ---------------------------------------------------------------------------
  // the response

  /** The response body. */
  datatype Facets = Facets(categories: seq<Category>, brands: seq<Bucket>, materials: seq<Bucket>,
                           colors: seq<Bucket>, subcategories: seq<SubGroup>, curated: seq<Category>)

  /**
   * The body sent when the records cannot be read: every list empty. The
   * source's error body has no `curatedCategories` key at all; here that
   * field is the empty list.
   */
  const NoFacets := Facets([], [], [], [], [], [])

  /** `c.count || 0`. */
  function CountKey(c: Category): nat { c.count.GetOr(0) }

  /** `.sort((a, b) => (b.count || 0) - (a.count || 0))`. */
  function ByCategoryCount(): (Category, Category) -> bool { (a: Category, b: Category) => CountKey(b) <= CountKey(a) }

  function RankedCategories(cs: seq<Category>): seq<Category> { Sorting.Sort(cs, ByCategoryCount()) }

  /** The entries of a slug counter, `{ slug, name: slug, count }`. */
  function Derived(bs: seq<Bucket>): (r: seq<Category>)
    ensures |r| == |bs|
  {
    seq(|bs|, i requires 0 <= i < |bs| => Category(bs[i].name, bs[i].name, Some(bs[i].count)))
  }

  /** The subcategories derived from `subSet`, each list largest count first. */
  function DerivedGroups(gs: seq<Group>): (r: seq<SubGroup>)
    ensures |r| == |gs|
  {
    seq(|gs|, i requires 0 <= i < |gs| => SubGroup(gs[i].cat, RankedCategories(Derived(gs[i].subs))))
  }

  /** The curated definitions with their counts. */
  function CuratedDefs(m: map<string, nat>): (r: seq<Category>)
    ensures |r| == |CuratedSlugs|
  {
    seq(|CuratedSlugs|, j requires 0 <= j < |CuratedSlugs| => Category(CuratedSlugs[j], CuratedNames[j], Some(Get0(m, CuratedSlugs[j]))))
  }

  function Counted(c: Category): bool { CountKey(c) > 0 }

  /** `curatedCategories`: the definitions some record matched, in definition order. */
  function Curated(m: map<string, nat>): seq<Category> { Kept(CuratedDefs(m), Counted) }

  /**
   * The facets of the records `arr` and of the hierarchy file (`None` when it
   * cannot be read): the hierarchy's categories and subcategories when it
   * yields some, else the ones the records carry.
   */
  function FacetsOf(arr: seq<Record>, hier: Option<seq<CatRow>>, rules: Rules): Facets {
    var rows := hier.GetOr([]);
    var top := TopOf(rows);
    var subs := SubsOf(rows);
    var st := SubTally(arr);
    Facets(RankedCategories(if top == [] then Derived(TallyBy(arr, CategoryKey())) else top),
           Ranked(TallyBy(arr, BrandKey())),
           Ranked(TallyBy(arr, MaterialKey(rules.materialTests))),
           Ranked(TallyBy(arr, ColorKey(rules.colorTests))),
           if subs == [] && st != [] then DerivedGroups(st) else subs,
           Curated(CuratedTally(arr, rules.keywordTable)))
  }

  lemma ByCategoryCountTotal()
    ensures Sorting.TotalPreorder(ByCategoryCount())
  {
  }

  /**
   * The entries derived from a counter with distinct names, ranked: each is
   * a name of the counter with its count, every name is there, largest count
   * first.
   */
  lemma DerivedSpec(bs: seq<Bucket>)
    requires NoDups(Names(bs))
    ensures forall c :: c in RankedCategories(Derived(bs)) ==> c.slug in Names(bs) && c.name == c.slug && c.count == Some(CountOf(bs, c.slug))
    ensures forall k :: k in Names(bs) ==> k in Slugs(RankedCategories(Derived(bs)))
    ensures forall i, j :: 0 <= i < j < |RankedCategories(Derived(bs))| ==>
      CountKey(RankedCategories(Derived(bs))[j]) <= CountKey(RankedCategories(Derived(bs))[i])
  {
    var d := Derived(bs);
    var r := RankedCategories(d);
    ByCategoryCountTotal();
    Sorting.SortSorted(d, ByCategoryCount());
    forall c | c in r ensures c.slug in Names(bs) && c.name == c.slug && c.count == Some(CountOf(bs, c.slug)) {
      assert c in multiset(d);
      var k :| 0 <= k < |d| && d[k] == c;
      assert Names(bs)[k] == c.slug;
      CountOfMember(bs, bs[k]);
    }
    forall k | k in Names(bs) ensures k in Slugs(r) {
      var n :| 0 <= n < |bs| && Names(bs)[n] == k;
      assert d[n] in multiset(r);
      var m :| 0 <= m < |r| && r[m] == d[n];
      assert Slugs(r)[m] == k;
    }
  }

  /** The brand, material and colour facets list each value's number of records, largest first. */
  lemma CountersSpec(arr: seq<Record>, hier: Option<seq<CatRow>>, rules: Rules)
    ensures CountsOf(FacetsOf(arr, hier, rules).brands, arr, BrandKey())
    ensures CountsOf(FacetsOf(arr, hier, rules).materials, arr, MaterialKey(rules.materialTests))
    ensures CountsOf(FacetsOf(arr, hier, rules).colors, arr, ColorKey(rules.colorTests))
  {
    RankedTallySpec(arr, BrandKey());
    RankedTallySpec(arr, MaterialKey(rules.materialTests));
    RankedTallySpec(arr, ColorKey(rules.colorTests));
  }

  /** Every top-level category from the hierarchy file has no count. */
  lemma TopUncounted(rows: seq<CatRow>)
    ensures forall c :: c in TopOf(rows) ==> c.count == None
  {
    TopSpec(rows);
  }

  /**
   * The categories are the hierarchy's top-level ones, in file order, when
   * there are any (they carry no count, so the sort keeps them as they are);
   * else every category slug of the records with its number of records,
   * largest first.
   */
  lemma CategoriesSpec(arr: seq<Record>, hier: Option<seq<CatRow>>, rules: Rules)
    ensures TopOf(hier.GetOr([])) != [] ==> FacetsOf(arr, hier, rules).categories == TopOf(hier.GetOr([]))
    ensures TopOf(hier.GetOr([])) == [] ==>
      var cs := FacetsOf(arr, hier, rules).categories;
      (forall c :: c in cs ==> c.slug != [] && c.name == c.slug && c.count == Some(|Kept(arr, HasKey(CategoryKey(), c.slug))|))
      && (forall i :: 0 <= i < |arr| && arr[i].categorySlug != [] ==> arr[i].categorySlug in Slugs(cs))
      && (forall i, j :: 0 <= i < j < |cs| ==> CountKey(cs[j]) <= CountKey(cs[i]))
  {
    var top := TopOf(hier.GetOr([]));
    if top != [] {
      TopUncounted(hier.GetOr([]));
      Sorting.SortTies(top, ByCategoryCount());
    } else {
      var t := TallyBy(arr, CategoryKey());
      TallySpec(arr, CategoryKey());
      DerivedSpec(t);
      forall i | 0 <= i < |arr| && arr[i].categorySlug != [] ensures arr[i].categorySlug in Names(t) {
        var k := arr[i].categorySlug;
        KeptMembers(arr, HasKey(CategoryKey(), k));
        assert arr[i] in Kept(arr, HasKey(CategoryKey(), k));
        if k !in Names(t) {
          CountOfMissing(t, k);
        }
      }
    }
  }

  /** The subcategories are the hierarchy's when it lists any, else one list per category slug of the records. */
  lemma SubcategoriesSpec(arr: seq<Record>, hier: Option<seq<CatRow>>, rules: Rules)
    ensures SubsOf(hier.GetOr([])) != [] ==> FacetsOf(arr, hier, rules).subcategories == SubsOf(hier.GetOr([]))
    ensures SubsOf(hier.GetOr([])) == [] ==> Parents(FacetsOf(arr, hier, rules).subcategories) == Cats(SubTally(arr))
  {
    var st := SubTally(arr);
    assert Parents(DerivedGroups(st)) == Cats(st);
  }

  /**
   * A derived subcategory list holds every subcategory slug of its category
   * with its number of records, largest first.
   */
  lemma DerivedGroupSpec(arr: seq<Record>, i: nat)
    requires i < |SubTally(arr)|
    ensures var g := DerivedGroups(SubTally(arr))[i];
      (forall c :: c in g.items ==> c.slug != [] && c.name == c.slug && c.count == Some(|Kept(arr, InPair(g.parent, c.slug))|))
      && (forall j, k :: 0 <= j < k < |g.items| ==> CountKey(g.items[k]) <= CountKey(g.items[j]))
  {
    var st := SubTally(arr);
    SubTallySpec(arr);
    SubTallyNames(arr);
    GroupOfAt(st, i);
    DerivedSpec(st[i].subs);
    assert st[i].cat in Cats(st);
  }

  /** The curated list holds exactly the definitions with a positive count, with that count. */
  lemma CuratedMembers(m: map<string, nat>)
    ensures forall c :: c in Curated(m) <==>
      exists j :: 0 <= j < |CuratedSlugs| && Get0(m, CuratedSlugs[j]) > 0 && c == CuratedDefs(m)[j]
  {
    KeptMembers(CuratedDefs(m), Counted);
  }

  /** The curated facet holds exactly the definitions some record's search text matches, with their counts. */
  lemma CuratedSpec(arr: seq<Record>, hier: Option<seq<CatRow>>, rules: Rules)
    ensures forall c :: c in FacetsOf(arr, hier, rules).curated <==>
      exists j :: 0 <= j < |CuratedSlugs| && |Kept(arr, ProductsRoute.MentionsAny(RulesAt(rules.keywordTable, j)))| > 0
               && c == Category(CuratedSlugs[j], CuratedNames[j], Some(|Kept(arr, ProductsRoute.MentionsAny(RulesAt(rules.keywordTable, j)))|))
  {
    assert FacetsOf(arr, hier, rules).curated == Curated(CuratedTally(arr, rules.keywordTable));
    CuratedOfTally(arr, rules.keywordTable);
  }

  lemma CuratedOfTally(arr: seq<Record>, table: seq<seq<string -> bool>>)
    ensures forall c :: c in Curated(CuratedTally(arr, table)) <==>
      exists j :: 0 <= j < |CuratedSlugs| && |Kept(arr, ProductsRoute.MentionsAny(RulesAt(table, j)))| > 0
               && c == Category(CuratedSlugs[j], CuratedNames[j], Some(|Kept(arr, ProductsRoute.MentionsAny(RulesAt(table, j)))|))
  {
    var m := CuratedTally(arr, table);
    CuratedTallySpec(arr, table);
    CuratedMembers(m);
  }

  // ---------------------------------------------------------------------------
  // the handler

  /**
   * `GET /api/facets` on the file database at time `now`, the response being
   * stored at `later`: `db` is the parsed records file (`None` when it cannot
   * be read or parsed), `hier` the parsed hierarchy file.
   */
  method ServeFacets(cache: FacetsCache<Facets>, now: int, later: int, db: Option<seq<Record>>,
                     hier: Option<seq<CatRow>>, rules: Rules) returns (resp: Facets)
    modifies cache
    ensures Fresh(old(cache.slot), now).Some? ==> resp == Fresh(old(cache.slot), now).value && cache.slot == old(cache.slot)
    ensures Fresh(old(cache.slot), now).None? && db.None? ==> resp == NoFacets && cache.slot == None
    ensures Fresh(old(cache.slot), now).None? && db.Some? ==>
      resp == FacetsOf(db.value, hier, rules) && cache.slot == Some(Slot(later, resp))
  {
    SlotAfterGetSpec(cache.slot, now);
    var cached := cache.Get(now);
    if cached.Some? {
      return cached.value;
    }
    if db.None? {
      return NoFacets;
    }
    var arr := db.value;
    var top, subs := ReadHierarchy(hier.GetOr([]));
    var catSet, subSet, brands, materials, colors, curated := CountRecords(arr, rules);
    var categories := if top == [] then Derived(catSet) else top;
    var groups := if subs == [] && subSet != [] then DerivedGroups(subSet) else subs;
    resp := Facets(RankedCategories(categories), Ranked(brands), Ranked(materials), Ranked(colors), groups, Curated(curated));
    cache.Set(resp, later);
  }
}
