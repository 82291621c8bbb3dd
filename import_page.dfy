/**
 * The product-page side of the catalog importer (prisma/import/import2.mjs):
 * breadcrumbs, the category registry `categoriesMap`, the image sources, the
 * specification tables, the price and the record `parseProductPage` builds.
 * What cheerio extracts from the page is given as strings; `new URL(...)` is
 * a parameter (`pathnameOf`, `resolve`), `None` when it throws.
 */
module ImportPage {
  import opened Wrappers
  import opened Text
  import opened Dedup
  import opened SpecMap
  import ImportUrls

  // ---------------------------------------------------------------------------
  // parseBreadcrumbs

  /** One breadcrumb candidate: its link (`''` when it has none) and its name text (`''` when it has none). */
  datatype RawCrumb = RawCrumb(href: string, name: string)

  datatype Crumb = Crumb(slug: string, name: string)

  /** `parseCategoryAndSubcategoryFromUrl(href || '').categoryPath.slice(-1)[0]`. */
  function CrumbSlug(href: string, pathnameOf: string -> Option<string>, urlPrefix: string): (slug: string)
    ensures slug != [] && '/' !in slug
  {
    var path := ImportUrls.CategoryInfoOf(pathnameOf(href), urlPrefix).categoryPath;
    path[|path| - 1]
  }

  /** `if (slug && name && slug !== 'catalog') out.push(...)`; the microdata and class tiers trim the name after the test. */
  function CrumbOf(raw: RawCrumb, trimName: bool, pathnameOf: string -> Option<string>, urlPrefix: string): Option<Crumb> {
    var slug := CrumbSlug(raw.href, pathnameOf, urlPrefix);
    if slug != [] && raw.name != [] && slug != "catalog" then
      Some(Crumb(slug, if trimName then Trim(raw.name) else raw.name))
    else None
  }

  /** `CrumbOf` with the tier's settings, as a function value. */
  function CrumbFn(trimName: bool, pathnameOf: string -> Option<string>, urlPrefix: string): (f: RawCrumb -> Option<Crumb>)
    ensures forall raw :: f(raw) == CrumbOf(raw, trimName, pathnameOf, urlPrefix)
  {
    raw => CrumbOf(raw, trimName, pathnameOf, urlPrefix)
  }

  /** The crumbs one tier pushes, in document order. */
  function Crumbs(raws: seq<RawCrumb>, trimName: bool, pathnameOf: string -> Option<string>, urlPrefix: string): seq<Crumb> {
    FilterMap(raws, CrumbFn(trimName, pathnameOf, urlPrefix))
  }

  /**
   * `parseBreadcrumbs`: the JSON-LD `BreadcrumbList` elements if any of them
   * qualifies, else the microdata elements if any qualifies, else the
   * `.breadcrumb a` links.
   */
  function Breadcrumbs(ld: seq<RawCrumb>, micro: seq<RawCrumb>, links: seq<RawCrumb>,
                       pathnameOf: string -> Option<string>, urlPrefix: string): seq<Crumb>
  {
    var a := Crumbs(ld, false, pathnameOf, urlPrefix);
    if a != [] then a
    else
      var b := Crumbs(micro, true, pathnameOf, urlPrefix);
      if b != [] then b else Crumbs(links, true, pathnameOf, urlPrefix)
  }

  /** A crumb is exactly a qualifying candidate of its tier. */
  lemma CrumbsMembers(raws: seq<RawCrumb>, trimName: bool, pathnameOf: string -> Option<string>, urlPrefix: string, c: Crumb)
    ensures c in Crumbs(raws, trimName, pathnameOf, urlPrefix)
      <==> exists i :: 0 <= i < |raws| && CrumbOf(raws[i], trimName, pathnameOf, urlPrefix) == Some(c)
  {
    var f := CrumbFn(trimName, pathnameOf, urlPrefix);
    FilterMapMembers(raws, f, c);
    if exists i :: 0 <= i < |raws| && CrumbOf(raws[i], trimName, pathnameOf, urlPrefix) == Some(c) {
      var i :| 0 <= i < |raws| && CrumbOf(raws[i], trimName, pathnameOf, urlPrefix) == Some(c);
      assert f(raws[i]) == Some(c);
    }
  }

  lemma CrumbOfShape(raw: RawCrumb, trimName: bool, pathnameOf: string -> Option<string>, urlPrefix: string)
    ensures var c := CrumbOf(raw, trimName, pathnameOf, urlPrefix);
      c.Some? <==> raw.name != [] && CrumbSlug(raw.href, pathnameOf, urlPrefix) != "catalog"
    ensures var c := CrumbOf(raw, trimName, pathnameOf, urlPrefix);
      c.Some? ==> (c.value.slug != [] && c.value.slug != "catalog" && '/' !in c.value.slug
        && (trimName || c.value.name != []))
  {
  }

  /**
   * No crumb is the `catalog` segment, every slug is one non-empty path
   * segment, a qualifying JSON-LD element makes the JSON-LD trail win with
   * untrimmed, non-empty names, and the result is empty only when no
   * candidate of any tier qualifies.
   */
  lemma BreadcrumbsSpec(ld: seq<RawCrumb>, micro: seq<RawCrumb>, links: seq<RawCrumb>,
                        pathnameOf: string -> Option<string>, urlPrefix: string)
    ensures var r := Breadcrumbs(ld, micro, links, pathnameOf, urlPrefix);
      forall c :: c in r ==> c.slug != [] && c.slug != "catalog" && '/' !in c.slug
    ensures (exists i :: 0 <= i < |ld| && CrumbOf(ld[i], false, pathnameOf, urlPrefix).Some?) ==>
      var r := Breadcrumbs(ld, micro, links, pathnameOf, urlPrefix);
      r == Crumbs(ld, false, pathnameOf, urlPrefix) && forall c :: c in r ==> c.name != []
    ensures Breadcrumbs(ld, micro, links, pathnameOf, urlPrefix) == [] <==>
      (forall i :: 0 <= i < |ld| ==> CrumbOf(ld[i], false, pathnameOf, urlPrefix).None?)
      && (forall i :: 0 <= i < |micro| ==> CrumbOf(micro[i], true, pathnameOf, urlPrefix).None?)
      && (forall i :: 0 <= i < |links| ==> CrumbOf(links[i], true, pathnameOf, urlPrefix).None?)
  {
    var r := Breadcrumbs(ld, micro, links, pathnameOf, urlPrefix);
    forall c | c in r ensures c.slug != [] && c.slug != "catalog" && '/' !in c.slug {
      var raws := if Crumbs(ld, false, pathnameOf, urlPrefix) != [] then ld
                  else if Crumbs(micro, true, pathnameOf, urlPrefix) != [] then micro
                  else links;
      var t := Crumbs(ld, false, pathnameOf, urlPrefix) == [];
      CrumbsMembers(raws, t, pathnameOf, urlPrefix, c);
      var i :| 0 <= i < |raws| && CrumbOf(raws[i], t, pathnameOf, urlPrefix) == Some(c);
      CrumbOfShape(raws[i], t, pathnameOf, urlPrefix);
    }
    TierEmpty(ld, false, pathnameOf, urlPrefix);
    TierEmpty(micro, true, pathnameOf, urlPrefix);
    TierEmpty(links, true, pathnameOf, urlPrefix);
    if Crumbs(ld, false, pathnameOf, urlPrefix) != [] {
      forall c | c in r ensures c.name != [] {
        CrumbsMembers(ld, false, pathnameOf, urlPrefix, c);
        var i :| 0 <= i < |ld| && CrumbOf(ld[i], false, pathnameOf, urlPrefix) == Some(c);
        CrumbOfShape(ld[i], false, pathnameOf, urlPrefix);
      }
    }
  }

  lemma TierEmpty(raws: seq<RawCrumb>, trimName: bool, pathnameOf: string -> Option<string>, urlPrefix: string)
    ensures Crumbs(raws, trimName, pathnameOf, urlPrefix) == []
      <==> forall i :: 0 <= i < |raws| ==> CrumbOf(raws[i], trimName, pathnameOf, urlPrefix).None?
  {
    var r := Crumbs(raws, trimName, pathnameOf, urlPrefix);
    if r != [] {
      CrumbsMembers(raws, trimName, pathnameOf, urlPrefix, r[0]);
    }
    if exists i :: 0 <= i < |raws| && CrumbOf(raws[i], trimName, pathnameOf, urlPrefix).Some? {
      var i :| 0 <= i < |raws| && CrumbOf(raws[i], trimName, pathnameOf, urlPrefix).Some?;
      CrumbsMembers(raws, trimName, pathnameOf, urlPrefix, CrumbOf(raws[i], trimName, pathnameOf, urlPrefix).value);
    }
  }

  /** The microdata tier tests the name before trimming it, so a blank name yields a crumb with an empty name. */
  lemma BlankMicrodataName(href: string, pathnameOf: string -> Option<string>, urlPrefix: string)
    requires CrumbSlug(href, pathnameOf, urlPrefix) != "catalog"
    ensures Crumbs([RawCrumb(href, " ")], true, pathnameOf, urlPrefix)
      == [Crumb(CrumbSlug(href, pathnameOf, urlPrefix), "")]
  {
    assert Trim(" ") == [] by {
      assert TrimStart(" ") == [];
    }
    var raws := [RawCrumb(href, " ")];
    assert raws[..0] == [];
    assert CrumbFn(true, pathnameOf, urlPrefix)(raws[0]) == Some(Crumb(CrumbSlug(href, pathnameOf, urlPrefix), ""));
  }

  // ---------------------------------------------------------------------------
  // The category registry (`categoriesMap`)

  datatype Category = Category(slug: string, name: string, parentSlug: Option<string>)

  function SlugsOf(cats: seq<Category>): (r: seq<string>)
    ensures |r| == |cats| && forall i :: 0 <= i < |cats| ==> r[i] == cats[i].slug
  {
    if cats == [] then [] else SlugsOf(cats[..|cats| - 1]) + [cats[|cats| - 1].slug]
  }

  /** `categoriesMap.get(slug)`. */
  function Lookup(cats: seq<Category>, slug: string): (r: Option<Category>)
    ensures r.Some? ==> r.value in cats && r.value.slug == slug
  {
    if cats == [] then None
    else if cats[0].slug == slug then Some(cats[0])
    else Lookup(cats[1..], slug)
  }

  /** `if (!map.has(c.slug)) map.set(c.slug, c)`. */
  function AddIfAbsent(cats: seq<Category>, c: Category): seq<Category> {
    if c.slug in SlugsOf(cats) then cats else cats + [c]
  }

  /** The registry after offering each of `es` in turn. */
  function AddEntries(cats: seq<Category>, es: seq<Category>): seq<Category> {
    if es == [] then cats else AddIfAbsent(AddEntries(cats, es[..|es| - 1]), es[|es| - 1])
  }

  /** What the breadcrumb loop offers: each crumb with the previous crumb's slug as parent. */
  function CrumbEntries(crumbs: seq<Crumb>): seq<Category> {
    seq(|crumbs|, i requires 0 <= i < |crumbs| =>
      Category(crumbs[i].slug, crumbs[i].name, if i == 0 then None else Some(crumbs[i - 1].slug)))
  }

  /** What the URL-path loop offers: each segment, prettified, with the previous segment as parent. */
  function PathEntries(path: seq<string>): seq<Category> {
    seq(|path| , i requires 0 <= i < |path| =>
      Category(path[i], ImportUrls.PrettifySlug(path[i]), if i == 0 then None else Some(path[i - 1])))
  }

  /** Lines 399-411: breadcrumbs when there are any, else the category path of the URL. */
  function Registered(cats: seq<Category>, crumbs: seq<Crumb>, categoryPath: seq<string>): seq<Category> {
    if crumbs != [] then AddEntries(cats, CrumbEntries(crumbs)) else AddEntries(cats, PathEntries(categoryPath))
  }

  lemma LookupSome(cats: seq<Category>, slug: string)
    ensures Lookup(cats, slug).Some? <==> slug in SlugsOf(cats)
  {
    if cats != [] && cats[0].slug != slug {
      LookupSome(cats[1..], slug);
      if slug in SlugsOf(cats) {
        var i :| 0 <= i < |cats| && SlugsOf(cats)[i] == slug;
        assert SlugsOf(cats[1..])[i - 1] == slug;
      }
    }
  }

  lemma {:induction false} LookupSnoc(cats: seq<Category>, c: Category, slug: string)
    ensures Lookup(cats + [c], slug) == if Lookup(cats, slug).Some? then Lookup(cats, slug)
                                        else if c.slug == slug then Some(c) else None
  {
    if cats != [] {
      assert (cats + [c])[1..] == cats[1..] + [c];
      LookupSnoc(cats[1..], c, slug);
    }
  }

  lemma SlugsOfSnoc(cats: seq<Category>, c: Category)
    ensures SlugsOf(cats + [c]) == SlugsOf(cats) + [c.slug]
  {
    assert (cats + [c])[..|cats|] == cats;
  }

  /** The registry's Map semantics: a slug keeps the first category offered for it. */
  lemma {:induction false} AddEntriesLookup(cats: seq<Category>, es: seq<Category>, slug: string)
    ensures Lookup(AddEntries(cats, es), slug)
      == if Lookup(cats, slug).Some? then Lookup(cats, slug) else Lookup(es, slug)
  {
    if es != [] {
      var init := es[..|es| - 1];
      var c := es[|es| - 1];
      var m := AddEntries(cats, init);
      AddEntriesLookup(cats, init, slug);
      assert es == init + [c];
      LookupSnoc(init, c, slug);
      if c.slug !in SlugsOf(m) {
        LookupSnoc(m, c, slug);
        LookupSome(m, c.slug);
      } else {
        LookupSome(m, c.slug);
        if c.slug == slug {
          LookupSome(cats, slug);
          LookupSome(init, slug);
          AddEntriesLookup(cats, init, slug);
        }
      }
    }
  }

  /** Registering never moves, changes or drops a category, and keeps the slugs distinct. */
  lemma {:induction false} AddEntriesKeeps(cats: seq<Category>, es: seq<Category>)
    requires NoDups(SlugsOf(cats))
    ensures var r := AddEntries(cats, es);
      |cats| <= |r| && r[..|cats|] == cats && NoDups(SlugsOf(r))
  {
    if es != [] {
      var m := AddEntries(cats, es[..|es| - 1]);
      AddEntriesKeeps(cats, es[..|es| - 1]);
      var c := es[|es| - 1];
      if c.slug !in SlugsOf(m) {
        SlugsOfSnoc(m, c);
        NoDupsSnoc(SlugsOf(m), c.slug);
        assert (m + [c])[..|cats|] == m[..|cats|];
      }
    }
  }

  /** `Lookup` finds the entry at the first position of the slug. */
  lemma LookupFirst(es: seq<Category>, slug: string)
    requires slug in SlugsOf(es)
    ensures Lookup(es, slug) == Some(es[FirstIndex(SlugsOf(es), slug)])
  {
    var k := FirstIndex(SlugsOf(es), slug);
    var ss := SlugsOf(es);
    forall j | 0 <= j < k ensures es[j].slug != slug {
      assert ss[..k][j] == ss[j];
    }
    LookupAt(es, slug, k);
  }

  /** The entry at `i` is found when no earlier entry has the slug. */
  lemma {:induction false} LookupAt(es: seq<Category>, slug: string, i: nat)
    requires i < |es| && es[i].slug == slug
    requires forall j :: 0 <= j < i ==> es[j].slug != slug
    ensures Lookup(es, slug) == Some(es[i])
  {
    if i > 0 {
      var t := es[1..];
      assert forall j :: 0 <= j < i - 1 ==> t[j] == es[j + 1];
      LookupAt(t, slug, i - 1);
    }
  }

  lemma CrumbSlugsOf(crumbs: seq<Crumb>)
    ensures SlugsOf(CrumbEntries(crumbs)) == seq(|crumbs|, i requires 0 <= i < |crumbs| => crumbs[i].slug)
  {
  }

  /**
   * A slug the registry did not hold and the breadcrumbs name gets the name of
   * its first crumb and that crumb's predecessor as parent (none for the first).
   */
  lemma RegisterCrumbsEntry(cats: seq<Category>, crumbs: seq<Crumb>, slug: string, i: nat)
    requires slug !in SlugsOf(cats)
    requires i < |crumbs| && crumbs[i].slug == slug && forall j :: 0 <= j < i ==> crumbs[j].slug != slug
    ensures Lookup(Registered(cats, crumbs, []), slug)
      == Some(Category(slug, crumbs[i].name, if i == 0 then None else Some(crumbs[i - 1].slug)))
  {
    var es := CrumbEntries(crumbs);
    forall j | 0 <= j < i ensures es[j].slug != slug {
      CrumbEntryAt(crumbs, j);
    }
    CrumbEntryAt(crumbs, i);
    FirstOfferWins(cats, es, slug, i);
  }

  lemma CrumbEntryAt(crumbs: seq<Crumb>, j: nat)
    requires j < |crumbs|
    ensures |CrumbEntries(crumbs)| == |crumbs|
    ensures CrumbEntries(crumbs)[j] == Category(crumbs[j].slug, crumbs[j].name, if j == 0 then None else Some(crumbs[j - 1].slug))
  {
  }

  /** The first offer of a slug the registry did not hold is the one it keeps. */
  lemma FirstOfferWins(cats: seq<Category>, es: seq<Category>, slug: string, i: nat)
    requires slug !in SlugsOf(cats)
    requires i < |es| && es[i].slug == slug && forall j :: 0 <= j < i ==> es[j].slug != slug
    ensures Lookup(AddEntries(cats, es), slug) == Some(es[i])
  {
    LookupSome(cats, slug);
    AddEntriesLookup(cats, es, slug);
    FirstEntry(es, slug, i);
  }

  /** The lookup in a list of offers whose slug first occurs at `i`. */
  lemma FirstEntry(es: seq<Category>, slug: string, i: nat)
    requires i < |es| && es[i].slug == slug && forall j :: 0 <= j < i ==> es[j].slug != slug
    ensures Lookup(es, slug) == Some(es[i])
  {
    assert SlugsOf(es)[i] == slug;
    LookupFirst(es, slug);
    var k := FirstIndex(SlugsOf(es), slug);
    assert es[k].slug == slug;
  }

  /** Without breadcrumbs, a new segment of the category path is registered under its prettified name and the previous segment. */
  lemma RegisterPathEntry(cats: seq<Category>, path: seq<string>, i: nat)
    requires i < |path| && path[i] !in SlugsOf(cats) && forall j :: 0 <= j < i ==> path[j] != path[i]
    ensures Lookup(Registered(cats, [], path), path[i])
      == Some(Category(path[i], ImportUrls.PrettifySlug(path[i]), if i == 0 then None else Some(path[i - 1])))
  {
    var es := PathEntries(path);
    assert forall j :: 0 <= j < i ==> es[j].slug == path[j];
    FirstOfferWins(cats, es, path[i], i);
  }

  /** A slug already registered keeps its category, whatever the page offers. */
  lemma RegisterNeverOverwrites(cats: seq<Category>, crumbs: seq<Crumb>, categoryPath: seq<string>, slug: string)
    requires slug in SlugsOf(cats)
    ensures Lookup(Registered(cats, crumbs, categoryPath), slug) == Lookup(cats, slug)
  {
    LookupSome(cats, slug);
    AddEntriesLookup(cats, CrumbEntries(crumbs), slug);
    AddEntriesLookup(cats, PathEntries(categoryPath), slug);
  }

  class CategoryRegistry {
    /** `Array.from(categoriesMap.values())`: the categories in insertion order. */
    var cats: seq<Category>

    predicate Valid()
      reads this
    {
      NoDups(SlugsOf(cats))
    }

    /** `new Map()`. */
    constructor()
      ensures Valid() && cats == []
    {
      cats := [];
    }

    /** `categoriesMap.has(slug)`. */
    function Has(slug: string): (r: bool)
      reads this
      ensures r <==> Lookup(cats, slug).Some?
    {
      LookupSome(cats, slug);
      slug in SlugsOf(cats)
    }

    /** The breadcrumb loop of lines 399-404. */
    method RegisterCrumbs(crumbs: seq<Crumb>)
      requires Valid()
      modifies this
      ensures Valid() && cats == AddEntries(old(cats), CrumbEntries(crumbs))
    {
      var parent: Option<string> := None;
      ghost var es := CrumbEntries(crumbs);
      for i := 0 to |crumbs|
        invariant cats == AddEntries(old(cats), es[..i])
        invariant parent == if i == 0 then None else Some(crumbs[i - 1].slug)
        invariant Valid()
      {
        var c := crumbs[i];
        TakeSnoc(es, i);
        assert es[..i + 1][..i] == es[..i];
        AddEntriesKeeps(cats, [es[i]]);
        assert AddEntries(cats, [es[i]]) == AddIfAbsent(cats, es[i]);
        if !Has(c.slug) {
          LookupSome(cats, c.slug);
          cats := cats + [Category(c.slug, c.name, parent)];
        } else {
          LookupSome(cats, c.slug);
        }
        parent := Some(c.slug);
      }
      assert es[..|crumbs|] == es;
    }

    /** The URL-path loop of lines 406-410. */
    method RegisterPath(categoryPath: seq<string>)
      requires Valid()
      modifies this
      ensures Valid() && cats == AddEntries(old(cats), PathEntries(categoryPath))
    {
      ghost var es := PathEntries(categoryPath);
      for i := 0 to |categoryPath|
        invariant cats == AddEntries(old(cats), es[..i])
        invariant Valid()
      {
        var slug := categoryPath[i];
        var parentSlug := if i > 0 then Some(categoryPath[i - 1]) else None;
        TakeSnoc(es, i);
        assert es[..i + 1][..i] == es[..i];
        AddEntriesKeeps(cats, [es[i]]);
        assert AddEntries(cats, [es[i]]) == AddIfAbsent(cats, es[i]);
        if !Has(slug) {
          LookupSome(cats, slug);
          cats := cats + [Category(slug, ImportUrls.PrettifySlug(slug), parentSlug)];
        } else {
          LookupSome(cats, slug);
        }
      }
      assert es[..|categoryPath|] == es;
    }

    /** Lines 398-411 of `parseProductPage`. */
    method Register(crumbs: seq<Crumb>, categoryPath: seq<string>)
      requires Valid()
      modifies this
      ensures Valid() && cats == Registered(old(cats), crumbs, categoryPath)
    {
      if |crumbs| > 0 {
        RegisterCrumbs(crumbs);
      } else {
        RegisterPath(categoryPath);
      }
    }
  }

  // ---------------------------------------------------------------------------
  // collectImageSources

  /**
   * The strings pushed onto `out` in lines 311-325: the first
   * `og:image` content, then every `og:image` content again, then the
   * `itemprop="image"`, gallery and container candidates (`others`, in the
   * order the selectors visit them). Empty values are not pushed.
   */
  function ImageCandidates(og: seq<string>, others: seq<string>): seq<string> {
    (if og != [] && og[0] != [] then [og[0]] else []) + NonEmpty(og) + NonEmpty(others)
  }

  /** `absolutizeUrl(u, pageUrl)`: `null` for an empty string or when `new URL` throws. */
  function AbsolutizeUrl(u: string, resolve: string -> Option<string>): Option<string> {
    if u == [] then None else resolve(u)
  }

  function AbsolutizeFn(resolve: string -> Option<string>): (f: string -> Option<string>)
    ensures forall u :: f(u) == AbsolutizeUrl(u, resolve)
  {
    u => AbsolutizeUrl(u, resolve)
  }

  /** `!u.match(/\.(svg|gif)$/i) && !u.includes('logo')`: the extension test ignores case, the `logo` test does not. */
  predicate ImageOk(u: string) {
    !EndsWith(Lower(u), ".svg") && !EndsWith(Lower(u), ".gif") && !Contains(u, "logo")
  }

  /** `.slice(0, 10)`. */
  function FirstTen<T>(s: seq<T>): (r: seq<T>)
    ensures |r| <= 10 && |r| <= |s| && r == s[..|r|]
    ensures |s| <= 10 ==> r == s
    ensures |s| > 10 ==> |r| == 10
  {
    if |s| <= 10 then s else s[..10]
  }

  /** The absolute, acceptable candidates in order, duplicates included. */
  function AcceptedImages(og: seq<string>, others: seq<string>, resolve: string -> Option<string>): seq<string> {
    Kept(FilterMap(ImageCandidates(og, others), AbsolutizeFn(resolve)), ImageOk)
  }

  /**
   * `collectImageSources` as written: the `seen` set is filled only after
   * the filter has run, so `!seen.has(u)` holds for every candidate and
   * nothing is de-duplicated.
   */
  function CollectImagesAsWritten(og: seq<string>, others: seq<string>, resolve: string -> Option<string>): seq<string> {
    FirstTen(AcceptedImages(og, others, resolve))
  }

  /** `collectImageSources` with the `seen` test doing what it is there for: each URL once, first occurrence kept. */
  function CollectImages(og: seq<string>, others: seq<string>, resolve: string -> Option<string>): seq<string> {
    FirstTen(Distinct(AcceptedImages(og, others, resolve)))
  }

  /** An accepted image is an absolutized non-empty candidate that passes the extension and `logo` tests. */
  lemma AcceptedImagesMembers(og: seq<string>, others: seq<string>, resolve: string -> Option<string>, u: string)
    ensures u in AcceptedImages(og, others, resolve) <==>
      ImageOk(u) && exists x :: x in ImageCandidates(og, others) && x != [] && resolve(x) == Some(u)
  {
    var cands := ImageCandidates(og, others);
    var f := AbsolutizeFn(resolve);
    KeptMembers(FilterMap(cands, f), ImageOk);
    FilterMapMembers(cands, f, u);
    if exists x :: x in cands && x != [] && resolve(x) == Some(u) {
      var x :| x in cands && x != [] && resolve(x) == Some(u);
      var i :| 0 <= i < |cands| && cands[i] == x;
      assert f(cands[i]) == Some(u);
    }
  }

  /** As written: at most ten URLs, none an SVG/GIF or containing `logo`, each from a candidate. */
  lemma CollectImagesAsWrittenSpec(og: seq<string>, others: seq<string>, resolve: string -> Option<string>)
    ensures var r := CollectImagesAsWritten(og, others, resolve);
      |r| <= 10 && forall u :: u in r ==> ImageOk(u) && u in AcceptedImages(og, others, resolve)
  {
    var a := AcceptedImages(og, others, resolve);
    KeptMembers(FilterMap(ImageCandidates(og, others), AbsolutizeFn(resolve)), ImageOk);
    forall u | u in FirstTen(a) ensures u in a {
      var i :| 0 <= i < |FirstTen(a)| && FirstTen(a)[i] == u;
      assert a[i] == u;
    }
  }

  /** As written, a page whose first `og:image` is acceptable lists that image twice at the head of the result. */
  lemma AsWrittenRepeatsOgImage(og: seq<string>, others: seq<string>, resolve: string -> Option<string>)
    requires og != [] && og[0] != [] && resolve(og[0]).Some? && ImageOk(resolve(og[0]).value)
    ensures var r := CollectImagesAsWritten(og, others, resolve);
      |r| >= 2 && r[0] == r[1] == resolve(og[0]).value && !NoDups(r)
  {
    var x := og[0];
    var tail := NonEmpty(og[1..]) + NonEmpty(others);
    assert NonEmpty(og) == [x] + NonEmpty(og[1..]) by {
      assert og == [x] + og[1..];
      NonEmptyCons(x, og[1..]);
    }
    ConsPair(x, NonEmpty(og[1..]), NonEmpty(others));
    HeadPairKept(x, tail, AbsolutizeFn(resolve), ImageOk, resolve(x).value);
  }

  /** On pages whose acceptable images are already distinct, the collection as written and the intended one agree. */
  lemma CollectImagesAgree(og: seq<string>, others: seq<string>, resolve: string -> Option<string>)
    requires NoDups(AcceptedImages(og, others, resolve))
    ensures CollectImagesAsWritten(og, others, resolve) == CollectImages(og, others, resolve)
  {
    DistinctOfNoDups(AcceptedImages(og, others, resolve));
  }

  lemma ConsPair<T>(x: T, a: seq<T>, b: seq<T>)
    ensures [x] + ([x] + a) + b == [x, x] + (a + b)
  {
  }

  /** An element kept twice in a row at the head of the input is kept twice at the head of the output. */
  lemma HeadPairKept<A, B>(x: A, tail: seq<A>, f: A -> Option<B>, keep: B -> bool, v: B)
    requires f(x) == Some(v) && keep(v)
    ensures var k := Kept(FilterMap([x, x] + tail, f), keep); |k| >= 2 && k[0] == v && k[1] == v
  {
    FilterMapPrefix([x, x], tail, f);
    assert FilterMap([x, x], f) == [v, v] by {
      assert [x, x][..1] == [x];
      assert [x][..0] == [];
    }
    KeptPrefix([v, v], FilterMap(tail, f), keep);
    assert Kept([v, v], keep) == [v, v] by {
      assert [v, v][..1] == [v];
      assert [v][..0] == [];
    }
  }

  /** The intended result: at most ten distinct acceptable URLs, in the order of their first occurrence. */
  lemma CollectImagesSpec(og: seq<string>, others: seq<string>, resolve: string -> Option<string>)
    ensures var r := CollectImages(og, others, resolve);
      |r| <= 10 && NoDups(r)
      && (forall u :: u in r ==> ImageOk(u) && u in AcceptedImages(og, others, resolve))
      && r == Distinct(AcceptedImages(og, others, resolve))[..|r|]
    ensures |Distinct(AcceptedImages(og, others, resolve))| <= 10 ==>
      forall u :: u in CollectImages(og, others, resolve) <==> u in AcceptedImages(og, others, resolve)
  {
    var a := AcceptedImages(og, others, resolve);
    var d := Distinct(a);
    DistinctMembers(a);
    DistinctNoDups(a);
    KeptMembers(FilterMap(ImageCandidates(og, others), AbsolutizeFn(resolve)), ImageOk);
    var r := FirstTen(d);
    forall u | u in r ensures u in d {
      var i :| 0 <= i < |r| && r[i] == u;
      assert d[i] == u;
    }
  }

  // ---------------------------------------------------------------------------
  // parseSpecs

  /** A table row: the texts of its `td`/`th` cells. */
  type Row = seq<string>

  /** A `dl` element: the texts of its `dt` and of its `dd` descendants. */
  datatype DefList = DefList(terms: seq<string>, defs: seq<string>)

  /** The rows with at least two cells, as their first two cells (the tables after a characteristics heading). */
  function HeaderRowPairs(rows: seq<Row>): seq<Entry> {
    if rows == [] then []
    else
      var r := rows[|rows| - 1];
      HeaderRowPairs(rows[..|rows| - 1]) + (if |r| >= 2 then [Entry(r[0], r[1])] else [])
  }

  /** The rows with exactly two cells. */
  function TwoCellPairs(rows: seq<Row>): seq<Entry> {
    if rows == [] then []
    else
      var r := rows[|rows| - 1];
      TwoCellPairs(rows[..|rows| - 1]) + (if |r| == 2 then [Entry(r[0], r[1])] else [])
  }

  /** A generic table is read only when it has between 1 and 40 rows. */
  function TablePairs(rows: seq<Row>): seq<Entry> {
    if 0 < |rows| <= 40 then TwoCellPairs(rows) else []
  }

  /** The `i`-th term with the `i`-th definition, `''` when there is none. */
  function DefPairs(dl: DefList): seq<Entry> {
    seq(|dl.terms|, i requires 0 <= i < |dl.terms| => Entry(dl.terms[i], if i < |dl.defs| then dl.defs[i] else ""))
  }

  /** Every `setSpec(k, v)` call of `parseSpecs`, in order: heading tables, then all tables, then definition lists. */
  function SpecCalls(headerTables: seq<seq<Row>>, tables: seq<seq<Row>>, dls: seq<DefList>): seq<Entry> {
    Flatten(seq(|headerTables|, i requires 0 <= i < |headerTables| => HeaderRowPairs(headerTables[i])))
    + Flatten(seq(|tables|, i requires 0 <= i < |tables| => TablePairs(tables[i])))
    + Flatten(seq(|dls|, i requires 0 <= i < |dls| => DefPairs(dls[i])))
  }

  /** The pair `setSpec` would store: both sides with white-space runs collapsed and trimmed, neither empty. */
  function CleanEntry(e: Entry): Option<Entry> {
    var key := CollapseWs(e.key);
    var val := CollapseWs(e.value);
    if key == [] || val == [] then None else Some(Entry(key, val))
  }

  function CleanFn(): (f: Entry -> Option<Entry>)
    ensures forall e :: f(e) == CleanEntry(e)
  {
    e => CleanEntry(e)
  }

  /** `setSpec(k, v)`: store the cleaned pair unless a side is empty or the key already holds a value. */
  function SetSpec(specs: Specs, k: string, v: string): Specs {
    var key := CollapseWs(k);
    var val := CollapseWs(v);
    if key == [] || val == [] then specs
    else
      var cur := Get(specs, key);
      if cur.None? || cur.value == [] then Put(specs, key, val) else specs
  }

  /** The object `parseSpecs` returns. */
  function SpecsOf(headerTables: seq<seq<Row>>, tables: seq<seq<Row>>, dls: seq<DefList>): Specs {
    FirstWins(FilterMap(SpecCalls(headerTables, tables, dls), CleanFn()))
  }

  /** A first-wins object built from cleaned pairs holds only cleaned, non-empty values. */
  lemma CleanedEntries(calls: seq<Entry>, e: Entry)
    requires e in FirstWins(FilterMap(calls, CleanFn()))
    ensures e.key != [] && e.value != [] && e.key == CollapseWs(e.key) && e.value == CollapseWs(e.value)
  {
    FirstWinsFrom(FilterMap(calls, CleanFn()), e);
    FilterMapMembers(calls, CleanFn(), e);
    var i :| 0 <= i < |calls| && CleanFn()(calls[i]) == Some(e);
    CollapseWsIdempotent(calls[i].key);
    CollapseWsIdempotent(calls[i].value);
  }

  /** One more `setSpec` call is one more pair offered to the first-wins object. */
  lemma SetSpecStep(calls: seq<Entry>, i: nat)
    requires i < |calls|
    ensures SetSpec(FirstWins(FilterMap(calls[..i], CleanFn())), calls[i].key, calls[i].value)
      == FirstWins(FilterMap(calls[..i + 1], CleanFn()))
  {
    var f := CleanFn();
    var before := FilterMap(calls[..i], f);
    TakeSnoc(calls, i);
    assert calls[..i + 1][..i] == calls[..i];
    forall e | e in before ensures e.value != [] {
      FilterMapMembers(calls[..i], f, e);
    }
    SetSpecOffers(before, calls[i]);
  }

  lemma SetSpecOffers(before: seq<Entry>, raw: Entry)
    requires forall e :: e in before ==> e.value != []
    ensures SetSpec(FirstWins(before), raw.key, raw.value)
      == FirstWins(before + (if CleanEntry(raw).Some? then [CleanEntry(raw).value] else []))
  {
    var m := FirstWins(before);
    var c := CleanEntry(raw);
    if c.Some? {
      var after := before + [c.value];
      assert after[..|after| - 1] == before;
      var key := c.value.key;
      if Has(m, key) {
        GetIn(m, key);
        FirstWinsFrom(before, Entry(key, Get(m, key).value));
      }
    } else {
      assert before + [] == before;
    }
  }

  /** `parseSpecs`. */
  method ParseSpecs(headerTables: seq<seq<Row>>, tables: seq<seq<Row>>, dls: seq<DefList>) returns (specs: Specs)
    ensures specs == SpecsOf(headerTables, tables, dls)
  {
    var calls := SpecCalls(headerTables, tables, dls);
    specs := [];
    for i := 0 to |calls|
      invariant specs == FirstWins(FilterMap(calls[..i], CleanFn()))
    {
      SetSpecStep(calls, i);
      specs := SetSpec(specs, calls[i].key, calls[i].value);
    }
    assert calls[..|calls|] == calls;
  }

  /**
   * Keys and values are collapsed and trimmed and never empty, keys are
   * distinct, and each key holds the value of the first call that offered it.
   */
  lemma ParseSpecsSpec(headerTables: seq<seq<Row>>, tables: seq<seq<Row>>, dls: seq<DefList>, k: string)
    ensures var specs := SpecsOf(headerTables, tables, dls);
      UniqueKeys(specs)
      && (forall e :: e in specs ==> e.key != [] && e.value != [] && e.key == CollapseWs(e.key) && e.value == CollapseWs(e.value))
      && Get(specs, k) == Get(FilterMap(SpecCalls(headerTables, tables, dls), CleanFn()), k)
  {
    var calls := SpecCalls(headerTables, tables, dls);
    forall e | e in SpecsOf(headerTables, tables, dls)
      ensures e.key != [] && e.value != [] && e.key == CollapseWs(e.key) && e.value == CollapseWs(e.value)
    {
      CleanedEntries(calls, e);
    }
    FirstWinsGet(FilterMap(calls, CleanFn()), k);
  }

  /** A generic table with no rows or more than 40 rows offers nothing; otherwise exactly its two-cell rows. */
  lemma {:induction false} TablePairsSpec(rows: seq<Row>, e: Entry)
    ensures (|rows| == 0 || |rows| > 40) ==> TablePairs(rows) == []
    ensures e in TablePairs(rows) <==>
      0 < |rows| <= 40 && exists i :: 0 <= i < |rows| && |rows[i]| == 2 && e == Entry(rows[i][0], rows[i][1])
  {
    TwoCellMembers(rows, e);
  }

  lemma TwoCellMembers(rows: seq<Row>, e: Entry)
    ensures e in TwoCellPairs(rows) <==> exists i :: 0 <= i < |rows| && |rows[i]| == 2 && e == Entry(rows[i][0], rows[i][1])
  {
    if e in TwoCellPairs(rows) {
      TwoCellFrom(rows, e);
    }
    if exists i :: 0 <= i < |rows| && |rows[i]| == 2 && e == Entry(rows[i][0], rows[i][1]) {
      var i :| 0 <= i < |rows| && |rows[i]| == 2 && e == Entry(rows[i][0], rows[i][1]);
      TwoCellTo(rows, i);
    }
  }

  lemma {:induction false} TwoCellFrom(rows: seq<Row>, e: Entry)
    requires e in TwoCellPairs(rows)
    ensures exists i :: 0 <= i < |rows| && |rows[i]| == 2 && e == Entry(rows[i][0], rows[i][1])
  {
    var init := rows[..|rows| - 1];
    var r := rows[|rows| - 1];
    assert TwoCellPairs(rows) == TwoCellPairs(init) + (if |r| == 2 then [Entry(r[0], r[1])] else []);
    if e in TwoCellPairs(init) {
      TwoCellFrom(init, e);
      var i :| 0 <= i < |init| && |init[i]| == 2 && e == Entry(init[i][0], init[i][1]);
      assert rows[i] == init[i];
    } else {
      assert |rows[|rows| - 1]| == 2;
    }
  }

  lemma {:induction false} TwoCellTo(rows: seq<Row>, i: nat)
    requires i < |rows| && |rows[i]| == 2
    ensures Entry(rows[i][0], rows[i][1]) in TwoCellPairs(rows)
  {
    var init := rows[..|rows| - 1];
    var r := rows[|rows| - 1];
    assert TwoCellPairs(rows) == TwoCellPairs(init) + (if |r| == 2 then [Entry(r[0], r[1])] else []);
    if i < |init| {
      assert init[i] == rows[i];
      TwoCellTo(init, i);
    }
  }

  /** A term without a definition offers `''`, which `setSpec` drops. */
  lemma MissingDefinitionDropped(dl: DefList, i: nat)
    requires |dl.defs| <= i < |dl.terms|
    ensures DefPairs(dl)[i].value == [] && CleanEntry(DefPairs(dl)[i]).None?
  {
    assert CollapseWs([]) == [] by {
      CollapseWsEmpty([]);
    }
  }

  // ---------------------------------------------------------------------------
  // The price

  /** The price and the `priceRaw` text; a `value` of `None` stands for `NaN`. */
  datatype Price = Price(value: Option<nat>, raw: string)

  /**
   * Lines 383-388: the `itemprop="price"` content if there is one, else the
   * digits of the `data-price` attribute or of the price element's text;
   * then `Number(priceText || '0')`. `numberOf` stands for JavaScript
   * `Number` on a content attribute that is not a plain digit string.
   */
  function PriceOf(content: string, dataPrice: string, priceText: string, numberOf: string -> Option<nat>): Price {
    var raw := if content != [] then content else DigitsOnly(Or(dataPrice, priceText));
    Price(if AllDigits(raw) then Some(DigitsValue(raw)) else numberOf(raw), raw)
  }

  /** Without a content attribute the price is the number the digits of the text spell, `0` when there are none. */
  lemma PriceSpec(content: string, dataPrice: string, priceText: string, numberOf: string -> Option<nat>)
    ensures var p := PriceOf(content, dataPrice, priceText, numberOf);
      content == [] ==> AllDigits(p.raw) && p.value == Some(NumberOfDigitsIn(Or(dataPrice, priceText)))
    ensures var p := PriceOf(content, dataPrice, priceText, numberOf);
      (content == [] && forall i :: 0 <= i < |Or(dataPrice, priceText)| ==> !IsDigit(Or(dataPrice, priceText)[i]))
      ==> p.value == Some(0) && p.raw == []
    ensures content != [] && AllDigits(content) ==> PriceOf(content, dataPrice, priceText, numberOf) == Price(Some(DigitsValue(content)), content)
  {
  }

  // ---------------------------------------------------------------------------
  // parseProductPage

  /** What `parseProductPage` reads from the page; a missing element or attribute reads as `''`. */
  datatype PageFacts = PageFacts(
    h1: string, itempropName: string,
    metaDescription: string, itempropDescription: string, ogDescription: string,
    priceContent: string, priceData: string, priceText: string,
    ogImages: seq<string>, otherImages: seq<string>,
    brandItemprop: string, brandLink: string,
    materialCell: string, materialNext: string, colorCell: string, colorNext: string,
    headerTables: seq<seq<Row>>, tables: seq<seq<Row>>, dls: seq<DefList>,
    ldCrumbs: seq<RawCrumb>, microCrumbs: seq<RawCrumb>, linkCrumbs: seq<RawCrumb>)

  /** The object `parseProductPage` returns. */
  datatype ParsedProduct = ParsedProduct(
    name: string, description: string, price: Option<nat>, images: seq<string>,
    brand: string, material: string, color: string, specs: Specs, slug: string,
    supplierUrl: string, categorySlug: string, subcategorySlug: Option<string>, priceRaw: string)

  const DefaultName: string := "Товар"
  const MaterialKey: string := "Материал"
  const ColorKey: string := "Цвет"

  /** `specs[key] || (cell || next || '').trim()`. */
  function SpecOrCell(specs: Specs, key: string, cell: string, next: string): string {
    Or(Get(specs, key).GetOr(""), Trim(Or(cell, next)))
  }

  function ProductOf(url: string, f: PageFacts, pathnameOf: string -> Option<string>, urlPrefix: string,
                     resolve: string -> Option<string>, numberOf: string -> Option<nat>,
                     slugify: string -> string): ParsedProduct
  {
    var info := ImportUrls.CategoryInfoOf(pathnameOf(url), urlPrefix);
    var name := Or(Trim(Or(f.h1, f.itempropName)), DefaultName);
    var price := PriceOf(f.priceContent, f.priceData, f.priceText, numberOf);
    var specs := SpecsOf(f.headerTables, f.tables, f.dls);
    ParsedProduct(
      name, Or(Or(f.metaDescription, f.itempropDescription), f.ogDescription), price.value,
      CollectImages(f.ogImages, f.otherImages, resolve),
      Trim(Or(f.brandItemprop, f.brandLink)),
      SpecOrCell(specs, MaterialKey, f.materialCell, f.materialNext),
      SpecOrCell(specs, ColorKey, f.colorCell, f.colorNext),
      specs, slugify(name), url, info.categorySlug, info.subcategorySlug, price.raw)
  }

  /** The record as the page parser writes it: the same fields, with the image list as written. */
  function ProductOfAsWritten(url: string, f: PageFacts, pathnameOf: string -> Option<string>, urlPrefix: string,
                              resolve: string -> Option<string>, numberOf: string -> Option<nat>,
                              slugify: string -> string): ParsedProduct
  {
    ProductOf(url, f, pathnameOf, urlPrefix, resolve, numberOf, slugify)
      .(images := CollectImagesAsWritten(f.ogImages, f.otherImages, resolve))
  }

  /**
   * The record as written keeps every guarantee of the intended one except
   * distinct images, and equals it when the page's acceptable images are
   * already distinct.
   */
  lemma ProductOfAsWrittenSpec(url: string, f: PageFacts, pathnameOf: string -> Option<string>, urlPrefix: string,
                               resolve: string -> Option<string>, numberOf: string -> Option<nat>, slugify: string -> string)
    ensures var p := ProductOfAsWritten(url, f, pathnameOf, urlPrefix, resolve, numberOf, slugify);
      var info := ImportUrls.CategoryInfoOf(pathnameOf(url), urlPrefix);
      p.name != [] && p.slug == slugify(p.name) && p.supplierUrl == url
      && p.categorySlug == info.categorySlug && p.subcategorySlug == info.subcategorySlug
      && |p.images| <= 10 && (forall u :: u in p.images ==> ImageOk(u))
    ensures NoDups(AcceptedImages(f.ogImages, f.otherImages, resolve)) ==>
      ProductOfAsWritten(url, f, pathnameOf, urlPrefix, resolve, numberOf, slugify)
      == ProductOf(url, f, pathnameOf, urlPrefix, resolve, numberOf, slugify)
  {
    ProductOfSpec(url, f, pathnameOf, urlPrefix, resolve, numberOf, slugify);
    CollectImagesAsWrittenSpec(f.ogImages, f.otherImages, resolve);
    if NoDups(AcceptedImages(f.ogImages, f.otherImages, resolve)) {
      CollectImagesAgree(f.ogImages, f.otherImages, resolve);
    }
  }

  /** `parseProductPage(url, html)` on an already fetched page, registering its categories. */
  method ParseProductPage(registry: CategoryRegistry, url: string, f: PageFacts,
                          pathnameOf: string -> Option<string>, urlPrefix: string,
                          resolve: string -> Option<string>, numberOf: string -> Option<nat>,
                          slugify: string -> string)
    returns (p: ParsedProduct)
    requires registry.Valid()
    modifies registry
    ensures registry.Valid()
    ensures p == ProductOf(url, f, pathnameOf, urlPrefix, resolve, numberOf, slugify)
    ensures registry.cats == Registered(old(registry.cats),
      Breadcrumbs(f.ldCrumbs, f.microCrumbs, f.linkCrumbs, pathnameOf, urlPrefix),
      ImportUrls.CategoryInfoOf(pathnameOf(url), urlPrefix).categoryPath)
  {
    var info := ImportUrls.CategoryInfoOf(pathnameOf(url), urlPrefix);
    var name := Or(Trim(Or(f.h1, f.itempropName)), DefaultName);
    var description := Or(Or(f.metaDescription, f.itempropDescription), f.ogDescription);
    var price := PriceOf(f.priceContent, f.priceData, f.priceText, numberOf);
    var images := CollectImages(f.ogImages, f.otherImages, resolve);
    var brand := Trim(Or(f.brandItemprop, f.brandLink));
    var specs := ParseSpecs(f.headerTables, f.tables, f.dls);
    var material := SpecOrCell(specs, MaterialKey, f.materialCell, f.materialNext);
    var color := SpecOrCell(specs, ColorKey, f.colorCell, f.colorNext);
    var crumbs := Breadcrumbs(f.ldCrumbs, f.microCrumbs, f.linkCrumbs, pathnameOf, urlPrefix);
    registry.Register(crumbs, info.categoryPath);
    p := ParsedProduct(name, description, price.value, images, brand, material, color, specs,
                       slugify(name), url, info.categorySlug, info.subcategorySlug, price.raw);
  }

  /**
   * The parsed record: a non-empty trimmed name (`Товар` when the headings
   * are blank), the page's own URL as supplier URL, the category read off
   * that URL, at most ten distinct acceptable images and clean specs.
   */
  lemma ProductOfSpec(url: string, f: PageFacts, pathnameOf: string -> Option<string>, urlPrefix: string,
                      resolve: string -> Option<string>, numberOf: string -> Option<nat>, slugify: string -> string)
    ensures var p := ProductOf(url, f, pathnameOf, urlPrefix, resolve, numberOf, slugify);
      var info := ImportUrls.CategoryInfoOf(pathnameOf(url), urlPrefix);
      p.name != [] && Trim(p.name) == p.name
      && (Trim(Or(f.h1, f.itempropName)) == [] ==> p.name == DefaultName)
      && p.slug == slugify(p.name) && p.supplierUrl == url
      && p.categorySlug == info.categorySlug && p.subcategorySlug == info.subcategorySlug
      && |p.images| <= 10 && NoDups(p.images) && (forall u :: u in p.images ==> ImageOk(u))
      && UniqueKeys(p.specs)
  {
    var t := Trim(Or(f.h1, f.itempropName));
    TrimShape(Or(f.h1, f.itempropName));
    if t != [] {
      TrimIdentity(t);
    } else {
      assert Trim(DefaultName) == DefaultName by {
        TrimIdentity(DefaultName);
      }
    }
    CollectImagesSpec(f.ogImages, f.otherImages, resolve);
  }
}
