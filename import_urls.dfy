/**
 * The URL side of the catalog importer (prisma/import/import2.mjs): slug
 * prettifying, the category read off a URL, the sitemap walk of
 * `getProductUrls` and the `isProductPage` test. `new URL(...)` is a
 * parameter `pathnameOf` (`None` when it throws); what the XML parser and
 * the HTML queries extract is given.
 */
module ImportUrls {
  import opened Wrappers
  import opened Text
  import opened Dedup
  import ParseUtil

  // ---------------------------------------------------------------------------
  // prettifySlug

  predicate IsJoiner(c: char) { c == '-' || c == '_' }

  /** A character of the regular-expression class `\w`. */
  predicate IsWordChar(c: char) {
    ('a' <= c <= 'z') || ('A' <= c <= 'Z') || ('0' <= c <= '9') || c == '_'
  }

  /** `s.replace(/[-_]+/g, ' ')`; `inRun` says the character before `s` was a dash or underscore. */
  function JoinersToSpaces(s: string, inRun: bool): (r: string)
    ensures |r| <= |s|
    ensures forall i :: 0 <= i < |r| ==> !IsJoiner(r[i])
  {
    if s == [] then []
    else if IsJoiner(s[0]) then
      if inRun then JoinersToSpaces(s[1..], true) else " " + JoinersToSpaces(s[1..], true)
    else [s[0]] + JoinersToSpaces(s[1..], false)
  }

  /** Position `i` of `s` starts a word (`\b\w`), when the character before `s` is a word character iff `afterWord`. */
  predicate WordStart(s: string, i: nat, afterWord: bool)
    requires i < |s|
  {
    IsWordChar(s[i]) && !(if i == 0 then afterWord else IsWordChar(s[i - 1]))
  }

  /** `s.replace(/\b\w/g, m => m.toUpperCase())`. */
  function CapitalizeWords(s: string, afterWord: bool): (r: string)
    ensures |r| == |s|
    ensures forall i :: 0 <= i < |s| ==> r[i] == if WordStart(s, i, afterWord) then UpperChar(s[i]) else s[i]
  {
    if s == [] then []
    else
      var rest := CapitalizeWords(s[1..], IsWordChar(s[0]));
      var r := [if IsWordChar(s[0]) && !afterWord then UpperChar(s[0]) else s[0]] + rest;
      assert forall i :: 1 <= i < |s| ==> r[i] == rest[i - 1] && s[i] == s[1..][i - 1];
      r
  }

  /** `prettifySlug(s)`: dashes and underscores become single spaces, and every word is capitalised. */
  function PrettifySlug(s: string): string {
    CapitalizeWords(JoinersToSpaces(s, false), false)
  }

  lemma UpperKeepsClass(c: char)
    ensures IsWordChar(UpperChar(c)) == IsWordChar(c)
    ensures IsJoiner(UpperChar(c)) == IsJoiner(c)
    ensures IsWordChar(c) ==> UpperChar(UpperChar(c)) == UpperChar(c) && !('a' <= UpperChar(c) <= 'z')
  {
  }

  /** No dash or underscore survives, and no word of the result starts with a lower-case Latin letter. */
  lemma PrettifySlugShape(s: string)
    ensures var r := PrettifySlug(s);
      (forall i :: 0 <= i < |r| ==> !IsJoiner(r[i]))
      && (forall i :: 0 <= i < |r| && WordStart(r, i, false) ==> !('a' <= r[i] <= 'z'))
  {
    var t := JoinersToSpaces(s, false);
    var r := PrettifySlug(s);
    forall i | 0 <= i < |r| ensures !IsJoiner(r[i]) && IsWordChar(r[i]) == IsWordChar(t[i]) {
      UpperKeepsClass(t[i]);
    }
    forall i | 0 <= i < |r| && WordStart(r, i, false) ensures !('a' <= r[i] <= 'z') {
      UpperKeepsClass(t[i]);
      assert WordStart(t, i, false);
    }
  }

  lemma {:induction false} JoinersToSpacesIdentity(t: string, inRun: bool)
    requires forall i :: 0 <= i < |t| ==> !IsJoiner(t[i])
    ensures JoinersToSpaces(t, inRun) == t
  {
    if t != [] {
      JoinersToSpacesIdentity(t[1..], false);
    }
  }

  lemma CapitalizeWordsTwice(t: string, afterWord: bool)
    ensures CapitalizeWords(CapitalizeWords(t, afterWord), afterWord) == CapitalizeWords(t, afterWord)
  {
    var r1 := CapitalizeWords(t, afterWord);
    var r2 := CapitalizeWords(r1, afterWord);
    forall i | 0 <= i < |t| ensures IsWordChar(r1[i]) == IsWordChar(t[i]) {
      UpperKeepsClass(t[i]);
    }
    forall i | 0 <= i < |t| ensures r2[i] == r1[i] {
      UpperKeepsClass(t[i]);
      assert WordStart(r1, i, afterWord) == WordStart(t, i, afterWord);
    }
  }

  /** Prettifying an already prettified slug changes nothing. */
  lemma PrettifySlugIdempotent(s: string)
    ensures PrettifySlug(PrettifySlug(s)) == PrettifySlug(s)
  {
    var r := PrettifySlug(s);
    PrettifySlugShape(s);
    JoinersToSpacesIdentity(r, false);
    CapitalizeWordsTwice(JoinersToSpaces(s, false), false);
  }

  // ---------------------------------------------------------------------------
  // parseCategoryAndSubcategoryFromUrl

  datatype CategoryInfo = CategoryInfo(categorySlug: string, subcategorySlug: Option<string>, categoryPath: seq<string>)

  /** `s.replace(/^\/+/, '')`. */
  function DropLeadingSlashes(s: string): (r: string)
    ensures r == [] || r[0] != '/'
  {
    if s != [] && s[0] == '/' then DropLeadingSlashes(s[1..]) else s
  }

  /** `s.replace(/\/+$/, '')`. */
  function DropTrailingSlashes(s: string): (r: string)
    ensures r == [] || r[|r| - 1] != '/'
  {
    if s != [] && s[|s| - 1] == '/' then DropTrailingSlashes(s[..|s| - 1]) else s
  }

  /** `URL_PREFIX.replace(/^\/+|\/+$/g, '').split('/').pop() || 'catalog'`. */
  function PrefixCategory(urlPrefix: string): (r: string)
    ensures r != [] && '/' !in r
  {
    var pieces := Split(DropTrailingSlashes(DropLeadingSlashes(urlPrefix)), '/');
    var last := pieces[|pieces| - 1];
    if last == [] then "catalog" else last
  }

  function PrefixFallback(urlPrefix: string): CategoryInfo {
    var c := PrefixCategory(urlPrefix);
    CategoryInfo(c, None, [c])
  }

  /** `parseCategoryAndSubcategoryFromUrl(u)`, given the pathname of `new URL(u, BASE_URL)`. */
  function CategoryInfoOf(pathname: Option<string>, urlPrefix: string): (r: CategoryInfo)
    ensures 1 <= |r.categoryPath| <= 2 && r.categoryPath[0] == r.categorySlug
    ensures r.subcategorySlug.Some? <==> |r.categoryPath| == 2
    ensures r.subcategorySlug.Some? ==> r.categoryPath[1] == r.subcategorySlug.value
    ensures forall k :: 0 <= k < |r.categoryPath| ==> r.categoryPath[k] != [] && '/' !in r.categoryPath[k]
  {
    match pathname
    case None => PrefixFallback(urlPrefix)
    case Some(p) =>
      var parts := PathSegments(p);
      var idx := IndexOfPart(parts, "catalog");
      if idx >= 0 && idx + 1 < |parts| then
        var sub := if idx + 2 < |parts| then Some(parts[idx + 2]) else None;
        CategoryInfo(parts[idx + 1], sub, parts[idx + 1..idx + 1 + (if sub.Some? then 2 else 1)])
      else PrefixFallback(urlPrefix)
  }

  /** `i` is the first `catalog` segment and another segment follows it. */
  predicate CatalogAt(parts: seq<string>, i: nat) {
    i + 1 < |parts| && parts[i] == "catalog" && "catalog" !in parts[..i]
  }

  /** After the first `catalog` segment come the category and, if present, the subcategory. */
  lemma CategoryAfterCatalog(p: string, urlPrefix: string, i: nat)
    requires CatalogAt(PathSegments(p), i)
    ensures var parts := PathSegments(p);
      var r := CategoryInfoOf(Some(p), urlPrefix);
      r.categorySlug == parts[i + 1]
      && r.subcategorySlug == (if i + 2 < |parts| then Some(parts[i + 2]) else None)
  {
    var parts := PathSegments(p);
    FirstCatalogIndex(parts, i);
  }

  lemma FirstCatalogIndex(parts: seq<string>, i: nat)
    requires CatalogAt(parts, i)
    ensures IndexOfPart(parts, "catalog") == i
  {
    assert parts[i] in parts;
    var idx := IndexOfPart(parts, "catalog");
    assert forall j :: 0 <= j < i ==> parts[..i][j] == parts[j];
    assert forall j :: 0 <= j < idx ==> parts[..idx][j] == parts[j];
  }

  /** Without a segment after a `catalog` segment, or without a pathname, the prefix decides. */
  lemma CategoryFromPrefix(pathname: Option<string>, urlPrefix: string)
    requires pathname.Some? ==> forall i :: 0 <= i < |PathSegments(pathname.value)| ==> !CatalogAt(PathSegments(pathname.value), i)
    ensures CategoryInfoOf(pathname, urlPrefix) == CategoryInfo(PrefixCategory(urlPrefix), None, [PrefixCategory(urlPrefix)])
  {
    if pathname.Some? {
      var parts := PathSegments(pathname.value);
      var idx := IndexOfPart(parts, "catalog");
      if idx >= 0 && idx + 1 < |parts| {
        assert CatalogAt(parts, idx);
      }
    }
  }

  /** A prefix `/<a>/` names the category `a`. */
  lemma PrefixCategoryOfOneSegment(a: string)
    requires a != [] && '/' !in a
    ensures PrefixCategory("/" + a + "/") == a
  {
    var s := "/" + a + "/";
    assert s[1..] == a + "/";
    assert DropLeadingSlashes(a + "/") == a + "/";
    assert DropLeadingSlashes(s) == a + "/";
    assert (a + "/")[..|a|] == a;
    assert DropTrailingSlashes(a + "/") == a;
  }

  /** Under the default prefix `/catalog/` this parse and the first importer's agree on the category. */
  lemma AgreesWithFirstImporter(pathname: Option<string>)
    ensures CategoryInfoOf(pathname, "/catalog/").categorySlug == ParseUtil.CategorySlugFromUrl(pathname)
  {
    NoSlashInCatalog();
    PrefixCategoryOfOneSegment("catalog");
  }

  lemma NoSlashInCatalog()
    ensures "catalog" != [] && '/' !in "catalog" && "/catalog/" == "/" + "catalog" + "/"
  {
  }

  // ---------------------------------------------------------------------------
  // getProductUrls

  /** What the XML parser finds at the top of the sitemap. */
  datatype Sitemap =
    | SitemapIndex(sitemapLocs: seq<string>)  // the `loc` of every `sitemapindex.sitemap` node ('' when absent)
    | UrlSet(urlLocs: seq<string>)            // the `loc` of every `urlset.url` node
    | NoUrls

  /** `new URL(u).pathname.startsWith(URL_PREFIX)`, or `u.includes(URL_PREFIX)` when `new URL` throws. */
  predicate InScope(loc: string, pathnameOf: string -> Option<string>, urlPrefix: string) {
    match pathnameOf(loc)
    case Some(p) => StartsWith(p, urlPrefix)
    case None => Contains(loc, urlPrefix)
  }

  /** The scope test as the filter the sitemap walk applies. */
  function ScopeFilter(pathnameOf: string -> Option<string>, urlPrefix: string): (keep: string -> bool)
    ensures forall loc :: keep(loc) == InScope(loc, pathnameOf, urlPrefix)
  {
    loc => InScope(loc, pathnameOf, urlPrefix)
  }

  /** The `loc` lists of the child sitemaps, one after the other. */
  function ChildLocs(sitemaps: seq<string>, child: string -> seq<string>): seq<string> {
    if sitemaps == [] then []
    else ChildLocs(sitemaps[..|sitemaps| - 1], child) + child(sitemaps[|sitemaps| - 1])
  }

  /** `x` is in the `loc` list of one of the sitemaps. */
  predicate ListedBy(x: string, sitemaps: seq<string>, child: string -> seq<string>) {
    exists k :: 0 <= k < |sitemaps| && x in child(sitemaps[k])
  }

  lemma {:induction false} ChildLocsMembers(sitemaps: seq<string>, child: string -> seq<string>, x: string)
    ensures x in ChildLocs(sitemaps, child) <==> ListedBy(x, sitemaps, child)
  {
    if sitemaps != [] {
      var init := sitemaps[..|sitemaps| - 1];
      ChildLocsMembers(init, child, x);
      if ListedBy(x, init, child) {
        var k :| 0 <= k < |init| && x in child(init[k]);
        assert sitemaps[k] == init[k];
      }
      if ListedBy(x, sitemaps, child) {
        var k :| 0 <= k < |sitemaps| && x in child(sitemaps[k]);
        if k < |init| {
          assert init[k] == sitemaps[k];
        }
      }
    }
  }

  /** The URL list `getProductUrls` returns. */
  function ProductUrlsOf(root: Sitemap, child: string -> seq<string>, pathnameOf: string -> Option<string>, urlPrefix: string): seq<string> {
    var keep := ScopeFilter(pathnameOf, urlPrefix);
    match root
    case SitemapIndex(locs) => Distinct(Kept(ChildLocs(NonEmpty(locs), child), keep))
    case UrlSet(locs) => Kept(locs, keep)
    case NoUrls => []
  }

  /**
   * `getProductUrls()`: the sitemap index's children are fetched in order
   * (`child(url)` is the `loc` list of a child's `urlset`) and their
   * in-scope URLs collected in a `Set`; a plain `urlset` is filtered as it is.
   */
  method ProductUrls(root: Sitemap, child: string -> seq<string>, pathnameOf: string -> Option<string>, urlPrefix: string)
    returns (urls: seq<string>)
    ensures urls == ProductUrlsOf(root, child, pathnameOf, urlPrefix)
  {
    var keep := ScopeFilter(pathnameOf, urlPrefix);
    match root
    case NoUrls =>
      urls := [];
    case UrlSet(locs) =>
      urls := Kept(locs, keep);
    case SitemapIndex(locs) =>
      var sitemaps := SitemapLocs(locs);
      urls := CollectChildren(sitemaps, child, keep);
  }

  /** `for (const sm of nodes) if (sm?.loc) sitemaps.push(sm.loc)`. */
  method SitemapLocs(locs: seq<string>) returns (sitemaps: seq<string>)
    ensures sitemaps == NonEmpty(locs)
  {
    sitemaps := [];
    for k := 0 to |locs|
      invariant sitemaps == NonEmpty(locs[..k])
    {
      NonEmptySnoc(locs[..k], locs[k]);
      assert locs[..k + 1] == locs[..k] + [locs[k]];
      if locs[k] != [] {
        sitemaps := sitemaps + [locs[k]];
      }
    }
    assert locs[..|locs|] == locs;
  }

  /** The loop over the child sitemaps, adding every `loc` that passes `keep` to the `urls` set. */
  method CollectChildren(sitemaps: seq<string>, child: string -> seq<string>, keep: string -> bool)
    returns (urls: seq<string>)
    ensures urls == Distinct(Kept(ChildLocs(sitemaps, child), keep))
  {
    urls := [];
    for i := 0 to |sitemaps|
      invariant urls == Distinct(Kept(ChildLocs(sitemaps[..i], child), keep))
    {
      var list := child(sitemaps[i]);
      AddAllCollects(ChildLocs(sitemaps[..i], child), list, keep);
      urls := AddKept(urls, list, keep);
      ChildLocsStep(sitemaps, i, child);
    }
    assert sitemaps[..|sitemaps|] == sitemaps;
  }

  /** The inner loop over one child's `loc` list. */
  method AddKept(urls0: seq<string>, list: seq<string>, keep: string -> bool) returns (urls: seq<string>)
    ensures urls == AddAll(urls0, list, keep)
  {
    urls := urls0;
    for j := 0 to |list|
      invariant AddAll(urls, list[j..], keep) == AddAll(urls0, list, keep)
    {
      var loc := list[j];
      assert list[j..][1..] == list[j + 1..];
      if keep(loc) && loc !in urls {
        urls := urls + [loc];
      }
    }
  }

  lemma ChildLocsStep(sitemaps: seq<string>, i: nat, child: string -> seq<string>)
    requires i < |sitemaps|
    ensures ChildLocs(sitemaps[..i + 1], child) == ChildLocs(sitemaps[..i], child) + child(sitemaps[i])
  {
    assert sitemaps[..i + 1][..i] == sitemaps[..i];
  }

  /** A URL is returned iff it is in scope and listed by a child sitemap (or by the single `urlset`). */
  lemma ProductUrlsMembers(root: Sitemap, child: string -> seq<string>, pathnameOf: string -> Option<string>, urlPrefix: string, x: string)
    ensures var r := ProductUrlsOf(root, child, pathnameOf, urlPrefix);
      x in r <==> InScope(x, pathnameOf, urlPrefix) && match root
        case SitemapIndex(locs) => ListedBy(x, NonEmpty(locs), child)
        case UrlSet(locs) => x in locs
        case NoUrls => false
  {
    var keep := ScopeFilter(pathnameOf, urlPrefix);
    match root
    case SitemapIndex(locs) =>
      var walked := ChildLocs(NonEmpty(locs), child);
      ChildLocsMembers(NonEmpty(locs), child, x);
      KeptMembers(walked, keep);
      DistinctMembers(Kept(walked, keep));
    case UrlSet(locs) =>
      KeptMembers(locs, keep);
    case NoUrls =>
  }

  /** The sitemaps walked are exactly the index's non-empty `loc` values. */
  lemma WalkedSitemaps(locs: seq<string>, s: string)
    ensures s in NonEmpty(locs) <==> s in locs && s != []
  {
  }

  /** A sitemap index yields every URL once; a single `urlset` is returned with its duplicates. */
  lemma ProductUrlsDistinct(root: Sitemap, child: string -> seq<string>, pathnameOf: string -> Option<string>, urlPrefix: string)
    requires root.SitemapIndex?
    ensures NoDups(ProductUrlsOf(root, child, pathnameOf, urlPrefix))
  {
    DistinctNoDups(Kept(ChildLocs(NonEmpty(root.sitemapLocs), child), ScopeFilter(pathnameOf, urlPrefix)));
  }

  // ---------------------------------------------------------------------------
  // isProductPage

  /** What `isProductPage` queries: the text of every JSON-LD script, whether a `Product` microdata item exists, how many `h1`. */
  datatype PageSignals = PageSignals(ldTexts: seq<string>, hasProductMicrodata: bool, h1Count: nat)

  /** `/"@type"\s*:\s*"product"/` matches the lower-cased text `l` at position `i`. */
  predicate TypeIsProductAt(l: string, i: nat) {
    i + 7 <= |l| && l[i..i + 7] == "\"@type\""
    && var afterKey := TrimStart(l[i + 7..]);
       afterKey != [] && afterKey[0] == ':' && StartsWith(TrimStart(afterKey[1..]), "\"product\"")
  }

  /** `/"@type"\s*:\s*"Product"/i.test(t)`. */
  predicate HasProductType(t: string) {
    exists i :: 0 <= i <= |t| && TypeIsProductAt(Lower(t), i)
  }

  /** The crawler's `hasProductLd || hasProductMicro`. */
  predicate LooksLikeProduct(sig: PageSignals) {
    (exists k :: 0 <= k < |sig.ldTexts| && sig.ldTexts[k] != [] && HasProductType(sig.ldTexts[k]))
    || sig.hasProductMicrodata
  }

  /** `isProductPage($)`. */
  predicate IsProductPage(sig: PageSignals) {
    LooksLikeProduct(sig) && sig.h1Count > 0
  }

  /** The `@type` test ignores letter case, whichever way the script writes it. */
  lemma ProductTypeIgnoresCase(t: string)
    ensures HasProductType(Upper(t)) <==> HasProductType(t)
  {
    LowerOfUpper(t);
    assert |Upper(t)| == |t|;
  }

  /** JSON-LD `"@type": "Product"` with a heading makes a product page. */
  lemma ProductLdMakesProductPage(before: string, after: string, h1Count: nat)
    requires h1Count > 0
    ensures IsProductPage(PageSignals([before + ProductLd + after], false, h1Count))
  {
    var t := before + ProductLd + after;
    var i := |before|;
    LowerProductLd();
    SliceOfConcat(before, ProductLd, after);
    LowerOfSlice(t, i, ProductLd, LoweredLd);
    var l := Lower(t);
    TypeAtStart(l[i..]);
    TypeAtShift(l, i);
    ProductTypeMakesProductPage(t, i, h1Count);
  }

  lemma ProductTypeMakesProductPage(t: string, i: nat, h1Count: nat)
    requires i <= |t| && TypeIsProductAt(Lower(t), i) && h1Count > 0
    ensures IsProductPage(PageSignals([t], false, h1Count))
  {
    HasProductTypeAt(t, i);
    OneProductScript(t, h1Count);
  }

  lemma HasProductTypeAt(t: string, i: nat)
    requires i <= |t| && TypeIsProductAt(Lower(t), i)
    ensures HasProductType(t)
  {
  }

  lemma OneProductScript(t: string, h1Count: nat)
    requires HasProductType(t) && h1Count > 0
    ensures IsProductPage(PageSignals([t], false, h1Count))
  {
    var sig := PageSignals([t], false, h1Count);
    assert sig.ldTexts[0] == t;
  }

  lemma SliceOfConcat(a: string, k: string, b: string)
    ensures (a + k + b)[|a|..][..|k|] == k
  {
    var t := a + k + b;
    forall j | 0 <= j < |k| ensures t[|a|..][..|k|][j] == k[j] {
      assert t[|a| + j] == k[j];
    }
  }

  lemma LowerOfSlice(t: string, i: nat, k: string, lk: string)
    requires i + |k| <= |t| && t[i..][..|k|] == k && |lk| == |k|
    requires forall j :: 0 <= j < |k| ==> LowerChar(k[j]) == lk[j]
    ensures Lower(t)[i..][..|k|] == lk
  {
    var l := Lower(t);
    forall j | 0 <= j < |k| ensures l[i..][..|k|][j] == lk[j] {
      assert t[i + j] == k[j];
    }
  }

  const ProductLd: string := "\"@type\": \"Product\""
  const LoweredLd: string := "\"@type\": \"product\""

  lemma LowerProductLd()
    ensures |ProductLd| == 18 && |LoweredLd| == 18
    ensures forall j :: 0 <= j < 18 ==> LowerChar(ProductLd[j]) == LoweredLd[j]
  {
  }

  lemma TypeAtStart(l: string)
    requires |l| >= 18 && l[..18] == LoweredLd
    ensures TypeIsProductAt(l, 0)
  {
    LiteralParts();
    assert l[0..7] == l[..18][..7];
    assert l[9..18] == l[..18][9..];
    var rest := l[7..];
    assert rest[0] == ':' && rest[1] == ' ' && rest[2] == '"';
    TrimStartAtNonWs(rest);
    TrimStartOneSpace(rest[1..]);
    assert rest[1..][1..] == l[9..];
  }

  lemma LiteralParts()
    ensures var k := LoweredLd;
      |k| == 18 && k[..7] == "\"@type\"" && k[7] == ':' && k[8] == ' ' && k[9] == '"' && k[9..] == "\"product\""
  {
  }

  lemma TypeAtShift(l: string, i: nat)
    requires i <= |l|
    ensures TypeIsProductAt(l, i) == TypeIsProductAt(l[i..], 0)
  {
    if i + 7 <= |l| {
      assert l[i..][0..7] == l[i..i + 7];
      assert l[i..][7..] == l[i + 7..];
    }
  }

  lemma TrimStartAtNonWs(s: string)
    requires s != [] && !IsWs(s[0])
    ensures TrimStart(s) == s
  {
  }

  lemma TrimStartOneSpace(v: string)
    requires |v| >= 2 && v[0] == ' ' && !IsWs(v[1])
    ensures TrimStart(v) == v[1..]
  {
  }
}
