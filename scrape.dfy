/**
 * scripts/scrape_complex_bar.mjs: the complex-bar.kz catalog scraper. What it
 * reads from a page (links, gallery, specifications, description), the
 * category crawl, the keep/skip decision and the run over the discovered
 * product pages. Page parsing (cheerio), `slugify`, HTTP and the file system
 * are parameters: a page is given by the attribute values and texts the
 * selectors pick.
 */
module Scrape {
  import opened Wrappers
  import opened Text
  import opened Dedup
  import opened SpecMap
  import opened Sentences
  import opened ImagePick
  import opened ComplexBar
  import opened ScrapePatterns
  import opened ProductStore

  /** `START_URL`: the root category every subcategory must lie under. */
  const StartUrl: string := SiteBase + "/catalog/" + "stolovaya-posuda/"

  // ---------------------------------------------------------------------------
  // splitSentences and extractDescription

  /** `splitSentences(text)`: white space runs squeezed, then at most 4 sentences. */
  function SplitSentences4(text: string): string {
    SentenceCap(Squeeze(text), 4)
  }

  /**
   * On collapsed text the cap keeps a prefix of whole sentences, at most 4
   * of them, the result is collapsed again, and capping it a second time
   * changes nothing.
   */
  lemma SplitSentencesOfCollapsed(t: string)
    requires Collapsed(t)
    ensures var r := SplitSentences4(t);
      Collapsed(r) && StartsWith(t, r)
      && |NonEmpty(SplitSentences(r))| <= 4
      && SplitSentences4(r) == r
  {
    SqueezeOfSqueezed(t);
    CapOfCollapsed(t, 4);
    var r := SentenceCap(t, 4);
    SqueezeOfSqueezed(r);
  }

  /** `extractDescription($)`: the chosen text, capped to 4 sentences. */
  function ExtractDescription(blocks: seq<string>, paragraphs: seq<string>): string {
    SplitSentences4(DescriptionText(blocks, paragraphs))
  }

  /**
   * The description is a collapsed prefix of the chosen block or paragraph,
   * made of at most 4 sentences; it is empty exactly when that text is.
   */
  lemma ExtractDescriptionSpec(blocks: seq<string>, paragraphs: seq<string>)
    ensures var d := DescriptionText(blocks, paragraphs);
      var r := ExtractDescription(blocks, paragraphs);
      Collapsed(r) && StartsWith(d, r) && |NonEmpty(SplitSentences(r))| <= 4
      && SplitSentences4(r) == r
      && (r == [] <==> d == [])
  {
    var d := DescriptionText(blocks, paragraphs);
    DescriptionTextSpec(blocks, paragraphs);
    SplitSentencesOfCollapsed(d);
    if d != [] {
      CapKeepsFirst(d);
    }
  }

  /** A non-empty collapsed text keeps at least its first sentence. */
  lemma CapKeepsFirst(t: string)
    requires Collapsed(t) && t != []
    ensures SentenceCap(t, 4) != []
  {
    var ps := SplitSentences(t);
    SplitCollapsed(t);
    NonEmptyOfSentences(ps);
    var ne := NonEmpty(ps);
    assert ne != [];
    var taken := Take(ne, 4);
    assert taken != [] && taken[0] == ne[0] && ne[0] != [];
    JoinHead(taken);
  }

  // ---------------------------------------------------------------------------
  // link extractors

  /**
   * One anchor of `a[href*="/product/"]`: its absolute form, when that still
   * contains `/product/`, cut at the first `?`.
   */
  function ProductLinkOf(href: string, base: string, resolve: (string, string) -> string): Option<string> {
    if href == [] || !Contains(href, "/product/") then None
    else
      var u := AbsoluteUrl(href, base, resolve).value;
      if Contains(u, "/product/") then Some(Split(u, '?')[0]) else None
  }

  function ProductLinkFn(base: string, resolve: (string, string) -> string): (f: string -> Option<string>)
    ensures forall h :: f(h) == ProductLinkOf(h, base, resolve)
  {
    h => ProductLinkOf(h, base, resolve)
  }

  /** `extractListingProductLinks($, baseUrl)` over the page's `href` values. */
  function ListingProductLinks(hrefs: seq<string>, base: string, resolve: (string, string) -> string): seq<string> {
    Distinct(FilterMap(hrefs, ProductLinkFn(base, resolve)))
  }

  /**
   * The links are distinct, carry no query string, and are exactly the
   * product links some anchor offers.
   */
  lemma ListingProductLinksSpec(hrefs: seq<string>, base: string, resolve: (string, string) -> string)
    ensures var r := ListingProductLinks(hrefs, base, resolve);
      NoDups(r)
      && (forall l :: l in r ==> '?' !in l)
      && (forall l :: l in r <==> (exists i :: 0 <= i < |hrefs| && ProductLinkOf(hrefs[i], base, resolve) == Some(l)))
  {
    var f := ProductLinkFn(base, resolve);
    DistinctNoDups(FilterMap(hrefs, f));
    DistinctMembers(FilterMap(hrefs, f));
    forall l ensures l in FilterMap(hrefs, f) <==> (exists i :: 0 <= i < |hrefs| && ProductLinkOf(hrefs[i], base, resolve) == Some(l)) {
      FilterMapMembers(hrefs, f, l);
    }
    forall l | l in ListingProductLinks(hrefs, base, resolve) ensures '?' !in l {
      var i :| 0 <= i < |hrefs| && ProductLinkOf(hrefs[i], base, resolve) == Some(l);
    }
  }

  /** One anchor of `a[href*="PAGEN_1="]`: its absolute form. */
  function PaginationUrlOf(href: string, base: string, resolve: (string, string) -> string): Option<string> {
    if href == [] || !Contains(href, "PAGEN_1=") then None else AbsoluteUrl(href, base, resolve)
  }

  function PaginationUrlFn(base: string, resolve: (string, string) -> string): (f: string -> Option<string>)
    ensures forall h :: f(h) == PaginationUrlOf(h, base, resolve)
  {
    h => PaginationUrlOf(h, base, resolve)
  }

  /** `extractPaginationUrls($, baseUrl)`. */
  function PaginationUrls(hrefs: seq<string>, base: string, resolve: (string, string) -> string): seq<string> {
    Distinct(FilterMap(hrefs, PaginationUrlFn(base, resolve)))
  }

  lemma PaginationUrlsSpec(hrefs: seq<string>, base: string, resolve: (string, string) -> string)
    ensures var r := PaginationUrls(hrefs, base, resolve);
      NoDups(r)
      && (forall u :: u in r <==> (exists i :: (0 <= i < |hrefs| && Contains(hrefs[i], "PAGEN_1=")
            && AbsoluteUrl(hrefs[i], base, resolve) == Some(u))))
  {
    var f := PaginationUrlFn(base, resolve);
    DistinctNoDups(FilterMap(hrefs, f));
    DistinctMembers(FilterMap(hrefs, f));
    forall u ensures u in FilterMap(hrefs, f) <==> (exists i :: (0 <= i < |hrefs| && Contains(hrefs[i], "PAGEN_1=")
            && AbsoluteUrl(hrefs[i], base, resolve) == Some(u))) {
      FilterMapMembers(hrefs, f, u);
    }
  }

  /** The characters JavaScript's `.` does not match. */
  predicate IsLineBreak(c: char) {
    c == '\n' || c == '\r' || c == '\U{2028}' || c == '\U{2029}'
  }

  predicate NoLineBreak(s: string) {
    forall k :: 0 <= k < |s| ==> !IsLineBreak(s[k])
  }

  /** `/\/catalog\/.+\/$/` matching with the `/catalog/` at position `i`. */
  predicate CatalogDirAt(u: string, i: nat) {
    i + 11 <= |u| && u[i..i + 9] == "/catalog/" && u[|u| - 1] == '/' && NoLineBreak(u[i + 9..|u| - 1])
  }

  /** `/\/catalog\/.+\/$/.test(u)`. */
  predicate CatalogDir(u: string) {
    exists i :: 0 <= i && i + 11 <= |u| && CatalogDirAt(u, i)
  }

  /** A page under the root category that ends with `/` and has no line break passes the pattern. */
  lemma CatalogDirUnderRoot(u: string)
    requires StartsWith(u, StartUrl) && EndsWith(u, "/") && NoLineBreak(u)
    ensures CatalogDir(u)
  {
    assert |SiteBase| == 22;
    assert u[..|StartUrl|] == StartUrl;
    assert StartUrl[22..31] == "/catalog/";
    assert u[22..31] == StartUrl[22..31];
    assert u[|u| - 1] == u[|u| - 1..][0];
    assert CatalogDirAt(u, 22);
  }

  /**
   * One anchor of `a[href*="/catalog/"]` for `extractSubcategoryLinks`: no
   * product or brand link, and an absolute form that is a category
   * directory under `START_URL`.
   */
  function SubcategoryOf(href: string, base: string, resolve: (string, string) -> string): Option<string> {
    if href == [] || !Contains(href, "/catalog/") || Contains(href, "/product/")
      || Contains(href, "/brands") || Contains(href, "/brand-") then None
    else
      var u := AbsoluteUrl(href, base, resolve).value;
      if CatalogDir(u) && StartsWith(u, StartUrl) then Some(u) else None
  }

  function SubcategoryFn(base: string, resolve: (string, string) -> string): (f: string -> Option<string>)
    ensures forall h :: f(h) == SubcategoryOf(h, base, resolve)
  {
    h => SubcategoryOf(h, base, resolve)
  }

  /** `extractSubcategoryLinks($, baseUrl)`. */
  function SubcategoryLinks(hrefs: seq<string>, base: string, resolve: (string, string) -> string): seq<string> {
    Distinct(FilterMap(hrefs, SubcategoryFn(base, resolve)))
  }

  /** The crawl's own filter on the subcategories of `catUrl`. */
  predicate EnqueueOk(u: string, catUrl: string) {
    Contains(u, "/catalog/") && !Contains(u, "/product/") && u != catUrl
  }

  function EnqueueFn(catUrl: string): (f: string -> bool)
    ensures forall u :: f(u) == EnqueueOk(u, catUrl)
  {
    u => EnqueueOk(u, catUrl)
  }

  /** The subcategories `crawlCategoryStream` considers for the page `catUrl`. */
  function CrawlSubs(hrefs: seq<string>, catUrl: string, resolve: (string, string) -> string): seq<string> {
    Kept(SubcategoryLinks(hrefs, catUrl, resolve), EnqueueFn(catUrl))
  }

  /** What every subcategory the crawl may enqueue looks like. */
  predicate SubOk(u: string) {
    StartsWith(u, StartUrl) && EndsWith(u, "/") && !Contains(u, "/product/")
  }

  /**
   * Each considered subcategory lies under `START_URL`, ends with `/`, is not
   * a product page and not the page itself, and comes from an anchor that
   * is neither a product nor a brand link.
   */
  lemma CrawlSubsSpec(hrefs: seq<string>, catUrl: string, resolve: (string, string) -> string)
    ensures var r := CrawlSubs(hrefs, catUrl, resolve);
      NoDups(r)
      && (forall s :: s in r ==> SubOk(s) && s != catUrl)
      && (forall s :: s in r ==> (exists i :: (0 <= i < |hrefs| && SubcategoryOf(hrefs[i], catUrl, resolve) == Some(s)
            && !Contains(hrefs[i], "/product/") && !Contains(hrefs[i], "/brands") && !Contains(hrefs[i], "/brand-"))))
  {
    var all := FilterMap(hrefs, SubcategoryFn(catUrl, resolve));
    DistinctNoDups(all);
    KeptNoDups(Distinct(all), EnqueueFn(catUrl));
    forall s | s in CrawlSubs(hrefs, catUrl, resolve)
      ensures SubOk(s) && s != catUrl
      ensures exists i :: (0 <= i < |hrefs| && SubcategoryOf(hrefs[i], catUrl, resolve) == Some(s)
            && !Contains(hrefs[i], "/product/") && !Contains(hrefs[i], "/brands") && !Contains(hrefs[i], "/brand-"))
    {
      CrawlSubOf(hrefs, catUrl, resolve, s);
    }
  }

  lemma CrawlSubOf(hrefs: seq<string>, catUrl: string, resolve: (string, string) -> string, s: string)
    requires s in CrawlSubs(hrefs, catUrl, resolve)
    ensures SubOk(s) && s != catUrl
    ensures exists i :: (0 <= i < |hrefs| && SubcategoryOf(hrefs[i], catUrl, resolve) == Some(s)
            && !Contains(hrefs[i], "/product/") && !Contains(hrefs[i], "/brands") && !Contains(hrefs[i], "/brand-"))
  {
    var f := SubcategoryFn(catUrl, resolve);
    var all := FilterMap(hrefs, f);
    DistinctMembers(all);
    KeptMembers(Distinct(all), EnqueueFn(catUrl));
    FilterMapMembers(hrefs, f, s);
    var i :| 0 <= i < |hrefs| && f(hrefs[i]) == Some(s);
    var j :| 0 <= j && j + 11 <= |s| && CatalogDirAt(s, j);
    assert s[|s| - 1..] == "/";
  }

  /** Filtering keeps a list free of duplicates. */
  lemma {:induction false} KeptNoDups<T(!new)>(s: seq<T>, keep: T -> bool)
    requires NoDups(s)
    ensures NoDups(Kept(s, keep))
  {
    if s != [] {
      var init := s[..|s| - 1];
      var x := s[|s| - 1];
      assert NoDups(init);
      KeptNoDups(init, keep);
      KeptMembers(init, keep);
      assert x !in init;
    }
  }

  // ---------------------------------------------------------------------------
  // extractGalleryImages

  /** The attributes of one `img` or `a` element, `''` where one is absent. */
  datatype Element = Element(srcset: string, caImagePath: string, largeSrc: string,
                             dataSrc: string, src: string, href: string)

  /** `s.trim().split(' ')[0]`. */
  function FirstWord(s: string): (r: string)
    ensures ' ' !in r
  {
    Split(Trim(s), ' ')[0]
  }

  function FirstWords(parts: seq<string>): (r: seq<string>)
    ensures |r| == |parts| && forall k :: 0 <= k < |parts| ==> r[k] == FirstWord(parts[k])
  {
    seq(|parts|, k requires 0 <= k < |parts| => FirstWord(parts[k]))
  }

  /** `srcset.split(',').map(s => s.trim().split(' ')[0]).filter(Boolean)`. */
  function SrcsetParts(srcset: string): seq<string> {
    NonEmpty(FirstWords(Split(srcset, ',')))
  }

  /** The values `addUrl` receives, in order, for one element inside a gallery container. */
  function ContainerCandidates(el: Element): seq<string> {
    (if el.srcset != [] then SrcsetParts(el.srcset) else [])
    + [Or(Or(el.caImagePath, el.largeSrc), el.dataSrc), Or(el.src, el.href)]
  }

  /** `String(c).split(',')[0].trim().split(' ')[0]`. */
  function FallbackFirst(c: string): string {
    FirstWord(Split(c, ',')[0])
  }

  /** The value the fallback scan hands to `addUrl` for one attribute value, if any. */
  function FallbackOf(c: string): Option<string> {
    var first := FallbackFirst(c);
    if CdnLike(first) || HttpLike(first) then Some(first) else None
  }

  function FallbackOfFn(): (f: string -> Option<string>)
    ensures forall c :: f(c) == FallbackOf(c)
  {
    c => FallbackOf(c)
  }

  /** The attribute values the fallback scan reads, in its order. */
  function Attrs(el: Element): seq<string> {
    [el.caImagePath, el.largeSrc, el.dataSrc, el.src, el.href, el.srcset]
  }

  /** The values `addUrl` receives, in order, for one element in the fallback scan. */
  function FallbackCandidates(el: Element): seq<string> {
    FilterMap(NonEmpty(Attrs(el)), FallbackOfFn())
  }

  /** The candidates of a list of elements, one element after the other. */
  function Candidates(els: seq<Element>, f: Element -> seq<string>): seq<string> {
    if els == [] then [] else Candidates(els[..|els| - 1], f) + f(els[|els| - 1])
  }

  lemma {:induction false} CandidatesMembers(els: seq<Element>, f: Element -> seq<string>, c: string)
    requires c in Candidates(els, f)
    ensures exists i :: 0 <= i < |els| && c in f(els[i])
  {
    var init := els[..|els| - 1];
    if c in Candidates(init, f) {
      CandidatesMembers(init, f, c);
      var i :| 0 <= i < |init| && c in f(init[i]);
      assert els[i] == init[i];
    }
  }

  function ContainerFn(): (f: Element -> seq<string>)
    ensures forall el :: f(el) == ContainerCandidates(el)
  {
    el => ContainerCandidates(el)
  }

  function FallbackFn(): (f: Element -> seq<string>)
    ensures forall el :: f(el) == FallbackCandidates(el)
  {
    el => FallbackCandidates(el)
  }

  /** The sequence of `addUrl` calls of `extractGalleryImages`. */
  function GalleryCandidates(containers: seq<Element>, foundAny: bool, doc: seq<Element>): seq<string> {
    if foundAny then Candidates(containers, ContainerFn()) else Candidates(doc, FallbackFn())
  }

  /**
   * `extractGalleryImages($)`: `containers` are the `img, a` elements inside
   * the gallery containers in selector order, `foundAny` tells whether any
   * container matched, `doc` are all `img, a` elements of the page.
   */
  function GalleryImages(containers: seq<Element>, foundAny: bool, doc: seq<Element>,
                         resolve: (string, string) -> string): seq<string> {
    GalleryOf(GalleryCandidates(containers, foundAny, doc), resolve)
  }

  method ExtractGalleryImages(containers: seq<Element>, foundAny: bool, doc: seq<Element>,
                              resolve: (string, string) -> string) returns (out: seq<string>)
    ensures out == GalleryImages(containers, foundAny, doc, resolve)
  {
    var cands := if foundAny then Candidates(containers, ContainerFn()) else Candidates(doc, FallbackFn());
    out := CollectGallery(cands, resolve);
  }

  /**
   * No image twice, none a placeholder, sprite, `.svg` or logo; with a
   * gallery container on the page the rest of the document is never looked
   * at, and without one every image is the first URL of an attribute value
   * that looks like a CDN or absolute link.
   */
  lemma GalleryImagesSpec(containers: seq<Element>, foundAny: bool, doc: seq<Element>,
                          resolve: (string, string) -> string)
    ensures var out := GalleryImages(containers, foundAny, doc, resolve);
      NoDups(out)
      && (forall u :: u in out ==> GalleryOk(u) && !EndsWith(Lower(u), ".svg"))
      && (foundAny ==> forall doc' :: GalleryImages(containers, foundAny, doc', resolve) == out)
      && (!foundAny ==> forall u :: u in out ==>
            exists i, c :: (0 <= i < |doc| && c in Attrs(doc[i])
              && (CdnLike(FallbackFirst(c)) || HttpLike(FallbackFirst(c)))
              && GalleryUrl(FallbackFirst(c), resolve) == Some(u)))
  {
    var cands := GalleryCandidates(containers, foundAny, doc);
    GallerySpec(cands, resolve);
    if !foundAny {
      forall u | u in GalleryImages(containers, foundAny, doc, resolve)
        ensures exists i, c :: (0 <= i < |doc| && c in Attrs(doc[i])
              && (CdnLike(FallbackFirst(c)) || HttpLike(FallbackFirst(c)))
              && GalleryUrl(FallbackFirst(c), resolve) == Some(u))
      {
        var k :| 0 <= k < |cands| && GalleryUrl(cands[k], resolve) == Some(u);
        FallbackOrigin(doc, cands[k]);
      }
    }
  }

  lemma FallbackOrigin(doc: seq<Element>, first: string)
    requires first in Candidates(doc, FallbackFn())
    ensures exists i, c :: (0 <= i < |doc| && c in Attrs(doc[i])
      && first == FallbackFirst(c) && (CdnLike(first) || HttpLike(first)))
  {
    CandidatesMembers(doc, FallbackFn(), first);
    var i :| 0 <= i < |doc| && first in FallbackCandidates(doc[i]);
    var c := ElementOrigin(doc[i], first);
    FallbackOfSome(c, first);
  }

  lemma ElementOrigin(el: Element, first: string) returns (c: string)
    requires first in FallbackCandidates(el)
    ensures c in Attrs(el) && FallbackOf(c) == Some(first)
  {
    var attrs := NonEmpty(Attrs(el));
    FilterMapMembers(attrs, FallbackOfFn(), first);
    var j :| 0 <= j < |attrs| && FallbackOfFn()(attrs[j]) == Some(first);
    c := attrs[j];
  }

  lemma FallbackOfSome(c: string, first: string)
    requires FallbackOf(c) == Some(first)
    ensures first == FallbackFirst(c) && (CdnLike(first) || HttpLike(first))
  {
  }

  // ---------------------------------------------------------------------------
  // extractSpecs

  /** One `table` or `dl`: the cell texts of each `tr`, and each `dt` text with its next `dd` text. */
  datatype SpecBlock = SpecBlock(rows: seq<seq<string>>, terms: seq<Entry>)

  /**
   * The texts the specification selectors pick, in the order the function
   * visits them: tables and definition lists, the `harakter` elements (first
   * `span`/`b`/`strong` text and own text), the `product-feature` blocks
   * (name and value), and the spans of each `li`.
   */
  datatype SpecSources = SpecSources(blocks: seq<SpecBlock>, harakter: seq<Entry>,
                                     features: seq<Entry>, listItems: seq<seq<string>>)

  /** A row is a candidate pair only with at least two cells: the first two. */
  function RowPair(cells: seq<string>): Option<Entry> {
    if |cells| >= 2 then Some(Entry(cells[0], cells[1])) else None
  }

  function RowPairFn(): (f: seq<string> -> Option<Entry>)
    ensures forall c :: f(c) == RowPair(c)
  {
    c => RowPair(c)
  }

  function BlockPairs(blocks: seq<SpecBlock>): seq<Entry> {
    if blocks == [] then []
    else
      var b := blocks[|blocks| - 1];
      BlockPairs(blocks[..|blocks| - 1]) + FilterMap(b.rows, RowPairFn()) + b.terms
  }

  /** Every raw pair `extractSpecs` tests, in document and selector order. */
  function SpecCandidates(src: SpecSources): seq<Entry> {
    BlockPairs(src.blocks) + src.harakter + src.features + FilterMap(src.listItems, RowPairFn())
  }

  /** `extractSpecs($)`: every candidate assigned in turn. */
  method ExtractSpecs(src: SpecSources) returns (specs: Specs)
    ensures specs == SpecsFrom(SpecCandidates(src))
  {
    specs := AssignSpecs(SpecCandidates(src));
  }

  /**
   * Later candidates override earlier ones: the value of a key is the last
   * value offered after `a` when there is one, and otherwise what `a` alone
   * gives.
   */
  lemma SpecsPrecedence(a: seq<Entry>, b: seq<Entry>, k: string)
    ensures var later := LastValue(FilterMap(b, SpecPairFn()), k);
      Get(SpecsFrom(a + b), k) == if later.Some? then later else Get(SpecsFrom(a), k)
  {
    var f := SpecPairFn();
    FilterMapPrefix(a, b, f);
    LastValueConcat(FilterMap(a, f), FilterMap(b, f), k);
    LastWinsGet(FilterMap(a + b, f), k);
    LastWinsGet(FilterMap(a, f), k);
  }

  /** A key offered by a two-span `li` holds the value of the last such `li`, whatever the tables say. */
  lemma ListItemsWin(src: SpecSources, k: string)
    requires LastValue(FilterMap(FilterMap(src.listItems, RowPairFn()), SpecPairFn()), k).Some?
    ensures Get(SpecsFrom(SpecCandidates(src)), k)
      == LastValue(FilterMap(FilterMap(src.listItems, RowPairFn()), SpecPairFn()), k)
  {
    SpecsPrecedence(BlockPairs(src.blocks) + src.harakter + src.features, FilterMap(src.listItems, RowPairFn()), k);
  }

  // ---------------------------------------------------------------------------
  // parseProduct

  /** What the selectors of `parseProduct` pick from one product page. */
  datatype ProductPage = ProductPage(h1: string, titleText: string, priceTexts: seq<string>,
                                     descBlocks: seq<string>, paragraphs: seq<string>, specs: SpecSources,
                                     containers: seq<Element>, foundAny: bool, doc: seq<Element>)

  /** The object `parseProduct` returns. */
  datatype Scraped = Scraped(url: string, title: string, slug: string, description: string,
                             price: Option<nat>, specs: Specs, imageUrls: seq<string>)

  /** `parseProduct(url)` once the page is fetched; `slugify` is `normSlug`. */
  function ScrapedOf(url: string, page: ProductPage, slugify: string -> string,
                     resolve: (string, string) -> string): Scraped {
    var title := TitleOf(page.h1, page.titleText);
    Scraped(url, title, slugify(title), ExtractDescription(page.descBlocks, page.paragraphs),
            ParsePriceToNumber(PriceText(page.priceTexts)), SpecsFrom(SpecCandidates(page.specs)),
            GalleryImages(page.containers, page.foundAny, page.doc, resolve))
  }

  method ParseProduct(url: string, page: ProductPage, slugify: string -> string,
                      resolve: (string, string) -> string) returns (p: Scraped)
    ensures p == ScrapedOf(url, page, slugify, resolve)
  {
    var title := TitleOf(page.h1, page.titleText);
    var specs := ExtractSpecs(page.specs);
    var images := ExtractGalleryImages(page.containers, page.foundAny, page.doc, resolve);
    p := Scraped(url, title, slugify(title), ExtractDescription(page.descBlocks, page.paragraphs),
                 ParsePriceToNumber(PriceText(page.priceTexts)), specs, images);
  }

  // ---------------------------------------------------------------------------
  // crawlCategoryStream

  /** A listing page: the `href` values of its anchors, `None` when `fetchText` throws. */
  type Fetch = string -> Option<seq<string>>

  ghost function Elems(s: seq<string>): set<string> {
    set x | x in s
  }

  lemma ElemsConcat(a: seq<string>, b: seq<string>)
    ensures Elems(a + b) == Elems(a) + Elems(b)
  {
  }

  /** A category that offers nothing leaves a union as it was. */
  lemma UnionSnocEmpty(pages: seq<string>, p: string, g: string -> set<string>)
    requires g(p) == {}
    ensures Union(pages + [p], g) == Union(pages, g)
  {
    UnionSnoc(pages, p, g);
  }

  /** The subcategories offered stay covered once a category's are queued. */
  lemma SubsCovered(offered: set<string>, catSet: set<string>, tail: seq<string>, queue: seq<string>, subs: seq<string>)
    requires offered <= catSet + Elems(tail)
    requires Elems(tail) <= Elems(queue)
    requires forall s :: s in subs ==> s in catSet || s in queue
    ensures offered + Elems(subs) <= catSet + Elems(queue)
  {
  }

  lemma ElemsSnoc(s: seq<string>, x: string)
    ensures Elems(s + [x]) == Elems(s) + {x}
  {
  }

  lemma ElemsTail(q: seq<string>)
    requires q != []
    ensures Elems(q) == {q[0]} + Elems(q[1..])
  {
    assert q == [q[0]] + q[1..];
  }

  lemma ElemsPrefix(a: seq<string>, n: nat)
    requires n <= |a|
    ensures Elems(a[..n]) <= Elems(a)
  {
  }

  /** What the pages of `pages` offer, page by page, united. */
  ghost function Union(pages: seq<string>, g: string -> set<string>): set<string> {
    if pages == [] then {} else Union(pages[..|pages| - 1], g) + g(pages[|pages| - 1])
  }

  lemma UnionSnoc(pages: seq<string>, p: string, g: string -> set<string>)
    ensures Union(pages + [p], g) == Union(pages, g) + g(p)
  {
    assert (pages + [p])[..|pages|] == pages;
  }

  lemma {:induction false} UnionConcat(a: seq<string>, b: seq<string>, g: string -> set<string>)
    ensures Union(a + b, g) == Union(a, g) + Union(b, g)
  {
    if b != [] {
      var init := b[..|b| - 1];
      UnionConcat(a, init, g);
      assert a + b == (a + init) + [b[|b| - 1]];
      UnionSnoc(a + init, b[|b| - 1], g);
      UnionSnoc(init, b[|b| - 1], g);
      assert init + [b[|b| - 1]] == b;
    } else {
      assert a + b == a;
    }
  }

  /** The product links of a fetched page. */
  ghost function LinksFn(fetch: Fetch, resolve: (string, string) -> string): (g: string -> set<string>)
    ensures forall p :: g(p) == if fetch(p).Some? then Elems(ListingProductLinks(fetch(p).value, p, resolve)) else {}
  {
    p => if fetch(p).Some? then Elems(ListingProductLinks(fetch(p).value, p, resolve)) else {}
  }

  /** The pagination links of a fetched category page. */
  ghost function PagerFn(fetch: Fetch, resolve: (string, string) -> string): (g: string -> set<string>)
    ensures forall p :: g(p) == if fetch(p).Some? then Elems(PaginationUrls(fetch(p).value, p, resolve)) else {}
  {
    p => if fetch(p).Some? then Elems(PaginationUrls(fetch(p).value, p, resolve)) else {}
  }

  /** The subcategories a fetched category page offers to the queue. */
  ghost function SubsFn(fetch: Fetch, resolve: (string, string) -> string): (g: string -> set<string>)
    ensures forall p :: g(p) == if fetch(p).Some? then Elems(CrawlSubs(fetch(p).value, p, resolve)) else {}
  {
    p => if fetch(p).Some? then Elems(CrawlSubs(fetch(p).value, p, resolve)) else {}
  }

  /**
   * The yield loop over one page's links: each link not yielded yet is
   * yielded, and the walk stops once `MAX_PRODUCTS` (when positive) links
   * have been yielded. `|out|` is `yielded.size`: the list has no duplicates.
   */
  method Emit(yielded: seq<string>, seen: set<string>, links: seq<string>, max: nat)
    returns (out: seq<string>, seen': set<string>, stop: bool)
    requires NoDups(yielded) && seen == Elems(yielded) && (max == 0 || |yielded| < max)
    ensures NoDups(out) && seen' == Elems(out) && |yielded| <= |out| && out[..|yielded|] == yielded
    ensures Elems(out) <= Elems(yielded) + Elems(links)
    ensures stop <==> (max > 0 && |out| >= max)
    ensures max > 0 ==> |out| <= max
    ensures !stop ==> Elems(links) <= Elems(out)
  {
    out, seen', stop := yielded, seen, false;
    for i := 0 to |links|
      invariant NoDups(out) && seen' == Elems(out) && |yielded| <= |out| && out[..|yielded|] == yielded
      invariant Elems(out) <= Elems(yielded) + Elems(links[..i])
      invariant max == 0 || |out| < max
      invariant Elems(links[..i]) <= Elems(out)
    {
      var l := links[i];
      assert links[..i + 1] == links[..i] + [l];
      if l !in seen' {
        NoDupsSnoc(out, l);
        assert (out + [l])[..|yielded|] == out[..|yielded|];
        out := out + [l];
        seen' := seen' + {l};
        if max > 0 && |out| >= max {
          stop := true;
          ElemsPrefix(links, i + 1);
          return;
        }
      }
    }
    assert links[..|links|] == links;
  }

  /** One page of the pagination walk: marked visited, fetched, its links yielded. */
  method VisitPage(p: string, pages: seq<string>, pageSet: set<string>,
                   yielded: seq<string>, ySet: set<string>, max: nat,
                   fetch: Fetch, resolve: (string, string) -> string)
    returns (pages': seq<string>, pageSet': set<string>, yielded': seq<string>, ySet': set<string>, stop: bool)
    requires p !in pageSet && NoDups(pages) && pageSet == Elems(pages)
    requires NoDups(yielded) && ySet == Elems(yielded) && (max == 0 || |yielded| < max)
    ensures pages' == pages + [p] && NoDups(pages') && pageSet' == Elems(pages')
    ensures NoDups(yielded') && ySet' == Elems(yielded')
    ensures Elems(yielded) <= Elems(yielded') <= Elems(yielded) + LinksFn(fetch, resolve)(p)
    ensures stop <==> (max > 0 && |yielded'| >= max)
    ensures max > 0 ==> |yielded'| <= max
    ensures !stop ==> LinksFn(fetch, resolve)(p) <= Elems(yielded')
  {
    NoDupsSnoc(pages, p);
    pageSet' := pageSet + {p};
    pages' := pages + [p];
    var html := fetch(p);
    if html.None? {
      yielded', ySet', stop := yielded, ySet, false;
      return;
    }
    var plinks := ListingProductLinks(html.value, p, resolve);
    yielded', ySet', stop := Emit(yielded, ySet, plinks, max);
    ElemsPrefix(yielded', |yielded|);
  }

  /**
   * What holds of the pagination walk once the links `done` were taken:
   * each of them was visited, nothing else was, and the links yielded are
   * the ones of the pages visited.
   */
  ghost predicate Walking(pages: seq<string>, yielded: seq<string>, done: seq<string>,
                          pages': seq<string>, pageSet': set<string>, yielded': seq<string>, ySet': set<string>,
                          max: nat, L: string -> set<string>)
  {
    && NoDups(pages') && pageSet' == Elems(pages')
    && Elems(pages) <= Elems(pages') <= Elems(pages) + Elems(done)
    && Elems(done) <= Elems(pages')
    && NoDups(yielded') && ySet' == Elems(yielded')
    && Elems(yielded) <= Elems(yielded') <= Elems(yielded) + Union(pages', L)
    && Union(pages, L) <= Union(pages', L)
    && (max == 0 || |yielded'| < max)
    && Union(pages', L) <= Union(pages, L) + Elems(yielded')
  }

  /** One pager link: visited unless it was visited before. */
  method PagerStep(p: string, ghost pages: seq<string>, ghost yielded: seq<string>, ghost done: seq<string>,
                   pages0: seq<string>, pageSet0: set<string>, yielded0: seq<string>, ySet0: set<string>, max: nat,
                   fetch: Fetch, resolve: (string, string) -> string)
    returns (pages': seq<string>, pageSet': set<string>, yielded': seq<string>, ySet': set<string>, stop: bool)
    requires Walking(pages, yielded, done, pages0, pageSet0, yielded0, ySet0, max, LinksFn(fetch, resolve))
    ensures !stop ==> Walking(pages, yielded, done + [p], pages', pageSet', yielded', ySet', max, LinksFn(fetch, resolve))
    ensures stop ==>
      && NoDups(pages') && pageSet' == Elems(pages')
      && Elems(pages) <= Elems(pages') <= Elems(pages) + Elems(done + [p])
      && Union(pages, LinksFn(fetch, resolve)) <= Union(pages', LinksFn(fetch, resolve))
      && NoDups(yielded') && ySet' == Elems(yielded')
      && Elems(yielded) <= Elems(yielded') <= Elems(yielded) + Union(pages', LinksFn(fetch, resolve))
      && max > 0 && |yielded'| == max
  {
    ghost var L := LinksFn(fetch, resolve);
    ElemsConcat(done, [p]);
    if p in pageSet0 {
      pages', pageSet', yielded', ySet', stop := pages0, pageSet0, yielded0, ySet0, false;
      return;
    }
    UnionSnoc(pages0, p, L);
    ElemsConcat(pages0, [p]);
    pages', pageSet', yielded', ySet', stop := VisitPage(p, pages0, pageSet0, yielded0, ySet0, max, fetch, resolve);
  }

  /**
   * The pagination walk of one category: each pager link not visited yet is
   * visited once; a page that fails to load is skipped; the links of the
   * others are yielded.
   */
  method WalkPager(pager: seq<string>, pages: seq<string>, pageSet: set<string>,
                   yielded: seq<string>, ySet: set<string>, max: nat,
                   fetch: Fetch, resolve: (string, string) -> string)
    returns (pages': seq<string>, pageSet': set<string>, yielded': seq<string>, ySet': set<string>, stop: bool)
    requires NoDups(pages) && pageSet == Elems(pages)
    requires NoDups(yielded) && ySet == Elems(yielded) && (max == 0 || |yielded| < max)
    ensures NoDups(pages') && pageSet' == Elems(pages')
    ensures Elems(pages) <= Elems(pages') <= Elems(pages) + Elems(pager)
    ensures Union(pages, LinksFn(fetch, resolve)) <= Union(pages', LinksFn(fetch, resolve))
    ensures NoDups(yielded') && ySet' == Elems(yielded')
    ensures Elems(yielded) <= Elems(yielded') <= Elems(yielded) + Union(pages', LinksFn(fetch, resolve))
    ensures stop <==> (max > 0 && |yielded'| >= max)
    ensures max > 0 ==> |yielded'| <= max
    ensures !stop ==> Elems(pager) <= Elems(pages')
    ensures !stop ==> Union(pages', LinksFn(fetch, resolve)) <= Union(pages, LinksFn(fetch, resolve)) + Elems(yielded')
  {
    pages', pageSet', yielded', ySet', stop := pages, pageSet, yielded, ySet, false;
    for i := 0 to |pager|
      invariant Walking(pages, yielded, pager[..i], pages', pageSet', yielded', ySet', max, LinksFn(fetch, resolve))
    {
      assert pager[..i + 1] == pager[..i] + [pager[i]];
      pages', pageSet', yielded', ySet', stop :=
        PagerStep(pager[i], pages, yielded, pager[..i], pages', pageSet', yielded', ySet', max, fetch, resolve);
      if stop {
        ElemsPrefix(pager, i + 1);
        return;
      }
    }
    assert pager[..|pager|] == pager;
  }

  lemma {:induction false} SubsetCard(a: set<string>, b: set<string>)
    requires a <= b
    ensures |a| <= |b|
    decreases |a|
  {
    if a != {} {
      var x :| x in a;
      SubsetCard(a - {x}, b - {x});
    }
  }

  /** One more visited category leaves fewer unvisited ones. */
  lemma SmallerSet(a: set<string>, b: set<string>)
    requires a < b
    ensures |a| < |b|
  {
    var x :| x in b && x !in a;
    SubsetCard(a, b - {x});
  }

  /** `for (const s of subs) if (!visitedCat.has(s)) queue.push(s)`. */
  method PushSubs(queue: seq<string>, subs: seq<string>, catSet: set<string>) returns (queue': seq<string>)
    ensures Elems(queue) <= Elems(queue')
    ensures forall q :: q in queue' ==> q in queue || q in subs
    ensures forall s :: s in subs ==> s in catSet || s in queue'
  {
    queue' := queue;
    for j := 0 to |subs|
      invariant Elems(queue) <= Elems(queue')
      invariant forall q :: q in queue' ==> q in queue || q in subs
      invariant forall k :: 0 <= k < j ==> subs[k] in catSet || subs[k] in queue'
    {
      if subs[j] !in catSet {
        queue' := queue' + [subs[j]];
      }
    }
  }

  /**
   * One fetched category `cat` (already marked visited, `cats` are the ones
   * before it): its product links are yielded, then its pagination is walked.
   */
  method ExpandCategory(cat: string, hrefs: seq<string>, ghost cats: seq<string>, pages: seq<string>, pageSet: set<string>,
                        yielded: seq<string>, ySet: set<string>, max: nat,
                        fetch: Fetch, resolve: (string, string) -> string)
    returns (pages': seq<string>, pageSet': set<string>, yielded': seq<string>, ySet': set<string>, stop: bool)
    requires fetch(cat) == Some(hrefs)
    requires NoDups(pages) && pageSet == Elems(pages)
    requires NoDups(yielded) && ySet == Elems(yielded) && (max == 0 || |yielded| < max)
    requires Elems(yielded) == Union(cats, LinksFn(fetch, resolve)) + Union(pages, LinksFn(fetch, resolve))
    requires Elems(pages) == Union(cats, PagerFn(fetch, resolve))
    ensures NoDups(pages') && pageSet' == Elems(pages')
    ensures NoDups(yielded') && ySet' == Elems(yielded')
    ensures stop <==> (max > 0 && |yielded'| >= max)
    ensures max > 0 ==> |yielded'| <= max
    ensures Elems(yielded') <= Union(cats + [cat], LinksFn(fetch, resolve)) + Union(pages', LinksFn(fetch, resolve))
    ensures Elems(pages') <= Union(cats + [cat], PagerFn(fetch, resolve))
    ensures !stop ==> Elems(yielded') == Union(cats + [cat], LinksFn(fetch, resolve)) + Union(pages', LinksFn(fetch, resolve))
    ensures !stop ==> Elems(pages') == Union(cats + [cat], PagerFn(fetch, resolve))
  {
    ghost var L := LinksFn(fetch, resolve);
    ghost var P := PagerFn(fetch, resolve);
    UnionSnoc(cats, cat, L);
    UnionSnoc(cats, cat, P);
    var links := ListingProductLinks(hrefs, cat, resolve);
    assert L(cat) == Elems(links);
    var y1, s1;
    y1, s1, stop := Emit(yielded, ySet, links, max);
    ElemsPrefix(y1, |yielded|);
    if stop {
      pages', pageSet', yielded', ySet' := pages, pageSet, y1, s1;
      return;
    }
    var pager := PaginationUrls(hrefs, cat, resolve);
    assert P(cat) == Elems(pager);
    pages', pageSet', yielded', ySet', stop := WalkPager(pager, pages, pageSet, y1, s1, max, fetch, resolve);
    if !stop {
      assert Elems(pages') == Elems(pages) + Elems(pager);
    }
  }

  /** The subcategories of a fetched category page, queued unless already visited. */
  method QueueSubs(queue: seq<string>, hrefs: seq<string>, cat: string, catSet: set<string>,
                   resolve: (string, string) -> string, ghost startUrl: string, ghost site: set<string>,
                   ghost offered: set<string>)
    returns (queue': seq<string>)
    requires forall q :: q in queue ==> q in site && (q == startUrl || SubOk(q))
    requires forall s :: s in CrawlSubs(hrefs, cat, resolve) ==> s in site
    requires offered <= catSet + Elems(queue)
    ensures forall q :: q in queue' ==> q in site && (q == startUrl || SubOk(q))
    ensures offered + Elems(CrawlSubs(hrefs, cat, resolve)) <= catSet + Elems(queue')
  {
    var subs := CrawlSubs(hrefs, cat, resolve);
    CrawlSubsSpec(hrefs, cat, resolve);
    queue' := PushSubs(queue, subs, catSet);
    SubsCovered(offered, catSet, queue, queue', subs);
  }

  /**
   * One visit of a category page not visited before: its listing is walked
   * and, unless that reaches the limit, its subcategories are queued.
   */
  method VisitCategory(cat: string, queue: seq<string>, catSet: set<string>, ghost cats: seq<string>,
                       pages: seq<string>, pageSet: set<string>, yielded: seq<string>, ySet: set<string>,
                       max: nat, fetch: Fetch, resolve: (string, string) -> string,
                       ghost startUrl: string, ghost site: set<string>)
    returns (queue': seq<string>, pages': seq<string>, pageSet': set<string>,
             yielded': seq<string>, ySet': set<string>, stop: bool)
    requires forall u, s :: fetch(u).Some? && s in CrawlSubs(fetch(u).value, u, resolve) ==> s in site
    requires NoDups(pages) && pageSet == Elems(pages)
    requires NoDups(yielded) && ySet == Elems(yielded) && (max == 0 || |yielded| < max)
    requires Elems(yielded) == Union(cats, LinksFn(fetch, resolve)) + Union(pages, LinksFn(fetch, resolve))
    requires Elems(pages) == Union(cats, PagerFn(fetch, resolve))
    requires forall q :: q in queue ==> q in site && (q == startUrl || SubOk(q))
    requires Union(cats, SubsFn(fetch, resolve)) <= catSet + Elems(queue)
    ensures NoDups(pages') && pageSet' == Elems(pages')
    ensures NoDups(yielded') && ySet' == Elems(yielded')
    ensures stop <==> (max > 0 && |yielded'| >= max)
    ensures max > 0 ==> |yielded'| <= max
    ensures Elems(yielded') <= Union(cats + [cat], LinksFn(fetch, resolve)) + Union(pages', LinksFn(fetch, resolve))
    ensures Elems(pages') <= Union(cats + [cat], PagerFn(fetch, resolve))
    ensures forall q :: q in queue' ==> q in site && (q == startUrl || SubOk(q))
    ensures !stop ==>
      && Elems(yielded') == Union(cats + [cat], LinksFn(fetch, resolve)) + Union(pages', LinksFn(fetch, resolve))
      && Elems(pages') == Union(cats + [cat], PagerFn(fetch, resolve))
      && Union(cats + [cat], SubsFn(fetch, resolve)) <= catSet + Elems(queue')
  {
    ghost var S := SubsFn(fetch, resolve);
    UnionSnoc(cats, cat, S);
    var html := fetch(cat);
    if html.None? {
      UnionSnocEmpty(cats, cat, LinksFn(fetch, resolve));
      UnionSnocEmpty(cats, cat, PagerFn(fetch, resolve));
      queue', pages', pageSet', yielded', ySet', stop := queue, pages, pageSet, yielded, ySet, false;
      return;
    }
    pages', pageSet', yielded', ySet', stop :=
      ExpandCategory(cat, html.value, cats, pages, pageSet, yielded, ySet, max, fetch, resolve);
    if stop {
      queue' := queue;
      return;
    }
    assert S(cat) == Elems(CrawlSubs(html.value, cat, resolve));
    queue' := QueueSubs(queue, html.value, cat, catSet, resolve, startUrl, site, Union(cats, S));
  }

  /** What holds of the crawl's state between two pages taken from the queue. */
  ghost predicate Crawling(startUrl: string, max: nat, fetch: Fetch, resolve: (string, string) -> string,
                           site: set<string>, queue: seq<string>, cats: seq<string>, catSet: set<string>,
                           pages: seq<string>, pageSet: set<string>, yielded: seq<string>, ySet: set<string>)
  {
    && NoDups(cats) && catSet == Elems(cats) && catSet <= site
    && NoDups(pages) && pageSet == Elems(pages)
    && NoDups(yielded) && ySet == Elems(yielded)
    && (max == 0 || |yielded| < max)
    && (forall q :: q in queue ==> q in site && (q == startUrl || SubOk(q)))
    && (forall c :: c in cats ==> c == startUrl || SubOk(c))
    && ((catSet == {} && queue == [startUrl]) || startUrl in catSet)
    && Elems(yielded) == Union(cats, LinksFn(fetch, resolve)) + Union(pages, LinksFn(fetch, resolve))
    && Elems(pages) == Union(cats, PagerFn(fetch, resolve))
    && Union(cats, SubsFn(fetch, resolve)) <= catSet + Elems(queue)
  }

  /**
   * One turn of the crawl loop: the next queued category is visited unless
   * it was visited before. Either the crawl state still holds and the queue
   * or the unvisited part of the site got smaller, or the limit was reached.
   */
  method CrawlStep(startUrl: string, max: nat, fetch: Fetch, resolve: (string, string) -> string,
                   ghost site: set<string>, queue: seq<string>, cats: seq<string>, catSet: set<string>,
                   pages: seq<string>, pageSet: set<string>, yielded: seq<string>, ySet: set<string>)
    returns (queue': seq<string>, cats': seq<string>, catSet': set<string>, pages': seq<string>,
             pageSet': set<string>, yielded': seq<string>, ySet': set<string>, stop: bool)
    requires forall u, s :: fetch(u).Some? && s in CrawlSubs(fetch(u).value, u, resolve) ==> s in site
    requires queue != []
    requires Crawling(startUrl, max, fetch, resolve, site, queue, cats, catSet, pages, pageSet, yielded, ySet)
    ensures !stop ==> Crawling(startUrl, max, fetch, resolve, site, queue', cats', catSet', pages', pageSet', yielded', ySet')
    ensures !stop ==> |site - catSet'| < |site - catSet| || (catSet' == catSet && |queue'| < |queue|)
    ensures stop ==>
      && NoDups(yielded') && NoDups(cats') && NoDups(pages')
      && max > 0 && |yielded'| == max
      && startUrl in cats'
      && (forall c :: c in cats' ==> c == startUrl || SubOk(c))
      && Elems(yielded') <= Union(cats', LinksFn(fetch, resolve)) + Union(pages', LinksFn(fetch, resolve))
      && Elems(pages') <= Union(cats', PagerFn(fetch, resolve))
  {
    var cat := queue[0];
    assert cat in queue;
    ElemsTail(queue);
    queue' := queue[1..];
    if cat in catSet {
      cats', catSet', pages', pageSet', yielded', ySet', stop := cats, catSet, pages, pageSet, yielded, ySet, false;
      return;
    }
    ElemsSnoc(cats, cat);
    NoDupsSnoc(cats, cat);
    SmallerSet(site - (catSet + {cat}), site - catSet);
    catSet' := catSet + {cat};
    cats' := cats + [cat];
    queue', pages', pageSet', yielded', ySet', stop :=
      VisitCategory(cat, queue', catSet', cats, pages, pageSet, yielded, ySet, max, fetch, resolve, startUrl, site);
  }

  /**
   * `crawlCategoryStream(startUrl)`: a breadth-first walk of the category
   * pages from `startUrl`. `yielded` is the stream of product URLs in the
   * order they are yielded, `cats` the categories and `pages` the
   * pagination pages in the order they are visited. `site` is a set of
   * pages that holds the start and every subcategory a fetched page offers;
   * it only bounds the walk.
   *
   * Every category, page and product URL appears at most once; at most
   * `MAX_PRODUCTS` (when positive) URLs are yielded; every category is the
   * start or a subcategory under `START_URL`; every yielded URL is a product
   * link of a visited page and every page a pagination link of a visited
   * category. Unless the limit stopped the walk, it is complete: every
   * product link of every visited page is yielded, every pagination link of
   * a visited category is visited, and so is every subcategory offered.
   */
  method CrawlCategoryStream(startUrl: string, max: nat, fetch: Fetch, resolve: (string, string) -> string,
                             ghost site: set<string>)
    returns (yielded: seq<string>, cats: seq<string>, pages: seq<string>)
    requires startUrl in site
    requires forall u, s :: fetch(u).Some? && s in CrawlSubs(fetch(u).value, u, resolve) ==> s in site
    ensures NoDups(yielded) && NoDups(cats) && NoDups(pages)
    ensures max > 0 ==> |yielded| <= max
    ensures startUrl in cats
    ensures forall c :: c in cats ==> c == startUrl || SubOk(c)
    ensures Elems(yielded) <= Union(cats, LinksFn(fetch, resolve)) + Union(pages, LinksFn(fetch, resolve))
    ensures Elems(pages) <= Union(cats, PagerFn(fetch, resolve))
    ensures (max == 0 || |yielded| < max) ==>
      Elems(yielded) == Union(cats, LinksFn(fetch, resolve)) + Union(pages, LinksFn(fetch, resolve))
      && Elems(pages) == Union(cats, PagerFn(fetch, resolve))
      && Union(cats, SubsFn(fetch, resolve)) <= Elems(cats)
  {
    var queue := [startUrl];
    var catSet: set<string> := {};
    var pageSet: set<string> := {};
    var ySet: set<string> := {};
    yielded, cats, pages := [], [], [];
    while queue != []
      invariant Crawling(startUrl, max, fetch, resolve, site, queue, cats, catSet, pages, pageSet, yielded, ySet)
      decreases |site - catSet|, |queue|
    {
      var stop;
      queue, cats, catSet, pages, pageSet, yielded, ySet, stop :=
        CrawlStep(startUrl, max, fetch, resolve, site, queue, cats, catSet, pages, pageSet, yielded, ySet);
      if stop {
        return;
      }
    }
  }
}
