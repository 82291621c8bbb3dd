/**
 * scripts/import_from_list.mjs: import the complex-bar.kz product pages
 * named one per line in a text file. Each page is parsed as the category
 * scraper parses one (`cleanText`, `absoluteUrl`, `parsePriceToNumber`, the
 * title and price choices come from `ComplexBar`), with its own gallery,
 * specification and description rules; a product whose single image
 * download fails is skipped, and every other one is appended to
 * `data/products.json` on its own unless its slug is already there.
 */
module ImportList {
  import opened Wrappers
  import opened Text
  import opened Dedup
  import opened SpecMap
  import opened ComplexBar
  import opened ProductStore
  import opened Scrape

  // ---------------------------------------------------------------------------
  // the URL list

  /** One piece of `text.split(/\r?\n/)`: a line without its final carriage return. */
  function DropCR(line: string): (r: string)
    ensures r == line || line == r + ['\r']
  {
    if line != [] && line[|line| - 1] == '\r' then line[..|line| - 1] else line
  }

  /** `text.split(/\r?\n/)`. */
  function Lines(text: string): (r: seq<string>)
    ensures forall k :: 0 <= k < |r| ==> '\n' !in r[k]
  {
    var parts := Split(text, '\n');
    seq(|parts|, k requires 0 <= k < |parts| => DropCR(parts[k]))
  }

  function TrimAll(lines: seq<string>): (r: seq<string>)
    ensures |r| == |lines| && forall k :: 0 <= k < |lines| ==> r[k] == Trim(lines[k])
  {
    seq(|lines|, k requires 0 <= k < |lines| => Trim(lines[k]))
  }

  /** `text.split(/\r?\n/).map(s => s.trim()).filter(Boolean)`. */
  function ListUrls(text: string): seq<string> {
    NonEmpty(TrimAll(Lines(text)))
  }

  /** The trimmed text of a string is a slice of it. */
  lemma TrimSlice(s: string) returns (a: nat, b: nat)
    ensures a <= b <= |s| && Trim(s) == s[a..b]
  {
    a := LeadingWs(s);
    b := a + |Trim(s)|;
    assert Trim(s) == s[a..][..|s[a..]| - TrailingWs(s[a..])];
  }

  /** A trimmed line that is not empty is free of white space at both ends and of line breaks. */
  lemma TrimmedLine(line: string)
    requires '\n' !in line && Trim(line) != []
    ensures var u := Trim(line); !IsWs(u[0]) && !IsWs(u[|u| - 1]) && '\n' !in u
  {
    TrimShape(line);
    var u := Trim(line);
    var a, b := TrimSlice(line);
  }

  /**
   * Every listed URL is a non-empty line of the file with the surrounding
   * white space removed: it neither starts nor ends with white space and
   * holds no line break; every line that is not blank is listed; an empty
   * file lists nothing.
   */
  lemma ListUrlsSpec(text: string)
    ensures var urls := ListUrls(text);
      (forall u :: u in urls ==>
         u != [] && !IsWs(u[0]) && !IsWs(u[|u| - 1]) && '\n' !in u
         && exists line :: line in Lines(text) && u == Trim(line))
      && (forall line :: line in Lines(text) && Trim(line) != [] ==> Trim(line) in urls)
      && (text == [] ==> urls == [])
  {
    ListUrlsSound(text);
    ListUrlsComplete(text);
    if text == [] {
      ListUrlsEmpty();
    }
  }

  lemma ListUrlsSound(text: string)
    ensures forall u :: u in ListUrls(text) ==>
      u != [] && !IsWs(u[0]) && !IsWs(u[|u| - 1]) && '\n' !in u
      && exists line :: line in Lines(text) && u == Trim(line)
  {
    var lines := Lines(text);
    var trimmed := TrimAll(lines);
    forall u | u in ListUrls(text)
      ensures u != [] && !IsWs(u[0]) && !IsWs(u[|u| - 1]) && '\n' !in u
      ensures exists line :: line in lines && u == Trim(line)
    {
      assert u in trimmed && u != [];
      var j :| 0 <= j < |trimmed| && trimmed[j] == u;
      assert lines[j] in lines;
      TrimmedLine(lines[j]);
    }
  }

  lemma ListUrlsComplete(text: string)
    ensures forall line :: line in Lines(text) && Trim(line) != [] ==> Trim(line) in ListUrls(text)
  {
    var lines := Lines(text);
    var trimmed := TrimAll(lines);
    forall line | line in lines && Trim(line) != [] ensures Trim(line) in ListUrls(text) {
      var j :| 0 <= j < |lines| && lines[j] == line;
      assert trimmed[j] == Trim(line);
      assert Trim(line) in trimmed;
    }
  }

  lemma ListUrlsEmpty()
    ensures ListUrls([]) == []
  {
    assert Split([], '\n') == [[]];
    assert Lines([]) == [[]];
    assert TrimAll([[]]) == [[]];
  }

  // ---------------------------------------------------------------------------
  // extractGalleryImages

  /** The attributes of one `img` the list importer reads; a missing one is `''`. */
  datatype Img = Img(srcset: string, largeSrc: string, dataSrc: string, src: string)

  /**
   * The values `add` receives for one image, in order: every
   * `s.trim().split(' ')[0]` of the `srcset` pieces (no `filter(Boolean)`
   * here), then `data-large-src`, `data-src` and `src` separately.
   */
  function ImgCandidates(el: Img): seq<string> {
    (if el.srcset == [] then [] else FirstWords(Split(el.srcset, ',')))
    + [el.largeSrc, el.dataSrc, el.src]
  }

  /** The candidates of every image of the page, in document order. */
  function ListCandidates(imgs: seq<Img>): seq<string> {
    Flatten(seq(|imgs|, i requires 0 <= i < |imgs| => ImgCandidates(imgs[i])))
  }

  /** `extractGalleryImages($)` of the list importer. */
  function ListGallery(imgs: seq<Img>, resolve: (string, string) -> string): seq<string> {
    GalleryOf(ListCandidates(imgs), resolve)
  }

  method ExtractGalleryImages(imgs: seq<Img>, resolve: (string, string) -> string) returns (out: seq<string>)
    ensures out == ListGallery(imgs, resolve)
  {
    out := CollectGallery(ListCandidates(imgs), resolve);
  }

  /**
   * The gallery has no URL twice and none a placeholder, sprite, `.svg` or
   * logo; a URL is in it exactly when some attribute value of some image
   * (a `srcset` piece's first word, `data-large-src`, `data-src` or `src`)
   * resolves to it and passes the filter.
   */
  lemma ListGallerySpec(imgs: seq<Img>, resolve: (string, string) -> string)
    ensures var out := ListGallery(imgs, resolve);
      NoDups(out)
      && (forall u :: u in out ==> GalleryOk(u) && !EndsWith(Lower(u), ".svg"))
      && (forall u :: u in out <==> exists i, c :: (0 <= i < |imgs| && c in ImgCandidates(imgs[i])
                                                 && GalleryUrl(c, resolve) == Some(u)))
  {
    GallerySpec(ListCandidates(imgs), resolve);
    forall u ensures u in ListGallery(imgs, resolve) <==> exists i, c :: (0 <= i < |imgs| && c in ImgCandidates(imgs[i])
                                                 && GalleryUrl(c, resolve) == Some(u)) {
      if u in ListGallery(imgs, resolve) {
        ListGalleryFrom(imgs, resolve, u);
      }
      if exists i, c :: 0 <= i < |imgs| && c in ImgCandidates(imgs[i]) && GalleryUrl(c, resolve) == Some(u) {
        var i, c :| 0 <= i < |imgs| && c in ImgCandidates(imgs[i]) && GalleryUrl(c, resolve) == Some(u);
        ListGalleryTo(imgs, resolve, i, c, u);
      }
    }
  }

  lemma ListGalleryFrom(imgs: seq<Img>, resolve: (string, string) -> string, u: string)
    requires u in ListGallery(imgs, resolve)
    ensures exists i, c :: 0 <= i < |imgs| && c in ImgCandidates(imgs[i]) && GalleryUrl(c, resolve) == Some(u)
  {
    var cands := ListCandidates(imgs);
    var per := seq(|imgs|, i requires 0 <= i < |imgs| => ImgCandidates(imgs[i]));
    GallerySpec(cands, resolve);
    var k :| 0 <= k < |cands| && GalleryUrl(cands[k], resolve) == Some(u);
    FlattenMembers(per, cands[k]);
    var i :| 0 <= i < |per| && cands[k] in per[i];
    assert cands[k] in ImgCandidates(imgs[i]);
  }

  lemma ListGalleryTo(imgs: seq<Img>, resolve: (string, string) -> string, i: int, c: string, u: string)
    requires 0 <= i < |imgs| && c in ImgCandidates(imgs[i]) && GalleryUrl(c, resolve) == Some(u)
    ensures u in ListGallery(imgs, resolve)
  {
    var cands := ListCandidates(imgs);
    var per := seq(|imgs|, i requires 0 <= i < |imgs| => ImgCandidates(imgs[i]));
    GallerySpec(cands, resolve);
    FlattenMembers(per, c);
    assert c in per[i];
    var k :| 0 <= k < |cands| && cands[k] == c;
  }

  // ---------------------------------------------------------------------------
  // the page

  /** What cheerio gives of a product page to the list importer. */
  datatype ListPage = ListPage(h1: string, titleText: string, priceTexts: seq<string>,
                               descBlocks: seq<string>, paragraphs: seq<string>,
                               specBlocks: seq<SpecBlock>, imgs: seq<Img>)

  /**
   * `parseProduct(url)` once the page is fetched: the scraper's title and
   * price, the specifications of the tables and definition lists only, and
   * the description without a sentence cap.
   */
  function ParsedOf(url: string, page: ListPage, slugify: string -> string,
                    resolve: (string, string) -> string): Scraped {
    var title := TitleOf(page.h1, page.titleText);
    Scraped(url, title, slugify(title), DescriptionText(page.descBlocks, page.paragraphs),
            ParsePriceToNumber(PriceText(page.priceTexts)), SpecsFrom(BlockPairs(page.specBlocks)),
            ListGallery(page.imgs, resolve))
  }

  method ParseProduct(url: string, page: ListPage, slugify: string -> string,
                      resolve: (string, string) -> string) returns (p: Scraped)
    ensures p == ParsedOf(url, page, slugify, resolve)
  {
    var title := TitleOf(page.h1, page.titleText);
    var specs := AssignSpecs(BlockPairs(page.specBlocks));
    var images := ExtractGalleryImages(page.imgs, resolve);
    p := Scraped(url, title, slugify(title), DescriptionText(page.descBlocks, page.paragraphs),
                 ParsePriceToNumber(PriceText(page.priceTexts)), specs, images);
  }

  /**
   * The parsed product: its description is the first selector block longer
   * than 10 characters or the longest paragraph, uncapped; every
   * specification has a key shorter than 80 characters and a value, and
   * names the last value a table row or definition gives that key.
   */
  lemma ParsedSpec(url: string, page: ListPage, slugify: string -> string,
                   resolve: (string, string) -> string, k: string)
    ensures var p := ParsedOf(url, page, slugify, resolve);
      p.description == DescriptionText(page.descBlocks, page.paragraphs)
      && UniqueKeys(p.specs)
      && (forall e :: e in p.specs ==> e.key != [] && e.value != [] && |e.key| < 80)
      && Get(p.specs, k) == LastValue(FilterMap(BlockPairs(page.specBlocks), SpecPairFn()), k)
  {
    SpecsFromSpec(BlockPairs(page.specBlocks), k);
  }

  // ---------------------------------------------------------------------------
  // ensureImage and the record

  /**
   * `ensureImage(slug, imageUrls)`: one download of the first URL to
   * `main.webp` (no retries); `null` when there is no URL or the download
   * fails or throws.
   */
  function EnsureImage(slug: string, imageUrls: seq<string>, download: (string, string) -> bool): (r: Option<string>)
    ensures r.Some? <==> imageUrls != [] && imageUrls[0] != [] && download(slug, imageUrls[0])
    ensures r.Some? ==> r.value == ImagePath(slug, "main.webp")
  {
    if imageUrls == [] || imageUrls[0] == [] then None
    else if download(slug, imageUrls[0]) then Some(ImagePath(slug, "main.webp"))
    else None
  }

  /** What the importer sees of the outside world. */
  datatype ListEnv = ListEnv(
    page: string -> Option<ListPage>,     // the parsed page, `None` when `fetchText` throws
    slugify: string -> string,            // `normSlug`
    resolve: (string, string) -> string,  // `new URL(url, base)`
    download: (string, string) -> bool,   // whether `downloadToWebp(url, main.webp of slug)` succeeds
    rename: (nat, nat) -> bool)           // whether the rename of the n-th `saveProducts` succeeds (k is 0)

  /** The importer saves with a single rename. */
  function ListDisk(env: ListEnv): Disk {
    Disk(env.rename, 1)
  }

  /** The record stored for one URL, `None` when the page cannot be fetched or no image was saved. */
  function RecordOf(url: string, env: ListEnv): Option<Item> {
    match env.page(url)
    case None => None
    case Some(page) =>
      var p := ParsedOf(url, page, env.slugify, env.resolve);
      var img := EnsureImage(p.slug, p.imageUrls, env.download);
      if img.None? then None
      else Some(Item(p.slug, p.title, p.description, p.price, p.specs, [img.value], url))
  }

  /**
   * A record exists exactly when the page was fetched and its first gallery
   * URL was saved; it has that one image, `sourceUrl` equal to the listed
   * URL, and the parsed title, slug, description, price and specifications.
   */
  lemma RecordSpec(url: string, env: ListEnv)
    ensures var r := RecordOf(url, env);
      (r.Some? <==> (env.page(url).Some?
        && var p := ParsedOf(url, env.page(url).value, env.slugify, env.resolve);
           p.imageUrls != [] && p.imageUrls[0] != [] && env.download(p.slug, p.imageUrls[0])))
      && (r.Some? ==>
        var p := ParsedOf(url, env.page(url).value, env.slugify, env.resolve);
        r.value.images == [ImagePath(p.slug, "main.webp")] && r.value.sourceUrl == url
        && r.value.slug == p.slug && r.value.title == p.title && r.value.description == p.description
        && r.value.price == p.price && r.value.specs == p.specs)
  {
  }

  method ProcessUrl(url: string, env: ListEnv) returns (r: Option<Item>)
    ensures r == RecordOf(url, env)
  {
    var page := env.page(url);
    if page.None? {
      return None;
    }
    var p := ParseProduct(url, page.value, env.slugify, env.resolve);
    var img := EnsureImage(p.slug, p.imageUrls, env.download);
    if img.None? {
      return None;
    }
    r := Some(Item(p.slug, p.title, p.description, p.price, p.specs, [img.value], url));
  }

  function RecordFn(env: ListEnv): (f: string -> Option<Item>)
    ensures forall u :: f(u) == RecordOf(u, env)
  {
    u => RecordOf(u, env)
  }

  /** The records of the listed URLs that were fetched and got an image, in list order. */
  function Records(urls: seq<string>, env: ListEnv): seq<Item> {
    FilterMap(urls, RecordFn(env))
  }

  lemma RecordsSnoc(urls: seq<string>, i: nat, env: ListEnv)
    requires i < |urls|
    ensures Records(urls[..i + 1], env)
      == Records(urls[..i], env) + (if RecordOf(urls[i], env).Some? then [RecordOf(urls[i], env).value] else [])
  {
    assert urls[..i + 1][..i] == urls[..i];
  }

  // ---------------------------------------------------------------------------
  // main

  /**
   * `main()` once the file is read (`''` when it does not exist): every
   * listed URL is processed; the records are appended one at a time, a save
   * that throws being caught by the loop; `added` is the number appended by
   * the saves that succeeded. An empty list processes nothing and leaves the
   * store as it was.
   */
  method ImportFromList(text: string, env: ListEnv, store: Store, readable: bool)
    returns (processed: nat, added: nat)
    modifies store
    ensures processed == |ListUrls(text)|
    ensures var s := AppendEach(EverySlug, ListDisk(env), old(store.items), readable, Records(ListUrls(text), env));
      store.items == s.items && added == s.added
  {
    var urls := ListUrls(text);
    if |urls| == 0 {
      return 0, 0;
    }
    processed, added := ImportEach(urls, env, store, readable);
  }

  /**
   * One pass of the loop: process the URL and append its record, if any. A
   * throwing `saveProducts` skips `added += inc` and leaves the file as it
   * was.
   */
  method ImportOne(url: string, env: ListEnv, store: Store, s: Saved)
    returns (rec: Option<Item>, s': Saved)
    requires store.items == s.items
    modifies store
    ensures rec == RecordOf(url, env)
    ensures store.items == s'.items
    ensures s' == if rec.Some? then AppendOne(EverySlug, ListDisk(env), s, rec.value) else s
  {
    rec := ProcessUrl(url, env);
    s' := s;
    if rec.Some? {
      var inc, ok := store.Append([rec.value], s.readable, env.rename(s.saves, 0));
      SavesList(env, s.saves);
      AppendStep(EverySlug, ListDisk(env), s, rec.value, store.items, inc, ok);
      if inc > 0 {
        if ok {
          s' := Saved(store.items, true, s.added + inc, s.saves + 1, s.failed);
        } else {
          s' := Saved(store.items, s.readable, s.added, s.saves + 1, s.failed + 1);
        }
      }
    }
  }

  /** The n-th save of the importer succeeds exactly when its single rename does. */
  lemma SavesList(env: ListEnv, n: nat)
    ensures Saves(ListDisk(env), n) <==> env.rename(n, 0)
  {
    if env.rename(n, 0) {
      assert ListDisk(env).rename(n, 0);
    }
  }

  /** The loop over the listed URLs: one `append([product])` per stored record. */
  method ImportEach(urls: seq<string>, env: ListEnv, store: Store, readable: bool)
    returns (processed: nat, added: nat)
    modifies store
    ensures processed == |urls|
    ensures var s := AppendEach(EverySlug, ListDisk(env), old(store.items), readable, Records(urls, env));
      store.items == s.items && added == s.added
  {
    processed := 0;
    var st := Saved(store.items, readable, 0, 0, 0);
    var kept: seq<Item> := [];
    ghost var items0 := store.items;
    for i := 0 to |urls|
      invariant processed == i
      invariant kept == Records(urls[..i], env)
      invariant store.items == st.items
      invariant st == AppendEach(EverySlug, ListDisk(env), items0, readable, kept)
    {
      processed := processed + 1;
      var r;
      r, st := ImportOne(urls[i], env, store, st);
      RecordsSnoc(urls, i, env);
      if r.Some? {
        AppendEachSnoc(EverySlug, ListDisk(env), items0, readable, kept, r.value);
        kept := kept + [r.value];
      }
    }
    assert urls[..|urls|] == urls;
    added := st.added;
  }
}
