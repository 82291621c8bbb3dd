/**
 * `main()` of scripts/scrape_complex_bar.mjs: the streamed product URLs are
 * parsed, their image is reused or downloaded, the product is checked and
 * the valid ones are appended to `data/products.json`, one at a time with
 * `--append-only`, otherwise in one batch at the end. The products are
 * processed one after the other in the order the crawl yields them.
 */
module ScrapeRun {
  import opened Wrappers
  import opened Text
  import opened Dedup
  import opened SpecMap
  import opened ImagePick
  import opened ProductStore
  import opened Retry
  import opened Scrape

  /** What the run sees of the outside world. */
  datatype Env = Env(
    listing: Fetch,                          // the anchors of a listing page, `None` when the fetch throws
    page: string -> Option<ProductPage>,     // a product page, `None` when `fetchText` throws
    slugify: string -> string,               // `normSlug`
    resolve: (string, string) -> string,     // `new URL(href, base)`
    listDir: string -> Option<seq<string>>,  // the files of `public/products/<slug>`, `None` when it cannot be read
    attempt: (string, string, nat) -> bool,  // whether download attempt k of (slug, url) writes `main.webp`
    rename: (nat, nat) -> bool)              // whether rename attempt k of the n-th `saveProductsAtomic` succeeds

  /** The scraper saves with up to 20 renames. */
  function ScrapeDisk(env: Env): Disk {
    Disk(env.rename, 20)
  }

  /** `--no-download`, `--append-only`, `--max=` and `--subcategory=`. */
  datatype Flags = Flags(noDownload: bool, appendOnly: bool, max: nat, subcategory: string)

  /** `SUBCATEGORY_URL || START_URL`. */
  function StartFrom(subcategory: string): (r: string)
    ensures r == (if subcategory == [] then StartUrl else subcategory)
    ensures r != []
  {
    if subcategory == [] then StartUrl else subcategory
  }

  /** Whether one of the attempts `0..n` succeeds. */
  function AnyUpTo(ok: nat -> bool, n: nat): (r: bool)
    ensures r <==> exists k :: 0 <= k <= n && ok(k)
  {
    if ok(n) then true else if n == 0 then false else AnyUpTo(ok, n - 1)
  }

  // ---------------------------------------------------------------------------
  // ensureExistingImages / ensureImages

  /**
   * `ensureExistingImages(slug)`: the `.webp` files of the product directory;
   * none, or a directory that cannot be read, gives `null`; otherwise the one
   * picked by `main.webp`, then `altN.webp`, then the first.
   */
  function ExistingImages(slug: string, listDir: string -> Option<seq<string>>): Option<seq<string>> {
    match listDir(slug)
    case None => None
    case Some(entries) =>
      var names := Webps(entries);
      if names == [] then None else Some([ImagePath(slug, Pick(names))])
  }

  /**
   * The reused image exists exactly when the directory holds a `.webp` file;
   * it is then one file of that directory, a `.webp`, of the best rank and
   * the first of its rank.
   */
  lemma ExistingImagesSpec(slug: string, listDir: string -> Option<seq<string>>)
    ensures ExistingImages(slug, listDir).Some?
      <==> listDir(slug).Some? && exists n :: n in listDir(slug).value && IsWebp(n)
    ensures ExistingImages(slug, listDir).Some? ==>
      var names := Webps(listDir(slug).value);
      exists n :: (ExistingImages(slug, listDir).value == [ImagePath(slug, n)]
        && n in listDir(slug).value && IsWebp(n)
        && (forall m :: m in names ==> Rank(n) <= Rank(m))
        && exists i :: FirstOfRank(names, i, n))
  {
    if listDir(slug).Some? {
      var names := Webps(listDir(slug).value);
      if names != [] {
        PickSpec(names);
        var n := Pick(names);
        assert ExistingImages(slug, listDir).value == [ImagePath(slug, n)];
      }
    }
  }

  /**
   * What the run keeps as the local image: with `--no-download` the reused
   * one; otherwise `ensureImages(slug, urls)`, which downloads the first URL
   * to `main.webp` with `downloadWithRetries(url, out, 3)`.
   */
  function LocalImages(noDownload: bool, slug: string, urls: seq<string>,
                       env: Env): Option<seq<string>> {
    if noDownload then ExistingImages(slug, env.listDir)
    else if urls == [] then None
    else if AnyUpTo((k: nat) => env.attempt(slug, urls[0], k), 3) then Some([ImagePath(slug, "main.webp")])
    else None
  }

  /** Without `--no-download`, the kept image is `main.webp`, present exactly when one of the four attempts on the first URL succeeds. */
  lemma LocalImagesDownload(slug: string, urls: seq<string>, env: Env)
    ensures var r := LocalImages(false, slug, urls, env);
      (r.Some? <==> urls != [] && exists k :: 0 <= k <= 3 && env.attempt(slug, urls[0], k))
      && (r.Some? ==> r.value == [ImagePath(slug, "main.webp")])
  {
    if urls != [] {
      var ok := (k: nat) => env.attempt(slug, urls[0], k);
      assert AnyUpTo(ok, 3) <==> exists k :: 0 <= k <= 3 && ok(k);
      assert forall k :: ok(k) == env.attempt(slug, urls[0], k);
    }
  }

  /** The image step of `schedule(url)`, calling the retry loop. */
  method EnsureLocalImages(noDownload: bool, slug: string, urls: seq<string>, env: Env)
    returns (local: Option<seq<string>>)
    ensures local == LocalImages(noDownload, slug, urls, env)
  {
    if noDownload {
      local := ExistingImages(slug, env.listDir);
    } else if urls != [] {
      var ok := (k: nat) => env.attempt(slug, urls[0], k);
      var success, _ := DownloadWithRetries(3, ok);
      local := if success then Some([ImagePath(slug, "main.webp")]) else None;
    } else {
      local := None;
    }
  }

  // ---------------------------------------------------------------------------
  // validation

  /** `hasTitle`, `hasDesc`, `hasSpecs2` and `hasImages`. */
  datatype Checks = Checks(title: bool, description: bool, specs: bool, images: bool)

  function ChecksOf(prod: Scraped, local: Option<seq<string>>): Checks {
    Checks(prod.title != [], |prod.description| > 10, |NonBlankEntries(prod.specs)| >= 2,
           local.Some? && local.value != [])
  }

  /** The product record built for a valid product, or the reasons it was skipped. */
  datatype Verdict = Keep(item: Item) | Skip(reasons: seq<string>)

  function Reasons(c: Checks): seq<string> {
    (if c.title then [] else ["no-title"])
    + (if c.description then [] else ["no-description"])
    + (if c.specs then [] else ["specs<2"])
    + (if c.images then [] else ["no-images"])
  }

  function Validate(prod: Scraped, local: Option<seq<string>>): Verdict {
    var c := ChecksOf(prod, local);
    if c.title && c.description && c.specs && c.images then
      Keep(Item(prod.slug, prod.title, prod.description, prod.price,
                NonBlankEntries(prod.specs), local.value[..1], prod.url))
    else Skip(Reasons(c))
  }

  /**
   * A product is kept exactly when it has a title, a description of more
   * than 10 characters, at least two non-blank specs and a local image; the
   * record then has exactly one image, the first local one, and only the
   * non-blank specs. A skipped product names each failed check, in the order
   * title, description, specs, images, and no other.
   */
  lemma ValidateSpec(prod: Scraped, local: Option<seq<string>>)
    ensures var v := Validate(prod, local);
      (v.Keep? <==> (prod.title != [] && |prod.description| > 10
         && |NonBlankEntries(prod.specs)| >= 2 && local.Some? && local.value != []))
      && (v.Keep? ==>
           v.item.slug == prod.slug && v.item.title == prod.title
           && v.item.description == prod.description && v.item.price == prod.price
           && v.item.sourceUrl == prod.url
           && |v.item.images| == 1 && v.item.images[0] == local.value[0]
           && |v.item.specs| >= 2
           && (forall e :: e in v.item.specs ==> e in prod.specs && e.key != [] && e.value != []))
      && (v.Skip? ==>
           v.reasons != [] && NoDups(v.reasons)
           && ("no-title" in v.reasons <==> prod.title == [])
           && ("no-description" in v.reasons <==> |prod.description| <= 10)
           && ("specs<2" in v.reasons <==> |NonBlankEntries(prod.specs)| < 2)
           && ("no-images" in v.reasons <==> local.None? || local.value == []))
  {
    var v := Validate(prod, local);
    var c := ChecksOf(prod, local);
    if v.Keep? {
      forall e | e in v.item.specs ensures e in prod.specs && e.key != [] && e.value != [] {
        var i :| 0 <= i < |v.item.specs| && v.item.specs[i] == e;
      }
    } else {
      var r := Reasons(c);
      forall i, j | 0 <= i < j < |r| ensures r[i] != r[j] {
        ReasonsDistinct(c, i, j);
      }
    }
  }

  lemma ReasonsDistinct(c: Checks, i: nat, j: nat)
    requires i < j < |Reasons(c)|
    ensures Reasons(c)[i] != Reasons(c)[j]
  {
    var a := if c.title then [] else ["no-title"];
    var b := if c.description then [] else ["no-description"];
    var d := if c.specs then [] else ["specs<2"];
    var e := if c.images then [] else ["no-images"];
    assert Reasons(c) == a + b + d + e;
    // Each part holds at most its own label, and the labels differ.
    assert |a| <= 1 && |b| <= 1 && |d| <= 1 && |e| <= 1;
    assert forall k :: 0 <= k < |a| ==> a[k] == "no-title";
    assert forall k :: 0 <= k < |b| ==> b[k] == "no-description";
    assert forall k :: 0 <= k < |d| ==> d[k] == "specs<2";
    assert forall k :: 0 <= k < |e| ==> e[k] == "no-images";
  }

  // ---------------------------------------------------------------------------
  // one product

  /** What `schedule(url)` does with one URL: an error when the page fetch throws, else the checks and the verdict. */
  datatype Outcome = Errored | Checked(checks: Checks, verdict: Verdict)

  function OutcomeOf(url: string, env: Env, noDownload: bool): Outcome {
    match env.page(url)
    case None => Errored
    case Some(page) =>
      var prod := ScrapedOf(url, page, env.slugify, env.resolve);
      var local := LocalImages(noDownload, prod.slug, NonEmpty(prod.imageUrls), env);
      Checked(ChecksOf(prod, local), Validate(prod, local))
  }

  method ProcessProduct(url: string, env: Env, noDownload: bool) returns (o: Outcome)
    ensures o == OutcomeOf(url, env, noDownload)
  {
    var page := env.page(url);
    if page.None? {
      return Errored;
    }
    var prod := ParseProduct(url, page.value, env.slugify, env.resolve);
    var local := EnsureLocalImages(noDownload, prod.slug, NonEmpty(prod.imageUrls), env);
    o := Checked(ChecksOf(prod, local), Validate(prod, local));
  }

  function Outcomes(urls: seq<string>, env: Env, noDownload: bool): (r: seq<Outcome>)
    ensures |r| == |urls|
    ensures forall i :: 0 <= i < |urls| ==> r[i] == OutcomeOf(urls[i], env, noDownload)
  {
    if urls == [] then []
    else Outcomes(urls[..|urls| - 1], env, noDownload) + [OutcomeOf(urls[|urls| - 1], env, noDownload)]
  }

  // ---------------------------------------------------------------------------
  // the summary

  /** The counters of the final summary, except `appended`. */
  datatype Summary = Summary(discovered: nat, processed: nat, okDescriptions: nat, okImages: nat,
                             okSpecs: nat, errors: nat)

  function Count(o: Outcome): Summary {
    match o
    case Errored => Summary(1, 1, 0, 0, 0, 1)
    case Checked(c, _) =>
      Summary(1, 1, if c.description then 1 else 0, if c.images then 1 else 0, if c.specs then 1 else 0, 0)
  }

  function Add(a: Summary, b: Summary): Summary {
    Summary(a.discovered + b.discovered, a.processed + b.processed, a.okDescriptions + b.okDescriptions,
            a.okImages + b.okImages, a.okSpecs + b.okSpecs, a.errors + b.errors)
  }

  function Tally(outs: seq<Outcome>): Summary {
    if outs == [] then Summary(0, 0, 0, 0, 0, 0)
    else Add(Tally(outs[..|outs| - 1]), Count(outs[|outs| - 1]))
  }

  /** The records of the kept products, in the order they were processed. */
  function KeptOf(outs: seq<Outcome>): seq<Item> {
    if outs == [] then []
    else
      var o := outs[|outs| - 1];
      KeptOf(outs[..|outs| - 1]) + (if o.Checked? && o.verdict.Keep? then [o.verdict.item] else [])
  }

  /**
   * Every streamed URL is discovered and processed once; each counter of
   * passed checks and the error count are at most the processed count, an
   * errored product passes no check, and every kept product passed every
   * check, so there are no more kept products than any counter.
   */
  lemma {:induction false} TallyBounds(outs: seq<Outcome>)
    requires forall i :: 0 <= i < |outs| ==> outs[i].Checked? ==>
      (outs[i].verdict.Keep? <==> outs[i].checks == Checks(true, true, true, true))
    ensures var t := Tally(outs); var k := |KeptOf(outs)|;
      t.discovered == |outs| && t.processed == |outs|
      && t.okDescriptions + t.errors <= t.processed
      && t.okImages + t.errors <= t.processed
      && t.okSpecs + t.errors <= t.processed
      && k <= t.okDescriptions && k <= t.okImages && k <= t.okSpecs
  {
    if outs != [] {
      TallyBounds(outs[..|outs| - 1]);
    }
  }

  /** The outcomes of the run satisfy the premise of `TallyBounds`. */
  lemma OutcomesConsistent(urls: seq<string>, env: Env, noDownload: bool)
    ensures var outs := Outcomes(urls, env, noDownload);
      forall i :: 0 <= i < |outs| ==> outs[i].Checked? ==>
        (outs[i].verdict.Keep? <==> outs[i].checks == Checks(true, true, true, true))
  {
  }

  lemma OutcomesSnoc(urls: seq<string>, i: nat, env: Env, noDownload: bool)
    requires i < |urls|
    ensures Outcomes(urls[..i + 1], env, noDownload) == Outcomes(urls[..i], env, noDownload) + [OutcomeOf(urls[i], env, noDownload)]
  {
    assert urls[..i + 1][..i] == urls[..i];
  }

  lemma KeptSnoc(outs: seq<Outcome>, o: Outcome)
    ensures KeptOf(outs + [o]) == KeptOf(outs) + (if o.Checked? && o.verdict.Keep? then [o.verdict.item] else [])
    ensures Tally(outs + [o]) == Add(Tally(outs), Count(o))
  {
    assert (outs + [o])[..|outs|] == outs;
  }

  // ---------------------------------------------------------------------------
  // main

  /**
   * The product loop of `main()` over the stream `urls`. The store is the
   * records file, `readable` whether it parses. The summary counts the
   * outcomes of the URLs. With `--append-only` every kept product is
   * appended as it is checked, and a save that throws counts as one more
   * error; otherwise the kept products are appended in one batch at the end
   * when there is any, and a save that throws ends the run (`fatal`) before
   * the summary is written.
   */
  method Run(urls: seq<string>, env: Env, flags: Flags, store: Store, readable: bool)
    returns (sum: Summary, appended: nat, fatal: bool)
    modifies store
    ensures var outs := Outcomes(urls, env, flags.noDownload);
      var t := Tally(outs);
      if flags.appendOnly then
        var s := AppendEach(TruthyOnly, ScrapeDisk(env), old(store.items), readable, KeptOf(outs));
        store.items == s.items && appended == s.added && sum == WithErrors(t, s.failed) && !fatal
      else
        var s := AppendBatch(TruthyOnly, ScrapeDisk(env), old(store.items), readable, KeptOf(outs));
        store.items == s.items && appended == s.added && sum == t && (fatal <==> s.failed > 0)
  {
    var st := Saved(store.items, readable, 0, 0, 0);
    var kept: seq<Item> := [];
    sum := Summary(0, 0, 0, 0, 0, 0);
    appended, fatal := 0, false;
    ghost var items0 := store.items;
    for i := 0 to |urls|
      invariant Running(Outcomes(urls[..i], env, flags.noDownload), env, flags.appendOnly, items0, readable,
                        store.items, st, kept, sum, appended)
    {
      ghost var outs := Outcomes(urls[..i], env, flags.noDownload);
      var o;
      o, st, kept, sum, appended := ProcessAndAppend(urls[i], env, flags, store, st, kept, sum, appended, outs, items0, readable);
      OutcomesSnoc(urls, i, env, flags.noDownload);
    }
    assert urls[..|urls|] == urls;
    if !flags.appendOnly && |kept| > 0 {
      var added, ok := store.AppendProductsUnlocked(kept, readable, Renames(env, 0));
      SavesScrape(env, 0, Renames(env, 0));
      if ok {
        appended := added;
      } else {
        fatal := true;
      }
    }
  }

  /**
   * The state of the product loop after the outcomes `outs`: the kept
   * records, and with `--append-only` the file, the count and the summary
   * after one append per kept record, each failed save adding an error;
   * otherwise the file is untouched.
   */
  ghost predicate Running(outs: seq<Outcome>, env: Env, appendOnly: bool, items0: seq<Item>, readable: bool,
                          items: seq<Item>, st: Saved, kept: seq<Item>, sum: Summary, appended: nat)
  {
    kept == KeptOf(outs) && appended == st.added
    && (appendOnly ==>
          st == AppendEach(TruthyOnly, ScrapeDisk(env), items0, readable, kept)
          && items == st.items && sum == WithErrors(Tally(outs), st.failed))
    && (!appendOnly ==> items == items0 && st.added == 0 && sum == Tally(outs))
  }

  /** One pass of the product loop: `schedule(url)` with its append under `--append-only`. */
  method ProcessAndAppend(url: string, env: Env, flags: Flags, store: Store, st: Saved, kept: seq<Item>,
                          sum: Summary, appended: nat, ghost outs: seq<Outcome>, ghost items0: seq<Item>, readable: bool)
    returns (o: Outcome, st': Saved, kept': seq<Item>, sum': Summary, appended': nat)
    requires Running(outs, env, flags.appendOnly, items0, readable, store.items, st, kept, sum, appended)
    modifies store
    ensures o == OutcomeOf(url, env, flags.noDownload)
    ensures Running(outs + [o], env, flags.appendOnly, items0, readable, store.items, st', kept', sum', appended')
  {
    o := ProcessProduct(url, env, flags.noDownload);
    KeptSnoc(outs, o);
    st', kept', appended' := st, kept, appended;
    sum' := Add(sum, Count(o));
    var threw := false;
    if o.Checked? && o.verdict.Keep? {
      var item := o.verdict.item;
      if flags.appendOnly {
        AppendEachSnoc(TruthyOnly, ScrapeDisk(env), items0, readable, kept, item);
        var added;
        st', added, threw := AppendOnly(item, env, store, st);
        appended' := appended + added;
        if threw {
          sum' := sum'.(errors := sum'.errors + 1);
        }
      }
      kept' := kept + [item];
    }
    ErrorsStep(Tally(outs), Count(o), st.failed, threw);
  }

  /** The rename attempts of the n-th save. */
  function Renames(env: Env, n: nat): (r: nat -> bool)
    ensures forall k :: r(k) == env.rename(n, k)
  {
    (k: nat) => env.rename(n, k)
  }

  /** Whether the n-th save of the scraper succeeds is whether one of its 20 renames does. */
  lemma SavesScrape(env: Env, n: nat, r: nat -> bool)
    requires forall k :: r(k) == env.rename(n, k)
    ensures Saves(ScrapeDisk(env), n) <==> exists k :: 0 <= k < 20 && r(k)
  {
    if exists k :: 0 <= k < 20 && r(k) {
      var k :| 0 <= k < 20 && r(k);
      assert ScrapeDisk(env).rename(n, k);
    }
    if Saves(ScrapeDisk(env), n) {
      var k :| 0 <= k < 20 && ScrapeDisk(env).rename(n, k);
      assert r(k);
    }
  }

  /**
   * `appendProducts([productObj])` of an `--append-only` run: the file takes
   * one `AppendOne` step; `added` is what `appended` grows by, and `threw`
   * tells whether the save threw, which `schedule` catches as an error.
   */
  method AppendOnly(item: Item, env: Env, store: Store, st: Saved) returns (st': Saved, added: nat, threw: bool)
    requires store.items == st.items
    modifies store
    ensures st' == AppendOne(TruthyOnly, ScrapeDisk(env), st, item) && store.items == st'.items
    ensures st'.added == st.added + added && st'.failed == st.failed + (if threw then 1 else 0)
  {
    var inc, ok := store.AppendProductsUnlocked([item], st.readable, Renames(env, st.saves));
    SavesScrape(env, st.saves, Renames(env, st.saves));
    AppendStep(TruthyOnly, ScrapeDisk(env), st, item, store.items, inc, ok);
    threw := !ok;
    added := if ok then inc else 0;
    if inc == 0 {
      st' := st;
    } else if ok {
      st' := Saved(store.items, true, st.added + inc, st.saves + 1, st.failed);
    } else {
      st' := Saved(store.items, st.readable, st.added, st.saves + 1, st.failed + 1);
    }
  }

  /** The summary with `f` more errors. */
  function WithErrors(t: Summary, f: nat): Summary {
    t.(errors := t.errors + f)
  }

  lemma ErrorsStep(t: Summary, c: Summary, f: nat, threw: bool)
    ensures var s := Add(WithErrors(t, f), c);
      WithErrors(Add(t, c), f + (if threw then 1 else 0)) == if threw then s.(errors := s.errors + 1) else s
  {
  }

  /**
   * `main()`: crawl from `SUBCATEGORY_URL || START_URL` and process the
   * yielded stream. `site` bounds the crawl as in `CrawlCategoryStream`.
   */
  method ScrapeCatalog(env: Env, flags: Flags, store: Store, readable: bool, ghost site: set<string>)
    returns (urls: seq<string>, sum: Summary, appended: nat, fatal: bool)
    requires StartFrom(flags.subcategory) in site
    requires forall u, s :: env.listing(u).Some? && s in CrawlSubs(env.listing(u).value, u, env.resolve) ==> s in site
    modifies store
    ensures NoDups(urls) && (flags.max > 0 ==> |urls| <= flags.max)
    ensures var outs := Outcomes(urls, env, flags.noDownload);
      var t := Tally(outs);
      if flags.appendOnly then
        var s := AppendEach(TruthyOnly, ScrapeDisk(env), old(store.items), readable, KeptOf(outs));
        store.items == s.items && appended == s.added && sum == WithErrors(t, s.failed) && !fatal
      else
        var s := AppendBatch(TruthyOnly, ScrapeDisk(env), old(store.items), readable, KeptOf(outs));
        store.items == s.items && appended == s.added && sum == t && (fatal <==> s.failed > 0)
  {
    var cats, pages;
    urls, cats, pages := CrawlCategoryStream(StartFrom(flags.subcategory), flags.max, env.listing, env.resolve, site);
    sum, appended, fatal := Run(urls, env, flags, store, readable);
  }
}
