/**
 * The crawl of the catalog importer (`crawlForProducts` in
 * prisma/import/import2.mjs). Fetching and querying HTML are parameters:
 * `page(url)` is what `processPage` reads from the fetched page (`None`
 * when `fetchText` throws), `parse(url)` is what `parseProductPage(url)`
 * returns (`None` when it throws) and `pathnameOf(u)` is the pathname of
 * `new URL(u)` (`None` when it throws). The pages of one batch, which the
 * importer runs concurrently, are processed one after the other.
 */
module Crawl {
  import opened Wrappers
  import opened Text
  import opened Dedup
  import ImportUrls

  /** The fields of `parseProductPage`'s result that the crawl reads; a `price` of `None` stands for `NaN`. */
  datatype ParsedPage = ParsedPage(name: string, description: string, price: Option<nat>)

  /** A listing tile's candidate `{ url, name, price, imageUrl }`. */
  datatype TileInfo = TileInfo(url: string, name: string, price: nat, imageUrl: string)

  /** A value of the `products` Map. */
  datatype Candidate = FromTile(tile: TileInfo) | FromPage(page: ParsedPage)

  /**
   * An `a[href] img` tile whose link resolved to `href`: the
   * `alt || title || heading` text, the price text and the image `src`.
   */
  datatype TileLink = TileLink(href: string, caption: string, priceText: string, src: string)

  /** What `processPage` reads from a fetched page; `anchors` are the resolved `a[href]` links in document order. */
  datatype CrawlPage = CrawlPage(signals: ImportUrls.PageSignals, tiles: seq<TileLink>, anchors: seq<string>)

  // ---------------------------------------------------------------------------
  // The `products` Map

  /** A JavaScript `Map`: its keys in insertion order and its values. */
  datatype Products = Products(keys: seq<string>, table: map<string, Candidate>)

  ghost predicate WellFormed(m: Products) {
    NoDups(m.keys) && forall k :: k in m.keys <==> k in m.table
  }

  /** Tiles are stored under their own URL. */
  predicate TileKeyed(m: Products) {
    forall k :: k in m.table && m.table[k].FromTile? ==> m.table[k].tile.url == k
  }

  /** The positions of `m` survive in `r` with their values. */
  predicate Extends(m: Products, r: Products) {
    m.keys <= r.keys && forall k :: k in m.table ==> k in r.table && r.table[k] == m.table[k]
  }

  /** `map.set(k, v)`: a new key goes last, an existing one keeps its place. */
  function SetEntry(m: Products, k: string, v: Candidate): Products {
    Products(if k in m.table then m.keys else m.keys + [k], m.table[k := v])
  }

  lemma SetEntryFacts(m: Products, k: string, v: Candidate)
    requires WellFormed(m)
    ensures var r := SetEntry(m, k, v);
      WellFormed(r) && m.keys <= r.keys && r.table == m.table[k := v]
      && |r.keys| == |m.keys| + (if k in m.table then 0 else 1)
  {
    if k !in m.table {
      assert k !in m.keys;
      NoDupsSnoc(m.keys, k);
    }
  }

  lemma SetNewEntry(m: Products, k: string, v: Candidate)
    requires WellFormed(m) && k !in m.table
    ensures Extends(m, SetEntry(m, k, v)) && WellFormed(SetEntry(m, k, v))
  {
    SetEntryFacts(m, k, v);
  }

  // ---------------------------------------------------------------------------
  // Listing tiles

  predicate OnProductPath(p: string) { StartsWith(p, "/product/") }

  /** The candidate a tile gives: its link is a product page or in scope, and it has a name. */
  function TileCandidate(t: TileLink, pathnameOf: string -> Option<string>, urlPrefix: string): (r: Option<TileInfo>)
    ensures r.Some? ==> r.value.url == t.href && r.value.name == Trim(t.caption) && r.value.name != []
    ensures r.Some? <==> (pathnameOf(t.href).Some? && Trim(t.caption) != []
      && (OnProductPath(pathnameOf(t.href).value) || StartsWith(pathnameOf(t.href).value, urlPrefix)))
  {
    match pathnameOf(t.href)
    case None => None
    case Some(p) =>
      var name := Trim(t.caption);
      if !(OnProductPath(p) || StartsWith(p, urlPrefix)) || name == [] then None
      else Some(TileInfo(t.href, name, NumberOfDigitsIn(t.priceText), t.src))
  }

  /** The `candidates` array. */
  function TileCandidates(tiles: seq<TileLink>, pathnameOf: string -> Option<string>, urlPrefix: string): (r: seq<TileInfo>)
    ensures |r| <= |tiles|
  {
    if tiles == [] then []
    else
      var last := TileCandidate(tiles[|tiles| - 1], pathnameOf, urlPrefix);
      TileCandidates(tiles[..|tiles| - 1], pathnameOf, urlPrefix) + (if last.Some? then [last.value] else [])
  }

  /** The first candidate with URL `k`. */
  function FirstWithUrl(cands: seq<TileInfo>, k: string): (r: Option<TileInfo>)
    ensures r.Some? ==> r.value.url == k && r.value in cands
  {
    if cands == [] then None
    else if cands[0].url == k then Some(cands[0])
    else FirstWithUrl(cands[1..], k)
  }

  /** `if (!products.has(c.url)) products.set(c.url, c)` for every candidate, in order. */
  function AddTiles(m: Products, cands: seq<TileInfo>): Products
    decreases |cands|
  {
    if cands == [] then m
    else
      var c := cands[0];
      AddTiles(if c.url in m.table then m else SetEntry(m, c.url, FromTile(c)), cands[1..])
  }

  /** `FirstWithUrl` finds the candidate at the smallest position with that URL. */
  lemma {:induction false} FirstWithUrlSpec(cands: seq<TileInfo>, k: string)
    ensures FirstWithUrl(cands, k).Some? <==> exists i :: 0 <= i < |cands| && cands[i].url == k
    ensures FirstWithUrl(cands, k).Some? ==>
      exists i :: 0 <= i < |cands| && cands[i] == FirstWithUrl(cands, k).value
        && forall j :: 0 <= j < i ==> cands[j].url != k
  {
    if cands != [] {
      FirstWithUrlSpec(cands[1..], k);
      if cands[0].url != k {
        if exists i :: 0 <= i < |cands| && cands[i].url == k {
          var i :| 0 <= i < |cands| && cands[i].url == k;
          assert cands[1..][i - 1].url == k;
        }
        if FirstWithUrl(cands, k).Some? {
          var c := FirstWithUrl(cands, k).value;
          var i :| 0 <= i < |cands[1..]| && cands[1..][i] == c && forall j :: 0 <= j < i ==> cands[1..][j].url != k;
          assert cands[i + 1] == c;
          forall j | 0 <= j < i + 1 ensures cands[j].url != k {
            if j > 0 { assert cands[j] == cands[1..][j - 1]; }
          }
        }
      }
    }
  }

  /** Tiles never replace an entry; a new URL gets its first candidate. */
  lemma {:induction false} AddTilesSpec(m: Products, cands: seq<TileInfo>)
    requires WellFormed(m)
    ensures var r := AddTiles(m, cands);
      WellFormed(r) && Extends(m, r)
      && (forall k :: k !in m.table ==> (k in r.table <==> FirstWithUrl(cands, k).Some?))
      && (forall k :: k !in m.table && k in r.table ==> r.table[k] == FromTile(FirstWithUrl(cands, k).value))
    decreases |cands|
  {
    if cands != [] {
      var c := cands[0];
      var m1 := if c.url in m.table then m else SetEntry(m, c.url, FromTile(c));
      if c.url !in m.table {
        SetNewEntry(m, c.url, FromTile(c));
      }
      AddTilesSpec(m1, cands[1..]);
    }
  }

  lemma AddTilesKeyed(m: Products, cands: seq<TileInfo>)
    requires WellFormed(m) && TileKeyed(m)
    ensures TileKeyed(AddTiles(m, cands))
  {
    AddTilesSpec(m, cands);
  }

  // ---------------------------------------------------------------------------
  // Anchors

  /** The pathname of a link the anchor loop keeps looking at: not `mailto:`, `tel:` or with a `#`, at most 8 segments deep. */
  function AnchorPath(abs: string, pathnameOf: string -> Option<string>): (r: Option<string>)
    ensures r.Some? ==> r == pathnameOf(abs) && |PathSegments(r.value)| <= 8 && '#' !in abs
  {
    match pathnameOf(abs)
    case None => None
    case Some(p) =>
      if StartsWith(abs, "mailto:") || StartsWith(abs, "tel:") || '#' in abs || |PathSegments(p)| > 8 then None
      else Some(p)
  }

  /** An in-scope category link: traversed. */
  predicate Traversed(abs: string, pathnameOf: string -> Option<string>, urlPrefix: string) {
    var ap := AnchorPath(abs, pathnameOf);
    ap.Some? && StartsWith(ap.value, urlPrefix)
  }

  /** A link `anchors.add` receives: in scope or a product page. */
  predicate Collected(abs: string, pathnameOf: string -> Option<string>, urlPrefix: string) {
    var ap := AnchorPath(abs, pathnameOf);
    ap.Some? && (StartsWith(ap.value, urlPrefix) || OnProductPath(ap.value))
  }

  function CollectFilter(pathnameOf: string -> Option<string>, urlPrefix: string): (keep: string -> bool)
    ensures forall a :: keep(a) == Collected(a, pathnameOf, urlPrefix)
  {
    a => Collected(a, pathnameOf, urlPrefix)
  }

  /** `if (!visited.has(abs)) queue.push(abs)` for a traversed link. */
  function QueueFilter(pathnameOf: string -> Option<string>, urlPrefix: string, visited: set<string>): (keep: string -> bool)
    ensures forall a :: keep(a) == (Traversed(a, pathnameOf, urlPrefix) && a !in visited)
  {
    a => Traversed(a, pathnameOf, urlPrefix) && a !in visited
  }

  /** `new URL(u).pathname.startsWith('/product/')`, false when it throws. */
  function ProductFilter(pathnameOf: string -> Option<string>): (keep: string -> bool)
    ensures forall u :: keep(u) == (pathnameOf(u).Some? && OnProductPath(pathnameOf(u).value))
  {
    u => pathnameOf(u).Some? && OnProductPath(pathnameOf(u).value)
  }

  /** `Array.from(anchors).filter(..).slice(0, 20)`. */
  function Sample(found: seq<string>, pathnameOf: string -> Option<string>): seq<string> {
    var prods := Kept(found, ProductFilter(pathnameOf));
    if |prods| <= 20 then prods else prods[..20]
  }

  /** At most 20 links are sampled, all product pages from the anchor set, none twice. */
  lemma SampleSpec(found: seq<string>, pathnameOf: string -> Option<string>)
    requires NoDups(found)
    ensures var s := Sample(found, pathnameOf);
      |s| <= 20 && NoDups(s)
      && forall u :: u in s ==> u in found && pathnameOf(u).Some? && OnProductPath(pathnameOf(u).value)
  {
    var keep := ProductFilter(pathnameOf);
    var prods := Kept(found, keep);
    KeptMembers(found, keep);
    KeptNoDups(found, keep);
    var s := Sample(found, pathnameOf);
    forall u | u in s ensures u in prods {
      var i :| 0 <= i < |s| && s[i] == u;
      assert prods[i] == u;
    }
  }

  lemma {:induction false} KeptNoDups<T(!new)>(s: seq<T>, keep: T -> bool)
    requires NoDups(s)
    ensures NoDups(Kept(s, keep))
  {
    if s != [] {
      var init := s[..|s| - 1];
      assert NoDups(init);
      KeptNoDups(init, keep);
      KeptMembers(init, keep);
      assert s == init + [s[|s| - 1]];
      if keep(s[|s| - 1]) {
        NoDupsSnoc(Kept(init, keep), s[|s| - 1]);
      }
    }
  }

  // ---------------------------------------------------------------------------
  // Sampled product pages

  /** The sampled page is accepted: a name longer than 3 and a positive price or a description longer than 20. */
  predicate Accepted(p: ParsedPage) {
    |p.name| > 3 && ((p.price.Some? && p.price.value > 0) || |p.description| > 20)
  }

  predicate SampleHit(m: Products, href: string, parse: string -> Option<ParsedPage>) {
    href !in m.table && parse(href).Some? && Accepted(parse(href).value)
  }

  /** The sampled links, in order: an unknown link whose page is accepted is stored. */
  function AddSampled(m: Products, sample: seq<string>, parse: string -> Option<ParsedPage>): Products
    decreases |sample|
  {
    if sample == [] then m
    else
      var href := sample[0];
      AddSampled(if SampleHit(m, href, parse) then SetEntry(m, href, FromPage(parse(href).value)) else m, sample[1..], parse)
  }

  /** Sampling never replaces an entry and stores exactly the accepted unknown links. */
  lemma {:induction false} AddSampledSpec(m: Products, sample: seq<string>, parse: string -> Option<ParsedPage>)
    requires WellFormed(m)
    ensures var r := AddSampled(m, sample, parse);
      WellFormed(r) && Extends(m, r)
      && (forall k :: k !in m.table ==> (k in r.table <==> k in sample && parse(k).Some? && Accepted(parse(k).value)))
      && (forall k :: k !in m.table && k in r.table ==> r.table[k] == FromPage(parse(k).value))
    decreases |sample|
  {
    if sample != [] {
      var href := sample[0];
      var m1 := if SampleHit(m, href, parse) then SetEntry(m, href, FromPage(parse(href).value)) else m;
      if SampleHit(m, href, parse) {
        SetNewEntry(m, href, FromPage(parse(href).value));
      }
      AddSampledSpec(m1, sample[1..], parse);
      assert sample == [href] + sample[1..];
    }
  }

  lemma AddSampledKeyed(m: Products, sample: seq<string>, parse: string -> Option<ParsedPage>)
    requires WellFormed(m) && TileKeyed(m)
    ensures TileKeyed(AddSampled(m, sample, parse))
  {
    AddSampledSpec(m, sample, parse);
  }

  // ---------------------------------------------------------------------------
  // One page

  /** The page looks like a product and parses with a name: it is stored under its own URL and nothing else happens. */
  predicate DirectHit(url: string, pg: CrawlPage, parse: string -> Option<ParsedPage>) {
    ImportUrls.LooksLikeProduct(pg.signals) && parse(url).Some? && parse(url).value.name != []
  }

  /** The `anchors` Set read back as a list. */
  function Found(pg: CrawlPage, pathnameOf: string -> Option<string>, urlPrefix: string): seq<string> {
    Distinct(Kept(pg.anchors, CollectFilter(pathnameOf, urlPrefix)))
  }

  /** The `products` Map after `processPage(url)`. */
  function PageProducts(m: Products, url: string, fetched: Option<CrawlPage>, parse: string -> Option<ParsedPage>,
                        pathnameOf: string -> Option<string>, urlPrefix: string): Products
  {
    match fetched
    case None => m
    case Some(pg) =>
      if DirectHit(url, pg, parse) then SetEntry(m, url, FromPage(parse(url).value))
      else AddSampled(AddTiles(m, TileCandidates(pg.tiles, pathnameOf, urlPrefix)), Sample(Found(pg, pathnameOf, urlPrefix), pathnameOf), parse)
  }

  /** What `processPage(url)` pushes to `queue`. */
  function PageQueue(visited: set<string>, url: string, fetched: Option<CrawlPage>, parse: string -> Option<ParsedPage>,
                     pathnameOf: string -> Option<string>, urlPrefix: string): seq<string>
  {
    match fetched
    case None => []
    case Some(pg) => if DirectHit(url, pg, parse) then [] else Kept(pg.anchors, QueueFilter(pathnameOf, urlPrefix, visited))
  }

  /**
   * `processPage` keeps every entry but the page's own, which only a
   * direct product hit overwrites; a new entry is the page itself, a tile's
   * first candidate, or an accepted sampled product link.
   */
  lemma PageProductsSpec(m: Products, url: string, fetched: Option<CrawlPage>, parse: string -> Option<ParsedPage>,
                         pathnameOf: string -> Option<string>, urlPrefix: string, k: string)
    requires WellFormed(m) && fetched.Some?
    ensures var r := PageProducts(m, url, fetched, parse, pathnameOf, urlPrefix);
      var pg := fetched.value;
      var cands := TileCandidates(pg.tiles, pathnameOf, urlPrefix);
      WellFormed(r) && m.keys <= r.keys
      && (k in m.table && k != url ==> k in r.table && r.table[k] == m.table[k])
      && (DirectHit(url, pg, parse) ==> r.table == m.table[url := FromPage(parse(url).value)])
      && (!DirectHit(url, pg, parse) && k !in m.table && k in r.table ==>
            (FirstWithUrl(cands, k).Some? && r.table[k] == FromTile(FirstWithUrl(cands, k).value))
            || (k in Sample(Found(pg, pathnameOf, urlPrefix), pathnameOf) && parse(k).Some?
                && r.table[k] == FromPage(parse(k).value) && Accepted(parse(k).value)))
      && (!DirectHit(url, pg, parse) ==> Extends(m, r))
  {
    var pg := fetched.value;
    if DirectHit(url, pg, parse) {
      SetEntryFacts(m, url, FromPage(parse(url).value));
    } else {
      var cands := TileCandidates(pg.tiles, pathnameOf, urlPrefix);
      var m1 := AddTiles(m, cands);
      AddTilesSpec(m, cands);
      AddSampledSpec(m1, Sample(Found(pg, pathnameOf, urlPrefix), pathnameOf), parse);
    }
  }

  /** A link is queued iff it is on the page, traversed and not yet visited. */
  lemma PageQueueMembers(visited: set<string>, url: string, fetched: Option<CrawlPage>, parse: string -> Option<ParsedPage>,
                         pathnameOf: string -> Option<string>, urlPrefix: string, x: string)
    ensures x in PageQueue(visited, url, fetched, parse, pathnameOf, urlPrefix) <==>
      fetched.Some? && !DirectHit(url, fetched.value, parse) && x in fetched.value.anchors
      && Traversed(x, pathnameOf, urlPrefix) && x !in visited
  {
    if fetched.Some? {
      KeptMembers(fetched.value.anchors, QueueFilter(pathnameOf, urlPrefix, visited));
    }
  }

  lemma PageProductsKeyed(m: Products, url: string, fetched: Option<CrawlPage>, parse: string -> Option<ParsedPage>,
                          pathnameOf: string -> Option<string>, urlPrefix: string)
    requires WellFormed(m) && TileKeyed(m)
    ensures TileKeyed(PageProducts(m, url, fetched, parse, pathnameOf, urlPrefix))
    ensures WellFormed(PageProducts(m, url, fetched, parse, pathnameOf, urlPrefix))
  {
    if fetched.Some? {
      var pg := fetched.value;
      if DirectHit(url, pg, parse) {
        SetEntryFacts(m, url, FromPage(parse(url).value));
      } else {
        var cands := TileCandidates(pg.tiles, pathnameOf, urlPrefix);
        var sample := Sample(Found(pg, pathnameOf, urlPrefix), pathnameOf);
        var m1 := AddTiles(m, cands);
        AddTilesSpec(m, cands);
        AddTilesKeyed(m, cands);
        AddSampledSpec(m1, sample, parse);
        AddSampledKeyed(m1, sample, parse);
        assert PageProducts(m, url, fetched, parse, pathnameOf, urlPrefix) == AddSampled(m1, sample, parse);
      }
    }
  }

  // ---------------------------------------------------------------------------
  // The crawler's state

  /** `u` is worth a visit: `if (next && !visited.has(next))`. */
  function Unvisited(visited: set<string>): (keep: string -> bool)
    ensures forall u :: keep(u) == (u != [] && u !in visited)
  {
    u => u != [] && u !in visited
  }

  class Crawler {
    var visited: set<string>
    var queue: seq<string>
    var products: Products
    /** The URLs taken into a batch, in order. */
    ghost var processed: seq<string>

    ghost predicate Valid()
      reads this
    {
      WellFormed(products) && TileKeyed(products) && NoDups(processed) && visited == SetOf(processed)
    }

    /** `visited = new Set()`, `queue = [startUrl]`, `products = new Map()`. */
    constructor(startUrl: string)
      ensures Valid()
      ensures visited == {} && queue == [startUrl] && products == Products([], map[]) && processed == []
    {
      visited := {};
      queue := [startUrl];
      products := Products([], map[]);
      processed := [];
    }

    /**
     * The inner `while`: shifts the queue until the batch holds `size`
     * URLs or the queue is empty, marking each new non-empty URL visited.
     */
    method TakeBatch(size: int) returns (batch: seq<string>, ghost taken: nat)
      requires Valid()
      modifies this
      ensures Valid() && products == old(products)
      ensures taken <= |old(queue)| && queue == old(queue)[taken..]
      ensures batch == Distinct(Kept(old(queue)[..taken], Unvisited(old(visited))))
      ensures processed == old(processed) + batch
      ensures |batch| <= size || batch == []
      ensures queue != [] ==> |batch| >= size
    {
      ghost var q0 := queue;
      ghost var p0 := processed;
      ghost var keep := Unvisited(visited);
      var q := queue;
      var seen := visited;
      ghost var proc := processed;
      batch := [];
      taken := 0;
      while |batch| < size && q != []
        invariant taken <= |q0| && q == q0[taken..]
        invariant batch == Distinct(Kept(q0[..taken], keep))
        invariant proc == p0 + batch
        invariant NoDups(proc) && seen == SetOf(proc)
        invariant |batch| <= size || batch == []
        invariant products == old(products)
        decreases |q|
      {
        var next := q[0];
        assert q0[taken] == next;
        q := q[1..];
        BatchAdvance(p0, batch, q0, taken);
        if next != [] && next !in seen {
          SetOfMembers(proc, next);
          NoDupsSnoc(proc, next);
          SetOfSnoc(proc, next);
          AppendAssoc(p0, batch, next);
          seen := seen + {next};
          proc := proc + [next];
          batch := batch + [next];
        }
        taken := taken + 1;
      }
      queue := q;
      visited := seen;
      processed := proc;
    }

    /** One more queue entry looked at: the batch grows exactly as the distinct unvisited entries taken so far do. */
    static lemma BatchAdvance(p0: seq<string>, batch: seq<string>, q0: seq<string>, taken: nat)
      requires taken < |q0|
      requires batch == Distinct(Kept(q0[..taken], Unvisited(SetOf(p0))))
      ensures var next := q0[taken];
        (if next != [] && next !in SetOf(p0 + batch) then batch + [next] else batch)
          == Distinct(Kept(q0[..taken + 1], Unvisited(SetOf(p0))))
    {
      var keep := Unvisited(SetOf(p0));
      var next := q0[taken];
      TakeSnoc(q0, taken);
      AddOneCollects(q0[..taken], next, q0[..taken + 1], keep);
      BatchStep(p0, batch, next);
      DistinctMembers(Kept(q0[..taken], keep));
    }

    /** The visited test in the loop is the `Unvisited` test against the visited set before the batch, plus the batch so far. */
    static lemma BatchStep(p0: seq<string>, batch: seq<string>, next: string)
      ensures (next != [] && next !in SetOf(p0 + batch)) == (Unvisited(SetOf(p0))(next) && next !in batch)
    {
      SetOfMembers(p0 + batch, next);
      SetOfMembers(p0, next);
    }

    /** The tile loop: `if (!products.has(c.url)) products.set(c.url, c)`. */
    method InsertTiles(cands: seq<TileInfo>)
      requires Valid()
      modifies this
      ensures Valid() && products == AddTiles(old(products), cands)
      ensures visited == old(visited) && queue == old(queue) && processed == old(processed)
    {
      for j := 0 to |cands|
        invariant AddTiles(products, cands[j..]) == AddTiles(old(products), cands)
        invariant Valid() && visited == old(visited) && queue == old(queue) && processed == old(processed)
      {
        var c := cands[j];
        assert cands[j..][1..] == cands[j + 1..];
        if c.url !in products.table {
          SetEntryFacts(products, c.url, FromTile(c));
          products := SetEntry(products, c.url, FromTile(c));
        }
      }
    }

    /** The anchor loop: collects the in-scope and product links and queues the unvisited in-scope ones. */
    method ScanAnchors(anchors: seq<string>, pathnameOf: string -> Option<string>, urlPrefix: string)
      returns (found: seq<string>)
      requires Valid()
      modifies this
      ensures Valid() && products == old(products) && visited == old(visited) && processed == old(processed)
      ensures queue == old(queue) + Kept(anchors, QueueFilter(pathnameOf, urlPrefix, visited))
      ensures found == Distinct(Kept(anchors, CollectFilter(pathnameOf, urlPrefix)))
    {
      var collect := CollectFilter(pathnameOf, urlPrefix);
      var enqueue := QueueFilter(pathnameOf, urlPrefix, visited);
      found := [];
      for j := 0 to |anchors|
        invariant AddAll(found, anchors[j..], collect) == AddAll([], anchors, collect)
        invariant queue == old(queue) + Kept(anchors[..j], enqueue)
        invariant Valid() && products == old(products) && visited == old(visited) && processed == old(processed)
      {
        var abs := anchors[j];
        assert anchors[j..][1..] == anchors[j + 1..];
        KeptSnoc(anchors[..j], abs, anchors[..j + 1], enqueue) by {
          TakeSnoc(anchors, j);
        }
        AppendAssoc(old(queue), Kept(anchors[..j], enqueue), abs);
        var ap := AnchorPath(abs, pathnameOf);
        if ap.Some? {
          var p := ap.value;
          if StartsWith(p, urlPrefix) {
            found := if abs in found then found else found + [abs];
            if abs !in visited {
              queue := queue + [abs];
            }
          }
          if OnProductPath(p) {
            found := if abs in found then found else found + [abs];
          }
        }
      }
      assert anchors[..|anchors|] == anchors;
      AddAllCollects([], anchors, collect);
      assert [] + anchors == anchors;
    }

    /** `Promise.all(sample.map(..))`, one link after the other. */
    method SampleLinks(sample: seq<string>, parse: string -> Option<ParsedPage>)
      requires Valid()
      modifies this
      ensures Valid() && products == AddSampled(old(products), sample, parse)
      ensures visited == old(visited) && queue == old(queue) && processed == old(processed)
    {
      for j := 0 to |sample|
        invariant AddSampled(products, sample[j..], parse) == AddSampled(old(products), sample, parse)
        invariant Valid() && visited == old(visited) && queue == old(queue) && processed == old(processed)
      {
        var href := sample[j];
        assert sample[j..][1..] == sample[j + 1..];
        if href !in products.table {
          var parsed := parse(href);
          if parsed.Some? && Accepted(parsed.value) {
            SetEntryFacts(products, href, FromPage(parsed.value));
            products := SetEntry(products, href, FromPage(parsed.value));
          }
        }
      }
    }

    /** `processPage(url)`; `fetched` is `None` when `fetchText(url)` throws. */
    method ProcessPage(url: string, fetched: Option<CrawlPage>, parse: string -> Option<ParsedPage>,
                       pathnameOf: string -> Option<string>, urlPrefix: string)
      requires Valid()
      modifies this
      ensures Valid() && visited == old(visited) && processed == old(processed)
      ensures products == PageProducts(old(products), url, fetched, parse, pathnameOf, urlPrefix)
      ensures queue == old(queue) + PageQueue(old(visited), url, fetched, parse, pathnameOf, urlPrefix)
    {
      if fetched.None? {
        assert old(queue) + [] == old(queue);
        return;
      }
      var pg := fetched.value;
      if ImportUrls.LooksLikeProduct(pg.signals) {
        var parsed := parse(url);
        if parsed.Some? && parsed.value.name != [] {
          SetEntryFacts(products, url, FromPage(parsed.value));
          products := SetEntry(products, url, FromPage(parsed.value));
          assert old(queue) + [] == old(queue);
          return;
        }
      }
      var cands := CollectTiles(pg.tiles, pathnameOf, urlPrefix);
      InsertTiles(cands);
      var found := ScanAnchors(pg.anchors, pathnameOf, urlPrefix);
      var sample := Sample(found, pathnameOf);
      SampleLinks(sample, parse);
    }
  }

  /** The `$('a[href] img').each(..)` loop pushing to `candidates`. */
  method CollectTiles(tiles: seq<TileLink>, pathnameOf: string -> Option<string>, urlPrefix: string)
    returns (cands: seq<TileInfo>)
    ensures cands == TileCandidates(tiles, pathnameOf, urlPrefix)
  {
    cands := [];
    for j := 0 to |tiles|
      invariant cands == TileCandidates(tiles[..j], pathnameOf, urlPrefix)
    {
      TakeSnoc(tiles, j);
      assert tiles[..j + 1][..j] == tiles[..j];
      var c := TileCandidate(tiles[j], pathnameOf, urlPrefix);
      if c.Some? {
        cands := cands + [c.value];
      }
    }
    assert tiles[..|tiles|] == tiles;
  }

  // ---------------------------------------------------------------------------
  // The crawl

  /** The record built from one entry of `products`. */
  datatype CrawlRecord = CrawlRecord(
    name: string, description: string, price: Option<nat>, imageUrl: Option<string>,
    brand: string, material: string, color: string, slug: string, supplierUrl: string,
    categorySlug: string, subcategorySlug: Option<string>, priceRaw: string)

  /** `String(price)`. */
  function PriceString(p: Option<nat>): string {
    match p
    case Some(n) => NatToString(n)
    case None => "NaN"
  }

  /** `c.url || u`: a parsed page has no `url` field. */
  function SourceUrl(u: string, c: Candidate): string {
    match c
    case FromTile(t) => if t.url != [] then t.url else u
    case FromPage(_) => u
  }

  function RecordOf(u: string, c: Candidate, slugify: string -> string, pathnameOf: string -> Option<string>, urlPrefix: string): CrawlRecord {
    var url := SourceUrl(u, c);
    var info := ImportUrls.CategoryInfoOf(pathnameOf(url), urlPrefix);
    var name := match c case FromTile(t) => t.name case FromPage(pp) => pp.name;
    var price := match c case FromTile(t) => Some(t.price) case FromPage(pp) => pp.price;
    var image := match c case FromTile(t) => Some(t.imageUrl) case FromPage(_) => None;
    CrawlRecord(name, "", price, image, "", "", "", slugify(name), url, info.categorySlug, info.subcategorySlug, PriceString(price))
  }

  /** `Array.from(products.entries()).map(..)`. */
  function Records(m: Products, slugify: string -> string, pathnameOf: string -> Option<string>, urlPrefix: string): (r: seq<CrawlRecord>)
    requires WellFormed(m)
    ensures |r| == |m.keys|
  {
    seq(|m.keys|, i requires 0 <= i < |m.keys| => RecordOf(m.keys[i], m.table[m.keys[i]], slugify, pathnameOf, urlPrefix))
  }

  /** Every record names the URL it is stored under, so no supplier URL is listed twice. */
  lemma RecordsUrls(m: Products, slugify: string -> string, pathnameOf: string -> Option<string>, urlPrefix: string)
    requires WellFormed(m) && TileKeyed(m)
    ensures var r := Records(m, slugify, pathnameOf, urlPrefix);
      (forall i :: 0 <= i < |r| ==> r[i].supplierUrl == m.keys[i] && r[i].description == [])
      && forall i, j :: 0 <= i < j < |r| ==> r[i].supplierUrl != r[j].supplierUrl
  {
  }

  function Max0(n: int): nat { if n < 0 then 0 else n }

  /**
   * `crawlForProducts(startUrl)`: batches of at most `concurrency` new
   * URLs, until the queue runs dry, a batch comes out empty, more than 2000
   * URLs are visited, more than 5000 products are found, or a dry run has
   * found `dryRunLimit` of them.
   */
  method CrawlForProducts(startUrl: string, concurrency: int, dryRun: bool, dryRunLimit: int,
                          page: string -> Option<CrawlPage>, parse: string -> Option<ParsedPage>,
                          pathnameOf: string -> Option<string>, urlPrefix: string, slugify: string -> string)
    returns (c: Crawler, out: seq<CrawlRecord>)
    ensures fresh(c) && c.Valid()
    ensures c.queue == [] || concurrency <= 0 || |c.visited| > 2000 || |c.products.keys| > 5000
      || (dryRun && dryRunLimit > 0 && |c.products.keys| >= dryRunLimit)
    ensures |c.processed| <= 2000 + Max0(concurrency)
    ensures concurrency <= 0 ==> c.processed == []
    ensures out == Records(c.products, slugify, pathnameOf, urlPrefix)
  {
    c := new Crawler(startUrl);
    while c.queue != []
      invariant c.Valid() && |c.processed| <= 2000
      invariant concurrency <= 0 ==> c.processed == []
      decreases 2001 - |c.processed|
    {
      ghost var before := c.processed;
      var batch, taken := c.TakeBatch(concurrency);
      if batch == [] {
        break;
      }
      for k := 0 to |batch|
        invariant c.Valid() && c.processed == before + batch
      {
        c.ProcessPage(batch[k], page(batch[k]), parse, pathnameOf, urlPrefix);
      }
      SetOfSize(c.processed);
      if |c.visited| > 2000 || |c.products.keys| > 5000 {
        break;
      }
      if dryRun && dryRunLimit > 0 && |c.products.keys| >= dryRunLimit {
        break;
      }
    }
    SetOfSize(c.processed);
    out := Records(c.products, slugify, pathnameOf, urlPrefix);
  }
}
