/**
 * What the catalog importer (prisma/import/import2.mjs) does with a parsed
 * product in file mode: `downloadAndOptimizeImages` and
 * `writeProductToFile`. Whether fetching and transcoding one image succeeds
 * is a parameter `fetched(src, name)`; the file is a list of records.
 */
module ImportStore {
  import opened Wrappers
  import opened Text
  import opened Dedup
  import opened SpecMap
  import ImportPage

  // ---------------------------------------------------------------------------
  // downloadAndOptimizeImages

  /** `${destBaseName}-${outputs.length}`. */
  function ImageName(base: string, k: nat): string { base + "-" + NatToString(k) }

  /** `downloadAndOptimizeImage` returns `outputs[1]`, the 768-pixel file. */
  function PrimaryPath(name: string): string { "/imported/" + name + "-768.webp" }

  /** The `seen` set, as the sources tried in order, and the `outputs` list. */
  datatype Downloaded = Downloaded(tried: seq<string>, outputs: seq<string>)

  /** One iteration of the loop: skip an empty or seen source, else try it under the next index. */
  function DownloadStep(st: Downloaded, src: string, base: string, fetched: (string, string) -> bool): Downloaded {
    if src == [] || src in st.tried then st
    else
      var name := ImageName(base, |st.outputs|);
      Downloaded(st.tried + [src], st.outputs + (if fetched(src, name) then [PrimaryPath(name)] else []))
  }

  /** The loop from `st` over `srcs`, stopping once five outputs exist. */
  function Downloads(srcs: seq<string>, st: Downloaded, base: string, fetched: (string, string) -> bool): Downloaded
    decreases |srcs|
  {
    if srcs == [] || |st.outputs| >= 5 then st
    else Downloads(srcs[1..], DownloadStep(st, srcs[0], base, fetched), base, fetched)
  }

  /** `downloadAndOptimizeImages(srcUrls, destBaseName)`. */
  method DownloadAndOptimizeImages(srcUrls: seq<string>, base: string, fetched: (string, string) -> bool)
    returns (outputs: seq<string>)
    ensures outputs == Downloads(srcUrls, Downloaded([], []), base, fetched).outputs
  {
    var seen: seq<string> := [];
    outputs := [];
    var i := 0;
    while i < |srcUrls| && |outputs| < 5
      invariant i <= |srcUrls|
      invariant Downloads(srcUrls[i..], Downloaded(seen, outputs), base, fetched)
        == Downloads(srcUrls, Downloaded([], []), base, fetched)
    {
      var src := srcUrls[i];
      assert srcUrls[i..][1..] == srcUrls[i + 1..];
      ghost var next := DownloadStep(Downloaded(seen, outputs), src, base, fetched);
      if src != [] && src !in seen {
        var name := ImageName(base, |outputs|);
        seen := seen + [src];
        if fetched(src, name) {
          outputs := outputs + [PrimaryPath(name)];
        }
      }
      assert Downloaded(seen, outputs) == next;
      i := i + 1;
    }
  }

  /** The loop's invariant: distinct non-empty sources tried, at most five outputs, the `k`-th named with index `k`. */
  ghost predicate DownloadInv(st: Downloaded, base: string) {
    NoDups(st.tried) && (forall t :: t in st.tried ==> t != [])
    && |st.outputs| <= |st.tried| && |st.outputs| <= 5
    && forall k :: 0 <= k < |st.outputs| ==> st.outputs[k] == PrimaryPath(ImageName(base, k))
  }

  lemma {:induction false} DownloadsKeep(srcs: seq<string>, st: Downloaded, base: string, fetched: (string, string) -> bool)
    requires DownloadInv(st, base)
    ensures var r := Downloads(srcs, st, base, fetched);
      DownloadInv(r, base) && st.outputs <= r.outputs
      && forall t :: t in r.tried ==> t in st.tried || t in srcs
    decreases |srcs|
  {
    if srcs != [] && |st.outputs| < 5 {
      var next := DownloadStep(st, srcs[0], base, fetched);
      if srcs[0] != [] && srcs[0] !in st.tried {
        NoDupsSnoc(st.tried, srcs[0]);
      }
      DownloadsKeep(srcs[1..], next, base, fetched);
    }
  }

  /**
   * At most five paths; the sources tried are distinct, non-empty and from
   * the input; and the `k`-th path is the 768-pixel file of `<base>-<k>`.
   */
  lemma DownloadsSpec(srcs: seq<string>, base: string, fetched: (string, string) -> bool)
    ensures var r := Downloads(srcs, Downloaded([], []), base, fetched);
      |r.outputs| <= 5 && |r.outputs| <= |r.tried| && NoDups(r.tried)
      && (forall t :: t in r.tried ==> t != [] && t in srcs)
      && forall k :: 0 <= k < |r.outputs| ==> r.outputs[k] == PrimaryPath(ImageName(base, k))
  {
    DownloadsKeep(srcs, Downloaded([], []), base, fetched);
  }

  /** When every download succeeds, every source tried yields a path. */
  lemma {:induction false} DownloadsAllFetched(srcs: seq<string>, st: Downloaded, base: string, fetched: (string, string) -> bool)
    requires forall src, name :: fetched(src, name)
    requires |st.outputs| == |st.tried|
    ensures var r := Downloads(srcs, st, base, fetched);
      |r.outputs| == |r.tried|
    decreases |srcs|
  {
    if srcs != [] && |st.outputs| < 5 {
      DownloadsAllFetched(srcs[1..], DownloadStep(st, srcs[0], base, fetched), base, fetched);
    }
  }

  // ---------------------------------------------------------------------------
  // writeProductToFile

  /** A record of `products.json` as `writeProductToFile` writes it; `None` is `null`. */
  datatype StoredProduct = StoredProduct(
    id: string, slug: string, name: string, description: string,
    brand: Option<string>, price: Option<nat>, imageUrl: Option<string>, images: seq<string>,
    material: Option<string>, color: Option<string>, specs: Option<Specs>,
    categorySlug: Option<string>, subcategorySlug: Option<string>, createdAt: string)

  /** `s || null`. */
  function NullIfEmpty(s: string): Option<string> { if s == [] then None else Some(s) }

  /** `p.price || null`: both `0` and `NaN` are falsy. */
  function PriceOrNull(price: Option<nat>): Option<nat> {
    match price
    case None => None
    case Some(v) => if v == 0 then None else Some(v)
  }

  /** The record of lines 493-508 for `{ ...parsed, imagesLocal }`. */
  function RecordOf(p: ImportPage.ParsedProduct, imagesLocal: seq<string>, createdAt: string): StoredProduct {
    StoredProduct(
      p.slug, p.slug, p.name, p.description, NullIfEmpty(p.brand), PriceOrNull(p.price),
      if imagesLocal != [] then Some(imagesLocal[0]) else None,
      if imagesLocal != [] then imagesLocal else p.images,
      NullIfEmpty(p.material), NullIfEmpty(p.color), Some(p.specs),
      NullIfEmpty(p.categorySlug),
      match p.subcategorySlug case None => None case Some(s) => NullIfEmpty(s),
      createdAt)
  }

  predicate HasSlug(arr: seq<StoredProduct>, slug: string) {
    exists i :: 0 <= i < |arr| && arr[i].slug == slug
  }

  predicate UniqueSlugs(arr: seq<StoredProduct>) {
    forall i, j :: 0 <= i < j < |arr| ==> arr[i].slug != arr[j].slug
  }

  /** `arr.findIndex((x) => x.slug === slug)`. */
  function FindSlug(arr: seq<StoredProduct>, slug: string): (r: int)
    ensures -1 <= r < |arr|
    ensures r == -1 <==> !HasSlug(arr, slug)
    ensures r >= 0 ==> arr[r].slug == slug && forall j :: 0 <= j < r ==> arr[j].slug != slug
  {
    if arr == [] then -1
    else if arr[0].slug == slug then 0
    else
      var k := FindSlug(arr[1..], slug);
      assert forall i :: 1 <= i < |arr| ==> arr[i] == arr[1..][i - 1];
      if k == -1 then -1 else k + 1
  }

  /** `arr[idx]?.createdAt || now`. */
  function CreatedAt(arr: seq<StoredProduct>, slug: string, now: string): string {
    var idx := FindSlug(arr, slug);
    if idx >= 0 && arr[idx].createdAt != [] then arr[idx].createdAt else now
  }

  /** `if (idx >= 0) arr[idx] = rec; else arr.push(rec)`. */
  function Upserted(arr: seq<StoredProduct>, p: ImportPage.ParsedProduct, imagesLocal: seq<string>, now: string): seq<StoredProduct> {
    var idx := FindSlug(arr, p.slug);
    var rec := RecordOf(p, imagesLocal, CreatedAt(arr, p.slug, now));
    if idx >= 0 then arr[idx := rec] else arr + [rec]
  }

  class ProductsFile {
    /** The array in `products.json`. */
    var records: seq<StoredProduct>

    constructor(records: seq<StoredProduct>)
      ensures this.records == records
    {
      this.records := records;
    }

    /**
     * `writeProductToFile(p)`: read the array (`[]` when the file does not
     * parse, `readable` false), upsert the record by slug and write it back.
     */
    method WriteProduct(p: ImportPage.ParsedProduct, imagesLocal: seq<string>, now: string, readable: bool)
      modifies this
      ensures records == Upserted(if readable then old(records) else [], p, imagesLocal, now)
    {
      var arr := if readable then records else [];
      var idx := FindSlug(arr, p.slug);
      var createdAt := if idx >= 0 && arr[idx].createdAt != [] then arr[idx].createdAt else now;
      var rec := RecordOf(p, imagesLocal, createdAt);
      if idx >= 0 {
        arr := arr[idx := rec];
      } else {
        arr := arr + [rec];
      }
      records := arr;
    }
  }

  /** An existing slug is replaced in place: same length, same other records, its non-empty `createdAt` kept. */
  lemma UpsertExisting(arr: seq<StoredProduct>, p: ImportPage.ParsedProduct, imagesLocal: seq<string>, now: string)
    requires HasSlug(arr, p.slug)
    ensures var r := Upserted(arr, p, imagesLocal, now);
      var idx := FindSlug(arr, p.slug);
      |r| == |arr| && 0 <= idx
      && (forall j :: 0 <= j < |arr| && j != idx ==> r[j] == arr[j])
      && r[idx].slug == p.slug
      && r[idx].createdAt == (if arr[idx].createdAt != [] then arr[idx].createdAt else now)
  {
  }

  /** A new slug is appended at the end, stamped with `now`. */
  lemma UpsertNew(arr: seq<StoredProduct>, p: ImportPage.ParsedProduct, imagesLocal: seq<string>, now: string)
    requires !HasSlug(arr, p.slug)
    ensures Upserted(arr, p, imagesLocal, now) == arr + [RecordOf(p, imagesLocal, now)]
  {
  }

  /** Upserting keeps slugs unique and adds exactly the written slug. */
  lemma UpsertUnique(arr: seq<StoredProduct>, p: ImportPage.ParsedProduct, imagesLocal: seq<string>, now: string)
    requires UniqueSlugs(arr)
    ensures var r := Upserted(arr, p, imagesLocal, now);
      UniqueSlugs(r) && forall s :: HasSlug(r, s) <==> HasSlug(arr, s) || s == p.slug
  {
    var r := Upserted(arr, p, imagesLocal, now);
    var idx := FindSlug(arr, p.slug);
    if idx >= 0 {
      forall s ensures HasSlug(r, s) <==> HasSlug(arr, s) || s == p.slug {
        if HasSlug(arr, s) {
          var i :| 0 <= i < |arr| && arr[i].slug == s;
          assert r[i].slug == s;
        }
        if HasSlug(r, s) {
          var i :| 0 <= i < |r| && r[i].slug == s;
          assert i == idx || arr[i].slug == s;
        }
        assert r[idx].slug == p.slug;
      }
    } else {
      forall i, j | 0 <= i < j < |r| ensures r[i].slug != r[j].slug {
        if j == |arr| {
          assert r[i] == arr[i];
        }
      }
      forall s ensures HasSlug(r, s) <==> HasSlug(arr, s) || s == p.slug {
        if HasSlug(arr, s) {
          var i :| 0 <= i < |arr| && arr[i].slug == s;
          assert r[i].slug == s;
        }
        assert r[|arr|].slug == p.slug;
      }
    }
  }

  /** Writing the same product twice at a non-empty time stamp changes nothing the second time. */
  lemma UpsertTwice(arr: seq<StoredProduct>, p: ImportPage.ParsedProduct, imagesLocal: seq<string>, now: string, later: string)
    requires now != []
    ensures var once := Upserted(arr, p, imagesLocal, now);
      Upserted(once, p, imagesLocal, later) == once
  {
    var once := Upserted(arr, p, imagesLocal, now);
    var idx := FindSlug(arr, p.slug);
    if idx >= 0 {
      UpsertExisting(arr, p, imagesLocal, now);
      assert FindSlug(once, p.slug) == idx;
    } else {
      assert once[|arr|].slug == p.slug;
      assert FindSlug(once, p.slug) == |arr|;
    }
  }

  /**
   * The stored fields: a price of `0` or `NaN` becomes `null`, and the local
   * images are stored when there are any, else the remote sources with no
   * main image.
   */
  lemma RecordOfSpec(p: ImportPage.ParsedProduct, imagesLocal: seq<string>, createdAt: string)
    ensures var rec := RecordOf(p, imagesLocal, createdAt);
      rec.id == rec.slug == p.slug && rec.createdAt == createdAt
      && (rec.price.None? <==> p.price.None? || p.price == Some(0))
      && (rec.price.Some? ==> rec.price == p.price && rec.price.value > 0)
      && (imagesLocal != [] ==> rec.images == imagesLocal && rec.imageUrl == Some(imagesLocal[0]))
      && (imagesLocal == [] ==> rec.images == p.images && rec.imageUrl.None?)
      && (rec.brand.None? <==> p.brand == [])
  {
  }

  /** An unreadable file is replaced by a file holding only the new record. */
  lemma UnreadableFileReplaced(p: ImportPage.ParsedProduct, imagesLocal: seq<string>, now: string)
    ensures Upserted([], p, imagesLocal, now) == [RecordOf(p, imagesLocal, now)]
  {
  }
}
