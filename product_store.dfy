/**
 * The slug-keyed append of the complex-bar.kz scripts: `loadExistingProducts`
 * and `appendProductsUnlocked` of scripts/scrape_complex_bar.mjs, and
 * `loadExisting` and `append` of scripts/import_from_list.mjs. The file is a
 * list of records; whether it parses is a parameter `readable`.
 */
module ProductStore {
  import opened Wrappers
  import opened Dedup
  import opened SpecMap
  import opened Retry
  import opened Text

  /** One record of `data/products.json` as the scrapers write it. */
  datatype Item = Item(slug: string, title: string, description: string, price: Option<nat>,
                       specs: Specs, images: seq<string>, sourceUrl: string)

  /**
   * The public path of an image file of a product:
   * `'/' + relative(PUBLIC_DIR, join(PUBLIC_DIR, 'products', slug, name))`.
   * `path.join` drops an empty segment, so an empty slug gives
   * `/products/<name>`.
   */
  function ImagePath(slug: string, name: string): string {
    "/products" + SlugDir(slug) + "/" + name
  }

  /** The slug's own segment of the path, none for an empty slug. */
  function SlugDir(slug: string): string {
    if slug == [] then [] else "/" + slug
  }

  /**
   * For a slug and a file name without slashes, the path is rooted and its
   * segments are those of `path.join`: `products`, the slug unless it is
   * empty, and the name.
   */
  lemma ImagePathSegments(slug: string, name: string)
    requires '/' !in slug && name != [] && '/' !in name
    ensures var r := ImagePath(slug, name);
      r[0] == '/' && PathSegments(r) == NonEmpty(["products", slug, name])
  {
    var tail := SlugDir(slug) + "/" + name;
    JoinedSegments(slug, name);
    assert "/products" == "/" + "products";
    assert ImagePath(slug, name) == "/" + "products" + tail;
    SegmentsCons("products", tail);
    NonEmptyCons("products", [slug, name]);
    assert ["products", slug, name] == ["products"] + [slug, name];
  }

  /** The segments after `/products`: the slug unless it is empty, then the name. */
  lemma JoinedSegments(slug: string, name: string)
    requires '/' !in slug && name != [] && '/' !in name
    ensures var tail := SlugDir(slug) + "/" + name;
      (tail == [] || tail[0] == '/') && PathSegments(tail) == NonEmpty([slug, name])
  {
    NameSegment(name);
    NonEmptyCons(slug, [name]);
    assert [slug, name] == [slug] + [name];
    if slug != [] {
      SegmentsCons(slug, "/" + name);
      assert SlugDir(slug) + "/" + name == "/" + slug + ("/" + name);
    } else {
      assert SlugDir(slug) + "/" + name == "/" + name;
    }
  }

  lemma NameSegment(name: string)
    requires name != [] && '/' !in name
    ensures PathSegments("/" + name) == [name] == NonEmpty([name])
  {
    SegmentsCons(name, []);
    SingleSegment(name);
    assert "/" + name + [] == "/" + name;
    NonEmptyCons(name, []);
    assert [name] + [] == [name];
  }

  function Slugs(items: seq<Item>): (r: seq<string>)
    ensures |r| == |items| && forall i :: 0 <= i < |items| ==> r[i] == items[i].slug
  {
    if items == [] then [] else Slugs(items[..|items| - 1]) + [items[|items| - 1].slug]
  }

  /** The set `loadExisting` builds in the list importer: every record's slug. */
  function AllSlugs(items: seq<Item>): set<string> {
    set i | 0 <= i < |items| :: items[i].slug
  }

  /** The set `loadExistingProducts` builds in the scraper: `if (it && it.slug) set.add(it.slug)`. */
  function TruthySlugs(items: seq<Item>): set<string> {
    set i | 0 <= i < |items| && items[i].slug != [] :: items[i].slug
  }

  /**
   * The products of `ps` that the loop `if (!set.has(p.slug)) { data.push(p);
   * set.add(p.slug) }` pushes when the set starts as `seen`.
   */
  function NewOnes(seen: set<string>, ps: seq<Item>): (r: seq<Item>)
    ensures |r| <= |ps|
  {
    if ps == [] then []
    else
      var prev := NewOnes(seen, ps[..|ps| - 1]);
      var p := ps[|ps| - 1];
      if p.slug in seen || p.slug in AllSlugs(prev) then prev else prev + [p]
  }

  lemma AllSlugsSnoc(items: seq<Item>, p: Item)
    ensures AllSlugs(items + [p]) == AllSlugs(items) + {p.slug}
  {
    var s := items + [p];
    forall x | x in AllSlugs(s) ensures x in AllSlugs(items) + {p.slug} {
      var i :| 0 <= i < |s| && s[i].slug == x;
      if i < |items| { assert items[i] == s[i]; }
    }
    forall x | x in AllSlugs(items) ensures x in AllSlugs(s) {
      var i :| 0 <= i < |items| && items[i].slug == x;
      assert s[i] == items[i];
    }
    assert s[|items|] == p;
  }

  lemma AllSlugsConcat(a: seq<Item>, b: seq<Item>)
    ensures AllSlugs(a + b) == AllSlugs(a) + AllSlugs(b)
  {
    forall x | x in AllSlugs(a + b) ensures x in AllSlugs(a) + AllSlugs(b) {
      var i :| 0 <= i < |a + b| && (a + b)[i].slug == x;
      if i < |a| { assert a[i] == (a + b)[i]; } else { assert b[i - |a|] == (a + b)[i]; }
    }
    forall x | x in AllSlugs(a) ensures x in AllSlugs(a + b) {
      var i :| 0 <= i < |a| && a[i].slug == x;
      assert (a + b)[i] == a[i];
    }
    forall x | x in AllSlugs(b) ensures x in AllSlugs(a + b) {
      var i :| 0 <= i < |b| && b[i].slug == x;
      assert (a + b)[|a| + i] == b[i];
    }
  }

  lemma NewOnesSnoc(seen: set<string>, ps: seq<Item>, p: Item)
    ensures NewOnes(seen, ps + [p])
      == if p.slug in seen || p.slug in AllSlugs(NewOnes(seen, ps)) then NewOnes(seen, ps) else NewOnes(seen, ps) + [p]
  {
    assert (ps + [p])[..|ps|] == ps;
  }

  /**
   * What is pushed: products of the batch, in batch order, none whose slug
   * was in the set, no slug twice; every product left out has its slug in the
   * set or pushed before it.
   */
  lemma {:induction false} NewOnesSpec(seen: set<string>, ps: seq<Item>)
    ensures var r := NewOnes(seen, ps);
      (forall p :: p in r ==> p in ps && p.slug !in seen)
      && NoDups(Slugs(r))
      && (forall p :: p in ps ==> p.slug in seen || p.slug in AllSlugs(r))
  {
    if ps != [] {
      var init := ps[..|ps| - 1];
      var p := ps[|ps| - 1];
      var prev := NewOnes(seen, init);
      NewOnesSpec(seen, init);
      assert ps == init + [p];
      if !(p.slug in seen || p.slug in AllSlugs(prev)) {
        var r := prev + [p];
        AllSlugsSnoc(prev, p);
        assert Slugs(r) == Slugs(prev) + [p.slug];
        forall i, j | 0 <= i < j < |r| ensures Slugs(r)[i] != Slugs(r)[j] {
          if j == |prev| {
            assert Slugs(r)[i] == prev[i].slug;
            assert prev[i].slug in AllSlugs(prev);
          } else {
            assert Slugs(r)[i] == Slugs(prev)[i] && Slugs(r)[j] == Slugs(prev)[j];
          }
        }
      }
    }
  }

  /** The pushed products keep their relative order in the batch. */
  lemma {:induction false} NewOnesSubsequence(seen: set<string>, ps: seq<Item>, i: nat, j: nat)
    requires i < j < |NewOnes(seen, ps)|
    ensures exists a, b :: 0 <= a < b < |ps| && ps[a] == NewOnes(seen, ps)[i] && ps[b] == NewOnes(seen, ps)[j]
  {
    var init := ps[..|ps| - 1];
    var prev := NewOnes(seen, init);
    assert ps != [];
    if j < |prev| {
      NewOnesSubsequence(seen, init, i, j);
      var a, b :| 0 <= a < b < |init| && init[a] == prev[i] && init[b] == prev[j];
      assert ps[a] == init[a] && ps[b] == init[b];
    } else {
      NewOnesSpec(seen, init);
      assert prev[i] in prev;
      var a :| 0 <= a < |init| && init[a] == prev[i];
      assert ps[a] == init[a];
      assert ps[|ps| - 1] == NewOnes(seen, ps)[j];
    }
  }

  /**
   * Appending a batch in two parts, the second seeing what the first pushed,
   * pushes what appending it at once does.
   */
  lemma {:induction false} NewOnesConcat(seen: set<string>, a: seq<Item>, b: seq<Item>)
    ensures NewOnes(seen, a + b) == NewOnes(seen, a) + NewOnes(seen + AllSlugs(NewOnes(seen, a)), b)
  {
    var ra := NewOnes(seen, a);
    var seen' := seen + AllSlugs(ra);
    if b == [] {
      assert a + b == a;
    } else {
      var init := b[..|b| - 1];
      var p := b[|b| - 1];
      NewOnesConcat(seen, a, init);
      InitLast(b);
      SnocAssoc(a, init, p);
      NewOnesSnoc(seen, a + init, p);
      NewOnesSnoc(seen', init, p);
      var rb := NewOnes(seen', init);
      AllSlugsConcat(ra, rb);
      SnocAssoc(ra, rb, p);
    }
  }

  /** One more iteration of the push loop. */
  lemma PushStep(seed: set<string>, ps: seq<Item>, i: nat)
    requires i < |ps|
    ensures var prev := NewOnes(seed, ps[..i]);
      NewOnes(seed, ps[..i + 1]) == (if ps[i].slug in seed + AllSlugs(prev) then prev else prev + [ps[i]])
      && AllSlugs(prev + [ps[i]]) == AllSlugs(prev) + {ps[i].slug}
  {
    TakeSnoc(ps, i);
    NewOnesSnoc(seed, ps[..i], ps[i]);
    AllSlugsSnoc(NewOnes(seed, ps[..i]), ps[i]);
  }

  /** Appending to records with distinct slugs keeps the slugs distinct. */
  lemma AppendKeepsUnique(base: seq<Item>, seen: set<string>, ps: seq<Item>)
    requires NoDups(Slugs(base)) && AllSlugs(base) <= seen
    ensures NoDups(Slugs(base + NewOnes(seen, ps)))
  {
    var r := NewOnes(seen, ps);
    NewOnesSpec(seen, ps);
    var s := Slugs(base + r);
    forall i, j | 0 <= i < j < |s| ensures s[i] != s[j] {
      if j < |base| {
        assert s[i] == Slugs(base)[i] && s[j] == Slugs(base)[j];
      } else if i < |base| {
        assert s[i] == base[i].slug && base[i].slug in AllSlugs(base);
        assert s[j] == r[j - |base|].slug && r[j - |base|] in r;
      } else {
        assert s[i] == Slugs(r)[i - |base|] && s[j] == Slugs(r)[j - |base|];
      }
    }
  }

  /** Records with truthy slugs: the scraper's set and the list importer's set agree. */
  lemma TruthySlugsOfNonEmpty(items: seq<Item>)
    requires forall i :: 0 <= i < |items| ==> items[i].slug != []
    ensures TruthySlugs(items) == AllSlugs(items)
  {
  }

  /** The push loop: `for (const p of ps) if (!set.has(p.slug)) { data.push(p); set.add(p.slug); added++ }`. */
  method PushNew(data: seq<Item>, seed: set<string>, ps: seq<Item>) returns (result: seq<Item>, added: nat)
    ensures result == data + NewOnes(seed, ps) && added == |NewOnes(seed, ps)|
  {
    result := data;
    var slugSet := seed;
    added := 0;
    assert NewOnes(seed, []) == [] && AllSlugs([]) == {};
    for i := 0 to |ps|
      invariant result == data + NewOnes(seed, ps[..i])
      invariant slugSet == seed + AllSlugs(NewOnes(seed, ps[..i]))
      invariant added == |NewOnes(seed, ps[..i])|
    {
      var p := ps[i];
      PushStep(seed, ps, i);
      if p.slug !in slugSet {
        result := result + [p];
        slugSet := slugSet + {p.slug};
        added := added + 1;
      }
    }
    assert ps[..|ps|] == ps;
  }

  // ---------------------------------------------------------------------------
  // successive appends

  /**
   * Which slugs the loaded set starts with: the scraper's `if (it &&
   * it.slug)` keeps only non-empty ones, the list importer's
   * `data.map(x => x.slug)` keeps all.
   */
  datatype SeedRule = TruthyOnly | EverySlug

  function SeedOf(rule: SeedRule, items: seq<Item>): set<string> {
    match rule
    case TruthyOnly => TruthySlugs(items)
    case EverySlug => AllSlugs(items)
  }

  /**
   * What the file system answers when the records are saved: `rename(n, k)`
   * is whether rename attempt k of the n-th save of the run succeeds (the
   * write of the temporary file included), and a save gives up after
   * `attempts` renames: 20 in the scraper, 1 in the list importer.
   */
  datatype Disk = Disk(rename: (nat, nat) -> bool, attempts: nat)

  /** Whether the n-th save succeeds: one of its renames does. */
  predicate Saves(disk: Disk, n: nat) {
    exists k :: 0 <= k < disk.attempts && disk.rename(n, k)
  }

  /**
   * The records file after some appends: its records, whether it parses, how
   * many products were appended, how many saves were tried and how many of
   * them threw.
   */
  datatype Saved = Saved(items: seq<Item>, readable: bool, added: nat, saves: nat, failed: nat)

  /** The file and the count of appended products, leaving out the save counters. */
  function Content(s: Saved): (seq<Item>, bool, nat) {
    (s.items, s.readable, s.added)
  }

  /**
   * One append of the single product `p` on the file as it stands
   * (`Store.AppendProductsUnlocked` or `Store.Append`): nothing is saved when
   * nothing is pushed; a save that throws leaves the file and the count as
   * they were.
   */
  function AppendOne(rule: SeedRule, disk: Disk, s: Saved, p: Item): Saved {
    var base := if s.readable then s.items else [];
    var pushed := NewOnes(SeedOf(rule, base), [p]);
    if |pushed| == 0 then s
    else if Saves(disk, s.saves) then Saved(base + pushed, true, s.added + |pushed|, s.saves + 1, s.failed)
    else Saved(s.items, s.readable, s.added, s.saves + 1, s.failed + 1)
  }

  /** One append per product of `ps`, in order, starting from `items`. */
  function AppendEach(rule: SeedRule, disk: Disk, items: seq<Item>, readable: bool, ps: seq<Item>): Saved {
    if ps == [] then Saved(items, readable, 0, 0, 0)
    else AppendOne(rule, disk, AppendEach(rule, disk, items, readable, ps[..|ps| - 1]), ps[|ps| - 1])
  }

  /** What one append of the whole batch `ps` leaves, the save being the run's first. */
  function AppendBatch(rule: SeedRule, disk: Disk, items: seq<Item>, readable: bool, ps: seq<Item>): Saved {
    var base := if readable then items else [];
    var pushed := NewOnes(SeedOf(rule, base), ps);
    if |pushed| == 0 then Saved(items, readable, 0, 0, 0)
    else if Saves(disk, 0) then Saved(base + pushed, true, |pushed|, 1, 0)
    else Saved(items, readable, 0, 1, 1)
  }

  lemma TruthySlugsConcat(a: seq<Item>, b: seq<Item>)
    requires forall i :: 0 <= i < |b| ==> b[i].slug != []
    ensures TruthySlugs(a + b) == TruthySlugs(a) + AllSlugs(b)
  {
    var s := a + b;
    forall x | x in TruthySlugs(s) ensures x in TruthySlugs(a) + AllSlugs(b) {
      var i :| 0 <= i < |s| && s[i].slug != [] && s[i].slug == x;
      if i < |a| { assert a[i] == s[i]; } else { assert b[i - |a|] == s[i]; }
    }
    forall x | x in TruthySlugs(a) ensures x in TruthySlugs(s) {
      var i :| 0 <= i < |a| && a[i].slug != [] && a[i].slug == x;
      assert s[i] == a[i];
    }
    forall x | x in AllSlugs(b) ensures x in TruthySlugs(s) {
      var i :| 0 <= i < |b| && b[i].slug == x;
      assert s[|a| + i] == b[i];
    }
  }

  /** The products pushed from a batch with non-empty slugs have non-empty slugs. */
  lemma PushedTruthy(seen: set<string>, ps: seq<Item>, r: seq<Item>)
    requires forall i :: 0 <= i < |ps| ==> ps[i].slug != []
    requires r == NewOnes(seen, ps)
    ensures forall i :: 0 <= i < |r| ==> r[i].slug != []
  {
    NewOnesSpec(seen, ps);
    forall i | 0 <= i < |r| ensures r[i].slug != [] {
      assert r[i] in r;
      var j :| 0 <= j < |ps| && ps[j] == r[i];
    }
  }

  /** The seed of the file after a push is the old seed and the pushed slugs. */
  lemma SeedConcat(rule: SeedRule, seen: set<string>, base: seq<Item>, ps: seq<Item>)
    requires rule == EverySlug || forall i :: 0 <= i < |ps| ==> ps[i].slug != []
    ensures SeedOf(rule, base + NewOnes(seen, ps)) == SeedOf(rule, base) + AllSlugs(NewOnes(seen, ps))
  {
    var r := NewOnes(seen, ps);
    if rule == TruthyOnly {
      PushedTruthy(seen, ps, r);
      TruthySlugsConcat(base, r);
    } else {
      AllSlugsConcat(base, NewOnes(seen, ps));
    }
  }

  /**
   * When every save succeeds, one more single append after a batch append
   * leaves what the batch append of the longer batch leaves.
   */
  lemma AppendOneAfterBatch(rule: SeedRule, disk: Disk, items: seq<Item>, readable: bool, init: seq<Item>, p: Item, s: Saved)
    requires rule == EverySlug || forall i :: 0 <= i < |init| ==> init[i].slug != []
    requires forall n :: Saves(disk, n)
    requires Content(s) == Content(AppendBatch(rule, disk, items, readable, init))
    ensures Content(AppendOne(rule, disk, s, p)) == Content(AppendBatch(rule, disk, items, readable, init + [p]))
  {
    var base := if readable then items else [];
    var t := SeedOf(rule, base);
    var pi := NewOnes(t, init);
    var pp := NewOnes(t + AllSlugs(pi), [p]);
    NewOnesConcat(t, init, [p]);
    assert NewOnes(t, init + [p]) == pi + pp;
    assert Saves(disk, 0) && Saves(disk, s.saves);
    if |pi| > 0 {
      SeedConcat(rule, t, base, init);
      if |pp| > 0 {
        assert (base + pi) + pp == base + (pi + pp);
      } else {
        assert pi + pp == pi;
      }
    } else {
      assert pi == [];
      assert t + AllSlugs(pi) == t;
      assert pi + pp == pp;
    }
  }

  /**
   * When every save succeeds, appending the products one at a time leaves
   * the file as one append of the whole batch would, with the same count and
   * no failed save: the stored records followed by the first product of each
   * new slug, in batch order. For the scraper's seed this needs every
   * product to have a slug.
   */
  lemma {:induction false} AppendEachIsBatch(rule: SeedRule, disk: Disk, items: seq<Item>, readable: bool, ps: seq<Item>)
    requires rule == EverySlug || forall i :: 0 <= i < |ps| ==> ps[i].slug != []
    requires forall n :: Saves(disk, n)
    ensures Content(AppendEach(rule, disk, items, readable, ps)) == Content(AppendBatch(rule, disk, items, readable, ps))
    ensures AppendEach(rule, disk, items, readable, ps).failed == 0
  {
    if ps != [] {
      var init := ps[..|ps| - 1];
      assert forall i :: 0 <= i < |init| ==> init[i] == ps[i];
      AppendEachIsBatch(rule, disk, items, readable, init);
      var s := AppendEach(rule, disk, items, readable, init);
      AppendOneAfterBatch(rule, disk, items, readable, init, ps[|ps| - 1], s);
      InitLast(ps);
      assert Saves(disk, s.saves);
    } else {
      assert NewOnes(SeedOf(rule, if readable then items else []), ps) == [];
    }
  }

  /**
   * Whatever the saves answer, the file only grows: it keeps its records
   * (none when it did not parse and something was appended) and holds
   * `added` more; a failed save changes neither the file nor the count, and
   * at most one save is tried per product.
   */
  lemma {:induction false} AppendEachGrows(rule: SeedRule, disk: Disk, items: seq<Item>, readable: bool, ps: seq<Item>)
    ensures var r := AppendEach(rule, disk, items, readable, ps);
      (r.added == 0 ==> r.items == items && r.readable == readable)
      && (r.added > 0 ==> r.readable && |r.items| == (if readable then |items| else 0) + r.added
                          && (readable ==> r.items[..|items|] == items))
      && r.failed <= r.saves <= |ps|
  {
    if ps != [] {
      var init := ps[..|ps| - 1];
      AppendEachGrows(rule, disk, items, readable, init);
      var s := AppendEach(rule, disk, items, readable, init);
      var base := if s.readable then s.items else [];
      var pushed := NewOnes(SeedOf(rule, base), [ps[|ps| - 1]]);
      if |pushed| > 0 && Saves(disk, s.saves) {
        if s.added > 0 && readable {
          assert (base + pushed)[..|items|] == s.items[..|items|];
        }
      }
    }
  }

  /** A save that throws leaves the file and the count as they were and counts one failure. */
  lemma AppendOneFails(rule: SeedRule, disk: Disk, s: Saved, p: Item)
    requires !Saves(disk, s.saves)
    ensures var r := AppendOne(rule, disk, s, p);
      Content(r) == Content(s) && r.failed <= s.failed + 1
  {
  }

  /** What a store method reports for the single product `p` is one `AppendOne` step. */
  lemma AppendStep(rule: SeedRule, disk: Disk, s: Saved, p: Item, items': seq<Item>, inc: nat, ok: bool)
    requires var base := if s.readable then s.items else [];
      var pushed := NewOnes(SeedOf(rule, base), [p]);
      inc == |pushed| && (ok <==> inc == 0 || Saves(disk, s.saves))
      && items' == (if inc > 0 && ok then base + pushed else s.items)
    ensures AppendOne(rule, disk, s, p)
      == if inc == 0 then s
         else if ok then Saved(items', true, s.added + inc, s.saves + 1, s.failed)
         else Saved(items', s.readable, s.added, s.saves + 1, s.failed + 1)
  {
  }

  lemma AppendEachSnoc(rule: SeedRule, disk: Disk, items: seq<Item>, readable: bool, ps: seq<Item>, p: Item)
    ensures AppendEach(rule, disk, items, readable, ps + [p]) == AppendOne(rule, disk, AppendEach(rule, disk, items, readable, ps), p)
  {
    assert (ps + [p])[..|ps|] == ps;
  }

  /** The records file of the complex-bar.kz scripts. */
  class Store {
    /** The array in `products.json`. */
    var items: seq<Item>

    constructor(items: seq<Item>)
      ensures this.items == items
    {
      this.items := items;
    }

    /**
     * `appendProductsUnlocked(newOnes)` of the scraper: load the array (`[]`
     * when it does not parse), push the products whose slug is new and save
     * only when something was pushed, by `saveProductsAtomic`: up to 20
     * renames, `rename(k)` telling whether attempt k succeeds. When all 20
     * fail the method throws (`ok` false) and the file keeps its contents.
     */
    method AppendProductsUnlocked(newOnes: seq<Item>, readable: bool, rename: nat -> bool) returns (added: nat, ok: bool)
      modifies this
      ensures var base := if readable then old(items) else [];
        var pushed := NewOnes(TruthySlugs(base), newOnes);
        added == |pushed|
        && (ok <==> added == 0 || exists k :: 0 <= k < 20 && rename(k))
        && items == (if added > 0 && ok then base + pushed else old(items))
    {
      var data := if readable then items else [];
      data, added := PushNew(data, TruthySlugs(data), newOnes);
      ok := true;
      if added > 0 {
        var saved, _ := SaveRenameOrThrow(rename);
        ok := saved;
        if ok {
          items := data;
        }
      }
    }

    /**
     * `append(products)` of the list importer: the same loop, but the set
     * starts with the slug of every stored record, and `saveProducts` renames
     * once: when `renamed` is false it throws (`ok` false) and the file keeps
     * its contents.
     */
    method Append(products: seq<Item>, readable: bool, renamed: bool) returns (added: nat, ok: bool)
      modifies this
      ensures var base := if readable then old(items) else [];
        var pushed := NewOnes(AllSlugs(base), products);
        added == |pushed|
        && (ok <==> added == 0 || renamed)
        && items == (if added > 0 && ok then base + pushed else old(items))
    {
      var data := if readable then items else [];
      data, added := PushNew(data, AllSlugs(data), products);
      ok := added == 0 || renamed;
      if added > 0 && renamed {
        items := data;
      }
    }
  }
}
