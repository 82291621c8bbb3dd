/**
 * The catalog verifier (scripts/verify_products.mjs): duplicate records are
 * folded into the richest one per slug, descriptions are normalised to at
 * most four sentences, each product keeps one image, thin spec tables are
 * refreshed from the live page, and the records are put into a fixed field
 * order, filtered strictly and sorted by title.
 */
module VerifyProducts {
  import opened Wrappers
  import opened Text
  import opened Sentences
  import opened Dedup
  import opened SpecMap
  import opened ImagePick
  import Sorting

  /**
   * A record of `products.json` as the verifier reads it. A missing or falsy
   * slug, title or source URL is `""`; `description` is `None` when it is not
   * a string, `images` is `None` when it is not an array, missing specs are `[]`.
   */
  datatype Rec = Rec(slug: string, title: string, price: Option<int>, description: Option<string>,
                     specs: Specs, images: Option<seq<string>>, sourceUrl: string)

  // ---------------------------------------------------------------------------
  // pickBetterEntry

  function SpecCount(r: Rec): nat { |r.specs| }

  function ImageCount(r: Rec): nat { if r.images.Some? then |r.images.value| else 0 }

  function DescLength(r: Rec): nat { if r.description.Some? then |r.description.value| else 0 }

  /** `pickBetterEntry(a, b)`. */
  function PickBetter(a: Rec, b: Rec): Rec {
    if SpecCount(a) != SpecCount(b) then (if SpecCount(a) > SpecCount(b) then a else b)
    else if ImageCount(a) != ImageCount(b) then (if ImageCount(a) > ImageCount(b) then a else b)
    else if DescLength(a) >= DescLength(b) then a else b
  }

  /** `a` is at least as rich as `b`: (spec keys, images, description length) compared lexicographically. */
  predicate RicherOrEqual(a: Rec, b: Rec) {
    SpecCount(a) > SpecCount(b)
    || (SpecCount(a) == SpecCount(b) && ImageCount(a) > ImageCount(b))
    || (SpecCount(a) == SpecCount(b) && ImageCount(a) == ImageCount(b) && DescLength(a) >= DescLength(b))
  }

  /** The richness comparison is a total preorder. */
  lemma RicherTotal(a: Rec, b: Rec, c: Rec)
    ensures RicherOrEqual(a, a)
    ensures RicherOrEqual(a, b) || RicherOrEqual(b, a)
    ensures RicherOrEqual(a, b) && RicherOrEqual(b, c) ==> RicherOrEqual(a, c)
  {
  }

  /**
   * The choice is one of the two records, at least as rich as both, and it
   * is the first exactly when the first is at least as rich (so a full tie
   * keeps the first).
   */
  lemma PickBetterSpec(a: Rec, b: Rec)
    ensures PickBetter(a, b) == a || PickBetter(a, b) == b
    ensures RicherOrEqual(PickBetter(a, b), a) && RicherOrEqual(PickBetter(a, b), b)
    ensures PickBetter(a, b) == a <==> RicherOrEqual(a, b)
  {
  }

  // ---------------------------------------------------------------------------
  // The de-duplication loop

  /** `(p?.title || '').trim().toLowerCase()`. */
  function TitleKey(r: Rec): string { Lower(Trim(r.title)) }

  /** A record with neither slug nor title key, which the loop skips. */
  predicate Unnamed(r: Rec) { r.slug == [] && TitleKey(r) == [] }

  /** The two maps of the loop: `seenBySlug` and `seenByTitle`. */
  datatype Index = BySlug | ByTitle

  /** The key a record is filed under in a map, if any. */
  function KeyOf(ix: Index, r: Rec): Option<string> {
    match ix
    case BySlug => if Unnamed(r) then None else Some(r.slug)
    case ByTitle => if TitleKey(r) == [] then None else Some(TitleKey(r))
  }

  /** The entry of the map under `k` after the loop has seen `items`. */
  function BestOf(ix: Index, items: seq<Rec>, k: string): Option<Rec> {
    if items == [] then None
    else
      var b := BestOf(ix, items[..|items| - 1], k);
      var x := items[|items| - 1];
      if KeyOf(ix, x) == Some(k) then Some(if b.None? then x else PickBetter(b.value, x)) else b
  }

  /** Record `i` is filed under `k`, is at least as rich as every record filed there, and richer than every earlier one. */
  predicate FirstRichest(ix: Index, items: seq<Rec>, k: string, i: int) {
    0 <= i < |items| && KeyOf(ix, items[i]) == Some(k)
    && (forall j :: 0 <= j < |items| && KeyOf(ix, items[j]) == Some(k) ==> RicherOrEqual(items[i], items[j]))
    && (forall j :: 0 <= j < i && KeyOf(ix, items[j]) == Some(k) ==> !RicherOrEqual(items[j], items[i]))
  }

  predicate Filed(ix: Index, items: seq<Rec>, k: string) {
    exists i :: 0 <= i < |items| && KeyOf(ix, items[i]) == Some(k)
  }

  /**
   * The left fold of `pickBetterEntry` over the records filed under `k`: there
   * is an entry exactly when some record is filed there, and it is the first
   * of the richest of them.
   */
  lemma {:induction false} BestOfSpec(ix: Index, items: seq<Rec>, k: string) returns (i: int)
    ensures BestOf(ix, items, k).Some? <==> Filed(ix, items, k)
    ensures BestOf(ix, items, k).Some? ==> FirstRichest(ix, items, k, i) && items[i] == BestOf(ix, items, k).value
  {
    i := -1;
    if items != [] {
      var n := |items| - 1;
      var init := items[..n];
      var x := items[n];
      var i0 := BestOfSpec(ix, init, k);
      var b := BestOf(ix, init, k);
      FiledSnoc(ix, items, k);
      if KeyOf(ix, x) == Some(k) {
        if b.None? {
          i := n;
          FirstFiled(ix, items, k);
        } else {
          PickBetterSpec(b.value, x);
          if RicherOrEqual(b.value, x) {
            i := i0;
            StillRichest(ix, items, k, i0);
          } else {
            i := n;
            TakesOver(ix, items, k, i0);
          }
        }
      } else {
        i := i0;
        if b.Some? {
          StillRichest(ix, items, k, i0);
        }
      }
    }
  }

  lemma FiledSnoc(ix: Index, items: seq<Rec>, k: string)
    requires items != []
    ensures Filed(ix, items, k) <==> Filed(ix, items[..|items| - 1], k) || KeyOf(ix, items[|items| - 1]) == Some(k)
  {
    SomeSnoc(items, items[..|items| - 1], (r: Rec) => KeyOf(ix, r) == Some(k));
  }

  /** An element passing `p` is in the prefix or is the last one. */
  lemma SomeSnoc<T>(s: seq<T>, init: seq<T>, p: T -> bool)
    requires s != [] && init == s[..|s| - 1]
    ensures (exists i :: 0 <= i < |s| && p(s[i]))
      <==> (exists i :: 0 <= i < |init| && p(init[i])) || p(s[|s| - 1])
  {
    var n := |s| - 1;
    if exists i :: 0 <= i < |s| && p(s[i]) {
      var j :| 0 <= j < |s| && p(s[j]);
      if j < n { assert init[j] == s[j]; }
    }
    if exists i :: 0 <= i < n && p(init[i]) {
      var j :| 0 <= j < n && p(init[j]);
      assert s[j] == init[j];
    }
  }

  /** The last record is the first filed under `k`. */
  lemma FirstFiled(ix: Index, items: seq<Rec>, k: string)
    requires items != [] && KeyOf(ix, items[|items| - 1]) == Some(k)
    requires !Filed(ix, items[..|items| - 1], k)
    ensures FirstRichest(ix, items, k, |items| - 1)
  {
    var n := |items| - 1;
    NoneBefore(items, items[..n], (r: Rec) => KeyOf(ix, r) == Some(k));
    RicherTotal(items[n], items[n], items[n]);
  }

  /** No element of the prefix passes `p`, read on the whole sequence. */
  lemma NoneBefore<T>(s: seq<T>, init: seq<T>, p: T -> bool)
    requires s != [] && init == s[..|s| - 1] && !exists i :: 0 <= i < |init| && p(init[i])
    ensures forall j :: 0 <= j < |s| - 1 ==> !p(s[j])
  {
    var n := |s| - 1;
    forall j | 0 <= j < n ensures !p(s[j]) {
      assert s[j] == init[j];
    }
  }

  /** The entry survives a record that is not richer, or is filed elsewhere. */
  lemma StillRichest(ix: Index, items: seq<Rec>, k: string, i0: int)
    requires items != [] && FirstRichest(ix, items[..|items| - 1], k, i0)
    requires KeyOf(ix, items[|items| - 1]) == Some(k) ==> RicherOrEqual(items[i0], items[|items| - 1])
    ensures FirstRichest(ix, items, k, i0)
  {
    StillBest(items, items[..|items| - 1], (r: Rec) => KeyOf(ix, r) == Some(k), i0);
  }

  /** `s[i]` passes `p`, is at least as rich as every element passing `p`, and richer than every earlier one. */
  predicate FirstBest(s: seq<Rec>, p: Rec -> bool, i: int) {
    0 <= i < |s| && p(s[i])
    && (forall j :: 0 <= j < |s| && p(s[j]) ==> RicherOrEqual(s[i], s[j]))
    && (forall j :: 0 <= j < i && p(s[j]) ==> !RicherOrEqual(s[j], s[i]))
  }

  lemma StillBest(s: seq<Rec>, init: seq<Rec>, p: Rec -> bool, i0: int)
    requires s != [] && init == s[..|s| - 1] && FirstBest(init, p, i0)
    requires p(s[|s| - 1]) ==> RicherOrEqual(s[i0], s[|s| - 1])
    ensures FirstBest(s, p, i0)
  {
    assert forall j :: 0 <= j < |init| ==> s[j] == init[j];
  }

  /** A strictly richer record takes over the entry. */
  lemma TakesOver(ix: Index, items: seq<Rec>, k: string, i0: int)
    requires items != [] && FirstRichest(ix, items[..|items| - 1], k, i0)
    requires KeyOf(ix, items[|items| - 1]) == Some(k) && !RicherOrEqual(items[i0], items[|items| - 1])
    ensures FirstRichest(ix, items, k, |items| - 1)
  {
    BestTakesOver(items, items[..|items| - 1], (r: Rec) => KeyOf(ix, r) == Some(k), i0);
  }

  lemma BestTakesOver(s: seq<Rec>, init: seq<Rec>, p: Rec -> bool, i0: int)
    requires s != [] && init == s[..|s| - 1] && FirstBest(init, p, i0)
    requires p(s[|s| - 1]) && !RicherOrEqual(s[i0], s[|s| - 1])
    ensures FirstBest(s, p, |s| - 1)
  {
    var n := |s| - 1;
    var x := s[n];
    var b := s[i0];
    assert forall j :: 0 <= j < n ==> s[j] == init[j];
    forall j | 0 <= j < |s| && p(s[j])
      ensures RicherOrEqual(x, s[j])
    {
      RicherTotal(x, b, s[j]);
    }
    forall j | 0 <= j < n && p(s[j])
      ensures !RicherOrEqual(s[j], x)
    {
      RicherTotal(b, s[j], x);
    }
  }

  /** The entry under `k`, if any, is filed under `k`. */
  lemma BestOfKey(ix: Index, items: seq<Rec>, k: string)
    requires BestOf(ix, items, k).Some?
    ensures KeyOf(ix, BestOf(ix, items, k).value) == Some(k)
  {
    var i := BestOfSpec(ix, items, k);
  }

  /** The slugs of the records the loop does not skip, in input order. */
  function NamedSlugs(items: seq<Rec>): seq<string> {
    if items == [] then []
    else
      var x := items[|items| - 1];
      NamedSlugs(items[..|items| - 1]) + (if Unnamed(x) then [] else [x.slug])
  }

  /** The keys of `seenBySlug` in insertion order. */
  function SlugOrder(items: seq<Rec>): seq<string> { Distinct(NamedSlugs(items)) }

  lemma {:induction false} NamedSlugsFiled(items: seq<Rec>, k: string)
    ensures k in NamedSlugs(items) <==> BestOf(BySlug, items, k).Some?
  {
    if items != [] {
      NamedSlugsFiled(items[..|items| - 1], k);
    }
  }

  lemma SlugOrderFiled(items: seq<Rec>)
    ensures forall k :: k in SlugOrder(items) <==> BestOf(BySlug, items, k).Some?
  {
    DistinctMembers(NamedSlugs(items));
    forall k ensures k in NamedSlugs(items) <==> BestOf(BySlug, items, k).Some? {
      NamedSlugsFiled(items, k);
    }
  }

  /** `Array.from(seenBySlug.values())` for the map the loop builds. */
  function Entries(items: seq<Rec>, order: seq<string>): (r: seq<Rec>)
    requires forall k :: k in order ==> BestOf(BySlug, items, k).Some?
    ensures |r| == |order|
    ensures forall j :: 0 <= j < |order| ==> r[j] == BestOf(BySlug, items, order[j]).value
  {
    if order == [] then [] else [BestOf(BySlug, items, order[0]).value] + Entries(items, order[1..])
  }

  /** The records the de-duplication keeps. */
  function Deduped(items: seq<Rec>): seq<Rec> {
    SlugOrderFiled(items);
    Entries(items, SlugOrder(items))
  }

  /** `skipped` after the loop. */
  function UnnamedCount(items: seq<Rec>): nat {
    if items == [] then 0
    else UnnamedCount(items[..|items| - 1]) + (if Unnamed(items[|items| - 1]) then 1 else 0)
  }

  /** Whether record `x` displaces the entry of one map (one `duplicatesRemoved++`). */
  function Displaces(ix: Index, seen: seq<Rec>, x: Rec): nat {
    match KeyOf(ix, x)
    case None => 0
    case Some(k) =>
      var b := BestOf(ix, seen, k);
      if b.Some? && !RicherOrEqual(b.value, x) then 1 else 0
  }

  /** `duplicatesRemoved` after the loop: every displacement in either map. */
  function Displacements(items: seq<Rec>): nat {
    if items == [] then 0
    else
      var init := items[..|items| - 1];
      var x := items[|items| - 1];
      Displacements(init) + Displaces(BySlug, init, x) + Displaces(ByTitle, init, x)
  }

  function Lookup(m: map<string, Rec>, k: string): Option<Rec> {
    if k in m then Some(m[k]) else None
  }

  /** Filing one more record updates only the entry under its key. */
  lemma Refile(ix: Index, seen: seq<Rec>, m: map<string, Rec>, p: Rec, m': map<string, Rec>)
    requires forall k :: BestOf(ix, seen, k) == Lookup(m, k)
    requires KeyOf(ix, p).None? ==> m' == m
    requires KeyOf(ix, p).Some? ==>
      var k0 := KeyOf(ix, p).value;
      m' == m[k0 := if k0 in m then PickBetter(m[k0], p) else p]
    ensures forall k :: BestOf(ix, seen + [p], k) == Lookup(m', k)
  {
    assert (seen + [p])[..|seen|] == seen;
  }

  /** The counters and the slug list after one more record. */
  lemma CountersSnoc(seen: seq<Rec>, p: Rec)
    ensures NamedSlugs(seen + [p]) == NamedSlugs(seen) + (if Unnamed(p) then [] else [p.slug])
    ensures UnnamedCount(seen + [p]) == UnnamedCount(seen) + (if Unnamed(p) then 1 else 0)
    ensures Displacements(seen + [p]) == Displacements(seen) + Displaces(BySlug, seen, p) + Displaces(ByTitle, seen, p)
  {
    assert (seen + [p])[..|seen|] == seen;
  }

  /** What the loop has built after seeing `seen`. */
  ghost predicate Built(seen: seq<Rec>, keys: seq<string>, bySlug: map<string, Rec>, byTitle: map<string, Rec>,
                        duplicatesRemoved: nat, skipped: nat) {
    keys == SlugOrder(seen)
    && (forall k :: BestOf(BySlug, seen, k) == Lookup(bySlug, k))
    && (forall k :: BestOf(ByTitle, seen, k) == Lookup(byTitle, k))
    && skipped == UnnamedCount(seen)
    && duplicatesRemoved == Displacements(seen)
  }

  /** One record of the loop on one map: the entry it leaves and whether it counted a duplicate. */
  method File(m: map<string, Rec>, k: string, p: Rec) returns (m': map<string, Rec>, displaced: bool, isNew: bool)
    ensures m' == m[k := if k in m then PickBetter(m[k], p) else p]
    ensures displaced <==> k in m && !RicherOrEqual(m[k], p)
    ensures isNew <==> k !in m
  {
    m', displaced, isNew := m, false, false;
    if k in m {
      var prev := m[k];
      var best := PickBetter(prev, p);
      PickBetterSpec(prev, p);
      if best != prev {
        m' := m[k := best];
        displaced := true;
      }
    } else {
      m' := m[k := p];
      isNew := true;
    }
  }

  /** The key list after one more record: its slug is added when the slug map had no entry for it. */
  lemma SlugStep(seen: seq<Rec>, p: Rec, keys: seq<string>, bySlug: map<string, Rec>)
    requires keys == SlugOrder(seen)
    requires forall k :: BestOf(BySlug, seen, k) == Lookup(bySlug, k)
    ensures SlugOrder(seen + [p]) == if Unnamed(p) || p.slug in bySlug then keys else keys + [p.slug]
  {
    var names := NamedSlugs(seen);
    CountersSnoc(seen, p);
    if Unnamed(p) {
      assert NamedSlugs(seen + [p]) == names;
    } else {
      assert NamedSlugs(seen + [p]) == names + [p.slug];
      NamedSlugsFiled(seen, p.slug);
      assert p.slug in names <==> p.slug in bySlug by {
        assert BestOf(BySlug, seen, p.slug) == Lookup(bySlug, p.slug);
      }
      DistinctSnoc(names, p.slug);
    }
  }

  /** Whether one more record displaces the entry of map `m`. */
  lemma DisplacesStep(ix: Index, seen: seq<Rec>, m: map<string, Rec>, p: Rec)
    requires forall k :: BestOf(ix, seen, k) == Lookup(m, k)
    ensures Displaces(ix, seen, p)
      == match KeyOf(ix, p)
         case None => 0
         case Some(k) => if k in m && !RicherOrEqual(m[k], p) then 1 else 0
  {
    if KeyOf(ix, p).Some? {
      assert BestOf(ix, seen, KeyOf(ix, p).value) == Lookup(m, KeyOf(ix, p).value);
    }
  }

  /** One pass of the loop body for the record `p`. */
  method Visit(ghost seen: seq<Rec>, p: Rec, keys: seq<string>, bySlug: map<string, Rec>, byTitle: map<string, Rec>,
               duplicatesRemoved: nat, skipped: nat)
    returns (keys': seq<string>, bySlug': map<string, Rec>, byTitle': map<string, Rec>,
             duplicatesRemoved': nat, skipped': nat)
    requires Built(seen, keys, bySlug, byTitle, duplicatesRemoved, skipped)
    ensures Built(seen + [p], keys', bySlug', byTitle', duplicatesRemoved', skipped')
  {
    keys', bySlug', byTitle', duplicatesRemoved', skipped' := keys, bySlug, byTitle, duplicatesRemoved, skipped;
    CountersSnoc(seen, p);
    SlugStep(seen, p, keys, bySlug);
    DisplacesStep(BySlug, seen, bySlug, p);
    DisplacesStep(ByTitle, seen, byTitle, p);
    var slug := p.slug;
    var titleKey := Lower(Trim(p.title));
    if slug == [] && titleKey == [] {
      skipped' := skipped + 1;
    } else {
      var displaced, isNew;
      bySlug', displaced, isNew := File(bySlug, slug, p);
      if displaced { duplicatesRemoved' := duplicatesRemoved' + 1; }
      if isNew { keys' := keys + [slug]; }
      if titleKey != [] {
        byTitle', displaced, isNew := File(byTitle, titleKey, p);
        if displaced { duplicatesRemoved' := duplicatesRemoved' + 1; }
      }
    }
    Refile(BySlug, seen, bySlug, p, bySlug');
    Refile(ByTitle, seen, byTitle, p, byTitle');
  }

  /**
   * The `for (const p of items)` loop with its two maps: the result is one
   * record per distinct slug, in the order the slugs first occur; the title
   * map only moves the `duplicatesRemoved` counter.
   */
  method DedupBySlug(items: seq<Rec>) returns (products: seq<Rec>, duplicatesRemoved: nat, skipped: nat)
    ensures products == Deduped(items)
    ensures duplicatesRemoved == Displacements(items)
    ensures skipped == UnnamedCount(items)
  {
    var keys: seq<string> := [];
    var bySlug: map<string, Rec> := map[];
    var byTitle: map<string, Rec> := map[];
    duplicatesRemoved, skipped := 0, 0;
    for i := 0 to |items|
      invariant Built(items[..i], keys, bySlug, byTitle, duplicatesRemoved, skipped)
    {
      keys, bySlug, byTitle, duplicatesRemoved, skipped :=
        Visit(items[..i], items[i], keys, bySlug, byTitle, duplicatesRemoved, skipped);
      assert items[..i + 1] == items[..i] + [items[i]];
    }
    assert items[..|items|] == items;
    KeysFiled(items, keys, bySlug);
    products := seq(|keys|, j requires 0 <= j < |keys| => bySlug[keys[j]]);
    ProductsDeduped(items, keys, bySlug, products);
  }

  /** The list read off the slug map in key order is the de-duplicated list. */
  lemma ProductsDeduped(items: seq<Rec>, keys: seq<string>, bySlug: map<string, Rec>, products: seq<Rec>)
    requires keys == SlugOrder(items) && |products| == |keys|
    requires forall j :: 0 <= j < |keys| ==> keys[j] in bySlug && products[j] == bySlug[keys[j]]
    requires forall j :: 0 <= j < |keys| ==> bySlug[keys[j]] == Deduped(items)[j]
    ensures products == Deduped(items)
  {
  }

  /** Every key of the list has its entry in the slug map, the one `BestOf` gives. */
  lemma KeysFiled(items: seq<Rec>, keys: seq<string>, bySlug: map<string, Rec>)
    requires keys == SlugOrder(items)
    requires forall k :: BestOf(BySlug, items, k) == Lookup(bySlug, k)
    ensures forall k :: k in keys ==> k in bySlug
    ensures forall j :: 0 <= j < |keys| ==> bySlug[keys[j]] == Deduped(items)[j]
  {
    SlugOrderFiled(items);
    forall k | k in keys ensures k in bySlug {
      assert BestOf(BySlug, items, k) == Lookup(bySlug, k);
    }
    forall j | 0 <= j < |keys| ensures bySlug[keys[j]] == Deduped(items)[j] {
      assert BestOf(BySlug, items, keys[j]) == Lookup(bySlug, keys[j]);
    }
  }

  /**
   * The output holds exactly one record per slug of a record that is not
   * skipped, each the first of the richest records with that slug, and no
   * skipped record.
   */
  lemma DedupedSpec(items: seq<Rec>)
    ensures var r := Deduped(items);
      NoDups(SlugOrder(items))
      && (forall k :: k in SlugOrder(items) <==> exists i :: 0 <= i < |items| && !Unnamed(items[i]) && items[i].slug == k)
      && (forall j :: 0 <= j < |r| ==>
            (r[j].slug == SlugOrder(items)[j] && !Unnamed(r[j])
             && exists i :: FirstRichest(BySlug, items, r[j].slug, i) && items[i] == r[j]))
  {
    var r := Deduped(items);
    var order := SlugOrder(items);
    DistinctNoDups(NamedSlugs(items));
    SlugOrderFiled(items);
    forall k ensures k in order <==> exists i :: 0 <= i < |items| && !Unnamed(items[i]) && items[i].slug == k {
      var _ := BestOfSpec(BySlug, items, k);
    }
    forall j | 0 <= j < |r|
      ensures r[j].slug == order[j] && !Unnamed(r[j])
      ensures exists i :: FirstRichest(BySlug, items, r[j].slug, i) && items[i] == r[j]
    {
      BestOfKey(BySlug, items, order[j]);
      var i := BestOfSpec(BySlug, items, order[j]);
    }
  }

  /** How many duplicates are counted is bounded by two per record. */
  lemma {:induction false} DisplacementsBound(items: seq<Rec>)
    ensures Displacements(items) + UnnamedCount(items) <= 2 * |items|
  {
    if items != [] {
      DisplacementsBound(items[..|items| - 1]);
    }
  }

  // ---------------------------------------------------------------------------
  // normalizeDescription

  /** `normalizeDescription(desc)`: `''` for a non-string, else collapsed and cut to four sentences. */
  function NormalizeDescription(desc: Option<string>): string {
    match desc
    case None => ""
    case Some(d) => SentenceCap(CollapseWs(d), 4)
  }

  /**
   * The result is collapsed text, a prefix of the collapsed input made of at
   * most four sentences, and normalising it again changes nothing.
   */
  lemma NormalizeDescriptionSpec(desc: Option<string>)
    ensures var r := NormalizeDescription(desc);
      Collapsed(r) && |NonEmpty(SplitSentences(r))| <= 4
      && (desc.Some? ==> StartsWith(CollapseWs(desc.value), r))
      && NormalizeDescription(Some(r)) == r
  {
    var r := NormalizeDescription(desc);
    if desc.Some? {
      var t := CollapseWs(desc.value);
      CollapseWsCollapsed(desc.value);
      CapOfCollapsed(t, 4);
    } else {
      assert SplitSentences(r) == [r];
    }
    CollapseWsOfCollapsed(r);
    CapOfCollapsed(r, 4);
  }

  // ---------------------------------------------------------------------------
  // toFsPathFromPublicImage

  /** `imgPath.replace(/\\/g, '/')`. */
  function ForwardSlashes(s: string): (r: string)
    ensures |r| == |s| && '\\' !in r
    ensures forall i :: 0 <= i < |s| ==> r[i] == (if s[i] == '\\' then '/' else s[i])
  {
    if s == [] then [] else [if s[0] == '\\' then '/' else s[0]] + ForwardSlashes(s[1..])
  }

  /** `toFsPathFromPublicImage(imgPath)`; `join` is `path.join`. */
  function FsPath(img: string, root: string, publicDir: string, join: (string, string) -> string): string {
    if img == [] then []
    else
      var n := ForwardSlashes(img);
      if StartsWith(n, "/public/") then join(root, n[1..])
      else if StartsWith(n, "/products/") then join(publicDir, "products/" + n[10..])
      else join(publicDir, n)
  }

  /**
   * Empty input gives `''`; otherwise the path with forward slashes is
   * resolved under the project root when it starts with `/public/` and
   * under the public directory otherwise, and back slashes in the input do
   * not change where it resolves.
   */
  lemma FsPathSpec(img: string, root: string, publicDir: string, join: (string, string) -> string)
    ensures img == [] ==> FsPath(img, root, publicDir, join) == []
    ensures img != [] ==>
      var n := ForwardSlashes(img);
      FsPath(img, root, publicDir, join)
        == if StartsWith(n, "/public/") then join(root, "public/" + n[8..])
           else if StartsWith(n, "/products/") then join(publicDir, "products/" + n[10..])
           else join(publicDir, n)
    ensures FsPath(ForwardSlashes(img), root, publicDir, join) == FsPath(img, root, publicDir, join)
  {
    var n := ForwardSlashes(img);
    if StartsWith(n, "/public/") {
      assert n[1..] == n[1..8] + n[8..];
      assert n[1..8] == "public/";
    }
    assert ForwardSlashes(n) == n;
  }

  // ---------------------------------------------------------------------------
  // The repair pass over the de-duplicated products

  /** What the pass reads of the outside world. */
  datatype Live = Live(
    gallery: string -> Option<seq<string>>,   // `extractGalleryImages` of the live page, `None` when the fetch throws
    listDir: string -> seq<string>,           // the files of `public/products/<slug>`, `[]` when it cannot be read
    download: (string, string) -> bool,       // `downloadWithRetries(url, <slug>/main.webp, 3)` for (url, slug)
    freshSpecs: string -> Option<Specs>)      // `extractSpecs` of the live page, `None` when the fetch throws

  /** The gallery URLs of the live page, `[]` without a source URL or when the fetch fails. */
  function DesiredUrls(p: Rec, env: Live): seq<string> {
    if p.sourceUrl == [] then []
    else match env.gallery(p.sourceUrl)
      case None => []
      case Some(us) => us
  }

  /** The file name `reconcileImagesWithLive` keeps, if any. */
  function KeptName(p: Rec, env: Live): Option<string> {
    var desired := DesiredUrls(p, env);
    var webps := Webps(env.listDir(p.slug));
    if desired != [] then (if env.download(desired[0], p.slug) then Some("main.webp") else None)
    else if webps == [] then None
    else Some(Pick(webps))
  }

  /** The local files the pass unlinks. */
  function Unlinked(p: Rec, env: Live): seq<string> {
    var webps := Webps(env.listDir(p.slug));
    var spared := if DesiredUrls(p, env) != [] then "main.webp" else (if webps == [] then "" else Pick(webps));
    Others(webps, spared)
  }

  /** `names.filter(n => n !== keep)`. */
  function Others(names: seq<string>, keep: string): (r: seq<string>)
    ensures forall n :: n in r <==> n in names && n != keep
  {
    if names == [] then []
    else (if names[0] != keep then [names[0]] else []) + Others(names[1..], keep)
  }

  /** `reconcileImagesWithLive(product)`: the public path of the kept file, or nothing. */
  function Reconciled(p: Rec, env: Live): seq<string> {
    match KeptName(p, env)
    case None => []
    case Some(n) => ["/products/" + p.slug + "/" + n]
  }

  /**
   * At most one path, under `/products/<slug>/`. With live gallery URLs it
   * is `main.webp` exactly when the first one downloads; without them it is
   * the best-ranked local `.webp` (`main.webp`, then the first `altN.webp`,
   * then the first file); every other local `.webp` is unlinked.
   */
  lemma ReconciledSpec(p: Rec, env: Live)
    ensures var r := Reconciled(p, env);
      var desired := DesiredUrls(p, env);
      var webps := Webps(env.listDir(p.slug));
      |r| <= 1
      && (desired != [] ==>
            (r != [] <==> env.download(desired[0], p.slug))
            && (r != [] ==> r[0] == "/products/" + p.slug + "/main.webp")
            && forall n :: n in Unlinked(p, env) <==> n in webps && n != "main.webp")
      && (desired == [] ==>
            (r != [] <==> webps != [])
            && (r != [] ==> exists n :: (r[0] == "/products/" + p.slug + "/" + n && n in webps
                 && (forall m :: m in webps ==> Rank(n) <= Rank(m))
                 && forall m :: m in Unlinked(p, env) <==> m in webps && m != n)))
  {
    if DesiredUrls(p, env) == [] {
      ReconciledLocal(p, env);
    } else {
      ReconciledLive(p, env);
    }
  }

  lemma ReconciledLive(p: Rec, env: Live)
    requires DesiredUrls(p, env) != []
    ensures var r := Reconciled(p, env);
      var desired := DesiredUrls(p, env);
      |r| <= 1
      && (r != [] <==> env.download(desired[0], p.slug))
      && (r != [] ==> r[0] == "/products/" + p.slug + "/main.webp")
      && forall n :: n in Unlinked(p, env) <==> n in Webps(env.listDir(p.slug)) && n != "main.webp"
  {
  }

  lemma ReconciledLocal(p: Rec, env: Live)
    requires DesiredUrls(p, env) == []
    ensures var r := Reconciled(p, env);
      var webps := Webps(env.listDir(p.slug));
      |r| <= 1
      && (r != [] <==> webps != [])
      && (r != [] ==> exists n :: (r[0] == "/products/" + p.slug + "/" + n && n in webps
           && (forall m :: m in webps ==> Rank(n) <= Rank(m))
           && forall m :: m in Unlinked(p, env) <==> m in webps && m != n))
  {
    var webps := Webps(env.listDir(p.slug));
    if webps != [] {
      PickSpec(webps);
      var n := Pick(webps);
      assert Reconciled(p, env)[0] == "/products/" + p.slug + "/" + n;
    }
  }

  /** `Object.entries(p.specs || {}).filter(([k, v]) => !!k && !!v)`, read again after the repair. */
  function RepairedSpecs(p: Rec, env: Live): Specs {
    var pairs := NonBlankEntries(p.specs);
    if |pairs| < 2 && p.sourceUrl != [] then
      match env.freshSpecs(p.sourceUrl)
      case None => p.specs
      case Some(got) =>
        var fp := NonBlankEntries(got);
        if |fp| >= 2 then fp else p.specs
    else p.specs
  }

  lemma {:induction false} NonBlankIdempotent(m: Specs)
    ensures NonBlankEntries(NonBlankEntries(m)) == NonBlankEntries(m)
  {
    if m != [] {
      NonBlankIdempotent(m[1..]);
    }
  }

  /**
   * The specs are replaced only when the record has fewer than two
   * non-blank pairs, has a source URL, and the live page yields at least
   * two; the replacement is those pairs. A record passes the spec check
   * exactly when its specs afterwards have two non-blank pairs.
   */
  lemma RepairedSpecsSpec(p: Rec, env: Live)
    ensures var r := RepairedSpecs(p, env);
      (r != p.specs ==>
         |NonBlankEntries(p.specs)| < 2 && p.sourceUrl != [] && env.freshSpecs(p.sourceUrl).Some?
         && r == NonBlankEntries(env.freshSpecs(p.sourceUrl).value) && |r| >= 2)
      && (|NonBlankEntries(p.specs)| >= 2 ==> r == p.specs)
      && (SpecsOk(p, env) <==> |NonBlankEntries(r)| >= 2)
  {
    if p.sourceUrl != [] && env.freshSpecs(p.sourceUrl).Some? {
      NonBlankIdempotent(env.freshSpecs(p.sourceUrl).value);
    }
  }

  /** `specPairs.length >= 2` at the end of the pass. */
  predicate SpecsOk(p: Rec, env: Live) {
    var pairs := NonBlankEntries(p.specs);
    if |pairs| < 2 && p.sourceUrl != [] && env.freshSpecs(p.sourceUrl).Some?
       && |NonBlankEntries(env.freshSpecs(p.sourceUrl).value)| >= 2 then true
    else |pairs| >= 2
  }

  /** The record after the pass. */
  function Repaired(p: Rec, env: Live): Rec {
    p.(description := Some(NormalizeDescription(p.description)),
       images := Some(Reconciled(p, env)),
       specs := RepairedSpecs(p, env))
  }

  /** The pass's counters: `imagesOk`, `specsOk`, `changedCounts` and its share of `skipped`. */
  datatype Counters = Counters(imagesOk: nat, specsOk: nat, changedCounts: nat, skipped: nat)

  function CountOf(p: Rec, env: Live): Counters {
    var imgs := Reconciled(p, env);
    Counters(if imgs != [] then 1 else 0, if SpecsOk(p, env) then 1 else 0,
             if |imgs| != ImageCount(p) then 1 else 0,
             (if imgs == [] then 1 else 0) + (if SpecsOk(p, env) then 0 else 1))
  }

  function Plus(a: Counters, b: Counters): Counters {
    Counters(a.imagesOk + b.imagesOk, a.specsOk + b.specsOk, a.changedCounts + b.changedCounts, a.skipped + b.skipped)
  }

  function Tally(ps: seq<Rec>, env: Live): Counters {
    if ps == [] then Counters(0, 0, 0, 0)
    else Plus(Tally(ps[..|ps| - 1], env), CountOf(ps[|ps| - 1], env))
  }

  function RepairedAll(ps: seq<Rec>, env: Live): (r: seq<Rec>)
    ensures |r| == |ps|
  {
    if ps == [] then [] else RepairedAll(ps[..|ps| - 1], env) + [Repaired(ps[|ps| - 1], env)]
  }

  /** The body of the per-product task, step by step as the script mutates `p`. */
  method RepairOne(p: Rec, env: Live) returns (q: Rec, c: Counters)
    ensures q == Repaired(p, env) && c == CountOf(p, env)
  {
    q := p.(description := Some(NormalizeDescription(p.description)));
    var beforeCount := ImageCount(p);
    var reconciled := Reconciled(p, env);
    q := q.(images := Some(reconciled));
    c := Counters(0, 0, 0, 0);
    if |reconciled| > 0 { c := c.(imagesOk := 1); } else { c := c.(skipped := 1); }
    if |reconciled| != beforeCount { c := c.(changedCounts := 1); }
    var specPairs := NonBlankEntries(p.specs);
    if |specPairs| < 2 && p.sourceUrl != [] {
      var fetched := env.freshSpecs(p.sourceUrl);
      if fetched.Some? {
        var freshPairs := NonBlankEntries(fetched.value);
        if |freshPairs| >= 2 {
          q := q.(specs := freshPairs);
          specPairs := freshPairs;
        }
      }
    }
    if |specPairs| >= 2 { c := c.(specsOk := 1); } else { c := c.(skipped := c.skipped + 1); }
  }

  /** The `Promise.all(products.map(...))` pass, mutating each product of the array in place. */
  method RepairAll(products: array<Rec>, env: Live) returns (c: Counters)
    modifies products
    ensures products[..] == RepairedAll(old(products[..]), env)
    ensures c == Tally(old(products[..]), env)
  {
    ghost var orig := products[..];
    c := Counters(0, 0, 0, 0);
    for i := 0 to products.Length
      invariant products[..i] == RepairedAll(orig[..i], env)
      invariant forall j :: i <= j < products.Length ==> products[j] == orig[j]
      invariant c == Tally(orig[..i], env)
    {
      RepairStep(orig, i, env);
      var q, ci := RepairOne(products[i], env);
      products[i] := q;
      c := Plus(c, ci);
      assert products[..i + 1] == products[..i] + [products[i]];
    }
    assert orig[..products.Length] == orig && products[..products.Length] == products[..];
  }

  /** One more product extends both the repaired list and the tally by that product alone. */
  lemma RepairStep(orig: seq<Rec>, i: nat, env: Live)
    requires i < |orig|
    ensures RepairedAll(orig[..i + 1], env) == RepairedAll(orig[..i], env) + [Repaired(orig[i], env)]
    ensures Tally(orig[..i + 1], env) == Plus(Tally(orig[..i], env), CountOf(orig[i], env))
  {
    assert orig[..i + 1][..i] == orig[..i];
  }

  /** Each counter counts at most one per product, and every product lands in `imagesOk` or `skipped`. */
  lemma {:induction false} TallyBounds(ps: seq<Rec>, env: Live)
    ensures var c := Tally(ps, env);
      c.imagesOk <= |ps| && c.specsOk <= |ps| && c.changedCounts <= |ps|
      && c.imagesOk + c.specsOk + c.skipped == 2 * |ps|
  {
    if ps != [] {
      TallyBounds(ps[..|ps| - 1], env);
    }
  }

  // ---------------------------------------------------------------------------
  // normalizeProductFields, the final filter and the sort

  /** A record as written back: its fields in this order, `sourceUrl` only when set. */
  datatype Ordered = Ordered(slug: string, title: string, price: Option<int>, description: string,
                             specs: Specs, images: seq<string>, sourceUrl: Option<string>)

  /** The key order `JSON.stringify` emits. */
  function FieldNames(o: Ordered): seq<string> {
    ["slug", "title", "price", "description", "specs", "images"] + (if o.sourceUrl.Some? then ["sourceUrl"] else [])
  }

  /** `normalizeProductFields(p)`. */
  function NormalizeFields(p: Rec): Ordered {
    Ordered(p.slug, p.title, p.price, p.description.GetOr(""), p.specs, p.images.GetOr([]),
            if p.sourceUrl != [] then Some(p.sourceUrl) else None)
  }

  /**
   * The six fields come first in the fixed order, with `''`, `null`, `{}`
   * and `[]` as defaults, and `sourceUrl` is added last exactly when it is
   * set; nothing else of the record is lost.
   */
  lemma NormalizeFieldsSpec(p: Rec)
    ensures var o := NormalizeFields(p);
      FieldNames(o)[..6] == ["slug", "title", "price", "description", "specs", "images"]
      && (|FieldNames(o)| == 7 <==> p.sourceUrl != []) && |FieldNames(o)| >= 6
      && (p.description.None? ==> o.description == []) && (p.images.None? ==> o.images == [])
      && (p.description.Some? && p.images.Some? ==>
            Rec(o.slug, o.title, o.price, Some(o.description), o.specs, Some(o.images), o.sourceUrl.GetOr("")) == p)
  {
  }

  /** The strict filter of the final step. */
  predicate Valid(o: Ordered) {
    o.slug != [] && o.title != [] && |o.images| >= 1 && |o.specs| >= 2 && |o.description| > 10
  }

  function ValidOnly(ps: seq<Rec>): (r: seq<Ordered>)
    ensures forall o :: o in r <==> exists p :: p in ps && NormalizeFields(p) == o && Valid(o)
  {
    if ps == [] then []
    else
      var o := NormalizeFields(ps[|ps| - 1]);
      assert forall p :: p in ps <==> p in ps[..|ps| - 1] || p == ps[|ps| - 1];
      ValidOnly(ps[..|ps| - 1]) + (if Valid(o) then [o] else [])
  }

  /** `(a, b) => (a.title || '').localeCompare(b.title || '', 'ru') <= 0` with `le` for the string order. */
  function TitleOrder(le: (string, string) -> bool): (Ordered, Ordered) -> bool {
    (a: Ordered, b: Ordered) => le(a.title, b.title)
  }

  /** The records written back. */
  function Final(ps: seq<Rec>, le: (string, string) -> bool): seq<Ordered> {
    Sorting.Sort(ValidOnly(ps), TitleOrder(le))
  }

  /**
   * What is written back is sorted by title, holds only valid records, and
   * holds every valid record once per occurrence (a permutation of the
   * filtered list).
   */
  lemma FinalSpec(ps: seq<Rec>, le: (string, string) -> bool)
    requires Sorting.TotalPreorder(le)
    ensures var r := Final(ps, le);
      Sorting.SortedBy(r, TitleOrder(le))
      && multiset(r) == multiset(ValidOnly(ps))
      && (forall o :: o in r <==> exists p :: p in ps && NormalizeFields(p) == o && Valid(o))
  {
    var t := TitleOrder(le);
    assert Sorting.TotalPreorder(t) by {
      forall a: Ordered, b: Ordered ensures t(a, b) || t(b, a) {
        assert le(a.title, b.title) || le(b.title, a.title);
      }
      forall a: Ordered, b: Ordered, c: Ordered | t(a, b) && t(b, c) ensures t(a, c) {
        assert le(a.title, b.title) && le(b.title, c.title);
      }
    }
    Sorting.SortSorted(ValidOnly(ps), t);
    var r := Final(ps, le);
    forall o ensures o in r <==> o in ValidOnly(ps) {
      assert o in r <==> o in multiset(r);
      assert o in ValidOnly(ps) <==> o in multiset(ValidOnly(ps));
    }
  }

  // ---------------------------------------------------------------------------
  // main

  /** The summary lines of the report. */
  datatype Summary = Summary(total: nat, imagesOk: nat, specsOk: nat, changedCounts: nat,
                             skippedFixed: nat, duplicatesRemoved: nat)

  /** `main()` after the file is read and parsed: what is written back, and the summary. */
  method VerifyCatalog(items: seq<Rec>, env: Live, le: (string, string) -> bool)
    returns (products: seq<Ordered>, summary: Summary)
    ensures var repaired := RepairedAll(Deduped(items), env);
      var c := Tally(Deduped(items), env);
      products == Final(repaired, le)
      && summary == Summary(|products|, c.imagesOk, c.specsOk, c.changedCounts,
                            UnnamedCount(items) + c.skipped, Displacements(items))
  {
    var deduped, duplicatesRemoved, skipped := DedupBySlug(items);
    var arr := new Rec[|deduped|](j requires 0 <= j < |deduped| => deduped[j]);
    assert arr[..] == deduped;
    var c := RepairAll(arr, env);
    products := Sorting.Sort(ValidOnly(arr[..]), TitleOrder(le));
    var repairedCount := 0;
    summary := Summary(|products|, c.imagesOk, c.specsOk, c.changedCounts, skipped + c.skipped + repairedCount,
                       duplicatesRemoved);
  }
}
