/**
 * The image sync (scripts/sync_images_to_json.mjs): for every product with
 * a directory of `.webp` files, keep one of them, delete the others, and
 * point the product's `images` at the kept file. The directory listing is a
 * parameter (`None` when `readdir` throws); deletions are returned instead
 * of performed.
 */
module SyncImages {
  import opened Wrappers
  import opened Text
  import opened ImagePick

  /** A catalog entry as the sync sees it: `images` is `None` when it is not an array. */
  datatype Product = Product(slug: string, title: string, images: Option<seq<string>>)

  function PublicPath(slug: string, name: string): string { "/products/" + slug + "/" + name }

  /** `Array.isArray(p.images) ? p.images.join('|') : ''`. */
  function Joined(images: Option<seq<string>>): string {
    if images.Some? then Join(images.value, "|") else ""
  }

  /** What the loop body decides for one product. */
  datatype Step = Skip | Keep(keep: string, deleted: seq<string>, changed: bool)

  /** `webps.filter(n => n !== keep)`: the files the loop unlinks. */
  function Others(webps: seq<string>, keep: string): (r: seq<string>)
    ensures forall n :: n in r <==> n in webps && n != keep
  {
    if webps == [] then []
    else
      assert webps == [webps[0]] + webps[1..];
      (if webps[0] != keep then [webps[0]] else []) + Others(webps[1..], keep)
  }

  function StepOf(p: Product, listing: string -> Option<seq<string>>): Step {
    if p.slug == [] then Skip
    else match listing(p.slug)
      case None => Skip
      case Some(entries) =>
        var w := Webps(entries);
        if w == [] then Skip
        else
          var keep := Pick(w);
          Keep(keep, Others(w, keep), Joined(p.images) != PublicPath(p.slug, keep))
  }

  function Apply(p: Product, s: Step): Product {
    if s.Keep? && s.changed then p.(images := Some([PublicPath(p.slug, s.keep)])) else p
  }

  /** The product after its loop iteration. */
  function Synced(p: Product, listing: string -> Option<seq<string>>): Product {
    Apply(p, StepOf(p, listing))
  }

  function SyncAll(ps: seq<Product>, listing: string -> Option<seq<string>>): (r: seq<Product>)
    ensures |r| == |ps|
  {
    if ps == [] then [] else SyncAll(ps[..|ps| - 1], listing) + [Synced(ps[|ps| - 1], listing)]
  }

  /** Each product is synced on its own. */
  lemma {:induction false} SyncAllAt(ps: seq<Product>, listing: string -> Option<seq<string>>, j: nat)
    requires j < |ps|
    ensures SyncAll(ps, listing)[j] == Synced(ps[j], listing)
  {
    if j < |ps| - 1 {
      SyncAllAt(ps[..|ps| - 1], listing, j);
    }
  }

  function ChangedCount(ps: seq<Product>, listing: string -> Option<seq<string>>): (n: nat)
    ensures n <= |ps|
  {
    if ps == [] then 0
    else ChangedCount(ps[..|ps| - 1], listing) + (var s := StepOf(ps[|ps| - 1], listing); if s.Keep? && s.changed then 1 else 0)
  }

  function SkipCount(ps: seq<Product>, listing: string -> Option<seq<string>>): (n: nat)
    ensures n <= |ps|
  {
    if ps == [] then 0
    else SkipCount(ps[..|ps| - 1], listing) + (if StepOf(ps[|ps| - 1], listing).Skip? then 1 else 0)
  }

  /** Every `(slug, name)` the loop unlinks, in loop order. */
  function Deletions(ps: seq<Product>, listing: string -> Option<seq<string>>): seq<(string, string)> {
    if ps == [] then []
    else
      var p := ps[|ps| - 1];
      var s := StepOf(p, listing);
      Deletions(ps[..|ps| - 1], listing) + (if s.Keep? then Tag(p.slug, s.deleted) else [])
  }

  function Tag(slug: string, names: seq<string>): (r: seq<(string, string)>)
    ensures |r| == |names| && forall i :: 0 <= i < |r| ==> r[i] == (slug, names[i])
  {
    if names == [] then [] else [(slug, names[0])] + Tag(slug, names[1..])
  }

  /**
   * The `for (const p of products)` loop of lines 27-59, updating the
   * products in place; `write` is whether the catalog file is rewritten.
   */
  method Sync(products: array<Product>, listing: string -> Option<seq<string>>)
    returns (updated: nat, skipped: nat, deleted: seq<(string, string)>, write: bool)
    modifies products
    ensures products[..] == SyncAll(old(products[..]), listing)
    ensures updated == ChangedCount(old(products[..]), listing)
    ensures skipped == SkipCount(old(products[..]), listing)
    ensures deleted == Deletions(old(products[..]), listing)
    ensures write <==> updated > 0
  {
    ghost var orig := products[..];
    updated, skipped, deleted := 0, 0, [];
    var i := 0;
    while i < products.Length
      invariant 0 <= i <= products.Length
      invariant products[..i] == SyncAll(orig[..i], listing)
      invariant forall j :: i <= j < products.Length ==> products[j] == orig[j]
      invariant updated == ChangedCount(orig[..i], listing)
      invariant skipped == SkipCount(orig[..i], listing)
      invariant deleted == Deletions(orig[..i], listing)
    {
      PrefixStep(orig, i, listing);
      var p := products[i];
      var s := StepOf(p, listing);
      if s.Skip? {
        skipped := skipped + 1;
      } else {
        deleted := deleted + Tag(p.slug, s.deleted);
        if s.changed {
          products[i] := Apply(p, s);
          updated := updated + 1;
        }
      }
      assert products[i] == Synced(orig[i], listing);
      assert products[..i + 1] == products[..i] + [products[i]];
      i := i + 1;
    }
    assert orig[..i] == orig && products[..i] == products[..];
    write := updated > 0;
  }

  /** How the three tallies grow by one product. */
  lemma PrefixStep(ps: seq<Product>, i: nat, listing: string -> Option<seq<string>>)
    requires i < |ps|
    ensures SyncAll(ps[..i + 1], listing) == SyncAll(ps[..i], listing) + [Synced(ps[i], listing)]
    ensures var s := StepOf(ps[i], listing);
      ChangedCount(ps[..i + 1], listing) == ChangedCount(ps[..i], listing) + (if s.Keep? && s.changed then 1 else 0)
      && SkipCount(ps[..i + 1], listing) == SkipCount(ps[..i], listing) + (if s.Skip? then 1 else 0)
      && Deletions(ps[..i + 1], listing) == Deletions(ps[..i], listing) + (if s.Keep? then Tag(ps[i].slug, s.deleted) else [])
  {
    assert ps[..i + 1][..i] == ps[..i];
  }

  // ---------------------------------------------------------------------
  // Properties
  // ---------------------------------------------------------------------

  /** A product without slug, directory or `.webp` file is left exactly as it was. */
  lemma SkipIff(p: Product, listing: string -> Option<seq<string>>)
    ensures StepOf(p, listing).Skip? <==>
      p.slug == [] || listing(p.slug).None? || Webps(listing(p.slug).value) == []
    ensures StepOf(p, listing).Skip? ==> Apply(p, StepOf(p, listing)) == p
  {
  }

  /**
   * For a kept product: the kept file is the preferred `.webp`, every other
   * `.webp` is deleted, and afterwards `images` is exactly the kept file's
   * public path (whether or not it had to change), names free of `|` assumed.
   */
  lemma KeepSpec(p: Product, listing: string -> Option<seq<string>>)
    requires StepOf(p, listing).Keep?
    requires '|' !in p.slug && '|' !in StepOf(p, listing).keep
    ensures var s := StepOf(p, listing);
      var w := Webps(listing(p.slug).value);
      s.keep in w && (forall n :: n in w ==> Rank(s.keep) <= Rank(n))
      && (forall n :: n in s.deleted <==> n in w && n != s.keep)
      && Apply(p, s).images == Some([PublicPath(p.slug, s.keep)])
      && Apply(p, s).slug == p.slug && Apply(p, s).title == p.title
  {
    var s := StepOf(p, listing);
    PickSpec(Webps(listing(p.slug).value));
    if !s.changed {
      var path := PublicPath(p.slug, s.keep);
      assert '|' !in path by {
        assert path == "/products/" + p.slug + "/" + s.keep;
      }
      JoinWithoutSeparator(p.images.GetOr([]), path);
    }
  }

  /** A join with no separator in it came from exactly one part. */
  lemma JoinWithoutSeparator(parts: seq<string>, s: string)
    requires Join(parts, "|") == s && s != [] && '|' !in s
    ensures parts == [s]
  {
  }

  /**
   * Once the other files are gone, a second sync keeps the same file and
   * changes nothing.
   */
  lemma SyncIdempotent(p: Product, listing: string -> Option<seq<string>>, listing': string -> Option<seq<string>>)
    requires StepOf(p, listing).Keep?
    requires '|' !in p.slug && '|' !in StepOf(p, listing).keep
    requires listing'(p.slug).Some? && Webps(listing'(p.slug).value) == [StepOf(p, listing).keep]
    ensures var q := Apply(p, StepOf(p, listing));
      StepOf(q, listing') == Keep(StepOf(p, listing).keep, [], false)
      && Apply(q, StepOf(q, listing')) == q
  {
    var s := StepOf(p, listing);
    KeepSpec(p, listing);
    var q := Apply(p, s);
    var path := PublicPath(p.slug, s.keep);
    assert Join([path], "|") == path;
    assert Pick([s.keep]) == s.keep;
    assert Others([s.keep], s.keep) == [];
  }

  /** The catalog is rewritten only if some product's images changed. */
  lemma {:induction false} NoChangeNoWrite(ps: seq<Product>, listing: string -> Option<seq<string>>)
    requires ChangedCount(ps, listing) == 0
    ensures forall i :: 0 <= i < |ps| ==> Apply(ps[i], StepOf(ps[i], listing)) == ps[i]
  {
    if ps != [] {
      NoChangeNoWrite(ps[..|ps| - 1], listing);
      assert forall i :: 0 <= i < |ps| - 1 ==> ps[i] == ps[..|ps| - 1][i];
    }
  }
}
