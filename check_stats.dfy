/**
 * The image statistics of the catalog (scripts/check_stats.mjs): one pass
 * over the products counting those without images, with more than one, and
 * with no `images` field at all.
 */
module CheckStats {

  /** What a product's `images` field is: absent, not an array, or an array of that many entries. */
  datatype ImagesField = Missing | NotArray | Images(count: nat)

  /** The length of `Array.isArray(p.images) ? p.images : []`. */
  function ImageCount(f: ImagesField): nat {
    if f.Images? then f.count else 0
  }

  predicate CountsAsZero(f: ImagesField) { f.Missing? || ImageCount(f) == 0 }

  predicate CountsAsMany(f: ImagesField) { !f.Missing? && ImageCount(f) > 1 }

  function ZeroCount(ps: seq<ImagesField>): (n: nat)
    ensures n <= |ps|
  {
    if ps == [] then 0 else ZeroCount(ps[..|ps| - 1]) + (if CountsAsZero(ps[|ps| - 1]) then 1 else 0)
  }

  function ManyCount(ps: seq<ImagesField>): (n: nat)
    ensures n <= |ps|
  {
    if ps == [] then 0 else ManyCount(ps[..|ps| - 1]) + (if CountsAsMany(ps[|ps| - 1]) then 1 else 0)
  }

  function MissingCount(ps: seq<ImagesField>): (n: nat)
    ensures n <= |ps|
  {
    if ps == [] then 0 else MissingCount(ps[..|ps| - 1]) + (if ps[|ps| - 1].Missing? then 1 else 0)
  }

  datatype Stats = Stats(total: nat, zeroImages: nat, moreThanOneImage: nat, missingImagesField: nat)

  /** The counting loop of lines 8-17. */
  method Count(products: seq<ImagesField>) returns (s: Stats)
    ensures s.total == |products|
    ensures s.zeroImages == ZeroCount(products)
    ensures s.moreThanOneImage == ManyCount(products)
    ensures s.missingImagesField == MissingCount(products)
    ensures s.zeroImages + s.moreThanOneImage <= s.total
    ensures s.missingImagesField <= s.zeroImages
  {
    var zero, gt1, missing := 0, 0, 0;
    var i := 0;
    while i < |products|
      invariant i <= |products|
      invariant zero == ZeroCount(products[..i])
      invariant gt1 == ManyCount(products[..i])
      invariant missing == MissingCount(products[..i])
      invariant zero + gt1 <= i && missing <= zero
    {
      var p := products[i];
      assert products[..i + 1][..i] == products[..i];
      if p.Missing? {
        missing := missing + 1;
        zero := zero + 1;
      } else {
        var n := ImageCount(p);
        if n == 0 {
          zero := zero + 1;
        } else if n > 1 {
          gt1 := gt1 + 1;
        }
      }
      i := i + 1;
    }
    assert products[..i] == products;
    s := Stats(|products|, zero, gt1, missing);
  }

  /** No product is counted both as imageless and as having several images. */
  lemma ZeroAndManyDisjoint(f: ImagesField)
    ensures !(CountsAsZero(f) && CountsAsMany(f))
    ensures f.Missing? ==> CountsAsZero(f)
  {
  }

  /** The two buckets are disjoint, so together they never exceed the product count. */
  lemma {:induction false} BucketsBounded(ps: seq<ImagesField>)
    ensures ZeroCount(ps) + ManyCount(ps) <= |ps|
    ensures MissingCount(ps) <= ZeroCount(ps)
  {
    if ps != [] {
      BucketsBounded(ps[..|ps| - 1]);
      ZeroAndManyDisjoint(ps[|ps| - 1]);
    }
  }
}
