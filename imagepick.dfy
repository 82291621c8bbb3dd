/**
 * The one-image choice shared by the image sync, the catalog verifier and
 * the category scraper: among the `.webp` files of a product directory keep
 * `main.webp`, otherwise the first `altN.webp`, otherwise the first file.
 */
module ImagePick {
  import opened Text

  /** `/\.webp$/i.test(n)`. */
  predicate IsWebp(n: string) { EndsWith(Lower(n), ".webp") }

  /** `/^alt\d+\.webp$/i.test(n)`. */
  predicate IsAltName(n: string) {
    var l := Lower(n);
    |l| >= 9 && l[..3] == "alt" && EndsWith(l, ".webp") && AllDigits(l[3..|l| - 5])
  }

  /** `names.filter(n => /\.webp$/i.test(n))`. */
  function Webps(names: seq<string>): (r: seq<string>)
    ensures |r| <= |names|
    ensures forall n :: n in r <==> n in names && IsWebp(n)
  {
    if names == [] then []
    else
      assert names == [names[0]] + names[1..];
      (if IsWebp(names[0]) then [names[0]] else []) + Webps(names[1..])
  }

  /** `names.findIndex(n => /^alt\d+\.webp$/i.test(n))`. */
  function FirstAlt(names: seq<string>): (i: int)
    ensures -1 <= i < |names|
    ensures i == -1 <==> forall j :: 0 <= j < |names| ==> !IsAltName(names[j])
    ensures i >= 0 ==> IsAltName(names[i]) && forall j :: 0 <= j < i ==> !IsAltName(names[j])
  {
    if names == [] then -1
    else if IsAltName(names[0]) then 0
    else
      var k := FirstAlt(names[1..]);
      assert forall j :: 1 <= j < |names| ==> names[j] == names[1..][j - 1];
      if k == -1 then -1 else k + 1
  }

  /** `names.includes('main.webp') ? 'main.webp' : (names.find(isAlt) || names[0])`. */
  function Pick(names: seq<string>): string
    requires names != []
  {
    if "main.webp" in names then "main.webp"
    else
      var i := FirstAlt(names);
      if i >= 0 then names[i] else names[0]
  }

  /** The preference the choice follows: `main.webp`, then alternates, then anything. */
  function Rank(n: string): nat {
    if n == "main.webp" then 0 else if IsAltName(n) then 1 else 2
  }

  /** `names[i]` is `n`, and every earlier name ranks worse. */
  predicate FirstOfRank(names: seq<string>, i: int, n: string) {
    0 <= i < |names| && names[i] == n && forall j :: 0 <= j < i ==> Rank(names[j]) > Rank(n)
  }

  /** The kept name is in the list, no name ranks better, and it is the first of its rank. */
  lemma PickSpec(names: seq<string>)
    requires names != []
    ensures Pick(names) in names
    ensures forall n :: n in names ==> Rank(Pick(names)) <= Rank(n)
    ensures exists i :: FirstOfRank(names, i, Pick(names))
  {
    var r := Pick(names);
    if "main.webp" in names {
      var i :| 0 <= i < |names| && names[i] == "main.webp";
      FirstOccurrence(names, i);
      var k :| 0 <= k <= i && names[k] == "main.webp" && forall j :: 0 <= j < k ==> names[j] != "main.webp";
      assert FirstOfRank(names, k, r);
    } else {
      var k := FirstAlt(names);
      if k >= 0 {
        assert FirstOfRank(names, k, r);
      } else {
        assert FirstOfRank(names, 0, r);
      }
    }
  }

  lemma FirstOccurrence(names: seq<string>, i: nat)
    requires i < |names| && names[i] == "main.webp"
    ensures exists k :: 0 <= k <= i && names[k] == "main.webp" && forall j :: 0 <= j < k ==> names[j] != "main.webp"
  {
    if exists j :: 0 <= j < i && names[j] == "main.webp" {
      var j :| 0 <= j < i && names[j] == "main.webp";
      FirstOccurrence(names, j);
    }
  }
}
