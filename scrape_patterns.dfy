/**
 * The URL tests of the fallback image scan of `extractGalleryImages` in
 * scripts/scrape_complex_bar.mjs, and the case where the CDN test as
 * written differs from the evident intent.
 */
module ScrapePatterns {
  import opened Text

  /**
   * The CDN test of the fallback scan as written: the trailing `\/` of
   * the pattern follows every alternative, so the two path alternatives
   * ask for a double slash.
   */
  predicate CdnLikeAsWritten(first: string) {
    var l := Lower(first);
    Contains(l, "scalesta-cdn.com/") || Contains(l, "/images/detailed//") || Contains(l, "/product//")
  }

  /** The CDN test as evidently intended: each alternative followed by one slash. */
  predicate CdnLike(first: string) {
    var l := Lower(first);
    Contains(l, "scalesta-cdn.com/") || Contains(l, "/images/detailed/") || Contains(l, "/product/")
  }

  /** A substring as long as the string is the string itself. */
  lemma {:induction false} ContainsSameLength(s: string, p: string)
    requires Contains(s, p) && |s| == |p|
    ensures s == p
    decreases |s|
  {
    if !StartsWith(s, p) {
      ContainsShorter(s[1..], p);
    }
  }

  lemma {:induction false} ContainsShorter(s: string, p: string)
    requires Contains(s, p)
    ensures |p| <= |s|
    decreases |s|
  {
    if !StartsWith(s, p) {
      ContainsShorter(s[1..], p);
    }
  }

  lemma LowerFixed(s: string)
    requires forall i :: 0 <= i < |s| ==> LowerChar(s[i]) == s[i]
    ensures Lower(s) == s
  {
  }

  /** A relative image path of the store, with a single slash after `detailed`. */
  const DetailedPath: string := DetailedDir + "a"

  const DetailedDir: string := "/images/detailed/"

  lemma DetailedChars()
    ensures 'c' !in DetailedPath && 'p' !in DetailedPath
  {
  }

  lemma DetailedLower()
    ensures Lower(DetailedPath) == DetailedPath
  {
    assert forall i :: 0 <= i < |DetailedPath| ==> 'a' <= DetailedPath[i] <= 'z' || DetailedPath[i] == '/';
    LowerFixed(DetailedPath);
  }

  /**
   * As written, the fallback test does not accept `/images/detailed/a`: each
   * path alternative of the regular expression must be followed by a second
   * slash, and the path is not absolute.
   */
  lemma CdnAsWrittenRejectsDetailed()
    ensures !CdnLikeAsWritten(DetailedPath) && !HttpLike(DetailedPath)
  {
    DetailedLower();
    DetailedMissesHosts();
    DetailedMissesDouble();
  }

  lemma DetailedMissesHosts()
    ensures !Contains(DetailedPath, "scalesta-cdn.com/") && !Contains(DetailedPath, "/product//")
  {
    DetailedChars();
    NoCharNoContains(DetailedPath, "scalesta-cdn.com/", 1);
    NoCharNoContains(DetailedPath, "/product//", 1);
  }

  lemma DetailedMissesDouble()
    ensures !Contains(DetailedPath, "/images/detailed//")
  {
    var p := "/images/detailed//";
    assert |DetailedPath| == |p| == 18 && DetailedPath[17] != p[17];
    LastDiffers(DetailedPath, p);
  }

  /** A string does not contain another of its own length that ends differently. */
  lemma LastDiffers(s: string, p: string)
    requires |s| == |p| && p != [] && s[|s| - 1] != p[|p| - 1]
    ensures !Contains(s, p)
  {
    if Contains(s, p) {
      ContainsSameLength(s, p);
    }
  }

  /** Whatever the test as written accepts, the intended test accepts: the two differ only on single-slash links. */
  lemma CdnAsWrittenIsCdn(first: string)
    requires CdnLikeAsWritten(first)
    ensures CdnLike(first)
  {
    var l := Lower(first);
    if Contains(l, "/images/detailed//") {
      assert "/images/detailed//" == "/images/detailed/" + "/";
      ContainsLonger(l, "/images/detailed/", "/");
    } else if Contains(l, "/product//") {
      assert "/product//" == "/product/" + "/";
      ContainsLonger(l, "/product/", "/");
    }
  }

  /** The intended test accepts it. */
  lemma CdnAcceptsDetailed()
    ensures CdnLike(DetailedPath)
  {
    assert forall i :: 0 <= i < |DetailedPath| ==> 'a' <= DetailedPath[i] <= 'z' || DetailedPath[i] == '/';
    LowerFixed(DetailedPath);
    var l := Lower(DetailedPath);
    assert l[..|DetailedDir|] == DetailedDir;
  }

  /** `/^https?:\/\//i`. */
  predicate HttpLike(first: string) {
    var l := Lower(first);
    StartsWith(l, "http://") || StartsWith(l, "https://")
  }
}
