/**
 * Page extraction shared by the complex-bar.kz scripts: the category scraper
 * (scripts/scrape_complex_bar.mjs), the list importer
 * (scripts/import_from_list.mjs) and the catalog verifier
 * (scripts/verify_products.mjs) each carry a copy of `cleanText`,
 * `absoluteUrl`, `parsePriceToNumber`, the price and title choices, the
 * `addUrl` filter with its `seen`/`out` loop, the `key && val &&
 * key.length < 80` specification rule and the description choice. What
 * cheerio extracts from a page is given as strings; `new URL(url, base)` is
 * a parameter `resolve`.
 */
module ComplexBar {
  import opened Wrappers
  import opened Text
  import opened Dedup
  import opened SpecMap

  /** The default `base` of `absoluteUrl`. */
  const SiteBase: string := "https://complex-bar.kz"

  // ---------------------------------------------------------------------------
  // absoluteUrl

  /**
   * `absoluteUrl(url, base)`: `null` for an empty link, an `http…` link as it
   * is, `https:` before a protocol-relative link, the base before a rooted
   * path, and `new URL(url, base)` for anything else.
   */
  function AbsoluteUrl(url: string, base: string, resolve: (string, string) -> string): Option<string> {
    if url == [] then None
    else if StartsWith(url, "http") then Some(url)
    else if StartsWith(url, "//") then Some("https:" + url)
    else if StartsWith(url, "/") then Some(base + url)
    else Some(resolve(url, base))
  }

  /**
   * Only the empty link is dropped; a link that is absolute, protocol-relative
   * or rooted keeps its text at the end of the result, and with an `http…`
   * base every result but a resolved one starts with `http`.
   */
  lemma AbsoluteUrlSpec(url: string, base: string, resolve: (string, string) -> string)
    ensures AbsoluteUrl(url, base, resolve).None? <==> url == []
    ensures StartsWith(url, "/") || StartsWith(url, "http") ==> EndsWith(AbsoluteUrl(url, base, resolve).value, url)
    ensures StartsWith(base, "http") && (StartsWith(url, "/") || StartsWith(url, "http"))
      ==> StartsWith(AbsoluteUrl(url, base, resolve).value, "http")
  {
    if url != [] && !StartsWith(url, "http") {
      var r := AbsoluteUrl(url, base, resolve).value;
      if StartsWith(url, "//") {
        assert r == "https:" + url;
        assert r[|r| - |url|..] == url;
        assert r[..4] == "http";
      } else if StartsWith(url, "/") {
        assert r == base + url;
        assert r[|r| - |url|..] == url;
        if StartsWith(base, "http") { assert r[..4] == base[..4]; }
      }
    }
  }

  /** An absolute result is its own absolute form, whatever the base. */
  lemma AbsoluteUrlIdempotent(url: string, base: string, base': string, resolve: (string, string) -> string)
    requires StartsWith(base, "http") && StartsWith(url, "/")
    ensures AbsoluteUrl(AbsoluteUrl(url, base, resolve).value, base', resolve) == AbsoluteUrl(url, base, resolve)
  {
    AbsoluteUrlSpec(url, base, resolve);
  }

  // ---------------------------------------------------------------------------
  // parsePriceToNumber

  /** `txt.replace(/[\s\u00A0]/g, '')`. */
  function RemoveWs(s: string): string {
    if s == [] then []
    else if IsWs(s[0]) then RemoveWs(s[1..])
    else [s[0]] + RemoveWs(s[1..])
  }

  /** No white space is left, and the digits are those of the input, in order. */
  lemma {:induction false} RemoveWsSpec(s: string)
    ensures NoWs(RemoveWs(s)) && |RemoveWs(s)| <= |s|
    ensures DigitsOnly(RemoveWs(s)) == DigitsOnly(s)
  {
    if s != [] {
      RemoveWsSpec(s[1..]);
      var rest := RemoveWs(s[1..]);
      if !IsWs(s[0]) {
        var r := [s[0]] + rest;
        assert r[1..] == rest;
      }
    }
  }

  /** The index of the first digit of `s`, or `|s|`. */
  function FirstDigit(s: string, k: nat): (i: nat)
    requires k <= |s|
    ensures k <= i <= |s|
    ensures forall j :: k <= j < i ==> !IsDigit(s[j])
    ensures i < |s| ==> IsDigit(s[i])
    decreases |s| - k
  {
    if k == |s| || IsDigit(s[k]) then k else FirstDigit(s, k + 1)
  }

  /** Where the run of digits starting at `k` ends. */
  function RunEnd(s: string, k: nat): (j: nat)
    requires k <= |s|
    ensures k <= j <= |s| && AllDigits(s[k..j])
    ensures j < |s| ==> !IsDigit(s[j])
    decreases |s| - k
  {
    if k < |s| && IsDigit(s[k]) then
      var j := RunEnd(s, k + 1);
      assert s[k..j] == [s[k]] + s[k + 1..j];
      j
    else k
  }

  /** `parsePriceToNumber(txt)`: the first run of digits once white space is gone, `null` when there is none. */
  function ParsePriceToNumber(txt: string): Option<nat> {
    if txt == [] then None
    else
      var t := RemoveWs(txt);
      var i := FirstDigit(t, 0);
      if i == |t| then None else Some(DigitsValue(t[i..RunEnd(t, i)]))
  }

  /** `null` exactly when the text has no digit (the empty text included). */
  lemma ParsePriceNull(txt: string)
    ensures ParsePriceToNumber(txt).None? <==> forall i :: 0 <= i < |txt| ==> !IsDigit(txt[i])
  {
    if txt != [] {
      var t := RemoveWs(txt);
      RemoveWsSpec(txt);
      assert FirstDigit(t, 0) == |t| <==> DigitsOnly(t) == [];
    }
  }

  /** Otherwise the value of the first maximal digit run of the text with its white space removed. */
  lemma ParsePriceRun(txt: string) returns (a: nat, b: nat)
    requires ParsePriceToNumber(txt).Some?
    ensures FirstRun(RemoveWs(txt), a, b)
    ensures ParsePriceToNumber(txt).value == DigitsValue(RemoveWs(txt)[a..b])
  {
    var t := RemoveWs(txt);
    a := FirstDigit(t, 0);
    b := RunEnd(t, a);
  }

  /** `t[a..b]` is the first maximal run of digits of `t`. */
  predicate FirstRun(t: string, a: nat, b: nat) {
    a < b <= |t| && AllDigits(t[a..b])
    && (forall j :: 0 <= j < a ==> !IsDigit(t[j])) && (b == |t| || !IsDigit(t[b]))
  }

  /** The example of the scraper's comment: `'12 500 ₸'` gives 12500. */
  lemma ParsePriceExample()
    ensures ParsePriceToNumber("12 500 ₸") == Some(12500)
  {
    ParsePriceGrouped("12 500 ₸", "12", "500", "₸", ' ');
    assert "12" + "500" == "12500";
    DigitsExample();
  }

  /**
   * Digit groups separated by white space, then a sign: the value of all the
   * digits read together (the thousands separator of a price).
   */
  lemma ParsePriceGrouped(txt: string, a: string, b: string, c: string, w: char)
    requires txt == a + [w] + b + [w] + c && IsWs(w)
    requires a != [] && AllDigits(a) && AllDigits(b) && NoWs(c) && (c == [] || !IsDigit(c[0]))
    ensures ParsePriceToNumber(txt) == Some(DigitsValue(a + b))
  {
    assert NoWs(a) && NoWs(b);
    RemoveWsOf(txt, a, b, c, w);
    var t := RemoveWs(txt);
    assert t == (a + b) + c;
    assert IsDigit(t[0]);
    RunEndOf(a + b, c, 0);
    assert t[0..|a + b|] == a + b;
  }

  lemma {:induction false} RunEndOf(d: string, c: string, k: nat)
    requires AllDigits(d) && (c == [] || !IsDigit(c[0])) && k <= |d|
    ensures RunEnd(d + c, k) == |d|
    decreases |d| - k
  {
    var t := d + c;
    if k < |d| {
      assert IsDigit(t[k]);
      RunEndOf(d, c, k + 1);
    } else if k < |t| {
      assert t[k] == c[0];
    }
  }

  /** Two white-space characters between three pieces without white space. */
  lemma RemoveWsOf(s: string, a: string, b: string, c: string, w: char)
    requires s == a + [w] + b + [w] + c && IsWs(w) && NoWs(a) && NoWs(b) && NoWs(c)
    ensures RemoveWs(s) == a + b + c
  {
    var sp := [w];
    assert s == a + (sp + (b + (sp + c)));
    RemoveWsNoWs(a);
    RemoveWsNoWs(b);
    RemoveWsNoWs(c);
    assert RemoveWs(sp) == [];
    RemoveWsAppend(sp, c);
    RemoveWsAppend(b, sp + c);
    RemoveWsAppend(sp, b + (sp + c));
    RemoveWsAppend(a, sp + (b + (sp + c)));
    assert a + b + c == a + (b + c);
  }

  /** Removing white space piece by piece. */
  lemma {:induction false} RemoveWsAppend(a: string, b: string)
    ensures RemoveWs(a + b) == RemoveWs(a) + RemoveWs(b)
  {
    if a != [] {
      RemoveWsAppend(a[1..], b);
      assert (a + b)[0] == a[0] && (a + b)[1..] == a[1..] + b;
    } else {
      assert a + b == b;
    }
  }

  lemma {:induction false} RemoveWsNoWs(s: string)
    requires NoWs(s)
    ensures RemoveWs(s) == s
  {
    if s != [] {
      RemoveWsNoWs(s[1..]);
    }
  }

  lemma RemoveWsCons(c: char, s: string)
    ensures RemoveWs([c] + s) == if IsWs(c) then RemoveWs(s) else [c] + RemoveWs(s)
  {
    assert ([c] + s)[0] == c && ([c] + s)[1..] == s;
  }

  lemma DigitsExample()
    ensures DigitsValue("12500") == 12500
  {
    assert "12"[..1] == "1" && "125"[..2] == "12" && "1250"[..3] == "125" && "12500"[..4] == "1250";
    assert DigitsValue("1") == 1;
    assert DigitsValue("12") == 12;
    assert DigitsValue("125") == 125;
    assert DigitsValue("1250") == 1250;
  }

  /** A non-breaking space counts as white space, and text without digits has no price. */
  lemma ParsePriceNoDigits()
    ensures ParsePriceToNumber("") == None
    ensures ParsePriceToNumber("по\U{00A0}запросу") == None
  {
    ParsePriceNull("по\U{00A0}запросу");
  }

  // ---------------------------------------------------------------------------
  // the price and title choices of `parseProduct`

  /** `if (t.length > best.length) best = t` over `ps`: the first longest text, `best` if none is longer. */
  function Longest(ps: seq<string>, best: string): (r: string)
    decreases |ps|
  {
    if ps == [] then best else Longest(ps[1..], if |ps[0]| > |best| then ps[0] else best)
  }

  /** No text is longer, and a text that replaced `best` is the first one of its length. */
  lemma {:induction false} LongestSpec(ps: seq<string>, best: string)
    ensures var r := Longest(ps, best);
      |best| <= |r| && (forall p :: p in ps ==> |p| <= |r|)
      && (r == best || exists i :: 0 <= i < |ps| && ps[i] == r && |best| < |r| && forall j :: 0 <= j < i ==> |ps[j]| < |r|)
    decreases |ps|
  {
    if ps != [] {
      var next := if |ps[0]| > |best| then ps[0] else best;
      LongestSpec(ps[1..], next);
      var r := Longest(ps, best);
      assert r == Longest(ps[1..], next);
      assert forall p :: p in ps ==> p == ps[0] || p in ps[1..];
      if r != best && r != next {
        var i :| 0 <= i < |ps[1..]| && ps[1..][i] == r && |next| < |r| && forall j :: 0 <= j < i ==> |ps[1..][j]| < |r|;
        assert ps[i + 1] == r;
        forall j | 0 <= j < i + 1 ensures |ps[j]| < |r| {
          if j > 0 { assert ps[j] == ps[1..][j - 1]; }
        }
      }
    }
  }

  /** `cleanText` of every raw text. */
  function Cleaned(raws: seq<string>): (r: seq<string>)
    ensures |r| == |raws| && forall i :: 0 <= i < |raws| ==> r[i] == CollapseWs(raws[i])
  {
    seq(|raws|, i requires 0 <= i < |raws| => CollapseWs(raws[i]))
  }

  /** `/[₸]/.test(t) || /\d/.test(t)`. */
  predicate PriceLike(t: string) {
    '₸' in t || exists i :: 0 <= i < |t| && IsDigit(t[i])
  }

  /** The text of `[class*="price" i]` elements that `parseProduct` keeps: the first longest one with a tenge sign or a digit. */
  function PriceText(raws: seq<string>): string {
    Longest(Kept(Cleaned(raws), PriceLike), "")
  }

  /** The chosen price text is `''` or a cleaned, price-like element text no other such text outgrows. */
  lemma PriceTextSpec(raws: seq<string>)
    ensures var t := PriceText(raws);
      (t == [] || (PriceLike(t) && exists i :: 0 <= i < |raws| && t == CollapseWs(raws[i])))
      && forall i :: 0 <= i < |raws| && PriceLike(CollapseWs(raws[i])) ==> |CollapseWs(raws[i])| <= |t|
  {
    var ks := Kept(Cleaned(raws), PriceLike);
    KeptMembers(Cleaned(raws), PriceLike);
    LongestSpec(ks, "");
    var t := PriceText(raws);
    forall i | 0 <= i < |raws| && PriceLike(CollapseWs(raws[i])) ensures |CollapseWs(raws[i])| <= |t| {
      assert Cleaned(raws)[i] in ks;
    }
    if t != [] {
      assert t in ks;
      var i :| 0 <= i < |Cleaned(raws)| && Cleaned(raws)[i] == t;
    }
  }

  /** The first index where `" |"` starts (what `\s+\|` matches in cleaned text), or `|t|`. */
  function BarIndex(t: string, k: nat): (i: nat)
    requires k <= |t|
    ensures k <= i <= |t|
    ensures i < |t| ==> i + 1 < |t| && t[i] == ' ' && t[i + 1] == '|'
    ensures forall j :: k <= j < i && j + 1 < |t| ==> !(t[j] == ' ' && t[j + 1] == '|')
    decreases |t| - k
  {
    if k + 1 >= |t| then |t|
    else if t[k] == ' ' && t[k + 1] == '|' then k
    else BarIndex(t, k + 1)
  }

  /**
   * `parseProduct`'s title: the cleaned `h1` text, or else the cleaned
   * `<title>` text with its first white-space run before a `|` and everything
   * after it removed. In cleaned text every white-space run is one space and
   * there is no line break, so that match starts at the first `" |"`.
   */
  function TitleOf(h1Raw: string, titleRaw: string): string {
    var h1 := CollapseWs(h1Raw);
    if h1 != [] then h1
    else
      var t := CollapseWs(titleRaw);
      t[..BarIndex(t, 0)]
  }

  /** The title is the heading when it has text; otherwise the page title up to its first `" |"`, which it never contains. */
  lemma TitleSpec(h1Raw: string, titleRaw: string)
    ensures var title := TitleOf(h1Raw, titleRaw);
      CollapseWs(h1Raw) != [] ==> title == CollapseWs(h1Raw)
    ensures var title := TitleOf(h1Raw, titleRaw);
      CollapseWs(h1Raw) == [] ==> StartsWith(CollapseWs(titleRaw), title) && !Contains(title, " |")
  {
    if CollapseWs(h1Raw) == [] {
      var t := CollapseWs(titleRaw);
      var title := TitleOf(h1Raw, titleRaw);
      assert title == t[..BarIndex(t, 0)];
      NoBarInPrefix(t, BarIndex(t, 0));
    }
  }

  lemma {:induction false} NoBarInPrefix(t: string, i: nat)
    requires i <= |t|
    requires forall j :: 0 <= j < i && j + 1 < |t| ==> !(t[j] == ' ' && t[j + 1] == '|')
    ensures !Contains(t[..i], " |")
    decreases i
  {
    if i > 0 {
      var p := t[..i];
      assert !StartsWith(p, " |") by {
        if |p| >= 2 { assert p[0] == t[0] && p[1] == t[1]; }
      }
      assert p[1..] == t[1..][..i - 1];
      forall j | 0 <= j < i - 1 && j + 1 < |t[1..]| ensures !(t[1..][j] == ' ' && t[1..][j + 1] == '|') {
        assert t[1..][j] == t[j + 1] && t[1..][j + 1] == t[j + 2];
      }
      NoBarInPrefix(t[1..], i - 1);
    }
  }

  // ---------------------------------------------------------------------------
  // the image filter `addUrl` and its `seen`/`out` loop

  /** `/placeholder|no-image|sprite|\.(svg)$/i.test(u)`. */
  predicate IsPlaceholder(u: string) {
    var l := Lower(u);
    Contains(l, "placeholder") || Contains(l, "no-image") || Contains(l, "sprite") || EndsWith(l, ".svg")
  }

  /** `(^|\/)logo(\.|-|_|\/)` matches at position `i` of the lower-cased link `l`. */
  predicate LogoAt(l: string, i: nat) {
    i + 5 <= |l| && (i == 0 || l[i - 1] == '/') && l[i..i + 4] == "logo"
    && (l[i + 4] == '.' || l[i + 4] == '-' || l[i + 4] == '_' || l[i + 4] == '/')
  }

  /** `/(\/images\/logos\/|(^|\/)logo(\.|-|_|\/))/i.test(u)`. */
  predicate IsLogo(u: string) {
    var l := Lower(u);
    Contains(l, "/images/logos/") || exists i :: 0 <= i < |l| && LogoAt(l, i)
  }

  /** Neither a placeholder nor a logo. */
  predicate GalleryOk(u: string) { !IsPlaceholder(u) && !IsLogo(u) }

  /** `addUrl(u)` up to the `seen` test: the absolute form of a kept link. */
  function GalleryUrl(u: string, resolve: (string, string) -> string): Option<string> {
    var a := AbsoluteUrl(u, SiteBase, resolve);
    if a.Some? && GalleryOk(a.value) then a else None
  }

  function GalleryFn(resolve: (string, string) -> string): (f: string -> Option<string>)
    ensures forall u :: f(u) == GalleryUrl(u, resolve)
  {
    u => GalleryUrl(u, resolve)
  }

  /** The `out` list once `addUrl` has seen every candidate of `cands`. */
  function GalleryOf(cands: seq<string>, resolve: (string, string) -> string): seq<string> {
    Distinct(FilterMap(cands, GalleryFn(resolve)))
  }

  lemma GalleryStep(cands: seq<string>, i: nat, resolve: (string, string) -> string)
    requires i < |cands|
    ensures var out := GalleryOf(cands[..i], resolve);
      var g := GalleryUrl(cands[i], resolve);
      GalleryOf(cands[..i + 1], resolve) == (if g.Some? && g.value !in out then out + [g.value] else out)
  {
    var f := GalleryFn(resolve);
    var before := FilterMap(cands[..i], f);
    TakeSnoc(cands, i);
    assert cands[..i + 1][..i] == cands[..i];
    DistinctMembers(before);
    if f(cands[i]).Some? {
      DistinctSnoc(before, f(cands[i]).value);
    } else {
      assert before + [] == before;
    }
  }

  /** `addUrl` applied to each candidate in turn. */
  method CollectGallery(cands: seq<string>, resolve: (string, string) -> string) returns (out: seq<string>)
    ensures out == GalleryOf(cands, resolve)
  {
    var seen: set<string> := {};
    out := [];
    assert FilterMap(cands[..0], GalleryFn(resolve)) == [];
    for i := 0 to |cands|
      invariant out == GalleryOf(cands[..i], resolve)
      invariant forall x :: x in seen <==> x in out
    {
      GalleryStep(cands, i, resolve);
      var abs := AbsoluteUrl(cands[i], SiteBase, resolve);
      if abs.Some? && GalleryOk(abs.value) && abs.value !in seen {
        seen := seen + {abs.value};
        out := out + [abs.value];
      }
    }
    assert cands[..|cands|] == cands;
  }

  /**
   * The gallery has no duplicates, holds exactly the absolute forms of the
   * candidates that are neither placeholders nor logos, and lists them in
   * the order they were first met.
   */
  lemma GallerySpec(cands: seq<string>, resolve: (string, string) -> string)
    ensures var out := GalleryOf(cands, resolve);
      NoDups(out)
      && (forall u :: u in out <==> u in FilterMap(cands, GalleryFn(resolve)))
      && (forall u :: u in out <==> exists i :: 0 <= i < |cands| && GalleryUrl(cands[i], resolve) == Some(u))
      && (forall u :: u in out ==> GalleryOk(u) && !EndsWith(Lower(u), ".svg"))
      && InFirstOccurrenceOrder(FilterMap(cands, GalleryFn(resolve)), out)
  {
    var f := GalleryFn(resolve);
    var all := FilterMap(cands, f);
    DistinctNoDups(all);
    DistinctOrder(all);
    forall u ensures u in Distinct(all) <==> exists i :: 0 <= i < |cands| && GalleryUrl(cands[i], resolve) == Some(u) {
      FilterMapMembers(cands, f, u);
    }
  }

  // ---------------------------------------------------------------------------
  // specifications: `if (key && val && key.length < 80) specs[key] = val`

  /** The pair a row offers once both sides are cleaned, if it passes the test. */
  function SpecPair(raw: Entry): Option<Entry> {
    var key := CollapseWs(raw.key);
    var val := CollapseWs(raw.value);
    if key != [] && val != [] && |key| < 80 then Some(Entry(key, val)) else None
  }

  function SpecPairFn(): (f: Entry -> Option<Entry>)
    ensures forall e :: f(e) == SpecPair(e)
  {
    e => SpecPair(e)
  }

  /** The object the assignments build: later pairs overwrite earlier ones. */
  function SpecsFrom(raws: seq<Entry>): Specs {
    LastWins(FilterMap(raws, SpecPairFn()))
  }

  lemma SpecStep(raws: seq<Entry>, i: nat)
    requires i < |raws|
    ensures var before := LastWins(FilterMap(raws[..i], SpecPairFn()));
      var p := SpecPair(raws[i]);
      LastWins(FilterMap(raws[..i + 1], SpecPairFn())) == if p.Some? then Put(before, p.value.key, p.value.value) else before
  {
    var f := SpecPairFn();
    TakeSnoc(raws, i);
    assert raws[..i + 1][..i] == raws[..i];
    var p := SpecPair(raws[i]);
    if p.Some? {
      var next := FilterMap(raws[..i], f) + [p.value];
      assert next[..|next| - 1] == FilterMap(raws[..i], f);
    } else {
      assert FilterMap(raws[..i], f) + [] == FilterMap(raws[..i], f);
    }
  }

  /** `specs[key] = val` for each candidate pair in document order. */
  method AssignSpecs(raws: seq<Entry>) returns (specs: Specs)
    ensures specs == SpecsFrom(raws)
  {
    specs := [];
    var f := SpecPairFn();
    assert FilterMap(raws[..0], f) == [];
    for i := 0 to |raws|
      invariant specs == LastWins(FilterMap(raws[..i], f))
    {
      SpecStep(raws, i);
      var p := SpecPair(raws[i]);
      if p.Some? {
        specs := Put(specs, p.value.key, p.value.value);
      }
    }
    assert raws[..|raws|] == raws;
  }

  /**
   * Keys are distinct, cleaned, non-empty and shorter than 80 characters,
   * values cleaned and non-empty, and each key holds the value of the LAST
   * candidate that offered it.
   */
  lemma SpecsFromSpec(raws: seq<Entry>, k: string)
    ensures UniqueKeys(SpecsFrom(raws))
    ensures forall e :: e in SpecsFrom(raws) ==>
      e.key != [] && e.value != [] && |e.key| < 80 && e.key == CollapseWs(e.key) && e.value == CollapseWs(e.value)
    ensures Get(SpecsFrom(raws), k) == LastValue(FilterMap(raws, SpecPairFn()), k)
  {
    var f := SpecPairFn();
    var pairs := FilterMap(raws, f);
    LastWinsGet(pairs, k);
    forall e | e in SpecsFrom(raws)
      ensures e.key != [] && e.value != [] && |e.key| < 80 && e.key == CollapseWs(e.key) && e.value == CollapseWs(e.value)
    {
      LastWinsFrom(pairs, e);
      FilterMapMembers(raws, f, e);
      var i :| 0 <= i < |raws| && f(raws[i]) == Some(e);
      CollapseWsIdempotent(raws[i].key);
      CollapseWsIdempotent(raws[i].value);
    }
  }

  // ---------------------------------------------------------------------------
  // extractDescription (before the sentence cap)

  /** The first cleaned selector text longer than 10 characters. */
  function FirstLong(texts: seq<string>): (r: Option<string>)
    ensures r.Some? ==> |r.value| > 10
  {
    if texts == [] then None
    else if |texts[0]| > 10 then Some(texts[0])
    else FirstLong(texts[1..])
  }

  /**
   * The description text: the first of the selector blocks whose cleaned text
   * exceeds 10 characters (`break` on the first such), otherwise the longest
   * cleaned paragraph (the first of its length), `''` when there is none.
   */
  function DescriptionText(blocks: seq<string>, paragraphs: seq<string>): string {
    var first := FirstLong(Cleaned(blocks));
    if first.Some? then first.value else Longest(Cleaned(paragraphs), "")
  }

  lemma {:induction false} FirstLongSpec(texts: seq<string>)
    ensures var r := FirstLong(texts);
      (r.None? <==> forall i :: 0 <= i < |texts| ==> |texts[i]| <= 10)
      && (r.Some? ==> exists i :: 0 <= i < |texts| && texts[i] == r.value && forall j :: 0 <= j < i ==> |texts[j]| <= 10)
  {
    if texts != [] && |texts[0]| <= 10 {
      FirstLongSpec(texts[1..]);
      assert forall i :: 1 <= i < |texts| ==> texts[i] == texts[1..][i - 1];
      if FirstLong(texts).Some? {
        var i :| 0 <= i < |texts[1..]| && texts[1..][i] == FirstLong(texts).value
          && forall j :: 0 <= j < i ==> |texts[1..][j]| <= 10;
        assert texts[i + 1] == FirstLong(texts).value;
      }
    }
  }

  /**
   * The text is collapsed. It is the first block longer than 10 characters
   * when one exists; otherwise no paragraph is longer, and it is `''` or one
   * of the paragraphs.
   */
  lemma DescriptionTextSpec(blocks: seq<string>, paragraphs: seq<string>)
    ensures Collapsed(DescriptionText(blocks, paragraphs))
    ensures var d := DescriptionText(blocks, paragraphs);
      (exists i :: 0 <= i < |blocks| && |CollapseWs(blocks[i])| > 10)
        ==> exists i :: (0 <= i < |blocks| && d == CollapseWs(blocks[i]) && |d| > 10
          && forall j :: 0 <= j < i ==> |CollapseWs(blocks[j])| <= 10)
    ensures var d := DescriptionText(blocks, paragraphs);
      (forall i :: 0 <= i < |blocks| ==> |CollapseWs(blocks[i])| <= 10)
        ==> ((forall i :: 0 <= i < |paragraphs| ==> |CollapseWs(paragraphs[i])| <= |d|)
          && (d == [] || exists i :: 0 <= i < |paragraphs| && d == CollapseWs(paragraphs[i])))
  {
    var bs := Cleaned(blocks);
    var ps := Cleaned(paragraphs);
    FirstLongSpec(bs);
    LongestSpec(ps, "");
    var d := DescriptionText(blocks, paragraphs);
    if FirstLong(bs).Some? {
      var i :| 0 <= i < |bs| && bs[i] == d;
      CollapseWsCollapsed(blocks[i]);
    } else {
      forall i | 0 <= i < |paragraphs| ensures |CollapseWs(paragraphs[i])| <= |d| {
        assert ps[i] in ps;
      }
      if d != [] {
        var i :| 0 <= i < |ps| && ps[i] == d;
        CollapseWsCollapsed(paragraphs[i]);
      } else {
        assert Collapsed(d);
      }
    }
  }
}
