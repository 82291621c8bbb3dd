/**
 * The first catalog importer's page parser (prisma/import/parse.util.mjs).
 * URL parsing gives the pathname, or `None` when `new URL` throws; the
 * texts the HTML queries select are given; `slugify` is a parameter.
 */
module ParseUtil {
  import opened Wrappers
  import opened Text

  /** `parseCategorySlugFromUrl(u)`: the segment after the first `catalog` segment, else `catalog`. */
  function CategorySlugFromUrl(pathname: Option<string>): (r: string)
    ensures r != []
  {
    match pathname
    case None => "catalog"
    case Some(p) =>
      var parts := PathSegments(p);
      var idx := IndexOfPart(parts, "catalog");
      if idx >= 0 && idx + 1 < |parts| then parts[idx + 1] else "catalog"
  }

  /** What the HTML queries of `parseProductHtml` select. */
  datatype Page = Page(
    h1: string,                     // $('h1').first().text()
    metaDescription: Option<string>,
    priceText: string,              // the first price element's text
    imgSrc: Option<string>,
    brandText: string,
    materialText: string,
    colorText: string)

  datatype Parsed = Parsed(
    name: string, description: string, price: nat, imageUrl: string, brand: string,
    material: string, color: string, slug: string, supplierUrl: string, categorySlug: string, priceRaw: string)

  const DefaultName: string := "Товар"

  /** `parseProductHtml(url, html)`. */
  function ParseProductHtml(url: string, pathname: Option<string>, page: Page, slugify: string -> string): (r: Parsed)
    ensures r.supplierUrl == url && r.slug == slugify(r.name)
    ensures r.categorySlug == CategorySlugFromUrl(pathname)
  {
    var trimmed := Trim(page.h1);
    var name := if trimmed != [] then trimmed else DefaultName;
    var priceRaw := DigitsOnly(page.priceText);
    Parsed(
      name,
      page.metaDescription.GetOr(""),
      DigitsValue(priceRaw),
      page.imgSrc.GetOr(""),
      Trim(page.brandText),
      Trim(page.materialText),
      Trim(page.colorText),
      slugify(name),
      url,
      CategorySlugFromUrl(pathname),
      priceRaw)
  }

  // ---------------------------------------------------------------------
  // Properties
  // ---------------------------------------------------------------------

  /** The category is the segment right after the first `catalog` segment, when there is one. */
  lemma CategorySlugSpec(p: string)
    ensures var parts := PathSegments(p);
      var r := CategorySlugFromUrl(Some(p));
      (exists i :: 0 <= i < |parts| - 1 && parts[i] == "catalog" && "catalog" !in parts[..i] && r == parts[i + 1])
      || (r == "catalog" && ("catalog" !in parts || (parts[|parts| - 1] == "catalog" && "catalog" !in parts[..|parts| - 1])))
  {
    var parts := PathSegments(p);
    var idx := IndexOfPart(parts, "catalog");
    if idx >= 0 && idx + 1 < |parts| {
      assert 0 <= idx < |parts| - 1;
    }
  }

  /** An invalid URL gives `catalog`. */
  lemma InvalidUrlGivesCatalog()
    ensures CategorySlugFromUrl(None) == "catalog"
  {
  }

  /** For `/catalog/<b>/<c>` the category is `b` (`/catalog/stolovaya-posuda/tarelka-18` lies in `stolovaya-posuda`). */
  lemma CategoryOfProductPath(b: string, c: string)
    requires b != [] && c != [] && '/' !in b && '/' !in c
    ensures CategorySlugFromUrl(Some("/catalog/" + b + "/" + c)) == b
  {
    var a := "catalog";
    var t1 := "/" + c;
    var t2 := "/" + b + t1;
    SingleSegment(c);
    LeadingSlash(c);
    SegmentsCons(b, t1);
    assert '/' !in a;
    SegmentsCons(a, t2);
    assert "/catalog/" + b + "/" + c == "/" + a + t2;
    assert PathSegments("/catalog/" + b + "/" + c) == [a, b, c];
  }

  /** The price is the number the price text's digits spell, and 0 exactly when it has none. */
  lemma PriceFromDigits(url: string, pathname: Option<string>, page: Page, slugify: string -> string)
    ensures var r := ParseProductHtml(url, pathname, page, slugify);
      AllDigits(r.priceRaw) && r.price == DigitsValue(r.priceRaw)
      && (r.priceRaw == [] <==> forall i :: 0 <= i < |page.priceText| ==> !IsDigit(page.priceText[i]))
  {
  }

  /** The name is the trimmed heading, or `Товар` when the heading is blank. */
  lemma NameDefault(url: string, pathname: Option<string>, page: Page, slugify: string -> string)
    ensures var r := ParseProductHtml(url, pathname, page, slugify);
      r.name != []
      && (r.name == DefaultName <==> Trim(page.h1) == [] || Trim(page.h1) == DefaultName)
      && (Trim(page.h1) != [] ==> r.name == Trim(page.h1))
  {
  }
}
