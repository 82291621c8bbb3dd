# Catalog toolchain and storefront core, in Dafny

This project models the data-handling core of a HoReCa tableware storefront (Horecas Group) and the
offline toolchain that fills its file database, `data/products.json`, from
the supplier site complex-bar.kz. Every rule is stated as a contract and
proved about the model. The model covers four parts:

- **Ingestion.**
  - The sitemap and crawl importer (`prisma/import/import2.mjs`): the
    sitemap walk, the crawl frontier, breadcrumbs and the category registry,
    image sources, specification tables, the file upsert and the image
    download cap.
  - The category scraper (`scripts/scrape_complex_bar.mjs`): link
    extraction, the gallery, specifications, description and price, the
    breadth-first category stream, validation and the slug-unique append.
  - The list importer (`scripts/import_from_list.mjs`).
  - The parsing utilities (`prisma/import/parse.util.mjs`).
- **Maintenance passes** over the file database:
  - the verifier (`scripts/verify_products.mjs`): duplicate folding,
    description cap, one image per product, spec repair, strict filter and
    sort;
  - the enricher (`scripts/enrich_products.mjs`): clean-up patterns, case
    normalisation, spec and description merge;
  - the filler (`scripts/fill_products.mjs`): spec completion, generated
    descriptions, three image slots;
  - the image sync (`scripts/sync_images_to_json.mjs`);
  - the image statistics (`scripts/check_stats.mjs`).
- **The storefront API** (`app/api/products`, `app/api/facets`, `app/api/leads`):
  - the products route, with its response cache, filter chain, FNV-1a
    ordering, paging and card projection;
  - the facets route, with its counters, category hierarchy and curated
    counts;
  - the leads route.
- **The client cart** (`lib/cart.tsx`) and the locale and admin middleware
  (`middleware.ts`).

There is one Dafny module per source file, plus a few shared modules:

| module | holds |
|---|---|
| `Wrappers` | `Option` and `Result` |
| `Text` | JavaScript white space, collapsing, trimming, digits and case mapping |
| `Sentences` | the sentence split and the sentence cap |
| `SpecMap` | a JavaScript object as an ordered association list, with first-wins and last-wins folds |
| `Dedup` | order-keeping de-duplication |
| `Sorting` | a stable sort under a total preorder |
| `Retry` | the attempt loops |
| `ComplexBar` | helpers shared by the three complex-bar.kz scripts |
| `ImagePick` | the keep-file choice shared by the scraper, the verifier and the image sync |
| `ProductStore` | the slug-unique append |
| `MacRoman` | the Mac OS Roman reading of UTF-8 text |
| `FillAsWritten` | `scripts/fill_products.mjs` as stored, beside the decoded `Fill` |

Where a script loops or mutates, the model does the same:

- A `method` with a `while` loop is proved against a specification
  function.
- A `class` stands for state the source keeps across calls: the two
  response caches (`ProductsRoute.Cache` and `FacetsRoute.FacetsCache`),
  the crawl frontier (`Crawl.Crawler`), the category registry
  (`ImportPage.CategoryRegistry`), the products files
  (`ProductStore.Store` and `ImportStore.ProductsFile`) and the lead logs
  (`Leads.LeadStore`).
- The cart is a value: its line list is passed through pure functions,
  one per reducer action, as `lib/cart.tsx` computes each new list from
  the old one.

HTML, XML, network, file-system and image-library results are parameters.
They are given as the strings and lists the selectors return, or as
functions such as `fetch`, `resolve`, `slugify`, `download` and
`listDir`.

Seven source passages are evidently wrong; they are listed under "## Findings".
Five of them are logic errors and two, in `scripts/fill_products.mjs`, follow
from the encoding of that file described below. For each of them the model has two members: one as written and one as intended. The
pipeline members (`Middleware.Decide`, `Enrich.Sanitize`, `Fill.FillProduct`,
`ImportPage.ProductOf`, `Scrape.FallbackOf` and the members built on them)
use the intended one. Each as-written member has its partner lemmas: a
lemma that exhibits the input on which it goes wrong, and a lemma that says
on which inputs the two readings agree. These are
`Middleware.CredentialsAgree` (at most one colon), `Casing.CaseReadingsAgree`
(text that is not all capitals), `Fill.DefaultsAgree` (no field that is
white space only), `ImportPage.CollectImagesAgree` and
`ImportPage.ProductOfAsWrittenSpec` (acceptable images already distinct),
and `ScrapePatterns.CdnAsWrittenIsCdn` (what the test as written accepts,
the intended one accepts).

`scripts/fill_products.mjs` is stored as the Mac OS Roman reading of its
UTF-8 text: every Cyrillic letter of a keyword, key or unit literal is kept
as two characters, a lead `–` or `—` followed by a character of the Mac
Roman table. `MacRoman` is that encoding and its inverse. `Fill` models the
script with its literals decoded. `FillAsWritten` models the stored text:
the character class of `safeSlug` with its out-of-order range, the
keyword tests and the stage-two keys as stored.

## Model

| member | source | states |
|---|---|---|
| Cart.FindIndex | lib/cart.tsx:41 | -1 exactly when no line has the slug; otherwise the first position whose line has it |
| Cart.CountAppend | lib/cart.tsx:37 | the count of two lists joined is the sum of their counts |
| Cart.TotalAppend | lib/cart.tsx:38 | the total of two lists joined is the sum of their totals |
| Cart.CountUpdate | lib/cart.tsx:37 | replacing one line changes the count by the difference of the two quantities |
| Cart.AddExisting | lib/cart.tsx:41-43 | adding a slug the cart holds keeps the length; it changes only the first line with that slug, and only its quantity, which grows by `qty`; the count grows by `qty` |
| Cart.AddNew | lib/cart.tsx:45 | adding a new slug appends exactly `{ ...item, qty }` at the end; the count grows by `qty`; the toast lists the new line first |
| Cart.AddCount | lib/cart.tsx:39-46 | whatever the cart holds, `add` raises the count by `qty` and leaves a line with the slug |
| Cart.AddUnique | lib/cart.tsx:39-46 | `add` keeps the slugs of the lines pairwise distinct |
| Cart.RemoveSpec | lib/cart.tsx:51 | no line with the slug survives `remove`, and exactly the lines with other slugs do |
| Cart.RemoveAppend | lib/cart.tsx:51 | `remove` of joined lists is the join of the two removals, so the kept lines keep their order |
| Cart.RemoveAbsent | lib/cart.tsx:51 | removing a slug the cart does not hold changes nothing |
| Cart.RemoveAfterAdd | lib/cart.tsx:45-51 | removing a slug that was just added as a new line gives back the cart as it was |
| Cart.SetQtySpec | lib/cart.tsx:53 | `setQty` sets the quantity of every line with the slug and leaves the other lines as they were |
| Cart.AddIsSetQty | lib/cart.tsx:39-53 | on a cart with distinct slugs, adding a slug it holds is `setQty` to the old quantity plus `qty` |
| Cart.ClearEmpty | lib/cart.tsx:37-52 | after `clear` the count and the total are zero and the toast lists nothing |
| Cart.TotalOfNewLine | lib/cart.tsx:38-45 | adding a new line raises the total by price times quantity, or by nothing when the price is missing |
| Cart.TopItems | lib/cart.tsx:83 | the toast shows the last three lines (or all of them when there are fewer), newest first |
| Leads.Defaults | app/api/leads/route.ts:10-13 | the kind is never empty and the total is the number sent, or 0 |
| Leads.DefaultsSpec | app/api/leads/route.ts:10-13 | a missing kind reads as `contact`, a missing total as 0 and a missing cart as no lines |
| Leads.Post | app/api/leads/route.ts:15-19 | the reply is the 400 for a bad phone exactly when the cart is empty and the phone fails `^[+\d\s()-]{8,20}$` |
| Leads.CartAlwaysAccepted | app/api/leads/route.ts:15-41 | a request with a non-empty cart is accepted whatever its phone, and writes an order record and no contact record |
| Leads.LeadOnlyForValidPhone | app/api/leads/route.ts:22-28 | a database lead is created exactly when the database answers and the phone is valid, and it carries that phone |
| Leads.FallbackExactlyOne | app/api/leads/route.ts:44-57 | with the database down, an accepted request writes exactly one log record, to `orders.json` exactly when it has a cart, and no database lead |
| Leads.OrderRecordFields | app/api/leads/route.ts:31-40 | the order record holds the cart, kind, total and the phone or null; its id is the lead's id when a lead was made, else `file:<now>`; the reply returns that id |
| Leads.NoLogForContactWithDb | app/api/leads/route.ts:43 | a contact request with the database up writes no log record |
| Leads.LeadStore.Handle | app/api/leads/route.ts:8-61 | one request appends the lead to the table and the record to its log file (onto an empty array when the file does not parse) and replies as `Post` says; nothing else changes |
| Middleware.GetLocale | middleware.ts:7-11 | the locale is always a supported one; it is the cookie exactly when the cookie names a supported locale, and anything but `ru` comes from the cookie |
| Middleware.PassThroughIff | middleware.ts:16-22 | a request passes through untouched exactly when its path starts with `/api` or `/_next` or contains a dot |
| Middleware.RedirectIff | middleware.ts:56-60 | a request is redirected exactly when it is not passed through and its first path segment is not a locale, and the target is `/<locale><path>` |
| Middleware.AdminIff | middleware.ts:25-53 | a locale path gets the 401 exactly when its second segment is `admin` and the guard fails; otherwise it continues |
| Middleware.AdminClosedWithoutEnv | middleware.ts:37-39 | without both `ADMIN_USER` and `ADMIN_PASS` every request to the admin area gets the 401 |
| Middleware.RedirectIsFinal | middleware.ts:56-60 | the redirect target is never redirected again |
| Middleware.LocalePrefixed | middleware.ts:25-26 | `/<locale><path>` has the locale as its first segment |
| Middleware.CredentialsMatchIff | middleware.ts:44-46 | the corrected credential test accepts a decoded header exactly when it is `user:pass` |
| Middleware.CredentialsAgree | middleware.ts:44-46 | the credential test as written and the corrected one agree on every decoded header with at most one colon |
| Middleware.AsWrittenRejectsColonPassword | middleware.ts:45-46 | as written, no header is accepted for a password that contains a colon |
| Middleware.AsWrittenRefusesColon | middleware.ts:45-46 | as written, `user:a:b` is refused for the password `a:b`, which the corrected test accepts |
| Middleware.AsWrittenAcceptsSuffix | middleware.ts:45-46 | as written, `user:pass:junk` is accepted for the password `pass`, which the corrected test refuses |
| CheckStats.Count | scripts/check_stats.mjs:8-18 | the loop counts all products, those with no image (a missing field counts), those with more than one, and those with no `images` field; the first two never sum past the total and the missing ones are among the imageless |
| CheckStats.ZeroAndManyDisjoint | scripts/check_stats.mjs:13-16 | no product falls in both the no-image and the several-images bucket, and a missing field counts as no image |
| CheckStats.BucketsBounded | scripts/check_stats.mjs:12-17 | over any catalogue the two buckets together hold at most every product, and the missing ones are among the imageless |
| ParseUtil.CategorySlugFromUrl | prisma/import/parse.util.mjs:4-12 | the category slug is never empty |
| ParseUtil.CategorySlugSpec | prisma/import/parse.util.mjs:4-12 | the category is the segment right after the first `catalog` segment; it is `catalog` when there is no such segment or `catalog` comes last |
| ParseUtil.InvalidUrlGivesCatalog | prisma/import/parse.util.mjs:10-11 | a URL that does not parse gives `catalog` |
| ParseUtil.CategoryOfProductPath | prisma/import/parse.util.mjs:6-9 | for `/catalog/<b>/<c>` the category is `b` |
| ParseUtil.ParseProductHtml | prisma/import/parse.util.mjs:14-27 | the record keeps the page URL, its slug is the slug of its name and its category is the one the URL gives |
| ParseUtil.PriceFromDigits | prisma/import/parse.util.mjs:18-19 | `priceRaw` holds only digits, the price is the number they spell, and `priceRaw` is empty exactly when the price text has no digit |
| ParseUtil.NameDefault | prisma/import/parse.util.mjs:16 | the name is the trimmed heading, or `Товар` when the heading is blank; it is never empty |
| ImagePick.Webps | scripts/sync_images_to_json.mjs:34 | the `.webp` names are exactly the listed names ending in `.webp`, in any letter case |
| ImagePick.FirstAlt | scripts/sync_images_to_json.mjs:39 | -1 exactly when no name is `alt<digits>.webp`; otherwise the first position of such a name |
| ImagePick.PickSpec | scripts/sync_images_to_json.mjs:36-41 | the kept file is one of the names, no name is preferred to it (`main.webp`, then an alternate, then anything), and it is the first of its rank |
| SyncImages.Others | scripts/sync_images_to_json.mjs:43-47 | the deleted files are exactly the `.webp` files other than the kept one |
| SyncImages.SyncAllAt | scripts/sync_images_to_json.mjs:28-55 | each product of the synced catalogue is its own product synced |
| SyncImages.Sync | scripts/sync_images_to_json.mjs:27-59 | the loop leaves each product synced in place, counts the updated and the skipped products, unlinks the other files of each kept directory in loop order, and rewrites the catalogue exactly when something was updated |
| SyncImages.PrefixStep | scripts/sync_images_to_json.mjs:28-55 | one more product extends the synced prefix, the two counters and the deletions by that product's step |
| SyncImages.SkipIff | scripts/sync_images_to_json.mjs:29-35 | a product is skipped exactly when it has no slug, no readable directory or no `.webp` file, and a skipped product is left as it was |
| SyncImages.KeepSpec | scripts/sync_images_to_json.mjs:36-54 | for a kept product the kept file is the preferred `.webp`, every other `.webp` is deleted, and afterwards `images` is exactly the kept file's public path while slug and title stay |
| SyncImages.JoinWithoutSeparator | scripts/sync_images_to_json.mjs:49-51 | a join on the bar separator that equals a non-empty text without that separator came from that text alone |
| SyncImages.SyncIdempotent | scripts/sync_images_to_json.mjs:36-54 | once the other files are gone, a second sync keeps the same file, deletes nothing and changes nothing |
| SyncImages.NoChangeNoWrite | scripts/sync_images_to_json.mjs:51-58 | when no product was updated every product is left as it was, so skipping the write loses nothing |
| Catalog.Values | app/api/products/route.ts:232 | `Object.values(specs)` lists every value of the dictionary, in entry order |
| Catalog.FirstHit | app/api/products/route.ts:182-207 | the position of the first test that accepts the text: every earlier test refuses it, and it is the number of tests when none accepts |
| Catalog.FirstMatch | app/api/products/route.ts:136-178 | a chain of `if (test(s)) return name` gives nothing exactly when no test accepts, and otherwise the name of the first accepting test |
| Catalog.AnyTestSpec | app/api/products/route.ts:233 | `rules.some(re => re.test(text))` holds exactly when one of the tests accepts the text |
| Catalog.KeywordsOf | app/api/products/route.ts:216-229 | the keyword lookup gives no rule for a slug not in the table and the rules listed with the slug's first entry otherwise |
| ProductsRoute.ServedAfterSet | app/api/products/route.ts:14-25 | a response stored at `ts` is served at `now` exactly while it is at most 30 000 ms old, and not once it is older |
| ProductsRoute.ServedOtherKey | app/api/products/route.ts:14-25 | storing one key changes nothing that is served for another |
| ProductsRoute.AfterGetSpec | app/api/products/route.ts:14-22 | a read serves what was there, removes the key when its entry has expired, and leaves every other key as it was |
| ProductsRoute.ExpiryIsFinal | app/api/products/route.ts:17 | an entry that has expired stays expired at any later time |
| ProductsRoute.Cache.Get | app/api/products/route.ts:14-22 | `getFromCache` returns the entry's data while it is fresh, nothing otherwise, and deletes an expired entry |
| ProductsRoute.Cache.Set | app/api/products/route.ts:23-25 | `setCache` stores the data under the key with the current time and changes no other key |
| ProductsRoute.Units | app/api/products/route.ts:300 | a character is one UTF-16 code unit inside the Basic Multilingual Plane and a surrogate pair outside it; every unit is below 0x10000 |
| ProductsRoute.UnitsDecode | app/api/products/route.ts:300 | a surrogate pair lies in the high and low surrogate ranges and decodes back to its character |
| ProductsRoute.Utf16Bmp | app/api/products/route.ts:299-301 | a string inside the Basic Multilingual Plane has one code unit per character, its own code |
| ProductsRoute.FnvVectors | app/api/products/route.ts:297-304 | the hash gives the published 32-bit FNV-1a values for "" (0x811C9DC5) and "a" (0xE40C292C) |
| ProductsRoute.Hash | app/api/products/route.ts:297-304 | the loop computes 32-bit FNV-1a over the string's UTF-16 code units: xor each unit in, multiply by 16777619 modulo 2^32 |
| ProductsRoute.FirstDigit | app/api/products/route.ts:115 | the first position holding a digit, or the length when there is none |
| ProductsRoute.Read | app/api/products/route.ts:115-118 | the number pattern matches exactly when the text has a digit; it then reads a non-empty run of digits, an optional fraction and the unit after optional white space |
| ProductsRoute.RoundedInteger | app/api/products/route.ts:117-120 | `Math.round(n * factor)` of a whole number is `n * factor` |
| ProductsRoute.Normalize | app/api/products/route.ts:112-135 | `normDim`/`normVol` give `""` for a blank value and the trimmed value when it has no digit |
| ProductsRoute.NormalizeNotBlank | app/api/products/route.ts:112-135 | a value that is not blank never normalises to a blank one |
| ProductsRoute.NormalizeBareInteger | app/api/products/route.ts:115-120 | an integer without a scaled unit is written with the base unit: `normDim("25")` is `25 мм` |
| ProductsRoute.NormalizeScaledInteger | app/api/products/route.ts:128-131 | an integer followed by a scaled unit is multiplied: `normDim("12 см")` is `120 мм`, `normVol("2 л")` is `2000 мл` |
| ProductsRoute.NormalizeForms | app/api/products/route.ts:112-135 | a normalised value is blank, the digit-free input trimmed, or a whole number with the base unit |
| ProductsRoute.NormalizeOutput | app/api/products/route.ts:112-135 | a whole number with the base unit normalises to itself |
| ProductsRoute.NormalizeTwice | app/api/products/route.ts:112-135 | normalising a normalised value changes nothing |
| ProductsRoute.NormDimIdempotent | app/api/products/route.ts:112-123 | `normDim(normDim(v)) == normDim(v)` |
| ProductsRoute.NormVolIdempotent | app/api/products/route.ts:124-135 | `normVol(normVol(v)) == normVol(v)` |
| ProductsRoute.CanonicalSpec | app/api/products/route.ts:136-210 | `mapMaterial`/`mapColor` give `""` for a blank value, the name of the first rule that accepts the lower-cased value, and the lower-cased value itself when no rule does |
| ProductsRoute.CanonicalRange | app/api/products/route.ts:136-210 | a canonical name is blank, the lower-cased input or one of the listed names |
| ProductsRoute.CanonicalOfName | app/api/products/route.ts:136-210 | a listed name whose own rule is the first to accept it maps to itself |
| ProductsRoute.ContainsAt | app/api/products/route.ts:140-176 | a text contains whatever starts at one of its positions |
| ProductsRoute.GlassCeramicIsGlass | app/api/products/route.ts:149-176 | every text the glass-ceramic rule accepts, the earlier glass rule accepts too |
| ProductsRoute.GlassCeramicUnreachable | app/api/products/route.ts:149-176 | `mapMaterial` never yields `стеклокерамика`, because the glass rule is tried first |
| ProductsRoute.StageSpec | app/api/products/route.ts:211-270 | applying the filters one after the other keeps exactly the records that pass all of them at once, in database order |
| ProductsRoute.FilterCategory | app/api/products/route.ts:211-238 | the category step keeps the records filed under the slug when there are any, else those whose text matches one of the slug's keyword rules, else none |
| ProductsRoute.FilterSubcategory | app/api/products/route.ts:239 | with a subcategory given, keeps the records filed under it; otherwise keeps the list |
| ProductsRoute.FilterMaterial | app/api/products/route.ts:240-246 | with a material given, keeps the records whose canonical material is not blank and equals the query's; otherwise keeps the list |
| ProductsRoute.FilterBrand | app/api/products/route.ts:247-253 | with a brand given, keeps the records whose brand text equals it ignoring case; otherwise keeps the list |
| ProductsRoute.FilterColor | app/api/products/route.ts:254-260 | with a colour given, keeps the records whose canonical colour is not blank and equals the query's; otherwise keeps the list |
| ProductsRoute.FilterText | app/api/products/route.ts:261-264 | with a search text given, keeps the records whose title or description contains it ignoring case; otherwise keeps the list |
| ProductsRoute.FilterPriceMin | app/api/products/route.ts:265 | with a minimum price, keeps the records priced at least that (a missing price counts as 0) |
| ProductsRoute.FilterPriceMax | app/api/products/route.ts:266 | with a maximum price, keeps the records priced at most that |
| ProductsRoute.FilterInStock | app/api/products/route.ts:267-270 | with `inStock=true`, keeps the records with a positive price |
| ProductsRoute.FilterRecords | app/api/products/route.ts:209-270 | the chain of nine filters keeps exactly the records of the database that pass every filter whose parameter is present, in database order |
| ProductsRoute.AcceptsMeaning | app/api/products/route.ts:211-270 | the chain accepts a record exactly when each present filter accepts it, each condition written out on its own |
| ProductsRoute.FirstStepsMeaning | app/api/products/route.ts:211-246 | the category, subcategory and material steps accept a record exactly when their parameter is absent or their condition holds |
| ProductsRoute.LaterStepsMeaning | app/api/products/route.ts:247-270 | the brand, colour, text, price and stock steps accept a record exactly when their parameter is absent or their condition holds |
| ProductsRoute.AcceptsSpec | app/api/products/route.ts:209-270 | the filtered list is a sub-bag of the database, and a record is in it exactly when it is in the database and passes every present filter |
| ProductsRoute.CategoryPrefersExact | app/api/products/route.ts:213-214 | when some record is filed under the category, the category step keeps exactly the records filed under it |
| ProductsRoute.UnknownCategoryIsEmpty | app/api/products/route.ts:229-237 | a category nothing is filed under and that has no keyword rules lists nothing |
| ProductsRoute.ByNameTotal | app/api/products/route.ts:274-283 | comparing records by a text key under a total collation order is a total preorder |
| ProductsRoute.OrdersTotal | app/api/products/route.ts:271-283 | every comparator a sort mode selects is a total preorder, given a consistent collation |
| ProductsRoute.SortedForSpec | app/api/products/route.ts:271-283 | a sort mode permutes the list and leaves it sorted by its comparator; any other mode leaves the list as it was |
| ProductsRoute.UnpricedLast | app/api/products/route.ts:272 | sorted by `price_asc`, no unpriced record comes before a priced one, and prices ascend |
| ProductsRoute.DefaultOrderSpec | app/api/products/route.ts:285-312 | the default order permutes the list; the plates come first in their order, then every other record in increasing shuffle key |
| ProductsRoute.Clamp | app/api/products/route.ts:315 | `slice` reads a negative index from the end and clamps both indices to the list |
| ProductsRoute.SliceBound | app/api/products/route.ts:314-315 | a page `pageSize` wide holds at most `pageSize` records, all from the list |
| ProductsRoute.SliceFrom | app/api/products/route.ts:314-315 | from a start inside the list, the page is the run of the list from there |
| ProductsRoute.FirstFilled | app/api/products/route.ts:323 | `firstNonEmpty` gives `""` or a value that is not blank |
| ProductsRoute.FirstFilledSpec | app/api/products/route.ts:323 | `firstNonEmpty` is `""` exactly when every value is blank, and otherwise the first value that is not blank |
| ProductsRoute.RawOf | app/api/products/route.ts:322-331 | each spec value a card reads is `""` or not blank |
| ProductsRoute.CardImage | app/api/products/route.ts:317-320 | the card's image never starts with `public/`; it is the first image as it is unless a leading `public/` or `/public/` was replaced by `/` |
| ProductsRoute.ShortSpecs | app/api/products/route.ts:332-336 | a card shows at most three short specs |
| ProductsRoute.ShortSpecsFrom | app/api/products/route.ts:332-336 | each short spec is the material, the colour, the normalised volume or the normalised size, each only when present |
| ProductsRoute.ShortSpecsSpec | app/api/products/route.ts:332-336 | no short spec is blank, and the material leads when there is one |
| ProductsRoute.DetectCategory | app/api/products/route.ts:338-355 | the detected category is the record's own slug trimmed when it has one, else blank or one of the first ten curated slugs |
| ProductsRoute.Highlights | app/api/products/route.ts:357-397 | a card has at most three highlights: exactly the category's candidates whose value is not blank |
| ProductsRoute.CardSpec | app/api/products/route.ts:315-409 | a card has at most three short specs and three highlights, none blank, an image without `public/`, and material and colour only when not blank |
| ProductsRoute.Cards | app/api/products/route.ts:315 | one card per listed record, in order |
| ProductsRoute.ListingPermutes | app/api/products/route.ts:271-312 | the listing is a rearrangement of exactly the filtered records |
| ProductsRoute.ListingSpec | app/api/products/route.ts:209-312 | a record is listed exactly when it is in the database and passes every present filter |
| ProductsRoute.PageSpec | app/api/products/route.ts:313-315 | `total` counts every filtered record whatever the page, and a page holds at most `pageSize` cards |
| ProductsRoute.ListRecords | app/api/products/route.ts:209-312 | filters, sorts and, when no sort and no category are given, applies the default order seeded with the hash of the date |
| ProductsRoute.BuildPage | app/api/products/route.ts:313-411 | the payload holds the listing's length, the page numbers and the cards of the requested slice |
| ProductsRoute.Serve | app/api/products/route.ts:64-418 | a fresh cached payload is returned with the cache unchanged; otherwise an unreadable database gives the empty payload, and a readable one gives the built page, which is cached under the key |
| FacetsRoute.FreshAfterSet | app/api/facets/route.ts:9-10 | a response stored at `ts` is served at `now` exactly while it is at most 60 000 ms old |
| FacetsRoute.SlotAfterGetSpec | app/api/facets/route.ts:92-96 | a read that finds nothing fresh empties the slot, and a read that finds a fresh response keeps it |
| FacetsRoute.FacetsCache.Get | app/api/facets/route.ts:92-96 | `getCached` answers the stored response while it is fresh, else nothing, and drops an expired one |
| FacetsRoute.FacetsCache.Set | app/api/facets/route.ts:97 | `setCached` replaces the slot with the new response stamped with the current time |
| FacetsRoute.CaseRoundTrip | app/api/facets/route.ts:15-16 | lower-casing the upper-cased lower-case form of a letter gives back its lower-case form |
| FacetsRoute.NormalizeSpec | app/api/facets/route.ts:11-17 | `normalize` is blank exactly for blank text, keeps the trimmed length, and agrees with the trimmed text up to case |
| FacetsRoute.NormalizeIdempotent | app/api/facets/route.ts:11-17 | normalising a normalised name changes nothing |
| FacetsRoute.MapMaterialSpec | app/api/facets/route.ts:20-62 | a material facet is blank exactly for blank input, and otherwise is the name of one of the 32 rules or the normalised text |
| FacetsRoute.MapColorSpec | app/api/facets/route.ts:63-91 | a colour facet is blank exactly for blank input, and otherwise is one of the rule names, "Бордовый", or the normalised text |
| FacetsRoute.LowerBurgundy | app/api/facets/route.ts:70 | the lower-case form of "Бордовый" begins with the burgundy keyword |
| FacetsRoute.BurgundyIsNoRuleName | app/api/facets/route.ts:67-89 | "Бордовый" is the name of no colour rule, so it comes only from the red rule or from normalisation |
| FacetsRoute.NormalizedBurgundy | app/api/facets/route.ts:63-91 | text that normalises to "Бордовый" contains the burgundy keyword |
| FacetsRoute.BurgundyOnlyFromText | app/api/facets/route.ts:63-91 | the colour facet is "Бордовый" only for text that mentions "бордов" or "марсал" |
| FacetsRoute.BumpSpec | app/api/facets/route.ts:222 | the counter update adds one to `k`, leaves every other key alone, adds one to the total, and appends `k` to the key order only when it is new |
| FacetsRoute.BumpCounts | app/api/facets/route.ts:222 | incrementing a key adds one to its count and to the total and no other count changes |
| FacetsRoute.BumpNames | app/api/facets/route.ts:222 | incrementing a key keeps the insertion order, appending the key only when it is new |
| FacetsRoute.TallySpec | app/api/facets/route.ts:210-228 | each non-blank key's count is the number of records with that key, keys are distinct and non-blank, and the total is the number of records with a key |
| FacetsRoute.TallyBound | app/api/facets/route.ts:210-228 | no count and no total exceeds the number of records |
| FacetsRoute.CountOfMissing | app/api/facets/route.ts:222 | a key the counter does not hold counts zero |
| FacetsRoute.ByCountTotal | app/api/facets/route.ts:246-248 | the order "count descending" compares every pair and is transitive, as a sort comparator must |
| FacetsRoute.RankedSpec | app/api/facets/route.ts:246-248 | the sorted list is a permutation of the counter's entries with counts non-increasing |
| FacetsRoute.CountOfMember | app/api/facets/route.ts:246-248 | in a counter with distinct keys an entry's count is the count of its key |
| FacetsRoute.RankedTallySpec | app/api/facets/route.ts:246-248 | the brand, material and colour lists hold every key of the records once, each with its number of records, largest first |
| FacetsRoute.BumpInSpec | app/api/facets/route.ts:215-220 | incrementing a subcategory under a category changes that category's counter only, and appends the category only when it is new |
| FacetsRoute.BumpInGroups | app/api/facets/route.ts:216-219 | the incremented category's counter is its old counter with the subcategory incremented, and every other category's is unchanged |
| FacetsRoute.BumpInCats | app/api/facets/route.ts:216 | the category order gains the category only when it had no counter yet |
| FacetsRoute.SubTallySpec | app/api/facets/route.ts:215-220 | the count of a subcategory under a category is the number of records carrying both slugs |
| FacetsRoute.SubTallyNames | app/api/facets/route.ts:215-220 | category slugs are distinct and non-blank, and so are the subcategory slugs under each |
| FacetsRoute.GroupOfAt | app/api/facets/route.ts:217 | with distinct category slugs, looking a category up finds its own counter |
| FacetsRoute.CuratedDistinct | app/api/facets/route.ts:184-196 | the eleven curated definitions have distinct slugs |
| FacetsRoute.CuratedStepSpec | app/api/facets/route.ts:235-239 | one pass over the definitions adds one to each definition whose keywords the text mentions, and nothing else |
| FacetsRoute.StepOverAt | app/api/facets/route.ts:235-239 | after the first `n` of distinct keys, each key gained one exactly when it is among them and its test held |
| FacetsRoute.CuratedTallySpec | app/api/facets/route.ts:230-240 | each curated count is the number of records whose search text one of the definition's keywords matches |
| FacetsRoute.PutSpec | app/api/facets/route.ts:203 | `top[slug] = entry` keeps one entry per slug, the new one, and appends the slug to the key order only when it is new |
| FacetsRoute.PutMembers | app/api/facets/route.ts:203 | after the assignment the entries are the new one and the old ones under other slugs |
| FacetsRoute.PutSlugs | app/api/facets/route.ts:203 | the slug order gains the slug only when it was absent |
| FacetsRoute.TopSpec | app/api/facets/route.ts:199-208 | top-level categories have distinct slugs and are exactly the rows without a parent that no later parentless row with the same slug overrides |
| FacetsRoute.LatestSnoc | app/api/facets/route.ts:202-203 | a row stays the last word on its slug after one more row exactly when that row has a parent or another slug |
| FacetsRoute.TopPut | app/api/facets/route.ts:203 | a parentless row keeps the top-level invariant: distinct slugs, exactly the latest parentless rows |
| FacetsRoute.TopSkip | app/api/facets/route.ts:203-205 | a row with a parent leaves the top-level categories and their invariant as they were |
| FacetsRoute.AppendSpec | app/api/facets/route.ts:204-205 | pushing under a parent appends to that parent's list only, creating the list (and the key) only when it is new |
| FacetsRoute.AppendItems | app/api/facets/route.ts:204-205 | the parent's list gains the entry at its end |
| FacetsRoute.AppendOthers | app/api/facets/route.ts:204-205 | every other parent's list is unchanged |
| FacetsRoute.AppendParents | app/api/facets/route.ts:204 | the parent order gains the parent only when it had no list yet |
| FacetsRoute.SubsSpec | app/api/facets/route.ts:199-207 | each parent's subcategories are its child rows in file order, and parents are distinct and non-blank |
| FacetsRoute.ReadHierarchy | app/api/facets/route.ts:199-208 | the loop over `categories.json` builds the top-level record and the subcategory lists |
| FacetsRoute.CountCurated | app/api/facets/route.ts:235-239 | the loop over the curated definitions performs the full pass over all eleven |
| FacetsRoute.CuratedBump | app/api/facets/route.ts:236-238 | one definition's step increments its slug exactly when one of its keywords matches |
| FacetsRoute.CountRecords | app/api/facets/route.ts:210-241 | the single loop over the records fills the category, subcategory, brand, material, colour and curated counters |
| FacetsRoute.ByCategoryCountTotal | app/api/facets/route.ts:245 | "count descending, missing counts as zero" is a total preorder |
| FacetsRoute.DerivedSpec | app/api/facets/route.ts:243-245 | derived categories are exactly the counter's slugs, named by their slug, with their counts, largest first |
| FacetsRoute.CountersSpec | app/api/facets/route.ts:246-248 | the brand, material and colour facets list every key once with its number of records, largest first |
| FacetsRoute.TopUncounted | app/api/facets/route.ts:203 | categories read from the hierarchy carry no count |
| FacetsRoute.CategoriesSpec | app/api/facets/route.ts:242-245 | categories are the hierarchy's top level in file order when it yields any, else every record category slug with its number of records, largest first |
| FacetsRoute.SubcategoriesSpec | app/api/facets/route.ts:250-254 | subcategories are the hierarchy's when it yields any, else one list per category slug of the records |
| FacetsRoute.DerivedGroupSpec | app/api/facets/route.ts:252 | a derived subcategory list holds its category's subcategory slugs, each with its number of records, largest first |
| FacetsRoute.CuratedMembers | app/api/facets/route.ts:256-258 | the curated list holds exactly the definitions with a positive count, with that count |
| FacetsRoute.CuratedSpec | app/api/facets/route.ts:256-258 | the curated facet holds exactly the definitions that some record's search text matches, each with the number of matching records |
| FacetsRoute.CuratedOfTally | app/api/facets/route.ts:230-258 | filtering the tallied definitions to positive counts keeps exactly the matched definitions with their counts |
| FacetsRoute.ServeFacets | app/api/facets/route.ts:99-266 | a fresh cached response is served as is; an unreadable records file answers the empty facets without caching; otherwise the facets of the records are served and cached |
| Casing.CapWord | scripts/enrich_products.mjs:164 | capitalising a word keeps its length |
| Casing.WordsCapitalized | scripts/enrich_products.mjs:164 | capitalising each piece between spaces and re-joining upper-cases exactly the characters that start the text or follow a space |
| Casing.CapStartsAround | scripts/enrich_products.mjs:164 | around the first space, word-start capitalisation splits into the first word, the space, and the rest |
| Casing.TitleCaseSpec | scripts/enrich_products.mjs:164 | `titleCaseRu(s)` is the collapsed text with every word start upper-cased and nothing else changed |
| Casing.ReplaceFrom | scripts/enrich_products.mjs:171-172 | the left-to-right scan of a replacement keeps the length of the rest of the text |
| Casing.WordCharLower | scripts/enrich_products.mjs:171-172 | lower-casing a character does not change whether it is a word character |
| Casing.MatchAtUpToCase | scripts/enrich_products.mjs:171-172 | whether a case-insensitive whole-word match starts at a position depends on the text only up to letter case |
| Casing.NoBoundaryInside | scripts/enrich_products.mjs:171-172 | no word boundary falls strictly inside a match of a word whose characters are all on one side of the word class |
| Casing.MatchesApart | scripts/enrich_products.mjs:171-172 | two matches of such a word never overlap |
| Casing.ReplaceFromKeeps | scripts/enrich_products.mjs:171-172 | the scan keeps every character that lies in no match |
| Casing.ReplaceFromCase | scripts/enrich_products.mjs:171-172 | replacing matches by a text equal to the word up to case changes the text only in case |
| Casing.ReplaceAtMatch | scripts/enrich_products.mjs:171-172 | every match at or after the scan's start is replaced by the replacement text |
| Casing.ReplaceWordSpec | scripts/enrich_products.mjs:171-172 | a global case-insensitive whole-word replace turns every match into the replacement, keeps every other character, and changes only letter case |
| Casing.AbbrevFacts | scripts/enrich_products.mjs:171-172 | "свч" and "пмм" are Cyrillic words without an ASCII word character, with no letters in common, and their upper-case forms lower-case back to them |
| Casing.CapitalizedUpToCase | scripts/enrich_products.mjs:164 | upper-casing the word starts changes only letter case |
| Casing.CollapsedUpToCase | scripts/enrich_products.mjs:158 | a text equal up to case to a collapsed text is collapsed |
| Casing.AbbrevsApart | scripts/enrich_products.mjs:171-172 | an "свч" and a "пмм" found in the same text do not overlap |
| Casing.TitleOfAllCaps | scripts/enrich_products.mjs:168-170 | lower-casing collapsed text keeps it collapsed, and title-casing it gives the word-start capitalisation, equal to the original up to case |
| Casing.NormalizeCaseSpec | scripts/enrich_products.mjs:165-176 | text that is not all capitals comes back collapsed and unchanged; all-capital text becomes its word-start capitalised lower-case form with whole-word "свч"/"пмм" restored to "СВЧ"/"ПММ" and every other character kept; only letter case ever changes |
| Casing.AllCapsBranch | scripts/enrich_products.mjs:169-174 | the all-capitals branch yields collapsed text equal to the input up to case, with the abbreviations restored and the rest title-cased |
| Casing.RestoreSpec | scripts/enrich_products.mjs:171-172 | the two replacements restore every whole-word "свч" and "пмм" and keep every other character |
| Casing.SecondKeepsFirst | scripts/enrich_products.mjs:172 | the "пмм" replacement leaves an "СВЧ" written by the first replacement alone |
| Casing.CoveredUpToCase | scripts/enrich_products.mjs:171-172 | whether a position lies in a match depends on the text only up to case |
| Casing.NormalizeCaseShape | scripts/enrich_products.mjs:165-176 | the result of `normalizeCase` is collapsed and differs from the collapsed input only in letter case |
| Casing.RestoreUpToCase | scripts/enrich_products.mjs:171-172 | restoring the abbreviations changes only letter case |
| Casing.NormalizeCaseIdempotent | scripts/enrich_products.mjs:165-176 | normalising twice gives the same text as normalising once |
| Casing.AsWrittenNeedsAsciiNeighbours | scripts/enrich_products.mjs:171-172 | with `\b` read on ASCII word characters, a Cyrillic word matches only where ASCII word characters touch it on both sides |
| Casing.AsWrittenKeepsCyrillic | scripts/enrich_products.mjs:171-172 | as written, text without ASCII word characters passes the replacement unchanged |
| Casing.TitleOfSvch | scripts/enrich_products.mjs:168-170 | "СВЧ" is collapsed and all capitals, and its title-cased lower-case form is "Свч" |
| Casing.AsWrittenLosesSvch | scripts/enrich_products.mjs:165-176 | as written, the all-capitals label "СВЧ" comes out as "Свч" |
| Casing.NormalizeKeepsSvch | scripts/enrich_products.mjs:165-176 | with the boundary read on letters, "СВЧ" comes out unchanged |
| Casing.CaseReadingsAgree | scripts/enrich_products.mjs:165-176 | the two readings of `normalizeCase` differ only on all-capital text: any other text comes back collapsed by both |
| Casing.SvchRestored | scripts/enrich_products.mjs:171 | replacing whole-word "свч" in "Свч" gives "СВЧ" |
| Casing.PmmAbsent | scripts/enrich_products.mjs:172 | the "пмм" replacement leaves "СВЧ" unchanged |
| Text.TrimShape | scripts/enrich_products.mjs:158 | a trimmed text is empty or neither starts nor ends with white space |
| Text.TrimIdentity | scripts/enrich_products.mjs:158 | trimming text that neither starts nor ends with white space changes nothing |
| Text.SqueezeSqueezed | prisma/import/import2.mjs:338 | after `replace(/\s+/g, ' ')` the only white space left is single spaces |
| Text.SqueezeOfSqueezed | prisma/import/import2.mjs:338 | the replacement leaves already squeezed text alone |
| Text.CollapseWsCollapsed | scripts/enrich_products.mjs:158 | collapsed text has single spaces between words and none at either end |
| Text.CollapseWsOfCollapsed | scripts/enrich_products.mjs:158 | collapsing collapsed text changes nothing |
| Text.CollapseWsIdempotent | scripts/enrich_products.mjs:158 | collapsing twice gives the same text as collapsing once |
| Text.CollapseWsEmpty | scripts/enrich_products.mjs:158 | collapsed text is empty exactly when the input is all white space |
| Text.TrimEmpty | scripts/enrich_products.mjs:158 | trimmed text is empty exactly when the input is all white space |
| Text.ContainsAppendRight | app/api/facets/route.ts:232-236 | a text that contains a pattern still contains it with more text after it |
| Text.ContainsAppendLeft | app/api/facets/route.ts:232-236 | a text that contains a pattern still contains it with more text before it |
| Text.Split | prisma/import/parse.util.mjs:7 | `split(c)` yields at least one piece and no piece contains the separator |
| Text.JoinSplit | scripts/enrich_products.mjs:164 | joining the pieces of `split(c)` with `c` gives the text back |
| Text.IndexOfPart | prisma/import/parse.util.mjs:8 | `parts.indexOf(x)` is -1 exactly when `x` is absent, and otherwise the first position holding `x` |
| Text.NonEmpty | prisma/import/parse.util.mjs:7 | `filter(Boolean)` keeps exactly the non-empty pieces |
| Text.NonEmptySnoc | prisma/import/parse.util.mjs:7 | filtering a list with one more piece appends that piece only when it is non-empty |
| Text.PathSegments | prisma/import/parse.util.mjs:7 | the path segments are non-empty and free of '/' |
| Text.SegmentsCons | prisma/import/parse.util.mjs:7 | a leading `/segment` contributes exactly that segment |
| Text.LeadingSlash | prisma/import/parse.util.mjs:7 | a leading '/' adds no segment |
| Text.NatToStringRoundTrip | prisma/import/import2.mjs:218 | `Number(String(n))` is `n` for every non-negative integer |
| Text.DigitsOnly | prisma/import/parse.util.mjs:18 | `replace(/[^\d]/g, '')` yields only digits, and is empty exactly when the input has none |
| Text.Lower | scripts/enrich_products.mjs:168 | `toLowerCase` on the one-to-one case pairs of Basic Latin, Latin-1, Latin Extended-A, Cyrillic and the Cyrillic Supplement: it keeps the length and lower-cases each character |
| Text.Upper | scripts/enrich_products.mjs:168 | `toUpperCase` on the same case pairs: it keeps the length and upper-cases each character |
| Text.LowerOfUpper | scripts/enrich_products.mjs:168 | on those case pairs, lower-casing forgets an earlier upper-casing |
| Text.CaseKeepsWs | scripts/enrich_products.mjs:168 | changing case never turns white space into a letter or back |
| Text.CharRoundTrip | scripts/enrich_products.mjs:168 | for one character: lower-casing is idempotent and undoes upper-casing |
| Text.LowerIdempotent | app/api/facets/route.ts:15-16 | lower-casing twice is lower-casing once |
| Text.LowerBasicCyrillic | scripts/enrich_products.mjs:168 | Ѐ to Џ lower-case 80 places on, А to Я 32 places on, and the lower-case letters of the block stay |
| Text.UpperBasicCyrillic | scripts/enrich_products.mjs:168 | ѐ to џ upper-case 80 places back, а to я 32 places back, and the capitals of the block stay |
| Text.TurkishLetters | scripts/enrich_products.mjs:168 | the letters Ş and Ç of a brand such as PAŞABAHÇE lower-case to ş and ç and back |
| Text.ContainsLonger | app/api/facets/route.ts:232-236 | a text that contains a pattern followed by more contains the pattern |
| Sentences.FindBoundary | scripts/enrich_products.mjs:160 | the search finds the first split point (a white-space character right after '.', '!' or '?') at or after the start, or reports none |
| Sentences.FindBoundaryIsFirst | scripts/enrich_products.mjs:160 | the search stops at the first split point |
| Sentences.SplitSentences | scripts/enrich_products.mjs:160 | the sentence split yields at least one piece |
| Sentences.Take | scripts/enrich_products.mjs:161-162 | `slice(0, max)` keeps a prefix of at most `max` pieces, all of them when there are no more |
| Sentences.FirstPiece | scripts/enrich_products.mjs:160 | in collapsed text, the text before the first split point is one sentence ending in '.', '!' or '?' |
| Sentences.RestPiece | scripts/enrich_products.mjs:160 | after the first split point of collapsed text comes one space and then non-empty collapsed text |
| Sentences.SplitStep | scripts/enrich_products.mjs:160 | the split of a text is its first piece followed by the split of what follows the split point |
| Sentences.SplitCollapsed | scripts/enrich_products.mjs:160 | collapsed non-empty text splits into a list of sentences that joins back with spaces to the text |
| Sentences.JoinCollapsed | scripts/enrich_products.mjs:161-162 | joining a list of sentences with spaces gives collapsed text |
| Sentences.SplitJoin | scripts/enrich_products.mjs:160-162 | splitting a joined list of sentences gives the list back |
| Sentences.TakeSentenceList | scripts/enrich_products.mjs:161-162 | a prefix of a list of sentences is a list of sentences |
| Sentences.NonEmptyOfSentences | scripts/enrich_products.mjs:160 | `filter(Boolean)` leaves a list of sentences unchanged |
| Sentences.JoinTakePrefix | scripts/enrich_products.mjs:161-162 | the joined prefix of the pieces is a prefix of the joined text |
| Sentences.CapOfCollapsed | scripts/enrich_products.mjs:159-163 | `splitSentences(t, max)` of collapsed text is a collapsed prefix of it with at most `max` sentences, and capping again changes nothing |
| SpecMap.GetSome | scripts/enrich_products.mjs:210 | a key is present exactly when some entry carries it |
| SpecMap.GetAt | scripts/enrich_products.mjs:210 | with distinct keys, looking up an entry's key finds that entry's value |
| SpecMap.PutFacts | scripts/enrich_products.mjs:210 | `specs[key] = val` sets the key, leaves every other key alone, appends the key only when it is new, and keeps keys distinct |
| SpecMap.PutGet | scripts/enrich_products.mjs:210 | after the assignment the key holds the assigned value |
| SpecMap.PutOther | scripts/enrich_products.mjs:210 | the assignment leaves every other key as it was |
| SpecMap.PutKeys | scripts/enrich_products.mjs:210 | the assignment keeps the key order, appending a new key at the end |
| SpecMap.PutUnique | scripts/enrich_products.mjs:210 | the assignment keeps keys distinct |
| SpecMap.LastWins | scripts/enrich_products.mjs:203-211 | the object built by assigning every pair in order has distinct keys |
| SpecMap.FirstWins | prisma/import/import2.mjs:341 | the object built by `if (!specs[key]) specs[key] = val` has distinct keys |
| SpecMap.LastWinsGet | scripts/enrich_products.mjs:203-211 | under repeated assignment each key holds the value of its last pair |
| SpecMap.FirstWinsGet | prisma/import/import2.mjs:341 | under assign-if-absent each key holds the value of its first pair |
| SpecMap.GetIn | scripts/enrich_products.mjs:210 | a present key's value belongs to an entry of the object |
| SpecMap.PutFrom | scripts/enrich_products.mjs:210 | the assignment adds no entry but the assigned one |
| SpecMap.LastWinsFrom | scripts/enrich_products.mjs:203-211 | every entry of a last-wins object is one of the pairs it was built from |
| SpecMap.FirstWinsFrom | prisma/import/import2.mjs:341 | every entry of a first-wins object is one of the pairs it was built from |
| SpecMap.FirstWinsHas | prisma/import/import2.mjs:341 | the first-wins object has exactly the keys of its pairs |
| SpecMap.FoldsSameKeys | prisma/import/import2.mjs:341 | both ways of building the object list the same keys in the order of their first pair |
| SpecMap.LastValueConcat | scripts/enrich_products.mjs:203-211 | the last pair with a key lies in the later part when that part has one |
| SpecMap.LastValueSome | scripts/enrich_products.mjs:203-211 | some pair carries a key exactly when it has a last pair |
| SpecMap.LastWinsOfUnique | scripts/scrape_complex_bar.mjs:551 | `Object.fromEntries` of entries with distinct keys rebuilds the same object |
| SpecMap.PutNew | scripts/enrich_products.mjs:210 | assigning a new key appends it as the last entry |
| SpecMap.NonBlankEntries | scripts/scrape_complex_bar.mjs:519 | `Object.entries(m).filter(([k, v]) => k && v)` keeps only entries of the object with a non-empty key and value |
| SpecMap.NonBlankUnique | scripts/scrape_complex_bar.mjs:519 | filtering the entries of an object keeps its keys distinct |
| Enrich.WsRun | scripts/enrich_products.mjs:178-190 | the white-space run at a position is maximal: all white space, followed by none |
| Enrich.MatchLen | scripts/enrich_products.mjs:178-190 | a match of a noise pattern lies inside the text |
| Enrich.WsRunUpToCase | scripts/enrich_products.mjs:178-190 | texts equal up to case have the same white-space runs |
| Enrich.MatchUpToCase | scripts/enrich_products.mjs:178-190 | the `i`-flagged patterns match texts equal up to case at the same places with the same lengths |
| Enrich.CharUpToCase | scripts/enrich_products.mjs:178-190 | a pattern starting with a letter matches texts equal up to case alike |
| Enrich.SpacesUpToCase | scripts/enrich_products.mjs:178-190 | a pattern starting with `\s+` matches texts equal up to case alike |
| Enrich.DeleteFrom | scripts/enrich_products.mjs:179 | the global delete of a pattern never lengthens the text |
| Enrich.FirstMatch | scripts/enrich_products.mjs:180-189 | the search finds the first position where the pattern matches, or the end of the text |
| Enrich.ApplyDrop | scripts/enrich_products.mjs:195 | removing a noise pattern never lengthens the text |
| Enrich.CutFromSpec | scripts/enrich_products.mjs:180-189 | a `…[\s\S]*` pattern keeps the text before its first match, and a match starts right after what is kept when something was cut |
| Enrich.WellFormedTail | scripts/enrich_products.mjs:178-190 | each run of white space in a pattern is followed by a letter, also in its tail |
| Enrich.WsRunPrefix | scripts/enrich_products.mjs:178-190 | the white-space run inside a prefix that goes on past the run is the run of the whole text |
| Enrich.MatchPrefix | scripts/enrich_products.mjs:178-190 | a match inside a prefix of the text is a match in the whole text |
| Enrich.WordsWellFormed | scripts/enrich_products.mjs:178-190 | words separated by `\s+` before a well-formed rest give a well-formed pattern |
| Enrich.FindSimilarWellFormed | scripts/enrich_products.mjs:179 | `/Найти\s+похож[иы]е/` is well formed |
| Enrich.ReportErrorWellFormed | scripts/enrich_products.mjs:180 | `/Сообщить\s+о\s+неточности/` is well formed |
| Enrich.StoreAddressWellFormed | scripts/enrich_products.mjs:181 | `/Магазин\s+и\s+адрес/` is well formed |
| Enrich.OpeningHoursWellFormed | scripts/enrich_products.mjs:182 | `/Режим\s+работы/` is well formed |
| Enrich.PhoneWellFormed | scripts/enrich_products.mjs:183 | `/Телефон/` is well formed |
| Enrich.AvailabilityWellFormed | scripts/enrich_products.mjs:184 | `/Доступность/` is well formed |
| Enrich.WarehouseWellFormed | scripts/enrich_products.mjs:185 | `/Склад/` is well formed |
| Enrich.StoreNameWellFormed | scripts/enrich_products.mjs:186 | `/Комплекс-?Бар/` is well formed |
| Enrich.OnOrderWellFormed | scripts/enrich_products.mjs:187 | `/Под\s+заказ/` is well formed |
| Enrich.OnRequestWellFormed | scripts/enrich_products.mjs:188 | `/По\s+вашему\s+запросу/` is well formed |
| Enrich.MoveMapWellFormed | scripts/enrich_products.mjs:189 | `/Двигайте\s+карту/` is well formed |
| Enrich.CutLeavesNoMatch | scripts/enrich_products.mjs:180-189 | after cutting at a well-formed pattern no match of it is left anywhere in the text |
| Enrich.DeleteNothing | scripts/enrich_products.mjs:179 | deleting a pattern that matches nowhere keeps the text |
| Enrich.DeleteAtMatch | scripts/enrich_products.mjs:179 | the global delete drops a non-empty match and goes on right after it |
| Enrich.DroppedSnoc | scripts/enrich_products.mjs:195 | applying one more pattern applies it to the text the earlier patterns left |
| Enrich.DropAll | scripts/enrich_products.mjs:195 | the loop over `DROP_PATTERNS` applies every pattern in order |
| Enrich.SanitizeValue | scripts/enrich_products.mjs:192-199 | `sanitizeValue` collapses, returns '' for blank text, drops the noise, collapses again and normalises case |
| Enrich.SanitizeSpec | scripts/enrich_products.mjs:192-199 | a cleaned value is collapsed, in normal case (normalising again changes nothing), and empty for blank input |
| Enrich.Cleaned | scripts/enrich_products.mjs:203-207 | a kept pair has the collapsed key and the cleaned value |
| Enrich.Add | scripts/enrich_products.mjs:203-211 | `add(k, v)` assigns the cleaned pair when the key is non-empty, at most 80 characters and no menu label and the value is non-empty and at most 500 characters, and otherwise leaves the object alone |
| Enrich.AddStep | scripts/enrich_products.mjs:212-230 | each `add` call extends the last-wins object of the kept pairs by one candidate |
| Enrich.ExtractSpecs | scripts/enrich_products.mjs:201-232 | `extractSpecs` gives the last-wins object of the kept pairs of every table row, definition and feature block, in page order |
| Enrich.ExtractSpecsLastWins | scripts/enrich_products.mjs:201-232 | keys are distinct and each holds the value of the last kept pair with that key |
| Enrich.ExtractSpecsFrom | scripts/enrich_products.mjs:201-232 | every returned entry is acceptable and is the cleaned form of some candidate pair |
| Enrich.KeptFrom | scripts/enrich_products.mjs:203-211 | an entry of the object is the image of some candidate |
| Enrich.CleanedAcceptable | scripts/enrich_products.mjs:203-207 | a kept pair satisfies the length and menu-label conditions |
| Enrich.SplitSentencesSpec | scripts/enrich_products.mjs:159-163 | `splitSentences(text, max)` keeps a collapsed prefix of the collapsed text with at most `max` sentences, and applying it again changes nothing |
| Enrich.LongestCleaned | scripts/enrich_products.mjs:242-245 | the loop keeps the first longest cleaned text |
| Enrich.ExtractDescription | scripts/enrich_products.mjs:234-253 | `extractDescription` caps the longest cleaned section text, or the longest paragraph when every section is empty, at 8 sentences |
| Enrich.DescriptionSpec | scripts/enrich_products.mjs:234-253 | the description is a collapsed prefix of the chosen text with at most 8 sentences; no section is longer than the chosen text, and when every section is empty no paragraph is either |
| Enrich.ChosenCollapsed | scripts/enrich_products.mjs:234-251 | the chosen text is a cleaned text, hence collapsed |
| Enrich.FirstPassSpec | scripts/enrich_products.mjs:283-284 | the specs are replaced exactly when the fresh set has at least two keys and the description exactly when the fresh one is longer than 20 characters; nothing else changes, and without `updated` the record is as it was |
| Enrich.ArticleIndex | scripts/enrich_products.mjs:289 | `Object.keys(s).find(k => /артикул/i.test(k))` finds the first key mentioning "артикул" in any case, or none |
| Enrich.Queries | scripts/enrich_products.mjs:295-297 | one query `terms site:domain` per manufacturer site of the brand, else the bare terms |
| Enrich.SearchLoop | scripts/enrich_products.mjs:298-324 | the query loop skips a query without a hit and stops once `updated` is set |
| Enrich.SearchSpec | scripts/enrich_products.mjs:298-324 | the search never loses data: `updated` stays set, without it nothing changes, specs change only to a hit's set with strictly more keys and the description only to a hit's strictly longer one |
| Enrich.EnrichOne | scripts/enrich_products.mjs:273-330 | `enrichOne` performs the fetch, the first merge and the search fallback |
| Enrich.EnrichFailSpec | scripts/enrich_products.mjs:273-330 | a record without a source comes back unchanged with reason `no-source`, one whose fetch fails with the error message or `fetch-failed`, and only these carry a reason |
| Enrich.AfterPageSpec | scripts/enrich_products.mjs:280-326 | merging a fetched page changes only specs and description, each only to the fresh data the first pass accepts or to larger data from a hit; a record that is not weak after the first pass is not searched for |
| Enrich.EnrichKeeps | scripts/enrich_products.mjs:273-330 | a record not flagged `updated` comes back unchanged, and only specs and description ever change |
| Enrich.CountsBound | scripts/enrich_products.mjs:339-346 | a record is counted as updated or logged as skipped, never both |
| Enrich.MainStep | scripts/enrich_products.mjs:340-345 | the body of the `main` loop keeps the run state: results, counts and skip log of the records handled so far |
| Enrich.EnrichAll | scripts/enrich_products.mjs:336-346 | every record is enriched in order, with the number updated, the number seen and the skip lines of the log |
| Enrich.Run | scripts/enrich_products.mjs:332-352 | `main` enriches every record and saves the catalog by rename, falling back to a direct write when none of the 20 attempts succeeds |
| Retry.FetchText | prisma/import/import2.mjs:54-73 | `fetchText` succeeds exactly when one of attempts 0..retries returns a body, and then with the first such body; it waits `backoffMs * 2^k` after failed attempt k; after the last failure it throws the attempt's message followed by the URL |
| Retry.CappedDelayStep | scripts/scrape_complex_bar.mjs:393 | each wait is the previous one doubled, capped at 2000 ms |
| Retry.CappedDelayBounds | scripts/scrape_complex_bar.mjs:383-393 | every wait lies between 100 and 2000 ms and is 2000 ms from the sixth failure on |
| Retry.SaveRenameOrThrow | scripts/scrape_complex_bar.mjs:383-396 | the atomic save succeeds exactly when one of the 20 renames does, after the waits of the failed ones; otherwise it throws after 19 waits |
| Retry.SaveRenameOrWrite | scripts/enrich_products.mjs:260-271 | the catalog is renamed into place by the first of 20 attempts that succeeds, each failure followed by its capped wait; when all fail it is written directly after 20 waits |
| Retry.DownloadWithRetries | scripts/scrape_complex_bar.mjs:298-305 | the download succeeds exactly when one of attempts 0..retries does, each failed attempt followed by a 300 ms wait |
| Dedup.FirstIndex | scripts/scrape_complex_bar.mjs:101-108 | the first occurrence of an element is at the returned position and not before |
| Dedup.DistinctMembers | scripts/scrape_complex_bar.mjs:101-108 | `Array.from(set)` holds exactly the elements added to the set |
| Dedup.DistinctNoDups | scripts/scrape_complex_bar.mjs:101-108 | `Array.from(set)` lists no element twice |
| Dedup.DistinctSnoc | scripts/scrape_complex_bar.mjs:106 | `set.add(x)` appends `x` exactly when it is new |
| Dedup.DistinctOfNoDups | scripts/scrape_complex_bar.mjs:101-108 | a list without repetitions comes back from the set unchanged |
| Dedup.DistinctOrder | scripts/scrape_complex_bar.mjs:101-108 | the set's elements come back in the order of their first insertion |
| Dedup.OrderSnoc | scripts/scrape_complex_bar.mjs:106 | one more insertion keeps the order of first insertions, whether or not the element is new |
| Dedup.Kept | scripts/scrape_complex_bar.mjs:519 | `filter` keeps no more elements than the list has |
| Dedup.KeptMembers | scripts/scrape_complex_bar.mjs:519 | `filter` keeps exactly the elements that pass the test |
| Dedup.FilterMapMembers | scripts/scrape_complex_bar.mjs:519 | `map(f).filter(Boolean)` holds exactly the defined results of `f` |
| Dedup.KeptKept | app/api/products/route.ts:211-270 | filtering twice is filtering once by both tests |
| Dedup.KeptSame | app/api/products/route.ts:211-270 | tests that agree everywhere keep the same elements |
| Dedup.KeptEverything | app/api/products/route.ts:211-270 | a test that passes everything keeps the list as it is |
| Dedup.KeptNothing | app/api/products/route.ts:211-270 | a test that passes nothing keeps nothing |
| Dedup.KeptSplit | app/api/products/route.ts:211-270 | what a test keeps and what it drops together are the list's elements, counted with multiplicity |
| Dedup.KeptSub | app/api/products/route.ts:211-270 | a filter keeps each element at most as often as the list has it |
| Dedup.KeptPrefix | app/api/products/route.ts:211-270 | filtering distributes over concatenation |
| Dedup.FilterMapPrefix | scripts/scrape_complex_bar.mjs:519 | `map(f).filter(Boolean)` distributes over concatenation |
| Dedup.FlattenMembers | scripts/scrape_complex_bar.mjs:101-108 | an element of the concatenated lists is an element of one of them |
| Dedup.AddAllCollects | scripts/scrape_complex_bar.mjs:101-108 | adding the kept elements of more items to the set of those seen gives the set of all kept elements |
| Dedup.AddOneCollects | scripts/scrape_complex_bar.mjs:106 | one more item walked is one more `add` to the set |
| Dedup.SetOfSize | scripts/scrape_complex_bar.mjs:101-108 | a list without repetitions has as many elements as its set |
| Sorting.Insert | app/api/products/route.ts:271-283 | inserting adds exactly the one element |
| Sorting.Sort | app/api/products/route.ts:271-283 | the sort keeps exactly the input's elements |
| Sorting.InsertSorted | app/api/products/route.ts:271-283 | inserting into a sorted list keeps it sorted |
| Sorting.SortSorted | app/api/products/route.ts:271-283 | for a comparator that is a total preorder the output is sorted and a permutation of the input |
| Sorting.KeyOrderTotal | app/api/products/route.ts:310 | comparing by an integer key is a total preorder |
| Sorting.InsertLast | app/api/products/route.ts:271-283 | an element no smaller than any element of the list goes to its end |
| Sorting.SortTies | app/api/products/route.ts:271-283 | a list whose elements all compare equal comes out of the sort unchanged |
| Fill.MergeSpecs | scripts/fill_products.mjs:174-183 | `mergeSpecsObject` copies the existing object and, for each addition in order, fills a non-empty key with the trimmed value when that value is not blank and the key is missing or empty |
| Fill.MergeKeepsSet | scripts/fill_products.mjs:180 | a key that already has a non-empty value keeps it: the merge never overwrites |
| Fill.MergeKeepsKeys | scripts/fill_products.mjs:174-183 | every key of the existing object is still there |
| Fill.MergeFills | scripts/fill_products.mjs:176-181 | after the merge every usable addition's key has a non-empty value |
| Fill.MergeFrom | scripts/fill_products.mjs:176-181 | a value the merge changed was missing or empty before, and some usable addition names that key |
| Fill.MergeSkips | scripts/fill_products.mjs:177-179 | a key no usable addition names keeps its value |
| Fill.MergeUnique | scripts/fill_products.mjs:174-183 | the merge keeps keys distinct |
| Fill.MergeNoop | scripts/fill_products.mjs:174-183 | when every usable addition's key is already set the merge changes nothing |
| Fill.MergeIdempotent | scripts/fill_products.mjs:174-183 | merging the same additions a second time changes nothing |
| Fill.SpecsArray | scripts/fill_products.mjs:185-189 | the specs array has at most one element per entry |
| Fill.SpecsArrayMembers | scripts/fill_products.mjs:185-189 | `toSpecsArray` has one pair per entry with a non-empty key and a non-blank value, the value untrimmed |
| Fill.SpecsArrayConcat | scripts/fill_products.mjs:185-189 | the array follows the order of the object: it distributes over concatenation |
| Fill.CategoryDefaults | scripts/fill_products.mjs:192-212 | `defaultsForCategory` gives four entries: a material among the five it knows, a colour that is transparent or white, a size and a weight |
| Fill.CategoryDefaultsSpec | scripts/fill_products.mjs:192-212 | the material follows the precedence porcelain, ceramic, glass, plastic, else stainless steel (the steel keywords never change the outcome); the colour is transparent exactly for glass |
| Fill.GuessMaterial | scripts/fill_products.mjs:661-670 | `guessMaterialFromName` always names a material |
| Fill.FirstDigitPair | scripts/fill_products.mjs:672 | the leftmost match starts at the first two adjacent digits, or there is none |
| Fill.UnitAt | scripts/fill_products.mjs:672 | the optional unit group is one of "см", "mm", "мм", "cm" |
| Fill.GuessSizeSpec | scripts/fill_products.mjs:671-679 | the size guess is empty exactly when the name has no two adjacent digits; otherwise it is the first run of two or three digits followed by " мм" for a millimetre unit and " см" otherwise |
| Fill.GuessSizeAt | scripts/fill_products.mjs:671-679 | the size guess once the leftmost digit pair is known |
| Fill.AsEntries | scripts/fill_products.mjs:681-689 | the stage-two literal lists the seven standard keys in order |
| Fill.AsEntriesUsable | scripts/fill_products.mjs:681-691 | when no default is blank, every one of the seven additions is usable |
| Fill.AsWrittenSkipsBlankBrand | scripts/fill_products.mjs:680-692 | as written, a brand of white space only wins over the default `Ardesto`, and the merge then trims it to nothing and skips it |
| Fill.AsWrittenLeavesBrandMissing | scripts/fill_products.mjs:681-691 | so, as written, a record whose brand is one space ends with no brand characteristic |
| Fill.OrBlankNotBlank | scripts/fill_products.mjs:681-689 | a non-blank fallback makes the choice non-blank |
| Fill.DefaultsNotBlank | scripts/fill_products.mjs:681-689 | with blank fields treated as missing, no stage-two default is blank |
| Fill.OrBlankAgrees | scripts/fill_products.mjs:681-689 | the JavaScript `or` of two values and the blank-skipping choice agree when neither value is white space only |
| Fill.DefaultsAgree | scripts/fill_products.mjs:680-692 | the stage-two defaults as written and the intended ones are the same whenever no field they consult is white space only |
| Fill.GuessesOfFilled | scripts/fill_products.mjs:661-670 | the material guessed from the name is never blank |
| Fill.StageTwoCompletes | scripts/fill_products.mjs:680-692 | after the second stage the seven standard keys all have non-empty values |
| Fill.CategoryDefaultsShadowFallbacks | scripts/fill_products.mjs:682-688 | the fallbacks behind the category defaults never apply: the material is never guessed from the name and the size, weight and colour literals are never used |
| MacRoman.CyrillicOf | scripts/fill_products.mjs:192-212 | a lead character and a continuation byte stand for a letter of the Cyrillic block U+0400-047F |
| MacRoman.EncodeChar | scripts/fill_products.mjs:192-212 | a Cyrillic letter is stored as two characters and every other character as one |
| MacRoman.CyrillicPair | scripts/fill_products.mjs:192-212 | the two stored characters of a Cyrillic letter are a lead and a continuation character that decode to that letter |
| MacRoman.PairCyrillic | scripts/fill_products.mjs:192-212 | a lead and a continuation character that decode to a letter are that letter's stored form |
| MacRoman.HighRoundTrip | scripts/fill_products.mjs:192-212 | each continuation byte shows as a character that maps back to it |
| MacRoman.HighByteRoundTrip | scripts/fill_products.mjs:192-212 | each character of the continuation range is the one its byte shows as |
| MacRoman.EncodeAppend | scripts/fill_products.mjs:192-212 | the stored form of joined text is the join of the stored forms |
| MacRoman.EncodeAscii | scripts/fill_products.mjs:192-212 | ASCII text is stored as it is |
| MacRoman.DecodeEncode | scripts/fill_products.mjs:192-212 | reading the stored form of ASCII and Cyrillic text back as UTF-8 gives the text again |
| MacRoman.EncodeDecode | scripts/fill_products.mjs:192-212 | a stored text that reads back is the stored form of what it reads back to, so the reading loses nothing |
| FillAsWritten.StoredSlugClassRejected | scripts/fill_products.mjs:45 | as stored, the third range of the `safeSlug` class runs from ∞ (U+221E) down to — (U+2014), so the class is out of order and the script does not load |
| FillAsWritten.SlugClassAccepted | scripts/fill_products.mjs:45 | decoded, the class holds the ranges a-z, 0-9 and а-я, all in order |
| FillAsWritten.SlugClassStored | scripts/fill_products.mjs:45 | the stored class is the stored form of the decoded one |
| FillAsWritten.StoredKeywordMisses | scripts/fill_products.mjs:194-198 | a stored Cyrillic keyword never matches text without a lead character, whatever Cyrillic the text holds |
| FillAsWritten.LatinKeywordMisses | scripts/fill_products.mjs:194-198 | a Latin keyword never matches text without ASCII letters |
| FillAsWritten.StoredKeywordsMiss | scripts/fill_products.mjs:194-198 | as stored, none of the porcelain, ceramic, glass and plastic tests accepts Cyrillic-only text |
| FillAsWritten.StoredDefaultsIgnoreCyrillic | scripts/fill_products.mjs:192-212 | as stored, a Cyrillic-only category and name always get the steel material and the white colour, while the decoded script gives porcelain for text that says фарфор |
| FillAsWritten.StoredKeysDiffer | scripts/fill_products.mjs:680-692 | no stored stage-two key is one of the seven real keys |
| FillAsWritten.StoredDefaultsMissRealKeys | scripts/fill_products.mjs:680-692 | as stored, merging the stage-two defaults leaves each of the seven real keys as it was, so a missing one stays missing |
| Fill.TrailingJunk | scripts/fill_products.mjs:170 | the count of trailing `.,;:-` and white-space characters is maximal |
| Fill.Lengthen | scripts/fill_products.mjs:164-168 | the length loop of `generateDescription` appends the two extra sentences until the text reaches 250 characters or passes 280 |
| Fill.GenerateDescription | scripts/fill_products.mjs:151-172 | `generateDescription` joins the sentences, appends the call to action when missing, lengthens and shortens |
| Fill.DescriptionParts | scripts/fill_products.mjs:152-157 | the opening sentence, the material and brand sentences when given, and the two fixed sentences, in order |
| Fill.Shorten | scripts/fill_products.mjs:170 | the cut to 500 characters |
| Fill.ExtendedSpec | scripts/fill_products.mjs:164-168 | the length loop only appends; it ends at 250 characters or more, and when it appended anything, before 280 characters plus the two extra sentences |
| Fill.HasCtaAppend | scripts/fill_products.mjs:160 | appending text keeps the call to action |
| Fill.WithCtaHasCta | scripts/fill_products.mjs:160-162 | the text the length loop starts from has the call to action |
| Fill.ShortenedSpec | scripts/fill_products.mjs:170 | shortening leaves a text of at most 500 characters alone, and otherwise keeps a prefix of at most 497 characters without trailing punctuation, followed by `...` |
| Fill.DescriptionSpec | scripts/fill_products.mjs:151-172 | a generated description has at most 500 characters; when the lengthened text is not over 500 it is the result, with at least 250 characters and the call to action, and otherwise the result is a prefix of it followed by `...` |
| Fill.SecondDescriptionSpec | scripts/fill_products.mjs:643-657 | after the second stage the description is the generated one or an existing text of at least 250 characters with the call to action, and running the stage again keeps it |
| Fill.With | scripts/fill_products.mjs:499-501 | recording a slot fills it and leaves the other slots as they were |
| Fill.Count | scripts/fill_products.mjs:488 | `localSet.size` is at most 3, and 3 exactly when all three slots are filled |
| Fill.CountWith | scripts/fill_products.mjs:499-501 | filling a free slot adds one to the count |
| Fill.NextSlot | scripts/fill_products.mjs:496 | the next image goes to the first free slot in main, alt1, alt2 order |
| Fill.Present | scripts/fill_products.mjs:622-625 | the existing slot URLs, one per filled slot |
| Fill.Finalised | scripts/fill_products.mjs:622-629 | the finished list always has three entries |
| Fill.ConvertImages | scripts/fill_products.mjs:487-523 | the loop over the existing images converts `/imported/` files and downloads `http(s)` URLs into the next free slot, skipping `/products/` entries, until three slots are filled |
| Fill.DownloadImages | scripts/fill_products.mjs:533-549 | the loop over the distinct search results downloads into the next free slot until three are filled |
| Fill.LastResortImages | scripts/fill_products.mjs:553-586 | the loop over the three slots tries the last-resort download, else a placeholder, for every free slot until three are filled |
| Fill.FinaliseImages | scripts/fill_products.mjs:621-633 | the image list is the existing slot URLs in order, padded with `/no-image.svg` to three, and its first entry becomes the main image |
| Fill.EnsureThreeImages | scripts/fill_products.mjs:477-634 | `ensureThreeLocalImages` leaves the slot files the four phases produce and the finished list built from them |
| Fill.RecordSound | scripts/fill_products.mjs:499-501 | writing a free slot keeps the pass sound |
| Fill.TrySound | scripts/fill_products.mjs:496-501 | an attempt on the next free slot keeps the pass sound, whether it succeeds or not |
| Fill.ConvertedSound | scripts/fill_products.mjs:487-523 | converting the existing images writes no slot twice and none that existed |
| Fill.DownloadedSound | scripts/fill_products.mjs:533-549 | downloading search results writes no slot twice and none that existed |
| Fill.LastResortSound | scripts/fill_products.mjs:553-586 | the last resort writes no slot twice and none that existed |
| Fill.DuplicatedSound | scripts/fill_products.mjs:589-612 | copying the main file writes only free alternative slots, once each |
| Fill.ThreeImagesSound | scripts/fill_products.mjs:477-634 | whatever the file operations return, no slot is written twice, no existing slot is written, and the slot files at the end are the initial ones plus those written |
| Fill.ThreeImagesKeepsComplete | scripts/fill_products.mjs:477-634 | a product whose three slot files already exist is left alone |
| Fill.LastResortFills | scripts/fill_products.mjs:553-586 | when a placeholder can always be written, the last resort fills every slot it visits, unless three are filled already |
| Fill.ThreeImagesFull | scripts/fill_products.mjs:477-634 | when a placeholder can always be written, every product ends with three slot files |
| Fill.FinalisedSpec | scripts/fill_products.mjs:621-633 | the finished list has three entries, the existing slot URLs in main, alt1, alt2 order and then the placeholder; its first entry is the main slot exactly when that file exists, and the placeholder exactly when no slot file exists |
| Fill.FillProduct | scripts/fill_products.mjs:247-703 | the per-product task runs both description stages, both spec merges, and the image stage of the second pass |
| Fill.CompletedSpecs | scripts/fill_products.mjs:266-289 | after the pass a product has all seven standard characteristics set, keeps every characteristic it already had, and lists its characteristics again as pairs |
| Fill.CompletedRest | scripts/fill_products.mjs:247-703 | after the pass a product has three images, the first of them as its main image, and its own description of at least 250 characters with the call to action or a generated one; its other fields are unchanged |
| Fill.CompletedAll | scripts/fill_products.mjs:236 | the completed catalogue has as many products as the input |
| Fill.CompletedAllAt | scripts/fill_products.mjs:236 | each product of the completed catalogue is the one completed from the product at its place |
| Fill.FillAll | scripts/fill_products.mjs:236-739 | the pass completes every product of the catalogue in place |
| VerifyProducts.RicherTotal | scripts/verify_products.mjs:258-269 | the richness order of `pickBetterEntry` (spec keys, then images, then description length) is reflexive, total and transitive |
| VerifyProducts.PickBetterSpec | scripts/verify_products.mjs:258-269 | `pickBetterEntry` returns one of its arguments, at least as rich as both, and the first exactly when it is at least as rich as the second |
| VerifyProducts.BestOfSpec | scripts/verify_products.mjs:298-319 | a map has an entry under a key exactly when some record was filed under it, and the entry is the first of the richest records filed there |
| VerifyProducts.FiledSnoc | scripts/verify_products.mjs:298-319 | a key is filed after one more record exactly when it was filed before or the new record is filed under it |
| VerifyProducts.FirstFiled | scripts/verify_products.mjs:307-309 | the first record filed under a key becomes its entry |
| VerifyProducts.StillRichest | scripts/verify_products.mjs:303-306 | the entry survives a record that is not richer or is filed elsewhere |
| VerifyProducts.TakesOver | scripts/verify_products.mjs:303-306 | a strictly richer record takes over the entry |
| VerifyProducts.BestOfKey | scripts/verify_products.mjs:298-319 | an entry is filed under its own key |
| VerifyProducts.NamedSlugsFiled | scripts/verify_products.mjs:298-319 | a slug is in the list of slugs seen exactly when the slug map has an entry for it |
| VerifyProducts.SlugOrderFiled | scripts/verify_products.mjs:321 | the keys of the slug map in insertion order are exactly the filed slugs |
| VerifyProducts.Entries | scripts/verify_products.mjs:321 | `Array.from(seenBySlug.values())` holds one entry per key, in key order |
| VerifyProducts.Refile | scripts/verify_products.mjs:303-317 | filing one more record changes only the entry under its key |
| VerifyProducts.CountersSnoc | scripts/verify_products.mjs:298-319 | the slug list and the two counters after one more record |
| VerifyProducts.File | scripts/verify_products.mjs:303-317 | one map update: the entry under the key becomes the better of the old entry and the record, or the record when there was none; a duplicate is counted exactly when the record is strictly richer |
| VerifyProducts.SlugStep | scripts/verify_products.mjs:303-309 | the slug is appended to the key list exactly when the record is named and the slug map has no entry for it |
| VerifyProducts.Visit | scripts/verify_products.mjs:298-319 | one pass of the de-duplication loop keeps what the loop has built in step with the records seen |
| VerifyProducts.DedupBySlug | scripts/verify_products.mjs:296-321 | the de-duplication loop gives the slug map's entries in insertion order, counts every displacement in `duplicatesRemoved` and every unnamed record in `skipped` |
| VerifyProducts.KeysFiled | scripts/verify_products.mjs:321 | every key of the list has its entry in the slug map |
| VerifyProducts.DedupedSpec | scripts/verify_products.mjs:296-321 | the output holds exactly one record per slug of a named record, in first-seen order without repeats, each the first of the richest records with that slug |
| VerifyProducts.DisplacementsBound | scripts/verify_products.mjs:296-319 | duplicates plus skipped records are at most two per record |
| VerifyProducts.NormalizeDescriptionSpec | scripts/verify_products.mjs:208-213 | `normalizeDescription` gives collapsed text of at most four sentences, a prefix of the collapsed input, and is idempotent |
| VerifyProducts.ForwardSlashes | scripts/verify_products.mjs:191 | back slashes become slashes and nothing else changes |
| VerifyProducts.FsPathSpec | scripts/verify_products.mjs:186-195 | an empty path maps to `''`; a `/public/` path resolves under the project root, a `/products/` path and any other under the public directory; back slashes do not change the result |
| VerifyProducts.Others | scripts/verify_products.mjs:239-252 | the names other than the one kept |
| VerifyProducts.ReconciledSpec | scripts/verify_products.mjs:215-256 | at most one image is kept, under `/products/<slug>/`: with live gallery URLs `main.webp` exactly when the first downloads; without them the best-ranked local `.webp` file; every other local `.webp` file is unlinked |
| VerifyProducts.ReconciledLive | scripts/verify_products.mjs:233-245 | the live branch of the image reconciliation |
| VerifyProducts.ReconciledLocal | scripts/verify_products.mjs:246-254 | the local branch of the image reconciliation |
| VerifyProducts.NonBlankIdempotent | scripts/verify_products.mjs:335 | filtering out blank pairs twice is filtering once |
| VerifyProducts.RepairedSpecsSpec | scripts/verify_products.mjs:335-351 | the specs are replaced only when the record has fewer than two non-blank pairs and a source URL and the live page yields at least two, and then by those pairs; the product counts in `specsOk` exactly when two non-blank pairs remain |
| VerifyProducts.RepairedAll | scripts/verify_products.mjs:325-352 | the repair pass keeps the number of products |
| VerifyProducts.RepairOne | scripts/verify_products.mjs:325-352 | the per-product task normalises the description, reconciles the images, repairs the specs and counts |
| VerifyProducts.RepairAll | scripts/verify_products.mjs:323-352 | the pass repairs each product of the array in place and adds up the counters |
| VerifyProducts.RepairStep | scripts/verify_products.mjs:325-352 | one more product extends the repaired list and the counters by that product alone |
| VerifyProducts.TallyBounds | scripts/verify_products.mjs:332-351 | each counter counts at most one per product, and every product is counted twice in `imagesOk`, `specsOk` and `skipped` together |
| VerifyProducts.NormalizeFieldsSpec | scripts/verify_products.mjs:271-282 | `normalizeProductFields` emits the six fields in fixed order with empty defaults, and `sourceUrl` last exactly when it is set; a record with a description and images is recovered from it |
| VerifyProducts.ValidOnly | scripts/verify_products.mjs:355-357 | the strict filter keeps exactly the normalised records with slug, title, an image, at least two spec keys and a description over ten characters |
| VerifyProducts.FinalSpec | scripts/verify_products.mjs:355-360 | what is written back is sorted by title, a permutation of the filtered records, and holds exactly the valid ones |
| VerifyProducts.VerifyCatalog | scripts/verify_products.mjs:284-381 | `main` writes back the sorted valid records of the repaired de-duplicated list, and its summary reports their number, the pass counters, both sources of `skipped` and the duplicates removed |
| ComplexBar.AbsoluteUrlSpec | scripts/scrape_complex_bar.mjs:93-99 | `absoluteUrl` drops only the empty link; an absolute, protocol-relative or rooted link keeps its text at the end of the result, and with an `http` base such a result starts with `http` |
| ComplexBar.AbsoluteUrlIdempotent | scripts/scrape_complex_bar.mjs:93-99 | the absolute form of a rooted link is its own absolute form, whatever the base |
| ComplexBar.RemoveWsSpec | scripts/scrape_complex_bar.mjs:74 | removing white space and non-breaking spaces leaves no white space and keeps the digits in order |
| ComplexBar.FirstDigit | scripts/scrape_complex_bar.mjs:74 | the first digit of the text, or its end |
| ComplexBar.RunEnd | scripts/scrape_complex_bar.mjs:74 | where a run of digits ends |
| ComplexBar.ParsePriceNull | scripts/scrape_complex_bar.mjs:72-77 | `parsePriceToNumber` gives `null` exactly when the text has no digit, the empty text included |
| ComplexBar.ParsePriceRun | scripts/scrape_complex_bar.mjs:72-77 | otherwise it gives the value of the first maximal digit run of the text with white space removed |
| ComplexBar.ParsePriceExample | scripts/scrape_complex_bar.mjs:72-77 | `'12 500 ₸'` gives 12500 |
| ComplexBar.ParsePriceGrouped | scripts/scrape_complex_bar.mjs:72-77 | digit groups separated by white space read as one number, the thousands separator of a price |
| ComplexBar.RunEndOf | scripts/scrape_complex_bar.mjs:74 | a digit run followed by a non-digit ends there |
| ComplexBar.RemoveWsOf | scripts/scrape_complex_bar.mjs:74 | white space between pieces without white space is removed |
| ComplexBar.RemoveWsAppend | scripts/scrape_complex_bar.mjs:74 | removing white space distributes over concatenation |
| ComplexBar.RemoveWsNoWs | scripts/scrape_complex_bar.mjs:74 | text without white space is left alone |
| ComplexBar.RemoveWsCons | scripts/scrape_complex_bar.mjs:74 | removing white space one character at a time |
| ComplexBar.DigitsExample | scripts/scrape_complex_bar.mjs:76 | `Number('12500')` is 12500 |
| ComplexBar.ParsePriceNoDigits | scripts/scrape_complex_bar.mjs:72-77 | the empty text and a text without digits, with a non-breaking space, have no price |
| ComplexBar.LongestSpec | scripts/scrape_complex_bar.mjs:345-351 | the longest price text: no candidate is longer, and one that replaced the current choice is the first of its length |
| ComplexBar.Cleaned | scripts/scrape_complex_bar.mjs:79-81 | `cleanText` of every raw text |
| ComplexBar.PriceTextSpec | scripts/scrape_complex_bar.mjs:344-352 | the chosen price text is `''` or a cleaned element text with a digit or the tenge sign that no other such text outgrows |
| ComplexBar.BarIndex | scripts/scrape_complex_bar.mjs:341 | the first space-and-bar of the cleaned title, or its end |
| ComplexBar.TitleSpec | scripts/scrape_complex_bar.mjs:340-341 | the title is the cleaned heading when it has text; otherwise the cleaned page title up to its first space followed by a bar, which it never contains |
| ComplexBar.NoBarInPrefix | scripts/scrape_complex_bar.mjs:341 | a prefix before the first bar contains none |
| ComplexBar.GalleryStep | scripts/scrape_complex_bar.mjs:151-160 | one more candidate is appended exactly when it is a usable image not seen yet |
| ComplexBar.CollectGallery | scripts/scrape_complex_bar.mjs:151-160 | the `addUrl` loop over the candidates, with its `seen` set and `out` list |
| ComplexBar.GallerySpec | scripts/scrape_complex_bar.mjs:151-160 | the gallery has no duplicates, holds exactly the absolute forms of the candidates that are neither placeholders, sprites, `.svg` files nor logos, in the order first met |
| ComplexBar.SpecStep | scripts/scrape_complex_bar.mjs:203-251 | one more candidate pair sets its key when it passes the rule and leaves the specs otherwise |
| ComplexBar.AssignSpecs | scripts/scrape_complex_bar.mjs:203-251 | `specs[key] = val` for each candidate pair in document order |
| ComplexBar.SpecsFromSpec | scripts/scrape_complex_bar.mjs:203-251 | keys are distinct, cleaned, non-empty and shorter than 80 characters, values cleaned and non-empty, and each key holds the value of the last candidate that offered it |
| ComplexBar.FirstLong | scripts/scrape_complex_bar.mjs:262-265 | the first cleaned selector text longer than 10 characters |
| ComplexBar.FirstLongSpec | scripts/scrape_complex_bar.mjs:262-265 | that text exists exactly when some selector text is longer than 10 characters, and no earlier one is |
| ComplexBar.DescriptionTextSpec | scripts/scrape_complex_bar.mjs:253-273 | the description source is collapsed: the first block longer than 10 characters, or else `''` or a paragraph no other outgrows |
| Scrape.SplitSentencesOfCollapsed | scripts/scrape_complex_bar.mjs:83-91 | `splitSentences` of collapsed text is a collapsed prefix of at most four sentences, and applying it again changes nothing |
| Scrape.ExtractDescriptionSpec | scripts/scrape_complex_bar.mjs:253-274 | `extractDescription` gives a collapsed prefix of the chosen text of at most four sentences, empty exactly when that text is |
| Scrape.CapKeepsFirst | scripts/scrape_complex_bar.mjs:83-91 | a non-empty collapsed text keeps at least its first sentence |
| Scrape.ListingProductLinksSpec | scripts/scrape_complex_bar.mjs:101-110 | the listing links are distinct, carry no query string, and are exactly the product links some anchor offers |
| Scrape.PaginationUrlsSpec | scripts/scrape_complex_bar.mjs:112-122 | the pagination links are distinct and are exactly the absolute forms of the anchors with `PAGEN_1=` |
| Scrape.CatalogDirUnderRoot | scripts/scrape_complex_bar.mjs:135 | a page under the root category ending with `/` and without a line break passes the category pattern |
| Scrape.CrawlSubsSpec | scripts/scrape_complex_bar.mjs:124-138 | every subcategory queued lies under `START_URL`, ends with `/`, is not a product page nor the page itself, and comes from an anchor that is neither a product nor a brand link; no subcategory twice |
| Scrape.CrawlSubOf | scripts/scrape_complex_bar.mjs:483-485 | one queued subcategory and the anchor it comes from |
| Scrape.KeptNoDups | scripts/scrape_complex_bar.mjs:483-485 | filtering keeps a list free of duplicates |
| Scrape.FirstWord | scripts/scrape_complex_bar.mjs:169 | the first word of a trimmed srcset part has no space |
| Scrape.FirstWords | scripts/scrape_complex_bar.mjs:169 | the first word of each srcset part |
| Scrape.CandidatesMembers | scripts/scrape_complex_bar.mjs:165-197 | every candidate comes from one of the scanned elements |
| Scrape.ExtractGalleryImages | scripts/scrape_complex_bar.mjs:140-201 | `extractGalleryImages`: the container candidates, or the fallback scan when no container exists, through `addUrl` |
| Scrape.GalleryImagesSpec | scripts/scrape_complex_bar.mjs:140-201 | no image twice and none a placeholder, sprite, `.svg` file or logo; with a gallery container the rest of the document is never read; without one every image is the first URL of an attribute that looks like a CDN or absolute link |
| Scrape.FallbackOrigin | scripts/scrape_complex_bar.mjs:183-198 | a fallback candidate is the first URL of an attribute that passed the CDN or absolute test |
| Scrape.ElementOrigin | scripts/scrape_complex_bar.mjs:184-196 | a fallback candidate comes from an attribute of its element |
| Scrape.FallbackOfSome | scripts/scrape_complex_bar.mjs:194-196 | a candidate is taken only when it passes the CDN or absolute test |
| Scrape.ExtractSpecs | scripts/scrape_complex_bar.mjs:203-251 | `extractSpecs`: the table rows, definition lists, characteristic spans, feature blocks and list items assigned in turn |
| Scrape.SpecsPrecedence | scripts/scrape_complex_bar.mjs:203-251 | later candidates override earlier ones |
| Scrape.ListItemsWin | scripts/scrape_complex_bar.mjs:240-249 | a key offered by a two-span `li` holds the value of the last such `li`, whatever the tables say |
| Scrape.ParseProduct | scripts/scrape_complex_bar.mjs:335-364 | `parseProduct` returns the URL, title, slug, description, price, specs and gallery of the page |
| Scrape.ElemsConcat | scripts/scrape_complex_bar.mjs:427-490 | the elements of a concatenation |
| Scrape.UnionSnocEmpty | scripts/scrape_complex_bar.mjs:439-445 | a category that fails to load offers nothing |
| Scrape.SubsCovered | scripts/scrape_complex_bar.mjs:486-488 | the subcategories offered stay covered once a category's are queued |
| Scrape.UnionSnoc | scripts/scrape_complex_bar.mjs:427-490 | the links of one more visited page |
| Scrape.UnionConcat | scripts/scrape_complex_bar.mjs:427-490 | the links of two runs of pages |
| Scrape.LinksFn | scripts/scrape_complex_bar.mjs:449 | the product links of a fetched page |
| Scrape.PagerFn | scripts/scrape_complex_bar.mjs:459 | the pagination links of a fetched category page |
| Scrape.SubsFn | scripts/scrape_complex_bar.mjs:483-485 | the subcategories a fetched category page offers to the queue |
| Scrape.Emit | scripts/scrape_complex_bar.mjs:450-456 | the yield loop over one page's links: each link not yielded yet is yielded, and the walk stops once `MAX_PRODUCTS` links, when positive, have been yielded |
| Scrape.VisitPage | scripts/scrape_complex_bar.mjs:461-479 | one pagination page is marked visited, fetched and its links yielded |
| Scrape.PagerStep | scripts/scrape_complex_bar.mjs:460-480 | one pager link is visited unless it was visited before |
| Scrape.WalkPager | scripts/scrape_complex_bar.mjs:459-480 | the pagination walk visits each pager link once, skips a page that fails to load, and yields the links of the others |
| Scrape.SmallerSet | scripts/scrape_complex_bar.mjs:436-437 | one more visited category leaves fewer unvisited ones |
| Scrape.PushSubs | scripts/scrape_complex_bar.mjs:486-488 | `queue.push(s)` for each subcategory not visited yet |
| Scrape.ExpandCategory | scripts/scrape_complex_bar.mjs:449-488 | a fetched category yields its product links, then walks its pagination, then queues its subcategories |
| Scrape.QueueSubs | scripts/scrape_complex_bar.mjs:483-488 | the subcategories of a fetched category are queued unless visited |
| Scrape.VisitCategory | scripts/scrape_complex_bar.mjs:435-488 | one visited category: fetched, or skipped when the fetch fails |
| Scrape.CrawlStep | scripts/scrape_complex_bar.mjs:434-489 | one turn of the crawl loop keeps the crawl state, and either the unvisited part of the site or the queue gets smaller, or the limit was reached |
| Scrape.CrawlCategoryStream | scripts/scrape_complex_bar.mjs:427-490 | `crawlCategoryStream` yields no URL twice and at most `MAX_PRODUCTS` when positive; every category is the start or a subcategory under `START_URL`; every yielded URL is a product link of a visited page; unless the limit stopped it, every product link of every visited page is yielded and every pager link and offered subcategory is visited |
| ScrapePatterns.CdnAsWrittenRejectsDetailed | scripts/scrape_complex_bar.mjs:195 | as written, the fallback test rejects `/images/detailed/a`: each path alternative must be followed by a second slash |
| ScrapePatterns.CdnAcceptsDetailed | scripts/scrape_complex_bar.mjs:195 | the intended test, one slash after each alternative, accepts it |
| ScrapePatterns.CdnAsWrittenIsCdn | scripts/scrape_complex_bar.mjs:195 | every link the test as written accepts, the intended test accepts too |
| ProductStore.NewOnes | scripts/scrape_complex_bar.mjs:402-404 | the products the push loop takes are at most the batch |
| ProductStore.ImagePathSegments | scripts/scrape_complex_bar.mjs:551-556 | the public path of a product image is rooted, and its segments are those `path.join` gives: `products`, the slug unless it is empty, and the file name |
| ProductStore.NewOnesSnoc | scripts/scrape_complex_bar.mjs:402-404 | one more product is pushed exactly when its slug is neither in the set nor pushed before |
| ProductStore.NewOnesSpec | scripts/scrape_complex_bar.mjs:399-407 | what is pushed comes from the batch in batch order, has no slug of the set and no slug twice, and every product left out has its slug in the set or pushed before it |
| ProductStore.NewOnesSubsequence | scripts/scrape_complex_bar.mjs:402-404 | the pushed products keep their relative order in the batch |
| ProductStore.NewOnesConcat | scripts/scrape_complex_bar.mjs:399-425 | appending a batch in two parts, the second seeing what the first pushed, pushes what appending it at once does |
| ProductStore.PushStep | scripts/scrape_complex_bar.mjs:402-404 | one more iteration of the push loop |
| ProductStore.AppendKeepsUnique | scripts/scrape_complex_bar.mjs:399-407 | appending to records with distinct slugs keeps the slugs distinct |
| ProductStore.TruthySlugsOfNonEmpty | scripts/scrape_complex_bar.mjs:371 | for records with non-empty slugs the set of truthy slugs is the set of all slugs |
| ProductStore.PushNew | scripts/scrape_complex_bar.mjs:402-404 | the push loop appends exactly the new products and counts them |
| ProductStore.PushedTruthy | scripts/scrape_complex_bar.mjs:402-404 | products with non-empty slugs push only non-empty slugs |
| ProductStore.SeedConcat | scripts/scrape_complex_bar.mjs:366-376 | the seed set of the file after a push is the old seed plus the pushed slugs |
| ProductStore.AppendOneAfterBatch | scripts/scrape_complex_bar.mjs:411-425 | when every save succeeds, one more single append after a batch append is the batch append of the longer batch |
| ProductStore.AppendEachIsBatch | scripts/scrape_complex_bar.mjs:411-425 | when every save succeeds, appending the products one at a time leaves the file as one batch append would, with the same count and no failed save, when every product has a slug |
| ProductStore.AppendEachGrows | scripts/scrape_complex_bar.mjs:398-425 | whatever the saves answer, appending one at a time keeps the stored records as a prefix (none when the file did not parse and something was appended), holds `added` more, and tries at most one save per product |
| ProductStore.AppendOneFails | scripts/scrape_complex_bar.mjs:378-396 | a save that throws leaves the file and the appended count as they were |
| ProductStore.AppendStep | scripts/scrape_complex_bar.mjs:399-407 | what a store method reports for one product is one append step: no save when nothing is pushed, the pushed record and its count after a save that succeeds, the old file and count after one that throws |
| ProductStore.AppendEachSnoc | scripts/scrape_complex_bar.mjs:411-425 | appending one product more is one more append step |
| ProductStore.Store.AppendProductsUnlocked | scripts/scrape_complex_bar.mjs:378-407 | `appendProductsUnlocked` loads the array, `[]` when it does not parse, pushes the products whose slug is new and saves only when something was pushed; the save succeeds exactly when one of its 20 renames does, and when all fail the method throws and the file keeps its contents |
| ScrapeRun.StartFrom | scripts/scrape_complex_bar.mjs:494 | the start URL, `SUBCATEGORY_URL` when set and else `START_URL`, is never empty |
| ScrapeRun.AnyUpTo | scripts/scrape_complex_bar.mjs:298-305 | the retry loop succeeds exactly when one of the attempts 0 to n succeeds |
| ScrapeRun.ExistingImagesSpec | scripts/scrape_complex_bar.mjs:319-333 | `ensureExistingImages` reuses an image exactly when the directory holds a `.webp` file, and then the path of one file of the best rank, the first of its rank, in the directory `path.join` gives for the slug |
| ScrapeRun.LocalImagesDownload | scripts/scrape_complex_bar.mjs:307-317 | without `--no-download` the kept image is `main.webp` in the directory `path.join` gives for the slug (`/products/main.webp` for an empty slug), present exactly when one of the four attempts on the first URL succeeds |
| ScrapeRun.EnsureLocalImages | scripts/scrape_complex_bar.mjs:523-528 | the image step of the product task: with `--no-download` the reused image, otherwise the retried download of the first URL |
| ScrapeRun.ValidateSpec | scripts/scrape_complex_bar.mjs:516-581 | a product is kept exactly when it has a title, a description over 10 characters, two non-blank specs and a local image; it then has exactly one image, the first local one, and only the non-blank specs; a skipped product names each failed check in order and no other |
| ScrapeRun.ReasonsDistinct | scripts/scrape_complex_bar.mjs:573-577 | the skip reasons are distinct |
| ScrapeRun.ProcessProduct | scripts/scrape_complex_bar.mjs:509-591 | the product task gives an error when the page fails to load, and otherwise the checks and the verdict of the parsed product with its local image |
| ScrapeRun.Outcomes | scripts/scrape_complex_bar.mjs:593-601 | one outcome per streamed URL |
| ScrapeRun.TallyBounds | scripts/scrape_complex_bar.mjs:609-618 | every streamed URL is discovered and processed once; each passed-check counter and the error count are at most the processed count; every kept product passed every check |
| ScrapeRun.OutcomesConsistent | scripts/scrape_complex_bar.mjs:545-581 | a product is kept exactly when all four checks pass |
| ScrapeRun.OutcomesSnoc | scripts/scrape_complex_bar.mjs:593-601 | one more streamed URL adds its outcome |
| ScrapeRun.KeptSnoc | scripts/scrape_complex_bar.mjs:545-581 | one more outcome extends the kept list and the tally by that outcome |
| ScrapeRun.Run | scripts/scrape_complex_bar.mjs:504-607 | the product loop: the summary counts the outcomes; with `--append-only` each kept product is appended as it is checked, and each save that throws adds one error; otherwise the kept products are appended in one batch at the end when there is any, and a save that throws ends the run (`fatal`) |
| ScrapeRun.ProcessAndAppend | scripts/scrape_complex_bar.mjs:509-591 | one pass of the product loop keeps the loop state: the kept records and, with `--append-only`, the file, the count and the summary after one append per kept record |
| ScrapeRun.AppendOnly | scripts/scrape_complex_bar.mjs:560-583 | `appendProducts([productObj])` of an `--append-only` run is one append step; `appended` grows by what it added, and a save that throws counts one failure, which `schedule` counts as an error |
| ScrapeRun.SavesScrape | scripts/scrape_complex_bar.mjs:378-396 | the n-th save of the scraper succeeds exactly when one of its 20 renames does |
| ScrapeRun.ScrapeCatalog | scripts/scrape_complex_bar.mjs:492-630 | `main` crawls from the start URL, processes the streamed URLs, none twice and at most `MAX_PRODUCTS`, and appends what it keeps, as `ScrapeRun.Run` says of saves that throw |
| ImportList.DropCR | scripts/import_from_list.mjs:72 | one piece of `text.split(/\r?\n/)`: the line with at most its final carriage return dropped |
| ImportList.Lines | scripts/import_from_list.mjs:72 | no piece of the split holds a line feed |
| ImportList.TrimAll | scripts/import_from_list.mjs:72 | every line trimmed |
| ImportList.TrimSlice | scripts/import_from_list.mjs:72 | the trimmed text of a string is a slice of it |
| ImportList.TrimmedLine | scripts/import_from_list.mjs:72 | a trimmed non-blank line has no white space at either end and no line break |
| ImportList.ListUrlsSpec | scripts/import_from_list.mjs:70-73 | every listed URL is a non-blank line of the file, trimmed; every non-blank line is listed; an empty or missing file lists nothing |
| ImportList.ListUrlsSound | scripts/import_from_list.mjs:72 | every listed URL is a trimmed non-blank line |
| ImportList.ListUrlsComplete | scripts/import_from_list.mjs:72 | every non-blank line is listed |
| ImportList.ListUrlsEmpty | scripts/import_from_list.mjs:71-73 | the empty text lists no URL |
| ImportList.ExtractGalleryImages | scripts/import_from_list.mjs:44-53 | the `add` loop over the image candidates of every `img` |
| ImportList.ListGallerySpec | scripts/import_from_list.mjs:44-53 | the gallery has no URL twice and none a placeholder, sprite, `.svg` file or logo; a URL is in it exactly when a `srcset` first word, `data-large-src`, `data-src` or `src` of some image resolves to it and passes the filter |
| ImportList.ListGalleryFrom | scripts/import_from_list.mjs:46-50 | every gallery URL comes from an attribute of some image |
| ImportList.ListGalleryTo | scripts/import_from_list.mjs:46-50 | every usable attribute value of an image is in the gallery |
| ImportList.ParseProduct | scripts/import_from_list.mjs:62 | `parseProduct` returns the title, slug, description, price, specs and gallery of the page |
| ImportList.ParsedSpec | scripts/import_from_list.mjs:55-62 | the description is the first selector text longer than 10 characters or the longest paragraph, not capped; every spec has a key shorter than 80 characters and a value, and holds the last value a table row or definition gives that key |
| ImportList.EnsureImage | scripts/import_from_list.mjs:60 | `ensureImage` makes one download of the first URL to `main.webp` in the directory `path.join` gives for the slug, without retries, and gives `null` when there is no URL or the download fails |
| ImportList.RecordSpec | scripts/import_from_list.mjs:75-81 | a record exists exactly when the page was fetched and its first gallery URL was saved; it has that one image (`/products/main.webp` for an empty slug), the listed URL as source, and the parsed title, slug, description, price and specs |
| ImportList.ProcessUrl | scripts/import_from_list.mjs:76-81 | the body of the loop for one URL gives its record, or none when the page fails to load or the image fails |
| ImportList.RecordsSnoc | scripts/import_from_list.mjs:75-87 | one more URL adds its record, if any |
| ImportList.ImportOne | scripts/import_from_list.mjs:75-87 | one pass of the loop processes the URL and appends its record, if any; a save that throws is caught, adds nothing to `added` and leaves the file as it was |
| ImportList.SavesList | scripts/import_from_list.mjs:65 | the n-th save of the importer succeeds exactly when its single rename does |
| ImportList.ImportEach | scripts/import_from_list.mjs:75-87 | the loop processes every URL and appends one record at a time; `added` counts only the records whose save succeeded |
| ImportList.ImportFromList | scripts/import_from_list.mjs:69-89 | `main` processes every listed URL, appends the records one at a time, and counts the ones whose save succeeded; an empty list leaves the store alone |
| ProductStore.Store.Append | scripts/import_from_list.mjs:64-67 | `append` of the list importer: the same push loop, with the set starting from the slug of every stored record, and a save with a single rename; when that rename fails `append` throws and the file keeps its contents |
| ImportUrls.JoinersToSpaces | prisma/import/import2.mjs:224 | a run of dashes and underscores becomes one space, and none is left |
| ImportUrls.CapitalizeWords | prisma/import/import2.mjs:224 | a word character is upper-cased exactly when it starts a word in the ASCII sense of `\b` |
| ImportUrls.UpperKeepsClass | prisma/import/import2.mjs:224 | upper-casing keeps a character's word class and is idempotent |
| ImportUrls.PrettifySlugShape | prisma/import/import2.mjs:223-225 | `prettifySlug` leaves no dash or underscore, and no word of the result starts with a lower-case Latin letter |
| ImportUrls.JoinersToSpacesIdentity | prisma/import/import2.mjs:224 | text without dashes or underscores is left alone |
| ImportUrls.CapitalizeWordsTwice | prisma/import/import2.mjs:224 | capitalising twice is capitalising once |
| ImportUrls.PrettifySlugIdempotent | prisma/import/import2.mjs:223-225 | prettifying an already prettified slug changes nothing |
| ImportUrls.DropLeadingSlashes | prisma/import/import2.mjs:238 | the leading slashes of the prefix are gone |
| ImportUrls.DropTrailingSlashes | prisma/import/import2.mjs:238 | the trailing slashes of the prefix are gone |
| ImportUrls.PrefixCategory | prisma/import/import2.mjs:238-239 | the category of the prefix, its last segment or `catalog`, is non-empty and has no slash |
| ImportUrls.CategoryInfoOf | prisma/import/import2.mjs:227-241 | `parseCategoryAndSubcategoryFromUrl` gives a category path of one or two non-empty segments without slashes, starting with the category, with the subcategory second exactly when there is one |
| ImportUrls.CategoryAfterCatalog | prisma/import/import2.mjs:230-236 | after the first `catalog` segment come the category and, if present, the subcategory |
| ImportUrls.FirstCatalogIndex | prisma/import/import2.mjs:232 | `indexOf('catalog')` finds the first such segment |
| ImportUrls.CategoryFromPrefix | prisma/import/import2.mjs:237-240 | without a segment after `catalog`, or when the URL does not parse, the prefix decides the category |
| ImportUrls.PrefixCategoryOfOneSegment | prisma/import/import2.mjs:238-239 | a prefix `/<a>/` names the category `a` |
| ImportUrls.AgreesWithFirstImporter | prisma/import/import2.mjs:227-241 | under the default prefix `/catalog/` this parse and the category slug of the parsing utilities agree |
| ImportUrls.ScopeFilter | prisma/import/import2.mjs:87 | the scope test: the pathname starts with `URL_PREFIX`, or the URL contains it when it does not parse |
| ImportUrls.ChildLocsMembers | prisma/import/import2.mjs:93-105 | a URL is among the child `loc` lists exactly when some child sitemap lists it |
| ImportUrls.ProductUrls | prisma/import/import2.mjs:75-106 | `getProductUrls` fetches the index's children in order and collects their in-scope URLs in a set; a plain `urlset` is filtered as it is |
| ImportUrls.SitemapLocs | prisma/import/import2.mjs:83 | the sitemaps walked are the non-empty `loc` values |
| ImportUrls.CollectChildren | prisma/import/import2.mjs:92-105 | the loop over the child sitemaps adds every in-scope `loc` to the set, in first-seen order |
| ImportUrls.AddKept | prisma/import/import2.mjs:98-103 | the inner loop over one child's `loc` list |
| ImportUrls.ChildLocsStep | prisma/import/import2.mjs:93-104 | one more child sitemap adds its `loc` list |
| ImportUrls.ProductUrlsMembers | prisma/import/import2.mjs:75-106 | a URL is returned exactly when it is in scope and listed by a child sitemap, or by the single `urlset` |
| ImportUrls.WalkedSitemaps | prisma/import/import2.mjs:83 | the sitemaps walked are exactly the index's non-empty `loc` values |
| ImportUrls.ProductUrlsDistinct | prisma/import/import2.mjs:92-106 | a sitemap index yields every URL once |
| ImportUrls.ProductTypeIgnoresCase | prisma/import/import2.mjs:423 | the `@type` test ignores letter case |
| ImportUrls.ProductLdMakesProductPage | prisma/import/import2.mjs:419-429 | JSON-LD `"@type": "Product"` with a heading makes a product page |
| ImportUrls.ProductTypeMakesProductPage | prisma/import/import2.mjs:419-429 | a script matching the `@type` pattern with a heading makes a product page |
| ImportUrls.HasProductTypeAt | prisma/import/import2.mjs:423 | a match at one place is a match of the pattern |
| ImportUrls.OneProductScript | prisma/import/import2.mjs:421-428 | one product script and a heading make a product page |
| ImportUrls.TypeAtStart | prisma/import/import2.mjs:423 | the pattern matches the lower-cased literal at its start |
| Crawl.SetEntryFacts | prisma/import/import2.mjs:111 | `products.set(k, v)` keeps the insertion order of the map: a new key goes last, an existing one keeps its place |
| Crawl.SetNewEntry | prisma/import/import2.mjs:111 | setting a new key keeps every existing entry |
| Crawl.TileCandidate | prisma/import/import2.mjs:138-157 | a tile gives a candidate exactly when its link parses, is a product page or in scope, and it has a trimmed name; the candidate has that link and name |
| Crawl.TileCandidates | prisma/import/import2.mjs:137-158 | at most one candidate per tile |
| Crawl.FirstWithUrl | prisma/import/import2.mjs:159-161 | the first candidate with a given URL |
| Crawl.FirstWithUrlSpec | prisma/import/import2.mjs:159-161 | it is found exactly when some candidate has that URL, and no earlier one has |
| Crawl.AddTilesSpec | prisma/import/import2.mjs:159-161 | tiles never replace an entry, and a new URL gets its first candidate |
| Crawl.AddTilesKeyed | prisma/import/import2.mjs:159-161 | the tile loop keeps every entry stored under its own URL |
| Crawl.AnchorPath | prisma/import/import2.mjs:164-174 | the anchor loop looks only at links that parse, are not `mailto:` or `tel:`, have no `#` and are at most 8 segments deep |
| Crawl.CollectFilter | prisma/import/import2.mjs:176-182 | an anchor is collected when it is in scope or a product page |
| Crawl.QueueFilter | prisma/import/import2.mjs:176-179 | an in-scope anchor is queued unless visited |
| Crawl.ProductFilter | prisma/import/import2.mjs:187-189 | the sample keeps product-page links, and none that does not parse |
| Crawl.SampleSpec | prisma/import/import2.mjs:187-189 | at most 20 links are sampled, all product pages from the anchor set, none twice |
| Crawl.KeptNoDups | prisma/import/import2.mjs:187-189 | filtering keeps a list free of duplicates |
| Crawl.AddSampledSpec | prisma/import/import2.mjs:190-201 | sampling never replaces an entry and stores exactly the unknown links whose page parses to a name over 3 characters with a positive price or a description over 20 characters |
| Crawl.AddSampledKeyed | prisma/import/import2.mjs:190-201 | sampling keeps every entry stored under its own URL |
| Crawl.PageProductsSpec | prisma/import/import2.mjs:118-202 | `processPage` keeps every entry but the page's own, which only a direct product hit overwrites; a new entry is the page itself, a tile's first candidate, or an accepted sampled link |
| Crawl.PageQueueMembers | prisma/import/import2.mjs:127-179 | a link is queued exactly when it is on a page that is not a direct product hit, is in scope and passes the anchor tests, and was not visited |
| Crawl.PageProductsKeyed | prisma/import/import2.mjs:118-202 | a page keeps every entry stored under its own URL |
| Crawl.Unvisited | prisma/import/import2.mjs:208 | a URL is taken when it is non-empty and not visited |
| Crawl.Crawler.TakeBatch | prisma/import/import2.mjs:205-209 | the inner loop shifts the queue until the batch holds the concurrency or the queue is empty; the batch is the distinct non-empty unvisited URLs shifted, and each is marked visited |
| Crawl.Crawler.InsertTiles | prisma/import/import2.mjs:159-161 | the tile loop stores each candidate whose URL is new, and changes nothing else |
| Crawl.Crawler.ScanAnchors | prisma/import/import2.mjs:163-184 | the anchor loop queues the unvisited in-scope links and collects the in-scope and product links, none twice |
| Crawl.Crawler.SampleLinks | prisma/import/import2.mjs:190-201 | the sampled links are parsed one after the other and the accepted new ones stored |
| Crawl.Crawler.ProcessPage | prisma/import/import2.mjs:118-202 | `processPage` leaves the map and the queue its specification gives |
| Crawl.CollectTiles | prisma/import/import2.mjs:137-158 | the tile loop pushing to `candidates` |
| Crawl.Records | prisma/import/import2.mjs:215-219 | one record per stored entry |
| Crawl.RecordsUrls | prisma/import/import2.mjs:215-219 | every record names the URL it is stored under with an empty description, so no supplier URL is listed twice |
| Crawl.CrawlForProducts | prisma/import/import2.mjs:108-221 | `crawlForProducts` runs batches until the queue is empty or a batch is empty, more than 2000 URLs are visited, more than 5000 products found, or a dry run reaches its limit; it processes at most 2000 URLs plus one batch and returns one record per product found |
| ImportPage.CrumbSlug | prisma/import/import2.mjs:260-261 | the slug of a crumb, the last segment of the category the link names, is non-empty and has no slash |
| ImportPage.CrumbsMembers | prisma/import/import2.mjs:255-293 | a crumb is exactly a qualifying candidate of its tier |
| ImportPage.CrumbOfShape | prisma/import/import2.mjs:262 | a candidate qualifies exactly when it has a name and its slug is not `catalog`; the crumb then has a non-empty one-segment slug |
| ImportPage.BreadcrumbsSpec | prisma/import/import2.mjs:244-297 | no crumb is the `catalog` segment and every slug is one non-empty segment; a qualifying JSON-LD element makes the JSON-LD trail win with untrimmed non-empty names; the result is empty only when no candidate of any tier qualifies |
| ImportPage.TierEmpty | prisma/import/import2.mjs:269-281 | a tier is empty exactly when none of its candidates qualifies |
| ImportPage.BlankMicrodataName | prisma/import/import2.mjs:279 | the microdata and link tiers test the name before trimming it, so a blank name yields a crumb with an empty name |
| ImportPage.SlugsOf | prisma/import/import2.mjs:44 | the slugs of the registry in insertion order |
| ImportPage.Lookup | prisma/import/import2.mjs:402 | `categoriesMap.get(slug)` finds a category with that slug |
| ImportPage.LookupSome | prisma/import/import2.mjs:402 | it finds one exactly when the slug is registered |
| ImportPage.LookupSnoc | prisma/import/import2.mjs:402 | a category added later never shadows an earlier one |
| ImportPage.SlugsOfSnoc | prisma/import/import2.mjs:402 | adding a category adds its slug last |
| ImportPage.AddEntriesLookup | prisma/import/import2.mjs:401-410 | a slug keeps the first category offered for it |
| ImportPage.AddEntriesKeeps | prisma/import/import2.mjs:401-410 | registering never moves, changes or drops a category, and keeps the slugs distinct |
| ImportPage.LookupFirst | prisma/import/import2.mjs:402 | the lookup finds the entry at the first position of the slug |
| ImportPage.LookupAt | prisma/import/import2.mjs:402 | the entry at a position is found when no earlier entry has the slug |
| ImportPage.CrumbSlugsOf | prisma/import/import2.mjs:401-404 | the crumb entries carry the crumbs' slugs in order |
| ImportPage.RegisterCrumbsEntry | prisma/import/import2.mjs:399-404 | a slug the registry did not hold gets the name of its first crumb and that crumb's predecessor as parent, none for the first |
| ImportPage.CrumbEntryAt | prisma/import/import2.mjs:400-404 | each crumb is offered with the previous crumb as parent |
| ImportPage.FirstOfferWins | prisma/import/import2.mjs:402 | the first offer of a new slug is the one kept |
| ImportPage.FirstEntry | prisma/import/import2.mjs:402 | the lookup in a list of offers whose slug first occurs at a position |
| ImportPage.RegisterPathEntry | prisma/import/import2.mjs:405-410 | without breadcrumbs, a new segment of the category path is registered under its prettified name, with the previous segment as parent |
| ImportPage.RegisterNeverOverwrites | prisma/import/import2.mjs:398-411 | a slug already registered keeps its category, whatever the page offers |
| ImportPage.CategoryRegistry.Has | prisma/import/import2.mjs:402 | `categoriesMap.has(slug)` |
| ImportPage.CategoryRegistry.RegisterCrumbs | prisma/import/import2.mjs:399-404 | the breadcrumb loop |
| ImportPage.CategoryRegistry.RegisterPath | prisma/import/import2.mjs:405-410 | the URL-path loop |
| ImportPage.CategoryRegistry.Register | prisma/import/import2.mjs:397-411 | the registration step of `parseProductPage` |
| ImportPage.FirstTen | prisma/import/import2.mjs:332 | `.slice(0, 10)` keeps at most the first ten |
| ImportPage.AcceptedImagesMembers | prisma/import/import2.mjs:328-330 | an accepted image is an absolutized non-empty candidate that is not `.svg` or `.gif` and does not contain `logo` |
| ImportPage.CollectImagesAsWrittenSpec | prisma/import/import2.mjs:304-333 | as written `collectImageSources` gives at most ten URLs, none an SVG or GIF nor containing `logo`, each from a candidate |
| ImportPage.AsWrittenRepeatsOgImage | prisma/import/import2.mjs:307-331 | as written, a page whose first `og:image` is acceptable lists that image twice at the head of the result: `seen` is filled only after the filter |
| ImportPage.HeadPairKept | prisma/import/import2.mjs:328-330 | a candidate offered twice in a row at the head is kept twice |
| ImportPage.CollectImagesSpec | prisma/import/import2.mjs:304-333 | the intended result: at most ten distinct acceptable URLs in the order of their first occurrence, all of them when there are at most ten |
| ImportPage.CollectImagesAgree | prisma/import/import2.mjs:304-333 | when the acceptable candidates are already distinct, the image list as written is the intended one |
| ImportPage.ProductOfAsWrittenSpec | prisma/import/import2.mjs:372-417 | the record as written has a non-empty name, its slug, its own URL and the category read off it, at most ten acceptable images; it equals the intended record when the acceptable images are distinct |
| ImportPage.CleanedEntries | prisma/import/import2.mjs:337-342 | the spec object holds only collapsed, trimmed, non-empty keys and values |
| ImportPage.SetSpecStep | prisma/import/import2.mjs:337-342 | one more `setSpec` call is one more pair offered to the first-wins object |
| ImportPage.SetSpecOffers | prisma/import/import2.mjs:337-342 | `setSpec` drops a blank pair and keeps an existing key |
| ImportPage.ParseSpecs | prisma/import/import2.mjs:335-370 | `parseSpecs`: the header tables, the generic tables and the definition lists, in that order |
| ImportPage.ParseSpecsSpec | prisma/import/import2.mjs:335-370 | keys and values are collapsed, trimmed and non-empty, keys distinct, and each key holds the value of the first call that offered it |
| ImportPage.TablePairsSpec | prisma/import/import2.mjs:353-361 | a generic table with no rows or more than 40 offers nothing; otherwise exactly its two-cell rows |
| ImportPage.TwoCellMembers | prisma/import/import2.mjs:356-359 | exactly the two-cell rows are offered |
| ImportPage.TwoCellFrom | prisma/import/import2.mjs:356-359 | every offered pair is a two-cell row |
| ImportPage.TwoCellTo | prisma/import/import2.mjs:356-359 | every two-cell row is offered |
| ImportPage.MissingDefinitionDropped | prisma/import/import2.mjs:363-367 | a term without a definition offers `''`, which `setSpec` drops |
| ImportPage.PriceSpec | prisma/import/import2.mjs:383-389 | without a content attribute the price is the number the digits of the text spell, `0` when there are none; with one it is that attribute's number |
| ImportPage.ParseProductPage | prisma/import/import2.mjs:372-417 | `parseProductPage` on a fetched page gives the record and registers its categories |
| ImportPage.ProductOfSpec | prisma/import/import2.mjs:372-417 | the record has a trimmed non-empty name, `Товар` when the headings are blank, the page's own URL as supplier URL, the category read off that URL, at most ten distinct acceptable images and clean specs |
| ImportStore.DownloadAndOptimizeImages | prisma/import/import2.mjs:475-486 | `downloadAndOptimizeImages` over the sources |
| ImportStore.DownloadsKeep | prisma/import/import2.mjs:478-484 | the loop keeps the paths it has and tries only input sources |
| ImportStore.DownloadsSpec | prisma/import/import2.mjs:455-486 | at most five paths; the sources tried are distinct, non-empty and from the input; the k-th path is the 768-pixel file of `<base>-<k>` |
| ImportStore.DownloadsAllFetched | prisma/import/import2.mjs:478-484 | when every download succeeds, every source tried yields a path |
| ImportStore.FindSlug | prisma/import/import2.mjs:492 | `findIndex` gives the first record with the slug, or -1 exactly when there is none |
| ImportStore.ProductsFile.WriteProduct | prisma/import/import2.mjs:488-512 | `writeProductToFile` reads the array, `[]` when it does not parse, upserts the record by slug and writes it back |
| ImportStore.UpsertExisting | prisma/import/import2.mjs:508-510 | an existing slug is replaced in place: same length, same other records, its non-empty `createdAt` kept |
| ImportStore.UpsertNew | prisma/import/import2.mjs:510 | a new slug is appended at the end, stamped with the current time |
| ImportStore.UpsertUnique | prisma/import/import2.mjs:488-512 | upserting keeps slugs unique and adds exactly the written slug |
| ImportStore.UpsertTwice | prisma/import/import2.mjs:488-512 | writing the same product twice changes nothing the second time |
| ImportStore.RecordOfSpec | prisma/import/import2.mjs:494-509 | a price of `0` or `NaN` becomes `null`; the local images are stored when there are any, with the first as main image, else the remote sources |
| ImportStore.UnreadableFileReplaced | prisma/import/import2.mjs:490-491 | an unreadable file is replaced by a file holding only the new record |

## Left out

- Network and file system: `fetch`, timeouts, gzip decoding, and every `fs` read, write, rename, unlink and directory listing. They enter the model as parameters: fetched text, a `fileExists` or `listDir` function, and per-attempt oracles for a fetch and a download. A save of the records file is told by a `ProductStore.Disk`: whether rename attempt k of the n-th save of the run succeeds.
- HTML and XML querying (cheerio, fast-xml-parser): the model takes the candidates a selector list returns, as given sequences. These are breadcrumb items, spec rows, image attributes, anchors and sitemap `loc` lists.
- Image transcoding (sharp), placeholder synthesis and the Bing and Unsplash search clients: only the slot, pick and cap logic around them is modelled. Their results are oracle parameters.
- `slugify`, base64 decoding, URL resolution, `localeCompare(..., 'ru')` and the material, colour and keyword regex tables: these are uninterpreted parameters. The model states what holds for every choice of them; a total preorder is required where a sort uses one. The exceptions are `DROP_PATTERNS` in `scripts/enrich_products.mjs` and the image-URL patterns of the scraper, which are modelled concretely.
- `extractWithProfile` and `SITE_PROFILES` in `scripts/enrich_products.mjs`: they sit inside the search parameter of the enricher.
- Concurrency: the `p-limit` pools, `Promise.all` batches, the `appendProducts` promise-chain mutex and `FLUSH_BATCH` buffering. The model runs them sequentially, in input order.
- Floating point: `parseFloat` and `Math.round` in `normDim` and `normVol` are modelled on exact decimals with round-half-up. The binary rounding of very long fractions is not modelled. The `performance.now` timing in `lib/timing.ts` is not part of this model.
- Wall-clock values: the date-based shuffle seed, `createdAt`, `updatedAt` and the cache timestamps are parameters. The `Date.now()` record ids are parameters too.
- Prisma database branches: the `upsertProduct` database path and `importLog` in `prisma/import/import2.mjs`, and the database branches of the products, facets and leads routes. `app/sitemap.ts` is not part of this model, and neither is the batch driver of `main` in `prisma/import/import2.mjs` beyond the per-product steps.
- `prisma/import/import.mjs` is not part of this model. It is a broken duplicate of `prisma/import/import2.mjs` and has been superseded.
- The generated sentences and call to action of `scripts/fill_products.mjs`: their text is kept as opaque `Wording` constants and is not reproduced.
- CategoryDefaultsSpec (Fill): states `defaultsForCategory` with its keywords, keys and values decoded from the stored Mac OS Roman reading. As stored, every Cyrillic keyword misses Cyrillic text (`FillAsWritten.StoredDefaultsIgnoreCyrillic`), so "тарелки фарфоровые" gets the steel default.
- UnitAt (Fill): the unit alternatives `см` and `мм` are the decoded ones. As stored, they are the two-character readings of each letter and do not match Cyrillic units.
- GuessSizeAt (Fill): appends the decoded units `см` and `мм`. As stored, it appends their Mac OS Roman readings.
- FillProduct (Fill): runs the decoded script with the intended stage-two defaults. As stored, the script does not load (`FillAsWritten.StoredSlugClassRejected`). Decoded but as written, a brand of white space only leaves the brand key missing (`Fill.AsWrittenLeavesBrandMissing`), and the stored keys leave the real ones unfilled (`FillAsWritten.StoredDefaultsMissRealKeys`).
- CompletedSpecs (Fill): "all seven standard keys set" is proved for the decoded script with the intended defaults. For the other readings see the line on FillProduct.
- FillAll (Fill): completes every product with the decoded, intended pass. For the other readings see the line on FillProduct.
- StageTwoCompletes (Fill): it is proved of the intended defaults, which skip blank fields. As written, a brand of white space only leaves the brand key missing (`Fill.AsWrittenLeavesBrandMissing`). `Fill.DefaultsAgree` says when the two agree.
- AdminIff (Middleware): it states the guard with the corrected first-colon test. As written, `admin:a:junk` is accepted for the password `a`, and `admin:a:b` is refused for `a:b`. `Middleware.CredentialsAgree` says when the two agree.
- AllCapsBranch (Casing): the restore in the all-capitals branch is the letter-boundary one, as in the line on NormalizeCaseSpec.
- RestoreSpec (Casing): the whole-word replacement is the letter-boundary one. As written, the `\b` replacement leaves a whole-word "свч" alone (`Casing.AsWrittenKeepsCyrillic`).
- SanitizeValue (Enrich): the case step is the letter-boundary `normalizeCase`. As written, `sanitizeValue("СВЧ")` gives "Свч".
- SanitizeSpec (Enrich): its "normal case" is the letter-boundary `normalizeCase`, as in the line on SanitizeValue.
- ExtractGalleryImages (Scrape): the fallback scan uses the intended CDN test. As written, line 195 of `scripts/scrape_complex_bar.mjs` rejects a relative `/images/detailed/a` (`ScrapePatterns.CdnAsWrittenRejectsDetailed`). `ScrapePatterns.CdnAsWrittenIsCdn` shows the test as written accepts nothing the intended one rejects.
- GalleryImagesSpec (Scrape): its "looks like a CDN link" is the intended test, as in the line on ExtractGalleryImages.
- FallbackOrigin (Scrape): "passed the CDN test" means the intended test, as in the line on ExtractGalleryImages.
- FallbackOfSome (Scrape): the intended CDN test stands in for the pattern of line 195, as in the line on ExtractGalleryImages.
- ParseProduct (Scrape): its gallery comes from the intended fallback test, so it keeps relative `/images/detailed/` sources that the script as written drops.
- ParseProductPage (ImportPage): it collects images with the intended de-duplicating `collectImageSources`. As written, an acceptable first `og:image` is listed twice (`ImportPage.AsWrittenRepeatsOgImage`). `ImportPage.ProductOfAsWrittenSpec` states the record as written.
- ProductOfSpec (ImportPage): its distinct images hold of the intended record only. The record as written keeps every other guarantee (`ImportPage.ProductOfAsWrittenSpec`).
- Text.Lower: maps only the one-to-one case pairs of Basic Latin, Latin-1, Latin Extended-A, Cyrillic and the Cyrillic Supplement. Other scripts, such as Greek and Armenian, are left unchanged, and so is the rest of Unicode. The special mappings are not modelled: 'İ' to "i̇", final sigma, the dotless 'ı' and long 'ſ' (which upper-case to ASCII), and the Cyrillic palochka 'Ӏ'.
- Text.Upper: the same table as Text.Lower. The one-to-many mappings are not modelled: 'ß' to "SS", 'ŉ' to "ʼN", and the ligatures. Nor is 'µ' to the Greek 'Μ'.
- LowerOfUpper (Text): holds of the table. It is false in JavaScript for 'ß' (upper "SS", lower "ss") and for characters outside the table that JavaScript maps.
- CaseRoundTrip (FacetsRoute): holds of the table only, as in the line on LowerOfUpper.
- NormalizeSpec (FacetsRoute): "keeps the trimmed length" holds of the table only. In JavaScript, 'ß'.toUpperCase() is "SS".
- FilterBrand (ProductsRoute): "ignoring case" means the table of Text.Lower. A brand in a script outside it, such as Greek, compares case-sensitively in the model.
- FilterText (ProductsRoute): "ignoring case" means the same table as in the line on FilterBrand.
- NormalizeCaseSpec (Casing): it states `normalizeCase` with the abbreviations restored at letter boundaries. As written, ASCII `\b` leaves "Свч" for "СВЧ" (`Casing.AsWrittenLosesSvch`). `Casing.CaseReadingsAgree` says when the two agree. Its case mapping is the table of Text.Lower, so letters outside it keep their case.
- Lengths: every length threshold counts characters, where JavaScript `.length` counts UTF-16 code units. This applies to the `> 10` and `> 20` description tests, the `< 80` spec-key limit, the 250, 280 and 500 limits of `generateDescription` and its `slice(0, 497)`. The two counts differ only for characters outside the Basic Multilingual Plane, such as emoji.
- ImportPage.PriceOf: the `numberOf` parameter gives whole non-negative numbers only. The fractional values of `Number()` ("1200.50" is 1200.5), exponents ("1e3") and negative values are not modelled.
- ProductsRoute query fields: `page`, `pageSize`, `priceMin` and `priceMax` are integers. `Number()` of a query such as "abc" gives NaN, which makes every price comparison false, and "0.5" gives a fraction that `slice` truncates. Neither is modelled.
- Cart.Add: the default `qty = 1` of `add(item, qty = 1)` is not modelled. Callers pass the quantity.
- SpecMap: the entries keep insertion order. JavaScript lists integer-like keys first, in numeric order; spec keys of that form are not modelled. The same holds of the `top[slug]` and `subs[parent]` objects of the facets route (`FacetsRoute.PutSpec`, `FacetsRoute.TopSpec`, `FacetsRoute.AppendSpec`, `FacetsRoute.SubsSpec`). A slug or spec key `__proto__` is not modelled either: assigning to it sets the object's prototype and makes no own key.
- Fill: the first image pass of `main`, `scripts/fill_products.mjs:291-474` (search, download and convert of candidates), is taken as given through the image environment. Apart from its character class (`FillAsWritten`), `safeSlug` is not modelled, and neither are the change flags, counters, logs and the summary markdown.
- VerifyProducts: its own copies of `extractGalleryImages` and `extractSpecs`, and `imageExistsAndValid`, are taken as given through the `Live` parameters. `Live` also supplies the results of the downloads.
- The in-place sorts (`filtered.sort` and `rest.sort` in the products route, and the count sorts of the facets route) are modelled as a stable sort on sequence values. The model does not capture the update of the array in place.
- Brand names that hit `Object.prototype` members (such as `constructor`) in the `BRAND_DOMAINS` lookup of the enricher are not modelled.
- ImportStore.ProductsFile.WriteProduct: `writeFileSync` is taken to succeed. When it throws, the per-product error path of `prisma/import/import2.mjs` is not modelled. The same holds of the final `products.json` writes of the fill and enrich passes.
- ProductStore.ImagePath: the slug is taken as one path segment. `path.join` would also resolve a `.` or `..` segment and split at a `/` inside the slug; those slugs are not modelled. With `strict: true`, the `slugify` of `normSlug` drops dots and slashes, so the scripts do not produce them.
- Leads: the 500 response when writing `logs/orders.json` or `logs/leads.json` fails is not modelled. The write is taken to succeed.
- The relation between the lower-case material names of the products route and the title-case names of the facets route is not modelled. Each route's mapping is modelled separately.
- Log lines, progress output and summary files of every script.
- UI components, i18n, configuration, the version route, the admin import stub and `scripts/check_import_integrity.mjs`.

## Findings

| source | as written | input that shows it | evidently intended | confidence | as-written member | corrected member |
|---|---|---|---|---|---|---|
| scripts/enrich_products.mjs:165-176 | `normalizeCase` restores abbreviations with `\b` word boundaries, but without the `u` flag `\b` only sees ASCII word characters. `\bсвч\b` therefore never matches a Cyrillic word. | "СВЧ" is all capitals, so it is title-cased to "Свч", and the replacement leaves "Свч" as is. | The abbreviation comes back as "СВЧ". Letters of either alphabet bound a word. | not executed | `Casing.NormalizeCaseAsWritten` and `Casing.AsWrittenLosesSvch` | `Casing.NormalizeCase` and `Casing.NormalizeKeepsSvch` |
| middleware.ts:44-46 | The decoded Basic credentials are split with `split(':')` at every colon. Only the first two pieces are compared. | A user "admin" with the password "a:b" sends "admin:a:b". The password is read as "a" and refused. | Split at the first colon only. Section 2 of RFC 7617 says so, and there the password may contain colons. | not executed | `Middleware.CredentialsMatchAsWritten` and `Middleware.AsWrittenRefusesColon` | `Middleware.CredentialsMatch` and `Middleware.CredentialsMatchIff` |
| scripts/fill_products.mjs:680-692 | The stage-two defaults use `p.brand` when it is truthy. A brand of white space only is truthy, so it wins over 'Ardesto'. `mergeSpecsObject` then trims it to the empty string and skips it. | A product with `brand: " "` and no brand spec. | The brand key is filled with a non-blank value. The product ends with all seven spec keys. | not executed | `Fill.StageTwoDefaultsAsWritten` and `Fill.AsWrittenLeavesBrandMissing` | `Fill.StageTwoDefaults` and `Fill.StageTwoCompletes` |
| prisma/import/import2.mjs:304-333 | `collectImageSources` adds a URL to `seen` only after the filter has run, so the filter never drops anything. | A page whose `og:image` URL is also listed among the gallery images. The URL is listed twice. | Each image URL is listed once, at most ten in all. | not executed | `ImportPage.CollectImagesAsWritten` and `ImportPage.AsWrittenRepeatsOgImage` | `ImportPage.CollectImages` and `ImportPage.CollectImagesSpec` |
| scripts/scrape_complex_bar.mjs:195 | The gallery pattern groups three alternatives: the CDN host, `/images/detailed/` and `/product/`. A final slash follows the whole group, so it applies to every alternative. A relative path must therefore contain `/images/detailed//`. | The relative source "/images/detailed/a" is rejected. | The supplier's site-relative image paths under `/images/detailed/` are accepted. | not executed | `ScrapePatterns.CdnLikeAsWritten` and `ScrapePatterns.CdnAsWrittenRejectsDetailed` | `ScrapePatterns.CdnLike` and `ScrapePatterns.CdnAcceptsDetailed` |
| scripts/fill_products.mjs:45 | The file holds the Mac OS Roman reading of its UTF-8 text. In the character class of `safeSlug`, the range `а-я` is therefore stored as `–∞-—è`, which holds a range from ∞ (U+221E) down to — (U+2014). | Loading the script. A regular expression whose class has an out-of-order range is an early syntax error, so no line of the script runs. | The decoded class `a-z0-9а-яё\-\s_`, whose ranges are in order. | not executed | `FillAsWritten.StoredSlugClassRejected` | `FillAsWritten.SlugClassAccepted` and `FillAsWritten.SlugClassStored` |
| scripts/fill_products.mjs:192-212 | The same stored reading turns each Cyrillic keyword of `defaultsForCategory` and each key of the stage-two defaults (lines 680-692) into two characters per letter, such as `—Ñ–∞—Ä—Ñ–æ—Ä` for `фарфор`. | With the class of line 45 repaired: the category "Тарелки" and the name "фарфоровые" get the steel default and a white colour. The defaults are merged under the stored keys, so a missing `Материал` stays missing. | The decoded keywords and keys: porcelain for text that says фарфор, and the seven real keys filled. | not executed | `FillAsWritten.StoredDefaultsIgnoreCyrillic` and `FillAsWritten.StoredDefaultsMissRealKeys` | `Fill.CategoryDefaultsSpec` and `Fill.StageTwoCompletes` |
