# printify.com scraper — a verified model of its first pass

`scraper.js` walks the product categories of printify.com with a headless
browser. It appends one CSV row per newly found product, and one row per
variant (size and price) of each of its print providers, to
`printify_products.csv`. This project models the part of the script that
decides what gets written and in what order:

- **The row builders.** `appendProductToCsv` and `appendVariantToCsv` write
  every field between double quotes and double each `"` inside a field. The
  exception is the product URL: it is quoted but not escaped. The header line
  is written only when the file does not exist yet.
- **Category deduplication** by URL (`new Map(...).values()`). Entries keep
  the order of each URL's first occurrence and hold the last link seen for
  that URL.
- **`processCategory`.** The seen-set gate on product URLs, the product row,
  the provider loop with its variant rows, and the `while (true)` pagination
  loop with its three ways of stopping.
- **The top-level loop over the categories.** It catches an exception from
  one category and goes on with the next.

The browser is replaced by data (module `Site`). For each category URL the
model knows its listing pages: the anchors each shows and what its
next-page control does. For each product URL it knows what the product page
shows: the provider-info buttons with their variant tables, and whether
navigating back succeeds. Every uncaught browser step of `processCategory` has
an outcome that says so; file-system errors and the loader's own exception are
not modelled (see "Left out").

The modules, in dependency order:

- `Wrappers`: `Option`.
- `Csv`: escaping, the two row builders, and a reference reader for quoted
  rows. It is used to show what reads back.
- `Store`: rows, the header, the text appended for a sequence of rows, the
  records a CSV reader makes of them, and the URL loader as written and as
  intended.
- `Categories`: the insertion-ordered map and `UniqueCategories`.
- `Site`: what the browser shows.
- `Crawl`: the scraper's first pass as functions. A new product's visit, the
  scan of one listing page, the pagination loop (as written, and staying in
  place), one category, and all categories.
- `Dedup`: the invariant the seen-set gate keeps over a whole run, and the
  behaviour of a second run under both loaders.
- `Paging`: what the return to the first listing page after each visited
  product does and does not change, how a provider error ends a category,
  and the catch-and-continue over categories.
- `Crawler`: the class whose fields are `existingUrls` and the rows appended
  to the file. Its methods run the loops of `processCategory` and of the
  top level imperatively. Each is proved to end in the state the `Crawl`
  functions compute.

## Model

| member | source | states |
|---|---|---|
| `Csv.Escape` | scraper.js:21 | the escaped text is as long as the original plus one character per `"`, and text without `"` is unchanged |
| `Csv.ProductLine` | scraper.js:20-24 | a product line starts with a quote and ends with a newline |
| `Csv.VariantLine` | scraper.js:27-31 | a variant line starts with a quote and ends with a newline |
| `Csv.FieldRoundTrip` | scraper.js:21 | reading an escaped field back, up to its closing quote, gives the original text, whatever quotes it holds |
| `Csv.RecordRoundTrip` | scraper.js:28 | a row with every field quoted and escaped reads back as its fields |
| `Csv.ProductLineIsRecord` | scraper.js:21 | when the URL holds no `"`, the product line is the fully escaped row of category, name, URL and two empty fields |
| `Csv.VariantLineIsRecord` | scraper.js:28 | when the URL holds no `"`, the variant line is the fully escaped row of its five fields |
| `Csv.ProductRowReadsBack` | scraper.js:20-24 | a product line with a quote-free URL reads back as exactly five fields, Size and Price empty |
| `Csv.VariantRowReadsBack` | scraper.js:27-31 | a variant line with a quote-free URL reads back as its five fields |
| `Csv.UnescapedUrlBreaksRow` | scraper.js:21 | a product line whose URL is `"` does not read back as a row at all |
| `Store.LineReadsBack` | scraper.js:20-31 | the line of a row with a quote-free URL reads back as the row's five column values |
| `Store.RenderConcat` | scraper.js:23 | appending rows only extends the file: the old text stays a prefix |
| `Store.RenderSnoc` | scraper.js:30 | one more row adds exactly its line at the end of the text |
| `Store.AppendLine` | scraper.js:23 | the file after one more row is the file before followed by that row's line |
| `Store.RecordsReadBack` | scraper.js:15 | when no stored URL holds a `"`, there is one record per row; each record has exactly the header's column names as keys, and under the j-th name holds the j-th field the reference reader finds on the row's line |
| `Store.AsWrittenLoaderFindsNothing` | scraper.js:12-17 | `LoadedUrlsAsWritten`, the loader as written (the empty set without a file, else the values under the key `url`), finds no URL in a file this program wrote (with no `"` in its URLs), because no record has a `url` key |
| `Store.LoaderFindsStoredUrls` | scraper.js:12-17 | `LoadedUrls`, the loader reading the `Product URL` column, finds exactly the URLs of the stored rows, when none holds a `"` |
| `Categories.PutTracks` | scraper.js:327 | inserting one more link keeps the map's keys, entries and key order in step with the links read so far |
| `Categories.BuildTracks` | scraper.js:327 | building the map from all links keeps that relation |
| `Categories.ValuesOfTracked` | scraper.js:327 | the map's values carry their keys' URLs, are each the last link with that URL, and cover every URL |
| `Categories.UniqueCategories` | scraper.js:327 | no two results share a URL, the results' URLs are exactly the links' URLs, each result is the last link with its URL, and results follow the first occurrence of their URLs |
| `Site.StubOf` | scraper.js:49-58 | the stub keeps the name; its URL is empty exactly when `href` is missing or empty; otherwise it is the origin followed by `href` |
| `Crawl.ProviderRows` | scraper.js:112-178 | the provider loop writes at most one row per table row over all providers |
| `Crawl.ProviderRowsFacts` | scraper.js:112-167 | the provider loop writes only variant rows of the product; it ends cleanly exactly when no provider throws, and then writes one row per table row; providers without a table write nothing |
| `Crawl.Visit` | scraper.js:73-182 | a visit adds the product URL to the seen set and only appends rows |
| `Crawl.VisitRows` | scraper.js:75-164 | a visit appends the product row first and then only that product's variant rows; with no providers, the product row alone |
| `Crawl.ScanStubs` | scraper.js:71-76 | scanning a page only adds seen URLs and only appends rows |
| `Crawl.ScanFirst` | scraper.js:72-183 | one turn of the stub loop only adds seen URLs and only appends rows |
| `Crawl.ScanFacts` | scraper.js:71-76 | a scan sees only URLs of the page, sees some exactly when it visits a product, leaves the state alone otherwise, and when clean leaves every URL of the page seen |
| `Crawl.ScanProgress` | scraper.js:71-184 | a scan that visits a product leaves fewer of the category's URLs unseen, which is why the loop ends |
| `Crawl.Paginate` | scraper.js:68-215 | the pagination loop as written only adds seen URLs and rows, and `currentPage` never decreases |
| `Crawl.Advance` | scraper.js:186-210 | the page-advance step only adds seen URLs and rows, and `currentPage` never decreases |
| `Crawl.PaginateInPlace` | scraper.js:68-215 | a loop that stays on its listing page counts at most one page per listing page |
| `Crawl.AdvanceInPlace` | scraper.js:186-210 | the same bound from the page-advance step |
| `Crawl.CategoryPass` | scraper.js:64-67 | processing a category only adds seen URLs and rows |
| `Crawl.CrawlPass` | scraper.js:338-346 | the loop over the categories only adds seen URLs and rows |
| `Dedup.ProductUrlsConcat` | scraper.js:75 | the product URLs of two logs joined are those of each |
| `Dedup.VisitProductUrls` | scraper.js:75-76 | a visit adds exactly the visited URL to the product URLs of the log |
| `Dedup.VisitKeepsGood` | scraper.js:73-76 | a visit keeps the run invariant: the seen set is the loaded URLs plus the product-row URLs; product rows are new, non-empty and distinct; variant rows follow their product row |
| `Dedup.ScanKeepsGood` | scraper.js:71-76 | scanning a page keeps the run invariant, however the scan ends |
| `Dedup.PaginateKeepsGood` | scraper.js:68-215 | the pagination loop keeps the run invariant |
| `Dedup.CrawlKeepsGood` | scraper.js:338-346 | the loop over the categories keeps the run invariant |
| `Dedup.FirstPassRows` | scraper.js:73-76 | after a run, `existingUrls` is the loaded URLs plus the product-row URLs; every product row has a new non-empty URL; no URL has two product rows; every variant row comes after its product row |
| `Dedup.SecondRunSkipsStored` | scraper.js:12-17 | with the `Product URL` loader, a second run over a file whose URLs hold no `"` writes no product row for a URL already in the file |
| `Dedup.ScanStartsWithVisit` | scraper.js:73-75 | when a page's first product is new, its product row is the first row the scan writes |
| `Dedup.CrawlExtends` | scraper.js:338-346 | the rows of the first category are a prefix of the rows of the whole run |
| `Dedup.AsWrittenSecondRunRepeats` | scraper.js:16 | with the loader as written, a second run over a file whose URLs hold no `"` writes the product row of a stored URL again |
| `Paging.SettledAfterScan` | scraper.js:73 | after a clean scan of a page, it and the pages before it hold only empty or seen URLs |
| `Paging.ScanSettled` | scraper.js:73 | a page whose URLs are all empty or seen is scanned without any effect |
| `Paging.ReplayStep` | scraper.js:186-210 | a settled page passed before is passed again, with `currentPage` one higher |
| `Paging.Replay` | scraper.js:181 | walking again through settled pages changes nothing but `currentPage`, which grows by one per page |
| `Paging.PaginateRound` | scraper.js:70-184 | after a clean scan, the loop goes on with the page-advance step on page 1 when a product was visited, and on the same page otherwise |
| `Paging.InPlaceRound` | scraper.js:70-184 | after a clean scan, the in-place loop goes on with the page-advance step on the same page |
| `Paging.SettledRound` | scraper.js:73 | on a settled page, the loop goes straight to the page-advance step |
| `Paging.RestartRound` | scraper.js:181 | sent back to page 1, the loop walks to the page it had reached and then does what it would have done there |
| `Paging.RoundAsWritten` | scraper.js:181 | a clean round as written goes on as if it had stayed on the page, with `currentPage` at least as large |
| `Paging.FailedRound` | scraper.js:211-214 | a page whose extraction or scan throws ends both loops the same way |
| `Paging.CleanRound` | scraper.js:70-184 | after a clean scan, both loops go on from the page-advance step of the same page and the same state; the scan makes progress or changes nothing |
| `Paging.RestartMatchesInPlace` | scraper.js:181 | from a page reached through clicks, the loop as written and the in-place loop end with the same state and the same stop |
| `Paging.AdvanceMatchesInPlace` | scraper.js:186-210 | the same from the page-advance step |
| `Paging.RestartKeepsRows` | scraper.js:181 | a category as written ends with the same rows, seen set and way of stopping as the in-place loop; the in-place page count is between 1 and the number of listing pages |
| `Paging.KnownCategoryCountsPages` | scraper.js:186-210 | a category with nothing new, whose page N is the first with a disabled next control, ends on its last page with `currentPage` N and no row written |
| `Paging.InPlaceCountsPages` | scraper.js:186-210 | from any page before the first one whose next control is disabled, the in-place loop either throws or stops on that page as the last, having counted one page per listing page |
| `Paging.CategoryCountsPages` | scraper.js:186-210 | a category whose page N is the first with a disabled next control: unless a page throws, the in-place loop ends on its last page with `currentPage` N, and the loop as written ends the same way with the same rows and `currentPage` at least N |
| `Paging.SecondPageFirstScan` | scraper.js:71-76 | on the example category, the first scan of page 2 visits its product |
| `Paging.RestartOvercounts` | scraper.js:181 | on a two-page category whose second page has a new product, `currentPage` ends at 3 as written and at 2 in place |
| `Paging.ScanFailsAt` | scraper.js:71-184 | wherever on the page it stands, a new product with a provider that throws, reached after a clean scan of the stubs before it, ends the page scan as failed right after that product's visit; no later stub is looked at |
| `Paging.ProviderFailureEndsCategory` | scraper.js:112-214 | wherever on the page it stands, a new product with a provider that throws, reached after a clean scan of the stubs before it, ends the whole category: the rows so far (that product's included) stay, the page counter is unchanged, and no later product or page is scanned |
| `Paging.CrawlPassSnoc` | scraper.js:338-346 | one more category is processed from the state the earlier ones left, however each of them ended |
| `Crawler.Crawler.constructor` | scraper.js:330-335 | a run starts from the loaded URLs with no rows; the file holds its old text, or the header alone |
| `Crawler.Crawler.AppendProduct` | scraper.js:20-24 | appends the product row and its line to the file, and adds the URL to `existingUrls` |
| `Crawler.Crawler.AppendVariant` | scraper.js:27-31 | appends the variant row and its line to the file; `existingUrls` is unchanged |
| `Crawler.Crawler.AppendRow` | scraper.js:23 | the file grows by the row's line and nothing else |
| `Crawler.Crawler.VisitProduct` | scraper.js:73-183 | the new state and outcome are those of `Crawl.Visit` |
| `Crawler.Crawler.ProviderLoop` | scraper.js:112-178 | the rows appended and the outcome are those of `Crawl.ProviderRows` |
| `Crawler.Crawler.AppendProvider` | scraper.js:142-167 | for a provider whose popup opened, appends the rows of its variants table if one is shown, and nothing otherwise; `existingUrls` is unchanged |
| `Crawler.Crawler.AppendTable` | scraper.js:155-164 | appends one variant row per table row, in table order |
| `Crawler.Crawler.ScanPage` | scraper.js:71-184 | the new state, outcome and visited flag are those of `Crawl.ScanStubs` |
| `Crawler.Crawler.ProcessCategory` | scraper.js:64-217 | the new state, final `currentPage` and way of stopping are those of `Crawl.CategoryPass` |
| `Crawler.Crawler.ProcessCategories` | scraper.js:338-346 | the new state is that of `Crawl.CrawlPass` |
| `Crawler.Scrape` | scraper.js:327-346 | the run processes the deduplicated categories from the URLs the loader as written finds; the file is the opened file followed by the lines of the rows written |

## Left out

- Browser I/O: navigation, waits, scrolling, selectors and clicks are replaced by the `Site` data.
  - The site is static: going back to a category URL shows the same listing pages.
- `Site.Pages`: a category's listing pages are a finite list in which each click on an enabled next button (lines 193-209) shows the following page, and the last page offers no enabled next button. The source has no page limit (the `while (true)` at line 68): a last page that keeps an enabled next button, or a click that does not advance, makes it re-scan the same page forever while `currentPage` grows. The model's termination and page-count results (`Crawl.Paginate`, `Paging.RestartKeepsRows`, `Paging.InPlaceCountsPages`, `Paging.CategoryCountsPages`) hold only under this assumption.
- The "Choose manually" clicks and a failed product navigation (lines 79-109) are caught and write nothing. They are not represented. The product page is described as what the provider loop then finds.
- The "Size" clicks (lines 121-139) and closing the provider popup (lines 170-177, whose failure is caught) write nothing. They are not represented.
  - An exception anywhere else in one provider's turn (the click, the Size query, reading the table) is `ProviderFailed`. None of them is caught before line 211.
- An exception while listing the provider buttons (line 112) is represented by a provider list whose first entry is `ProviderFailed`. Both end the category the same way.
- File-system errors in `appendFileSync` and `writeFileSync` are not modelled.
- `csv-parse` is not part of this model. The records it makes of the existing file are an input (`Crawler.StoredFile`).
  - `Store.Records` describes them only for a file this program wrote whose URLs hold no `"` (`Store.RecordsReadBack`).
  - `Csv.ParseRow` is a reference reader for quoted rows, not `csv-parse`.
- The loader's exception is not modelled. A stored URL holding `"` leaves a quote unclosed, so the reader may throw. The exception then leaves `loadExistingProductUrls` at line 331, the outer `catch` at line 360 takes it, and the run writes nothing. `Crawler.Scrape` takes the records as given.
- `Store.LoadedUrlsAsWritten`: JavaScript adds `undefined` to the set for each record without a `url` key. No product URL equals it, so the model leaves it out.
- `Dedup.SecondRunSkipsStored`: holds only for a file whose URLs hold no `"`. Other files do not read back as written (see above).
- `Dedup.AsWrittenSecondRunRepeats`: likewise, only for a file whose URLs hold no `"`.
- `Store.LoaderFindsStoredUrls`: likewise, only for a file whose URLs hold no `"`.
- `Store.AsWrittenLoaderFindsNothing`: likewise, only for a file whose URLs hold no `"`.
- Reading the category links from the navigation menu (lines 316-325) is an input.
- `readProductsFromCsv` and `processProductLinks` (lines 33-39, 219-294) are not modelled: they only navigate and click, and write nothing.
- Launching and closing the browsers, the outer `try` (lines 297-363), `sleep` and logging are not modelled.
- `Store.LineReadsBack`: holds only for URLs without `"`, because the URL is not escaped (see Findings).
- `Csv.ProductRowReadsBack`: likewise, only for URLs without `"`.
- `Csv.VariantRowReadsBack`: likewise, only for URLs without `"`.

## Findings

| source | as written | input that shows it | evidently intended | confidence | as-written member | corrected member |
|---|---|---|---|---|---|---|
| scraper.js:16 | the loader collects `r.url`, but the header names the column `Product URL`, so the loaded set holds no URL for any file this program wrote | a file holding the product row of URL u, where u is the first product on page 1 of the first category | the loader reads the `Product URL` column, so a second run skips stored products | high; not executed | `Dedup.AsWrittenSecondRunRepeats` | `Dedup.SecondRunSkipsStored` |
| scraper.js:181 | after each visited product the browser goes back to listing page 1, while `currentPage` keeps counting up from the page it had reached | two listing pages: page 1 empty with an enabled next button; page 2 holding one new product and a disabled next control | the loop goes on from the listing page it was on, so `currentPage` never exceeds the number of listing pages | medium; not executed | `Paging.RestartOvercounts` | `Paging.CategoryCountsPages` |
| scraper.js:21 | the URL is written between quotes without doubling its `"` characters | a product URL holding a `"` (the lemma uses the URL `"` with an empty category and name) | the URL is escaped like the other fields, so every row reads back | low; not executed | `Csv.UnescapedUrlBreaksRow` | `Csv.RecordRoundTrip` |

For the first two rows, the as-written behaviour is what `Crawler` runs:
`Crawler.Scrape` loads with `Store.LoadedUrlsAsWritten`, and
`Crawler.Crawler.ProcessCategory` returns to page 1. The corrected
definitions sit beside them: `Store.LoadedUrls`, and `Crawl.PaginateInPlace`
with `Crawl.AdvanceInPlace`.
- `Paging.CategoryCountsPages` shows that the in-place loop counts exactly the
  listing pages.
- `Paging.RestartKeepsRows` shows that the return to page 1 costs only
  re-scans: the rows written are the same.
