/**
 * `processCategory` and the top-level loop over the categories, imperatively: a
 * crawler object holds the set `existingUrls` and the rows appended to
 * `printify_products.csv`, and its methods update them in the order the scraper does.
 * Each method is proved to end in the state the matching function of module Crawl
 * computes, so the properties proved about those functions hold for the crawler.
 */
module Crawler {
  import opened Wrappers
  import opened Csv
  import opened Store
  import opened Site
  import opened Categories
  import opened Crawl
  import Paging

  /** The product file as the scraper finds it at start: its text and the records the
      CSV reader makes of it. */
  datatype StoredFile = StoredFile(text: string, records: seq<map<string, string>>)

  class Crawler {
    /** `existingUrls`. */
    var seen: set<string>
    /** The rows appended to the product file during this run, in order. */
    var log: seq<Row>
    /** The text of the product file before the first append. */
    const start: string

    /** The state the functions of module Crawl speak about. */
    function Now(): State
      reads this
    {
      State(seen, log)
    }

    /** The text of the product file. */
    function Contents(): string
      reads this
    {
      start + Render(log)
    }

    /** A run starting from the URLs `loaded` and the file `existing` (if any): when
        there is no file, it is created holding the header line. */
    constructor(loaded: set<string>, existing: Option<string>)
      ensures seen == loaded && log == []
      ensures start == Opened(existing) && Contents() == Opened(existing)
    {
      seen := loaded;
      log := [];
      start := Opened(existing);
    }

    /** `appendProductToCsv` followed by `existingUrls.add`. */
    method AppendProduct(category: string, stub: Stub)
      modifies this
      ensures log == old(log) + [ProductRow(category, stub.name, stub.url)]
      ensures seen == old(seen) + {stub.url}
      ensures Contents() == old(Contents()) + ProductLine(category, stub.name, stub.url)
    {
      AppendRow(ProductRow(category, stub.name, stub.url));
      seen := seen + {stub.url};
    }

    /** `appendVariantToCsv` for one row of a variants table. */
    method AppendVariant(category: string, stub: Stub, v: Variant)
      modifies this
      ensures log == old(log) + [VariantRow(category, stub.name, stub.url, v.size, v.price)]
      ensures seen == old(seen)
      ensures Contents() == old(Contents()) + VariantLine(category, stub.name, stub.url, v.size, v.price)
    {
      AppendRow(VariantRow(category, stub.name, stub.url, v.size, v.price));
    }

    /** Appends the line of one row to the file. */
    method AppendRow(r: Row)
      modifies this
      ensures log == old(log) + [r] && seen == old(seen)
      ensures Contents() == old(Contents()) + Line(r)
    {
      AppendLine(start, log, r);
      log := log + [r];
    }

    /** The body of the `if` for a new product: its row is appended and its URL marked
        seen, then the provider loop runs. A provider that throws ends the visit, as
        does failing to navigate back to the category. */
    method VisitProduct(category: string, stub: Stub, page: ProductPage) returns (ok: bool)
      requires IsNew(seen, stub.url)
      modifies this
      ensures Step(Now(), ok) == Visit(old(Now()), category, stub, page)
    {
      AppendProduct(category, stub);
      ok := ProviderLoop(category, stub, page.providers);
      ok := ok && page.backOk;
    }

    /** The loop over the provider-info buttons of a product page: each provider whose
        popup shows a variants table adds one variant row per table row; a provider that
        throws ends the loop. */
    method ProviderLoop(category: string, stub: Stub, providers: seq<Provider>) returns (ok: bool)
      modifies this
      ensures log == old(log) + ProviderRows(category, stub, providers).rows && seen == old(seen)
      ensures ok == ProviderRows(category, stub, providers).ok
    {
      ghost var whole := ProviderRows(category, stub, providers);
      ghost var done: seq<Row> := [];
      var i := 0;
      while i < |providers|
        invariant 0 <= i <= |providers|
        invariant log == old(log) + done && seen == old(seen)
        invariant whole == Outcome(done + ProviderRows(category, stub, providers[i..]).rows,
                                   ProviderRows(category, stub, providers[i..]).ok)
      {
        ProviderRowsAt(category, stub, providers, i);
        if providers[i].ProviderFailed? {
          return false;
        }
        ghost var here := ProviderTable(category, stub, providers[i].table);
        ghost var rest := ProviderRows(category, stub, providers[i + 1..]);
        AppendProvider(category, stub, providers[i].table);
        assert done + (here + rest.rows) == (done + here) + rest.rows;
        done := done + here;
        i := i + 1;
      }
      ok := true;
    }

    /** One provider whose popup opened: the rows of its variants table, if it shows one. */
    method AppendProvider(category: string, stub: Stub, table: Option<seq<Variant>>)
      modifies this
      ensures log == old(log) + ProviderTable(category, stub, table) && seen == old(seen)
    {
      if table.Some? {
        AppendTable(category, stub, table.value);
      }
    }

    /** The variant rows of one provider's table, in table order. */
    method AppendTable(category: string, stub: Stub, variants: seq<Variant>)
      modifies this
      ensures log == old(log) + TableRows(category, stub, variants) && seen == old(seen)
    {
      var j := 0;
      while j < |variants|
        invariant 0 <= j <= |variants|
        invariant log == old(log) + TableRows(category, stub, variants[..j]) && seen == old(seen)
      {
        AppendVariant(category, stub, variants[j]);
        assert TableRows(category, stub, variants[..j + 1])
            == TableRows(category, stub, variants[..j]) + [VariantRow(category, stub.name, stub.url, variants[j].size, variants[j].price)];
        j := j + 1;
      }
      assert variants[..j] == variants;
    }

    /** The `for` loop over the products of one listing page: each product with a new,
        non-empty URL is visited, the others are skipped; a visit that throws ends the
        page. `visited` tells whether some product was visited. */
    method ScanPage(category: string, anchors: seq<Anchor>, product: string -> ProductPage) returns (ok: bool, visited: bool)
      modifies this
      ensures PageResult(Now(), ok, visited) == ScanStubs(old(Now()), category, anchors, product)
    {
      visited := false;
      var i := 0;
      while i < |anchors|
        invariant 0 <= i <= |anchors|
        invariant var r := ScanStubs(Now(), category, anchors[i..], product);
          ScanStubs(old(Now()), category, anchors, product) == PageResult(r.state, r.ok, visited || r.visited)
      {
        var stub := StubOf(anchors[i]);
        assert anchors[i..][0] == anchors[i] && anchors[i..][1..] == anchors[i + 1..];
        if IsNew(seen, stub.url) {
          var visitOk := VisitProduct(category, stub, product(stub.url));
          visited := true;
          if !visitOk {
            return false, true;
          }
        }
        i := i + 1;
      }
      ok := true;
    }

    /** `processCategory`: the category URL is loaded (an exception there reaches the
        caller before `currentPage` is set), then the `while (true)` loop runs on the
        listing page `at` the browser shows. After a visited product the browser is back
        on the category's first listing page. The loop ends on a disabled next control,
        on a missing enabled one, or on an exception. */
    method ProcessCategory(category: Category, site: Site) returns (currentPage: nat, stop: Stop)
      modifies this
      ensures CategoryResult(Now(), currentPage, stop) == CategoryPass(old(Now()), category, site)
    {
      match site.listing(category.url)
      case Unreachable =>
        return 0, Failed;
      case Reached(pages) =>
        ghost var target := CategoryPass(old(Now()), category, site);
        currentPage := 1;
        var at := 0;
        while true
          invariant at < |pages|
          invariant target == Paginate(Now(), category.name, pages, site.product, at, currentPage)
          decreases |AllUrls(pages) - seen|, |pages| - at
        {
          match pages[at].extract
          case ExtractFailed =>
            return currentPage, Failed;
          case Extracted(anchors) =>
            ghost var st := Now();
            var ok, visited := ScanPage(category.name, anchors, site.product);
            if !ok {
              return currentPage, Failed;
            }
            Paging.PaginateRound(st, category.name, pages, site.product, at, currentPage);
            ScanProgress(st, category.name, pages, at, site.product);
            if visited {
              at := 0;
            }
            assert target == Advance(Now(), category.name, pages, site.product, at, currentPage);
            var next := pages[at].next;
            if next != NextClicked {
              return currentPage, StopOf(next);
            }
            ClickedNotLast(pages, at);
            assert target == Paginate(Now(), category.name, pages, site.product, at + 1, currentPage + 1);
            at := at + 1;
            currentPage := currentPage + 1;
        }
    }

    /** The loop over the categories: whatever happens in one category, the next is
        processed with the seen set and the rows it left. */
    method ProcessCategories(categories: seq<Category>, site: Site)
      modifies this
      ensures Now() == CrawlPass(old(Now()), categories, site)
    {
      var k := 0;
      while k < |categories|
        invariant 0 <= k <= |categories|
        invariant CrawlPass(old(Now()), categories, site) == CrawlPass(Now(), categories[k..], site)
      {
        assert categories[k..][0] == categories[k] && categories[k..][1..] == categories[k + 1..];
        var _, _ := ProcessCategory(categories[k], site);
        k := k + 1;
      }
    }
  }

  /** The first pass of the scraper: the category links are deduplicated by URL, the
      seen set is loaded from the product file as the loader is written (`existing` is
      `None` when there is no file), the file is created with its header if absent, and
      every category is processed. */
  method Scrape(links: seq<Category>, existing: Option<StoredFile>, site: Site) returns (c: Crawler)
    ensures c.Now() == CrawlPass(State(LoadedUrlsAsWritten(if existing.Some? then Some(existing.value.records) else None), []),
                                 UniqueCategories(links), site)
    ensures c.Contents() == Opened(if existing.Some? then Some(existing.value.text) else None) + Render(c.log)
  {
    var categories := UniqueCategories(links);
    var loaded := LoadedUrlsAsWritten(if existing.Some? then Some(existing.value.records) else None);
    c := new Crawler(loaded, if existing.Some? then Some(existing.value.text) else None);
    c.ProcessCategories(categories, site);
  }
}
