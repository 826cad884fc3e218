/**
 * What the seen-set gate of `processCategory` guarantees about the rows of a run:
 * `existingUrls` is always the loaded URLs plus the URL of every product row written;
 * each product row is for a URL that is non-empty and was not loaded; no two product
 * rows share a URL; and each variant row follows the product row it belongs to.
 * Then the two loaders: with the corrected one, a second run writes no product row for
 * a URL already in the file; as written, it writes such rows again.
 */
module Dedup {
  import opened Wrappers
  import opened Csv
  import opened Store
  import opened Site
  import opened Categories
  import opened Crawl

  /** The URLs of the product rows of a log. */
  function ProductUrls(log: seq<Row>): set<string>
  {
    set r | r in log && r.ProductRow? :: r.url
  }

  lemma ProductUrlsConcat(a: seq<Row>, b: seq<Row>)
    ensures ProductUrls(a + b) == ProductUrls(a) + ProductUrls(b)
  {
    forall u | u in ProductUrls(a + b) ensures u in ProductUrls(a) + ProductUrls(b) {
      var r :| r in a + b && r.ProductRow? && r.url == u;
      if r in a { } else { assert r in b; }
    }
    forall u | u in ProductUrls(a) + ProductUrls(b) ensures u in ProductUrls(a + b) {
      if u in ProductUrls(a) {
        var r :| r in a && r.ProductRow? && r.url == u;
        assert r in a + b;
      } else {
        var r :| r in b && r.ProductRow? && r.url == u;
        assert r in a + b;
      }
    }
  }

  /** Some row before position `j` is the product row of the row at `j`. */
  predicate ProductBefore(log: seq<Row>, j: int)
    requires 0 <= j < |log|
  {
    exists i :: 0 <= i < j && log[i] == ProductRow(log[j].category, log[j].name, log[j].url)
  }

  /** `existingUrls` is the loaded set plus the URLs of the product rows written. */
  ghost predicate SeenMatches(loaded: set<string>, st: State)
  {
    st.seen == loaded + ProductUrls(st.log)
  }

  /** Every product row is for a non-empty URL that was not loaded. */
  ghost predicate ProductsNew(loaded: set<string>, log: seq<Row>)
  {
    forall i :: 0 <= i < |log| && log[i].ProductRow? ==> IsNew(loaded, log[i].url)
  }

  /** No two product rows have the same URL. */
  ghost predicate ProductsDistinct(log: seq<Row>)
  {
    forall i, j :: 0 <= i < j < |log| && log[i].ProductRow? && log[j].ProductRow? ==> log[i].url != log[j].url
  }

  /** Every variant row comes after the product row of its product. */
  ghost predicate VariantsFollow(log: seq<Row>)
  {
    forall j :: 0 <= j < |log| && log[j].VariantRow? ==> ProductBefore(log, j)
  }

  ghost predicate Good(loaded: set<string>, st: State)
  {
    SeenMatches(loaded, st) && ProductsNew(loaded, st.log) && ProductsDistinct(st.log) && VariantsFollow(st.log)
  }

  /** The state a run starts from. */
  lemma StartGood(loaded: set<string>)
    ensures Good(loaded, State(loaded, []))
  {
    assert ProductUrls([]) == {};
  }

  /** The rows a visit appends after the product row are variant rows. */
  lemma VisitProductUrls(st: State, category: string, stub: Stub, page: ProductPage)
    requires IsNew(st.seen, stub.url)
    ensures ProductUrls(Visit(st, category, stub, page).state.log) == ProductUrls(st.log) + {stub.url}
  {
    var p := ProviderRows(category, stub, page.providers);
    var prod := ProductRow(category, stub.name, stub.url);
    ProviderRowsFacts(category, stub, page.providers);
    assert Visit(st, category, stub, page).state.log == st.log + [prod] + p.rows;
    ProductUrlsConcat(st.log + [prod], p.rows);
    ProductUrlsConcat(st.log, [prod]);
    assert ProductUrls([prod]) == {stub.url};
    forall r | r in p.rows ensures !r.ProductRow? {
      var k :| 0 <= k < |p.rows| && p.rows[k] == r;
      assert VariantOf(p.rows[k], category, stub);
    }
  }

  /** Visiting a new product keeps the invariant. */
  lemma VisitKeepsGood(loaded: set<string>, st: State, category: string, stub: Stub, page: ProductPage)
    requires Good(loaded, st) && IsNew(st.seen, stub.url)
    ensures Good(loaded, Visit(st, category, stub, page).state)
  {
    var v := Visit(st, category, stub, page).state;
    var n := |st.log|;
    VisitProductUrls(st, category, stub, page);
    VisitRows(st, category, stub, page);
    assert SeenMatches(loaded, v);
    assert forall i :: 0 <= i < n ==> v.log[i] == st.log[i] by {
      forall i | 0 <= i < n ensures v.log[i] == st.log[i] {
        assert v.log[..n][i] == v.log[i];
      }
    }
    assert forall k :: n < k < |v.log| ==> v.log[k].VariantRow? by {
      forall k | n < k < |v.log| ensures v.log[k].VariantRow? {
        assert VariantOf(v.log[k], category, stub);
      }
    }
    forall i, j | 0 <= i < j < |v.log| && v.log[i].ProductRow? && v.log[j].ProductRow?
      ensures v.log[i].url != v.log[j].url
    {
      if j == n {
        assert st.log[i] in st.log;
      }
    }
    forall j | 0 <= j < |v.log| && v.log[j].VariantRow? ensures ProductBefore(v.log, j) {
      if j < n {
        assert ProductBefore(st.log, j);
        var i :| 0 <= i < j && st.log[i] == ProductRow(st.log[j].category, st.log[j].name, st.log[j].url);
        assert v.log[i] == st.log[i];
      } else {
        assert VariantOf(v.log[j], category, stub);
        assert v.log[n] == ProductRow(v.log[j].category, v.log[j].name, v.log[j].url);
      }
    }
  }

  /** Scanning a listing page keeps the invariant, however the scan ends. */
  lemma {:induction false} ScanKeepsGood(loaded: set<string>, st: State, category: string, anchors: seq<Anchor>, product: string -> ProductPage)
    requires Good(loaded, st)
    ensures Good(loaded, ScanStubs(st, category, anchors, product).state)
    decreases |anchors|
  {
    if anchors != [] {
      var stub := StubOf(anchors[0]);
      if !IsNew(st.seen, stub.url) {
        ScanKeepsGood(loaded, st, category, anchors[1..], product);
      } else {
        var v := Visit(st, category, stub, product(stub.url));
        VisitKeepsGood(loaded, st, category, stub, product(stub.url));
        if v.ok {
          ScanKeepsGood(loaded, v.state, category, anchors[1..], product);
        }
      }
    }
  }

  /** The pagination loop keeps the invariant. */
  lemma {:induction false} PaginateKeepsGood(loaded: set<string>, st: State, category: string, pages: Pages,
                                             product: string -> ProductPage, at: nat, current: nat)
    requires at < |pages| && Good(loaded, st)
    ensures Good(loaded, Paginate(st, category, pages, product, at, current).state)
    decreases |AllUrls(pages) - st.seen|, |pages| - at
  {
    if pages[at].extract.Extracted? {
      var s := ScanStubs(st, category, pages[at].extract.anchors, product);
      ScanKeepsGood(loaded, st, category, pages[at].extract.anchors, product);
      var shown := if s.visited then 0 else at;
      if s.ok && pages[shown].next == NextClicked {
        ScanProgress(st, category, pages, at, product);
        ClickedNotLast(pages, shown);
        PaginateKeepsGood(loaded, s.state, category, pages, product, shown + 1, current + 1);
      }
    }
  }

  /** The whole loop over the categories keeps the invariant. */
  lemma {:induction false} CrawlKeepsGood(loaded: set<string>, st: State, categories: seq<Category>, site: Site)
    requires Good(loaded, st)
    ensures Good(loaded, CrawlPass(st, categories, site))
    decreases |categories|
  {
    if categories != [] {
      var c := categories[0];
      if site.listing(c.url).Reached? {
        PaginateKeepsGood(loaded, st, c.name, site.listing(c.url).pages, site.product, 0, 1);
      }
      CrawlKeepsGood(loaded, CategoryPass(st, c, site).state, categories[1..], site);
    }
  }

  /** The first pass from a loaded set of URLs: `existingUrls` ends as the loaded URLs
      plus those of the product rows written; every product row is for a new, non-empty
      URL, no URL gets two product rows, and every variant row follows its product row. */
  lemma FirstPassRows(loaded: set<string>, categories: seq<Category>, site: Site)
    ensures var r := CrawlPass(State(loaded, []), categories, site);
      r.seen == loaded + ProductUrls(r.log) &&
      (forall i :: 0 <= i < |r.log| && r.log[i].ProductRow? ==> r.log[i].url != "" && r.log[i].url !in loaded) &&
      (forall i, j :: 0 <= i < j < |r.log| && r.log[i].ProductRow? && r.log[j].ProductRow? ==> r.log[i].url != r.log[j].url) &&
      (forall j :: 0 <= j < |r.log| && r.log[j].VariantRow? ==> ProductBefore(r.log, j))
  {
    StartGood(loaded);
    CrawlKeepsGood(loaded, State(loaded, []), categories, site);
  }

  /** With the loader reading the `Product URL` column, a second run over a file whose
      rows are `prev` (none with a `"` in its URL) writes no product row for a URL the
      file already holds. */
  lemma SecondRunSkipsStored(prev: seq<Row>, categories: seq<Category>, site: Site)
    requires forall r | r in prev :: Quote !in r.url
    ensures var r := CrawlPass(State(LoadedUrls(Some(Records(prev))), []), categories, site);
      forall i :: 0 <= i < |r.log| && r.log[i].ProductRow? ==> r.log[i].url !in RowUrls(prev)
  {
    LoaderFindsStoredUrls(prev);
    FirstPassRows(LoadedUrls(Some(Records(prev))), categories, site);
  }

  /** A visit puts the product row first. */
  lemma ScanStartsWithVisit(st: State, category: string, a: Anchor, rest: seq<Anchor>, product: string -> ProductPage)
    requires IsNew(st.seen, StubOf(a).url)
    ensures var r := ScanStubs(st, category, [a] + rest, product);
      |r.state.log| > |st.log| && r.state.log[|st.log|] == ProductRow(category, a.name, StubOf(a).url)
  {
    var anchors := [a] + rest;
    assert anchors[0] == a && anchors[1..] == rest;
    var v := Visit(st, category, StubOf(a), product(StubOf(a).url));
    VisitRows(st, category, StubOf(a), product(StubOf(a).url));
    if v.ok {
      var r := ScanStubs(v.state, category, rest, product);
      assert v.state.log <= r.state.log;
    }
  }

  /** The loop over the categories only appends rows. */
  lemma {:induction false} CrawlExtends(st: State, categories: seq<Category>, site: Site)
    requires categories != []
    ensures CategoryPass(st, categories[0], site).state.log <= CrawlPass(st, categories, site).log
  {
  }

  /** As written, a second run over a file whose rows are `prev` (none with a `"` in its
      URL) writes a product row again for a URL the file already holds: here, the first
      product of the first page of the first category. */
  lemma AsWrittenSecondRunRepeats(prev: seq<Row>, categories: seq<Category>, site: Site, pages: Pages,
                                  a: Anchor, rest: seq<Anchor>)
    requires categories != [] && site.listing(categories[0].url) == Reached(pages)
    requires pages[0].extract == Extracted([a] + rest)
    requires StubOf(a).url != "" && StubOf(a).url in RowUrls(prev)
    requires forall r | r in prev :: Quote !in r.url
    ensures var r := CrawlPass(State(LoadedUrlsAsWritten(Some(Records(prev))), []), categories, site);
      |r.log| > 0 && r.log[0] == ProductRow(categories[0].name, a.name, StubOf(a).url)
  {
    AsWrittenLoaderFindsNothing(prev);
    var st := State({}, []);
    var c := categories[0];
    ScanStartsWithVisit(st, c.name, a, rest, site.product);
    var s := ScanStubs(st, c.name, [a] + rest, site.product);
    assert s.state.log <= Paginate(st, c.name, pages, site.product, 0, 1).state.log;
    CrawlExtends(st, categories, site);
  }
}
