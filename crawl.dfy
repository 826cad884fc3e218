/**
 * The first pass of the scraper as functions of the site: the seen-set gate, the
 * product and variant rows a new product produces, the scan of one listing page,
 * the pagination loop of `processCategory`, and the loop over the categories.
 * The class in crawler.dfy runs the same steps imperatively and is proved equal to
 * these functions.
 */
module Crawl {
  import opened Wrappers
  import opened Store
  import opened Site
  import opened Categories

  /** The scraper's state during a run: the set `existingUrls` and the rows appended so far. */
  datatype State = State(seen: set<string>, log: seq<Row>)

  /** The gate of a stub: its URL is non-empty and not yet seen. */
  predicate IsNew(seen: set<string>, url: string)
  {
    url != "" && url !in seen
  }

  /** `r` is a variant row carrying the category, name and URL of `stub`. */
  predicate VariantOf(r: Row, category: string, stub: Stub)
  {
    r.VariantRow? && r.category == category && r.name == stub.name && r.url == stub.url
  }

  /** One variant row per row of a provider's table. */
  function TableRows(category: string, stub: Stub, variants: seq<Variant>): seq<Row>
  {
    seq(|variants|, i requires 0 <= i < |variants| =>
      VariantRow(category, stub.name, stub.url, variants[i].size, variants[i].price))
  }

  /** The number of table rows over all providers. */
  function TableSize(providers: seq<Provider>): nat
  {
    if providers == [] then 0
    else (if providers[0].ProviderOpened? && providers[0].table.Some? then |providers[0].table.value| else 0)
         + TableSize(providers[1..])
  }

  /** The rows one opened provider contributes: one per row of its variants table, if
      its popup shows one. */
  function ProviderTable(category: string, stub: Stub, table: Option<seq<Variant>>): seq<Row>
  {
    if table.Some? then TableRows(category, stub, table.value) else []
  }

  /** Rows appended by a loop, and whether the loop ran to its end without throwing. */
  datatype Outcome = Outcome(rows: seq<Row>, ok: bool)

  /** The provider loop of one product: each provider whose popup shows a variants table
      contributes one variant row per table row; a provider that throws ends the loop. */
  function ProviderRows(category: string, stub: Stub, providers: seq<Provider>): (r: Outcome)
    ensures |r.rows| <= TableSize(providers)
  {
    if providers == [] then Outcome([], true)
    else
      match providers[0]
      case ProviderFailed => Outcome([], false)
      case ProviderOpened(table) =>
        var here := ProviderTable(category, stub, table);
        var rest := ProviderRows(category, stub, providers[1..]);
        Outcome(here + rest.rows, rest.ok)
  }

  /** The provider loop from the provider at `i` on, one provider unfolded. */
  lemma ProviderRowsAt(category: string, stub: Stub, providers: seq<Provider>, i: nat)
    requires i < |providers|
    ensures ProviderRows(category, stub, providers[i..]) ==
      match providers[i]
      case ProviderFailed => Outcome([], false)
      case ProviderOpened(table) =>
        Outcome(ProviderTable(category, stub, table)
                  + ProviderRows(category, stub, providers[i + 1..]).rows,
                ProviderRows(category, stub, providers[i + 1..]).ok)
  {
    assert providers[i..][0] == providers[i] && providers[i..][1..] == providers[i + 1..];
  }

  /** The provider loop writes only variant rows of the product; it ends cleanly exactly
      when no provider throws, and then writes one row per table row; providers without
      a table write nothing. */
  lemma {:induction false} ProviderRowsFacts(category: string, stub: Stub, providers: seq<Provider>)
    ensures var r := ProviderRows(category, stub, providers);
      (forall k :: 0 <= k < |r.rows| ==> VariantOf(r.rows[k], category, stub)) &&
      (r.ok <==> forall i :: 0 <= i < |providers| ==> providers[i].ProviderOpened?) &&
      (r.ok ==> |r.rows| == TableSize(providers)) &&
      ((forall i :: 0 <= i < |providers| ==> providers[i] == ProviderOpened(None)) ==> r == Outcome([], true))
  {
    if providers != [] {
      ProviderRowsFacts(category, stub, providers[1..]);
      assert forall i :: 1 <= i < |providers| ==> providers[1..][i - 1] == providers[i];
    }
  }

  /** The result of one step that may throw. */
  datatype Step = Step(state: State, ok: bool)

  /** A new product: its product row is appended and its URL marked seen, then the
      provider loop appends its variant rows; the step fails when a provider throws or
      navigating back to the category fails. */
  function Visit(st: State, category: string, stub: Stub, page: ProductPage): (r: Step)
    requires IsNew(st.seen, stub.url)
    ensures r.state.seen == st.seen + {stub.url}
    ensures st.log <= r.state.log
  {
    var p := ProviderRows(category, stub, page.providers);
    Step(State(st.seen + {stub.url}, st.log + [ProductRow(category, stub.name, stub.url)] + p.rows),
         p.ok && page.backOk)
  }

  /** A visit appends the product row and then only variant rows of the product; a
      product page without providers gets its product row alone. */
  lemma VisitRows(st: State, category: string, stub: Stub, page: ProductPage)
    requires IsNew(st.seen, stub.url)
    ensures var r := Visit(st, category, stub, page);
      |r.state.log| > |st.log| &&
      r.state.log[|st.log|] == ProductRow(category, stub.name, stub.url) &&
      (forall k :: |st.log| < k < |r.state.log| ==> VariantOf(r.state.log[k], category, stub)) &&
      (page.providers == [] ==> r.state.log == st.log + [ProductRow(category, stub.name, stub.url)])
  {
    var p := ProviderRows(category, stub, page.providers);
    ProviderRowsFacts(category, stub, page.providers);
    var r := Visit(st, category, stub, page);
    var n := |st.log|;
    assert r.state.log == st.log + [ProductRow(category, stub.name, stub.url)] + p.rows;
    forall k | n < k < |r.state.log| ensures VariantOf(r.state.log[k], category, stub) {
      assert r.state.log[k] == p.rows[k - n - 1];
    }
  }

  /** The non-empty URLs of a page's anchors. */
  function PageUrls(anchors: seq<Anchor>): set<string>
  {
    set a | a in anchors && StubOf(a).url != "" :: StubOf(a).url
  }

  /** Every anchor of the page has an empty or an already-seen URL. */
  predicate Settled(seen: set<string>, anchors: seq<Anchor>)
  {
    forall a :: a in anchors ==> StubOf(a).url == "" || StubOf(a).url in seen
  }

  /** The result of scanning one listing page: the state, whether no step threw, and
      whether some product was visited (after which the browser is back on the
      category's first listing page). */
  datatype PageResult = PageResult(state: State, ok: bool, visited: bool)

  /** The loop over the stubs of one listing page: each new stub is visited, the others
      are skipped; a visit that throws ends the page. */
  function ScanStubs(st: State, category: string, anchors: seq<Anchor>, product: string -> ProductPage): (r: PageResult)
    ensures st.seen <= r.state.seen && st.log <= r.state.log
    decreases |anchors|, 1
  {
    if anchors == [] then PageResult(st, true, false)
    else ScanFirst(st, category, anchors, product)
  }

  /** One turn of that loop: the first stub is skipped or visited, then the loop goes on
      with the others unless the visit threw. */
  function ScanFirst(st: State, category: string, anchors: seq<Anchor>, product: string -> ProductPage): (r: PageResult)
    requires anchors != []
    ensures st.seen <= r.state.seen && st.log <= r.state.log
    decreases |anchors|, 0
  {
    var stub := StubOf(anchors[0]);
    if !IsNew(st.seen, stub.url) then
      ScanStubs(st, category, anchors[1..], product)
    else
      var v := Visit(st, category, stub, product(stub.url));
      if !v.ok then PageResult(v.state, false, true)
      else
        var r := ScanStubs(v.state, category, anchors[1..], product);
        PageResult(r.state, r.ok, true)
  }

  /** A scan sees only URLs of the page, sees some exactly when it visits a product, and
      when it ends cleanly leaves every URL of the page seen. */
  lemma {:induction false} ScanFacts(st: State, category: string, anchors: seq<Anchor>, product: string -> ProductPage)
    ensures var r := ScanStubs(st, category, anchors, product);
      r.state.seen <= st.seen + PageUrls(anchors) &&
      (r.visited <==> r.state.seen != st.seen) &&
      (!r.visited ==> r.state == st) &&
      (r.ok ==> Settled(r.state.seen, anchors))
    decreases |anchors|
  {
    if anchors != [] {
      var stub := StubOf(anchors[0]);
      assert PageUrls(anchors[1..]) <= PageUrls(anchors) by {
        forall a | a in anchors[1..] ensures a in anchors { }
      }
      assert stub.url != "" ==> stub.url in PageUrls(anchors);
      if !IsNew(st.seen, stub.url) {
        ScanFacts(st, category, anchors[1..], product);
      } else {
        var v := Visit(st, category, stub, product(stub.url));
        if v.ok {
          ScanFacts(v.state, category, anchors[1..], product);
        }
      }
    }
  }

  /** The URLs a listing page yields when its products are extracted. */
  function ListingUrls(l: Listing): set<string>
  {
    if l.extract.Extracted? then PageUrls(l.extract.anchors) else {}
  }

  /** The URLs of all listing pages of a category. */
  function AllUrls(pages: seq<Listing>): set<string>
  {
    if pages == [] then {} else ListingUrls(pages[0]) + AllUrls(pages[1..])
  }

  lemma {:induction false} ListingInAll(pages: seq<Listing>, at: nat)
    requires at < |pages|
    ensures ListingUrls(pages[at]) <= AllUrls(pages)
  {
    if at > 0 {
      ListingInAll(pages[1..], at - 1);
    }
  }

  lemma {:induction false} SubsetCard<T>(a: set<T>, b: set<T>)
    requires a <= b
    ensures |a| <= |b|
    decreases a
  {
    if a != {} {
      var x :| x in a;
      SubsetCard(a - {x}, b - {x});
    }
  }

  /** Seeing a new URL of the category leaves fewer of its URLs unseen. */
  lemma Progress(all: set<string>, before: set<string>, after: set<string>)
    requires before <= after <= before + all
    ensures after != before ==> |all - after| < |all - before|
  {
    if after != before {
      var u :| u in after && u !in before;
      SubsetCard(all - after, (all - before) - {u});
    }
  }

  /** How the category ends when the page-advance step does not click. */
  datatype Stop = LastPage | NoNextButton | Failed

  function StopOf(next: Next): Stop
    requires next != NextClicked
  {
    match next
    case NextDisabled => LastPage
    case NoEnabledNext => NoNextButton
    case NextFailed => Failed
  }

  /** The state after a category, the final value of `currentPage`, and how the loop ended. */
  datatype CategoryResult = CategoryResult(state: State, currentPage: nat, stop: Stop)

  /** The `while (true)` loop of `processCategory` as written, from listing page `at`
      with `currentPage` equal to `current`: the products of the page are extracted and
      scanned, then the page-advance step runs. An exception in either ends the loop. */
  function Paginate(st: State, category: string, pages: Pages, product: string -> ProductPage, at: nat, current: nat): (r: CategoryResult)
    requires at < |pages|
    ensures st.seen <= r.state.seen && st.log <= r.state.log
    ensures r.currentPage >= current
    decreases |AllUrls(pages) - st.seen|, |pages| - at, 1
  {
    match pages[at].extract
    case ExtractFailed => CategoryResult(st, current, Failed)
    case Extracted(anchors) =>
      var s := ScanStubs(st, category, anchors, product);
      if !s.ok then CategoryResult(s.state, current, Failed)
      else
        ScanProgress(st, category, pages, at, product);
        // after a product visit the browser is back on the category's first page
        Advance(s.state, category, pages, product, if s.visited then 0 else at, current)
  }

  /** The page-advance step on the listing page `shown` the browser shows: a disabled
      next control ends the loop, as does the absence of an enabled one; a click
      increments `currentPage` and the loop goes on with the following page. */
  function Advance(st: State, category: string, pages: Pages, product: string -> ProductPage, shown: nat, current: nat): (r: CategoryResult)
    requires shown < |pages|
    ensures st.seen <= r.state.seen && st.log <= r.state.log
    ensures r.currentPage >= current
    decreases |AllUrls(pages) - st.seen|, |pages| - shown, 0
  {
    if pages[shown].next != NextClicked then CategoryResult(st, current, StopOf(pages[shown].next))
    else
      ClickedNotLast(pages, shown);
      Paginate(st, category, pages, product, shown + 1, current + 1)
  }

  /** A page with a clicked next control is not the last page. */
  lemma ClickedNotLast(pages: Pages, i: nat)
    requires i < |pages| && pages[i].next == NextClicked
    ensures i + 1 < |pages|
  {
  }

  /** Scanning an extracted listing page either visits a product, which leaves fewer of
      the category's URLs unseen, or leaves the state as it was. */
  lemma ScanProgress(st: State, category: string, pages: seq<Listing>, at: nat, product: string -> ProductPage)
    requires at < |pages| && pages[at].extract.Extracted?
    ensures var s := ScanStubs(st, category, pages[at].extract.anchors, product);
      (s.visited ==> |AllUrls(pages) - s.state.seen| < |AllUrls(pages) - st.seen|) &&
      (!s.visited ==> s.state == st)
  {
    var s := ScanStubs(st, category, pages[at].extract.anchors, product);
    ScanFacts(st, category, pages[at].extract.anchors, product);
    ListingInAll(pages, at);
    Progress(AllUrls(pages), st.seen, s.state.seen);
  }

  /** The same loop if it stayed on the listing page it had reached. */
  function PaginateInPlace(st: State, category: string, pages: Pages, product: string -> ProductPage, at: nat, current: nat): (r: CategoryResult)
    requires at < |pages|
    ensures st.seen <= r.state.seen && st.log <= r.state.log
    ensures current <= r.currentPage <= current + |pages| - 1 - at
    decreases |pages| - at, 1
  {
    match pages[at].extract
    case ExtractFailed => CategoryResult(st, current, Failed)
    case Extracted(anchors) =>
      var s := ScanStubs(st, category, anchors, product);
      if !s.ok then CategoryResult(s.state, current, Failed)
      else AdvanceInPlace(s.state, category, pages, product, at, current)
  }

  /** The page-advance step of the in-place loop, on page `at`. */
  function AdvanceInPlace(st: State, category: string, pages: Pages, product: string -> ProductPage, at: nat, current: nat): (r: CategoryResult)
    requires at < |pages|
    ensures st.seen <= r.state.seen && st.log <= r.state.log
    ensures current <= r.currentPage <= current + |pages| - 1 - at
    decreases |pages| - at, 0
  {
    if pages[at].next != NextClicked then CategoryResult(st, current, StopOf(pages[at].next))
    else
      ClickedNotLast(pages, at);
      PaginateInPlace(st, category, pages, product, at + 1, current + 1)
  }

  /** `processCategory` for one category: loading the category URL throws (before
      `currentPage` is set), or the pagination loop runs from page 1. */
  function CategoryPass(st: State, category: Category, site: Site): (r: CategoryResult)
    ensures st.seen <= r.state.seen && st.log <= r.state.log
  {
    match site.listing(category.url)
    case Unreachable => CategoryResult(st, 0, Failed)
    case Reached(pages) => Paginate(st, category.name, pages, site.product, 0, 1)
  }

  /** The loop over the categories: however a category ends, the next one is processed
      with the seen set and rows it left. */
  function CrawlPass(st: State, categories: seq<Category>, site: Site): (r: State)
    ensures st.seen <= r.seen && st.log <= r.log
    decreases |categories|
  {
    if categories == [] then st
    else CrawlPass(CategoryPass(st, categories[0], site).state, categories[1..], site)
  }
}
