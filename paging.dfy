/**
 * The pagination loop of `processCategory` and the loop over the categories.
 *
 * After visiting a product the code navigates back to the category URL, so the
 * browser is on the first listing page again while `currentPage` keeps its count. The
 * lemmas below show that this costs only re-scans: the loop as written ends with the
 * same rows, the same seen set and the same way of stopping as a loop that stayed on
 * the page it had reached, but its `currentPage` can exceed the number of listing
 * pages. They also show that a provider that throws ends the whole category, and that
 * a category, however it ends, does not stop the ones after it.
 */
module Paging {
  import opened Wrappers
  import opened Store
  import opened Site
  import opened Categories
  import opened Crawl

  /** Page `i` was extracted and its next control clicked. */
  predicate PassedAt(pages: seq<Listing>, i: nat)
    requires i < |pages|
  {
    pages[i].extract.Extracted? && pages[i].next == NextClicked
  }

  /** Every page before `at` was passed. */
  predicate Passable(pages: seq<Listing>, at: int)
  {
    forall i: nat :: i < at && i < |pages| ==> PassedAt(pages, i)
  }

  /** Page `i`, if extracted, has only empty or seen URLs. */
  ghost predicate SettledAt(seen: set<string>, pages: seq<Listing>, i: nat)
    requires i < |pages|
  {
    pages[i].extract.Extracted? ==> Settled(seen, pages[i].extract.anchors)
  }

  /** Every page before `n` is settled. */
  ghost predicate SettledBefore(seen: set<string>, pages: seq<Listing>, n: int)
  {
    forall i: nat :: i < n && i < |pages| ==> SettledAt(seen, pages, i)
  }

  /** Seeing more URLs keeps pages settled; a page just scanned cleanly is settled too. */
  lemma SettledAfterScan(st: State, category: string, pages: seq<Listing>, product: string -> ProductPage, at: nat)
    requires at < |pages| && pages[at].extract.Extracted? && SettledBefore(st.seen, pages, at)
    requires ScanStubs(st, category, pages[at].extract.anchors, product).ok
    ensures SettledBefore(ScanStubs(st, category, pages[at].extract.anchors, product).state.seen, pages, at + 1)
  {
    var seen := ScanStubs(st, category, pages[at].extract.anchors, product).state.seen;
    ScanFacts(st, category, pages[at].extract.anchors, product);
    forall i: nat | i < at + 1 && i < |pages| ensures SettledAt(seen, pages, i) {
      if i < at {
        assert SettledAt(st.seen, pages, i);
      }
    }
  }

  /** A page whose products are all seen or URL-less is scanned without effect. */
  lemma {:induction false} ScanSettled(st: State, category: string, anchors: seq<Anchor>, product: string -> ProductPage)
    requires Settled(st.seen, anchors)
    ensures ScanStubs(st, category, anchors, product) == PageResult(st, true, false)
    decreases |anchors|
  {
    if anchors != [] {
      assert anchors[0] in anchors;
      assert Settled(st.seen, anchors[1..]) by {
        forall a | a in anchors[1..] ensures a in anchors { }
      }
      ScanSettled(st, category, anchors[1..], product);
    }
  }

  /** Walking again through pages already scanned changes nothing but the page count. */
  lemma {:induction false} Replay(st: State, category: string, pages: Pages, product: string -> ProductPage,
                                  j: nat, at: nat, current: nat, final: nat)
    requires j <= at < |pages| && Passable(pages, at) && SettledBefore(st.seen, pages, at)
    requires final == current + (at - j)
    ensures Paginate(st, category, pages, product, j, current) == Paginate(st, category, pages, product, at, final)
    decreases at - j
  {
    if j < at {
      assert PassedAt(pages, j) && SettledAt(st.seen, pages, j);
      ReplayStep(st, category, pages, product, j, current);
      Replay(st, category, pages, product, j + 1, at, current + 1, final);
      assert Paginate(st, category, pages, product, j + 1, current + 1) == Paginate(st, category, pages, product, at, final);
    } else {
      assert j == at && final == current;
    }
  }

  /** A page that was passed before and whose products are all seen is passed again. */
  lemma ReplayStep(st: State, category: string, pages: Pages, product: string -> ProductPage, j: nat, current: nat)
    requires j + 1 < |pages| && pages[j].extract.Extracted? && pages[j].next == NextClicked
    requires Settled(st.seen, pages[j].extract.anchors)
    ensures Paginate(st, category, pages, product, j, current) == Paginate(st, category, pages, product, j + 1, current + 1)
  {
    ScanSettled(st, category, pages[j].extract.anchors, product);
  }

  /** One round of the loop as written, after a clean scan. */
  lemma PaginateRound(st: State, category: string, pages: Pages, product: string -> ProductPage, at: nat, current: nat)
    requires at < |pages| && pages[at].extract.Extracted?
    requires ScanStubs(st, category, pages[at].extract.anchors, product).ok
    ensures var s := ScanStubs(st, category, pages[at].extract.anchors, product);
      Paginate(st, category, pages, product, at, current)
        == Advance(s.state, category, pages, product, if s.visited then 0 else at, current)
  {
  }

  /** One round of the in-place loop, after a clean scan. */
  lemma InPlaceRound(st: State, category: string, pages: Pages, product: string -> ProductPage, at: nat, current: nat)
    requires at < |pages| && pages[at].extract.Extracted?
    requires ScanStubs(st, category, pages[at].extract.anchors, product).ok
    ensures PaginateInPlace(st, category, pages, product, at, current)
         == AdvanceInPlace(ScanStubs(st, category, pages[at].extract.anchors, product).state, category, pages, product, at, current)
  {
  }

  /** Both loops end in the same state and the same way, the one as written having
      counted at least as many pages. */
  predicate Agree(a: CategoryResult, b: CategoryResult)
  {
    a.state == b.state && a.stop == b.stop && a.currentPage >= b.currentPage
  }

  /** A settled page is scanned without effect, and the loop goes on from it. */
  lemma SettledRound(st: State, category: string, pages: Pages, product: string -> ProductPage, at: nat, current: nat)
    requires at < |pages| && pages[at].extract.Extracted? && Settled(st.seen, pages[at].extract.anchors)
    ensures Paginate(st, category, pages, product, at, current) == Advance(st, category, pages, product, at, current)
  {
    ScanSettled(st, category, pages[at].extract.anchors, product);
    PaginateRound(st, category, pages, product, at, current);
  }

  /** Sent back to page 1 after a clean scan of page `at`, the loop walks through the
      pages up to `at` again and then does what it would have done on page `at`. */
  lemma RestartRound(st: State, category: string, pages: Pages, product: string -> ProductPage, at: nat, current: nat)
    requires 0 < at < |pages| && pages[at].extract.Extracted? && Passable(pages, at)
    requires SettledBefore(st.seen, pages, at + 1)
    ensures Advance(st, category, pages, product, 0, current) == Advance(st, category, pages, product, at, current + at)
  {
    assert PassedAt(pages, 0);
    assert Advance(st, category, pages, product, 0, current) == Paginate(st, category, pages, product, 1, current + 1);
    Replay(st, category, pages, product, 1, at, current + 1, current + at);
    assert SettledAt(st.seen, pages, at);
    SettledRound(st, category, pages, product, at, current + at);
  }

  /** A round of the loop as written, after a clean scan of page `at` with the pages
      before it passed and seen: it goes on as if it had stayed on page `at`, with
      `currentPage` larger when the browser was sent back to page 1. */
  lemma RoundAsWritten(st: State, category: string, pages: Pages, product: string -> ProductPage, at: nat, current: nat)
      returns (n: nat)
    requires at < |pages| && pages[at].extract.Extracted? && Passable(pages, at)
    requires var s := ScanStubs(st, category, pages[at].extract.anchors, product);
      s.ok && SettledBefore(s.state.seen, pages, at + 1)
    ensures n >= current
    ensures Paginate(st, category, pages, product, at, current)
         == Advance(ScanStubs(st, category, pages[at].extract.anchors, product).state, category, pages, product, at, n)
  {
    var s := ScanStubs(st, category, pages[at].extract.anchors, product);
    PaginateRound(st, category, pages, product, at, current);
    n := current;
    if s.visited && at > 0 {
      assert Paginate(st, category, pages, product, at, current) == Advance(s.state, category, pages, product, 0, current);
      RestartRound(s.state, category, pages, product, at, current);
      n := current + at;
    } else {
      assert Paginate(st, category, pages, product, at, current) == Advance(s.state, category, pages, product, at, current);
    }
  }

  /** A page whose extraction or scan throws ends both loops the same way. */
  lemma FailedRound(st: State, category: string, pages: Pages, product: string -> ProductPage,
                    at: nat, current: nat, current': nat)
    requires at < |pages| && current >= current'
    requires pages[at].extract.Extracted? ==> !ScanStubs(st, category, pages[at].extract.anchors, product).ok
    ensures Agree(Paginate(st, category, pages, product, at, current),
                  PaginateInPlace(st, category, pages, product, at, current'))
  {
  }

  /** A clean scan of page `at`: both loops go on with the page-advance step on page
      `at` from the state the scan left, the one as written with a `currentPage` at least
      as large; the pages up to `at` are then settled, and the scan either made progress
      or changed nothing. */
  lemma CleanRound(st: State, category: string, pages: Pages, product: string -> ProductPage,
                   at: nat, current: nat, current': nat) returns (n: nat)
    requires at < |pages| && current >= current'
    requires Passable(pages, at) && SettledBefore(st.seen, pages, at)
    requires pages[at].extract.Extracted? && ScanStubs(st, category, pages[at].extract.anchors, product).ok
    ensures var s := ScanStubs(st, category, pages[at].extract.anchors, product);
      n >= current &&
      Paginate(st, category, pages, product, at, current) == Advance(s.state, category, pages, product, at, n) &&
      PaginateInPlace(st, category, pages, product, at, current') == AdvanceInPlace(s.state, category, pages, product, at, current') &&
      SettledBefore(s.state.seen, pages, at + 1) &&
      (s.visited ==> |AllUrls(pages) - s.state.seen| < |AllUrls(pages) - st.seen|) &&
      (!s.visited ==> s.state == st)
  {
    SettledAfterScan(st, category, pages, product, at);
    ScanProgress(st, category, pages, at, product);
    InPlaceRound(st, category, pages, product, at, current');
    n := RoundAsWritten(st, category, pages, product, at, current);
  }

  /** From a page reached through clicked next controls, with the pages before it all
      seen, the loop as written and the loop that stays in place agree. */
  lemma {:induction false} RestartMatchesInPlace(st: State, category: string, pages: Pages, product: string -> ProductPage,
                                                 at: nat, current: nat, current': nat)
    requires at < |pages| && current >= current'
    requires Passable(pages, at) && SettledBefore(st.seen, pages, at)
    ensures Agree(Paginate(st, category, pages, product, at, current),
                  PaginateInPlace(st, category, pages, product, at, current'))
    decreases |AllUrls(pages) - st.seen|, |pages| - at, 1
  {
    if pages[at].extract.Extracted? && ScanStubs(st, category, pages[at].extract.anchors, product).ok {
      var s := ScanStubs(st, category, pages[at].extract.anchors, product);
      var n := CleanRound(st, category, pages, product, at, current, current');
      AdvanceMatchesInPlace(s.state, category, pages, product, at, n, current');
    } else {
      FailedRound(st, category, pages, product, at, current, current');
    }
  }

  /** The same from the page-advance step on page `at`, once the pages up to `at` are seen. */
  lemma {:induction false} AdvanceMatchesInPlace(st: State, category: string, pages: Pages, product: string -> ProductPage,
                                                 at: nat, current: nat, current': nat)
    requires at < |pages| && pages[at].extract.Extracted? && current >= current'
    requires Passable(pages, at) && SettledBefore(st.seen, pages, at + 1)
    ensures Agree(Advance(st, category, pages, product, at, current),
                  AdvanceInPlace(st, category, pages, product, at, current'))
    decreases |AllUrls(pages) - st.seen|, |pages| - at, 0
  {
    if pages[at].next == NextClicked {
      assert PassedAt(pages, at);
      assert Passable(pages, at + 1);
      ClickedNotLast(pages, at);
      RestartMatchesInPlace(st, category, pages, product, at + 1, current + 1, current' + 1);
    }
  }

  /** A category's pass as written writes the same rows, leaves the same seen set and
      stops the same way as the in-place loop; only `currentPage` may be larger, while
      the in-place loop's never exceeds the number of listing pages. */
  lemma RestartKeepsRows(st: State, category: string, pages: Pages, product: string -> ProductPage)
    ensures var a := Paginate(st, category, pages, product, 0, 1);
      var b := PaginateInPlace(st, category, pages, product, 0, 1);
      a.state == b.state && a.stop == b.stop && a.currentPage >= b.currentPage && 1 <= b.currentPage <= |pages|
  {
    RestartMatchesInPlace(st, category, pages, product, 0, 1, 1);
    assert Agree(Paginate(st, category, pages, product, 0, 1), PaginateInPlace(st, category, pages, product, 0, 1));
  }

  /** A category whose first `k` listing pages are passed, whose next page shows a
      disabled next control, and whose products are all seen already, is processed for
      exactly `k + 1` pages, without a row written, and ends on its last page. */
  lemma KnownCategoryCountsPages(st: State, category: string, pages: Pages, product: string -> ProductPage, k: nat)
    requires k < |pages| && Passable(pages, k)
    requires pages[k].extract.Extracted? && pages[k].next == NextDisabled
    requires SettledBefore(st.seen, pages, k + 1)
    ensures Paginate(st, category, pages, product, 0, 1) == CategoryResult(st, k + 1, LastPage)
  {
    Replay(st, category, pages, product, 0, k, 1, k + 1);
    assert SettledAt(st.seen, pages, k);
    SettledRound(st, category, pages, product, k, k + 1);
  }

  /** The in-place loop from page `at`, when the pages before `k` are passed and page `k`
      shows a disabled next control: unless a page throws, it stops on page `k` as the
      last page, having counted one page per listing page it went through. */
  lemma {:induction false} InPlaceCountsPages(st: State, category: string, pages: Pages, product: string -> ProductPage,
                                              at: nat, current: nat, k: nat)
    requires at <= k < |pages| && Passable(pages, k)
    requires pages[k].extract.Extracted? && pages[k].next == NextDisabled
    ensures var r := PaginateInPlace(st, category, pages, product, at, current);
      r.stop != Failed ==> r.stop == LastPage && r.currentPage == current + (k - at)
    decreases k - at
  {
    if at < k {
      assert PassedAt(pages, at);
      var s := ScanStubs(st, category, pages[at].extract.anchors, product);
      if s.ok {
        InPlaceRound(st, category, pages, product, at, current);
        ClickedNotLast(pages, at);
        assert AdvanceInPlace(s.state, category, pages, product, at, current)
            == PaginateInPlace(s.state, category, pages, product, at + 1, current + 1);
        InPlaceCountsPages(s.state, category, pages, product, at + 1, current + 1, k);
      }
    }
  }

  /** A category whose page N is the first with a disabled next control: unless a page
      throws, the in-place loop stops on that last page with `currentPage` N, and the
      loop as written stops the same way, with the same rows and a `currentPage` of at
      least N. */
  lemma CategoryCountsPages(st: State, category: string, pages: Pages, product: string -> ProductPage, k: nat)
    requires k < |pages| && Passable(pages, k)
    requires pages[k].extract.Extracted? && pages[k].next == NextDisabled
    ensures var a := Paginate(st, category, pages, product, 0, 1);
      var b := PaginateInPlace(st, category, pages, product, 0, 1);
      b.stop != Failed ==>
        b.stop == LastPage && b.currentPage == k + 1 && a.stop == LastPage && a.currentPage >= k + 1 && a.state == b.state
  {
    InPlaceCountsPages(st, category, pages, product, 0, 1, k);
    RestartKeepsRows(st, category, pages, product);
  }

  /** Two listing pages: the first empty, the second with one product and the last. */
  function TwoPages(): Pages
  {
    [Listing(Extracted([]), NextClicked), Listing(Extracted([Anchor(Some("/a"), "A")]), NextDisabled)]
  }

  /** A product page without providers whose back navigation succeeds. */
  function Plain(url: string): ProductPage
  {
    ProductPage([], true)
  }

  /** The scan of the second page from the start visits its product. */
  lemma SecondPageFirstScan()
    ensures ScanStubs(State({}, []), "C", TwoPages()[1].extract.anchors, Plain)
         == PageResult(State({"https://printify.com/a"}, [ProductRow("C", "A", "https://printify.com/a")]), true, true)
  {
    var anchors := TwoPages()[1].extract.anchors;
    var url := "https://printify.com/a";
    assert StubOf(anchors[0]) == Stub("A", url);
    assert anchors[1..] == [];
    var st1 := State({url}, [ProductRow("C", "A", url)]);
    VisitRows(State({}, []), "C", Stub("A", url), Plain(url));
    assert Visit(State({}, []), "C", Stub("A", url), Plain(url)) == Step(st1, true);
  }

  /** As written, `currentPage` ends at 3 on a category of two listing pages; the loop
      that stays in place ends at 2. */
  lemma RestartOvercounts()
    ensures Paginate(State({}, []), "C", TwoPages(), Plain, 0, 1).currentPage == 3 > |TwoPages()|
    ensures PaginateInPlace(State({}, []), "C", TwoPages(), Plain, 0, 1).currentPage == 2
  {
    var pages := TwoPages();
    var st0 := State({}, []);
    var url := "https://printify.com/a";
    var st1 := State({url}, [ProductRow("C", "A", url)]);
    assert ScanStubs(st0, "C", [], Plain) == PageResult(st0, true, false);
    assert Paginate(st0, "C", pages, Plain, 0, 1) == Paginate(st0, "C", pages, Plain, 1, 2);
    SecondPageFirstScan();
    assert Paginate(st0, "C", pages, Plain, 1, 2) == Paginate(st1, "C", pages, Plain, 1, 3);
    ScanSettled(st1, "C", pages[1].extract.anchors, Plain);
    assert Paginate(st1, "C", pages, Plain, 1, 3) == CategoryResult(st1, 3, LastPage);
    assert PaginateInPlace(st0, "C", pages, Plain, 0, 1) == PaginateInPlace(st0, "C", pages, Plain, 1, 2);
  }

  /** A scan whose first stubs `pre` pass cleanly and which then reaches a new product
      with a provider that throws stops there: the product's rows so far stay and no
      later stub of the page is looked at. */
  lemma {:induction false} ScanFailsAt(st: State, category: string, pre: seq<Anchor>, a: Anchor, rest: seq<Anchor>,
                                       product: string -> ProductPage)
    requires ScanStubs(st, category, pre, product).ok
    requires IsNew(ScanStubs(st, category, pre, product).state.seen, StubOf(a).url)
    requires ProviderFailed in product(StubOf(a).url).providers
    ensures ScanStubs(st, category, pre + [a] + rest, product)
         == PageResult(Visit(ScanStubs(st, category, pre, product).state, category, StubOf(a), product(StubOf(a).url)).state,
                       false, true)
    decreases |pre|
  {
    var anchors := pre + [a] + rest;
    if pre == [] {
      var stub := StubOf(a);
      var providers := product(stub.url).providers;
      var i :| 0 <= i < |providers| && providers[i] == ProviderFailed;
      ProviderRowsFacts(category, stub, providers);
      var v := Visit(st, category, stub, product(stub.url));
      assert !v.ok;
      assert anchors == [a] + rest && anchors[0] == a;
      assert ScanFirst(st, category, anchors, product) == PageResult(v.state, false, true);
    } else {
      assert anchors[0] == pre[0];
      assert anchors[1..] == pre[1..] + [a] + rest;
      var stub := StubOf(pre[0]);
      if !IsNew(st.seen, stub.url) {
        assert ScanStubs(st, category, pre, product) == ScanStubs(st, category, pre[1..], product);
        ScanFailsAt(st, category, pre[1..], a, rest, product);
      } else {
        var v := Visit(st, category, stub, product(stub.url));
        assert v.ok;
        assert ScanStubs(st, category, pre, product).state == ScanStubs(v.state, category, pre[1..], product).state;
        ScanFailsAt(v.state, category, pre[1..], a, rest, product);
      }
    }
  }

  /** A provider that throws ends the whole category: the provider loop is outside the
      product-level `try`, so the error reaches the page-level `catch`, which leaves the
      loop. Wherever the failing product stands on the page, the rows it got so far stay,
      and the rest of the page and the later pages are not scanned. */
  lemma {:induction false} ProviderFailureEndsCategory(st: State, category: string, pages: Pages, product: string -> ProductPage,
                                    at: nat, current: nat, pre: seq<Anchor>, a: Anchor, rest: seq<Anchor>)
    requires at < |pages| && pages[at].extract == Extracted(pre + [a] + rest)
    requires ScanStubs(st, category, pre, product).ok
    requires IsNew(ScanStubs(st, category, pre, product).state.seen, StubOf(a).url)
    requires ProviderFailed in product(StubOf(a).url).providers
    ensures Paginate(st, category, pages, product, at, current)
         == CategoryResult(Visit(ScanStubs(st, category, pre, product).state, category, StubOf(a), product(StubOf(a).url)).state,
                           current, Failed)
  {
    ScanFailsAt(st, category, pre, a, rest, product);
  }

  /** Catch-and-continue: the crawl over the categories plus one more processes that
      one from the state the others left, however each of them ended. */
  lemma {:induction false} CrawlPassSnoc(st: State, categories: seq<Category>, c: Category, site: Site)
    ensures CrawlPass(st, categories + [c], site) == CategoryPass(CrawlPass(st, categories, site), c, site).state
    decreases |categories|
  {
    if categories == [] {
      assert categories + [c] == [c];
      assert [c][1..] == [];
    } else {
      assert (categories + [c])[1..] == categories[1..] + [c];
      CrawlPassSnoc(CategoryPass(st, categories[0], site).state, categories[1..], c, site);
    }
  }
}
