/**
 * What the browser shows the scraper, as data. Every browser call of the scraper
 * (navigation, element queries, clicks, waits) is replaced by its outcome: the
 * anchors a listing page holds, how its next control behaves, which providers a
 * product page offers and what their variant tables contain, and which steps throw.
 */
module Site {
  import opened Wrappers

  /** The site the relative links point into. */
  const Origin: string := "https://printify.com"

  /** A product anchor of a listing page: its `href` attribute, if any, and the trimmed
      text of its name element (empty when the element is missing). */
  datatype Anchor = Anchor(href: Option<string>, name: string)

  /** A product found on a listing page. */
  datatype Stub = Stub(name: string, url: string)

  /** The stub `extractProductsFromPage` makes of an anchor: the URL is the origin followed
      by the `href`, or empty when the anchor has no `href` or an empty one. */
  function StubOf(a: Anchor): (s: Stub)
    ensures s.name == a.name
    ensures s.url == "" <==> a.href.None? || a.href.value == ""
    ensures s.url != "" ==> Origin <= s.url && s.url[|Origin|..] == a.href.value
  {
    Stub(a.name, if a.href.Some? && a.href.value != "" then Origin + a.href.value else "")
  }

  /** The outcome of extracting the products of the current listing page: it throws,
      or it yields the page's anchors. */
  datatype Extract = ExtractFailed | Extracted(anchors: seq<Anchor>)

  /** The outcome of the page-advance step on the listing page the browser shows: the
      disabled-next indicator is present; an enabled next button was clicked; no enabled
      next button was found; or the step threw. */
  datatype Next = NextDisabled | NextClicked | NoEnabledNext | NextFailed

  /** One listing page of a category. */
  datatype Listing = Listing(extract: Extract, next: Next)

  /** A category's listing pages end: the last one does not lead further. */
  predicate Closed(pages: seq<Listing>)
  {
    pages != [] && pages[|pages| - 1].next != NextClicked
  }

  /** The listing pages of a category, page 1 first. */
  type Pages = pages: seq<Listing> | Closed(pages) witness [Listing(Extracted([]), NextDisabled)]

  /** One row of a provider's variants table: the selected-option text and the standard
      price text, each empty when its element is missing. */
  datatype Variant = Variant(size: string, price: string)

  /** One provider-info button: opening it or reading its table throws, or it opens and
      shows a variants table (or none). A failure to close the popup is caught in the
      code and changes nothing, so it is not represented. */
  datatype Provider = ProviderFailed | ProviderOpened(table: Option<seq<Variant>>)

  /** A product page after the visit: its provider-info buttons in order, and whether
      navigating back to the category URL afterwards succeeds. */
  datatype ProductPage = ProductPage(providers: seq<Provider>, backOk: bool)

  /** A category URL: loading it throws, or it shows its listing pages. */
  datatype CategorySite = Unreachable | Reached(pages: Pages)

  /** The whole site: what each category URL and each product URL shows. */
  datatype Site = Site(listing: string -> CategorySite, product: string -> ProductPage)
}
