/**
 Pagination against a server that slices a fixed list into pages of one size: what a listing
 collects, how many pages it asks for, and exactly when a listing that does not say `partial` is the
 whole list.
 */
module Pagination {
  import opened Wrappers
  import opened HttpReadback

  function Least(a: nat, b: nat): nat { if a <= b then a else b }

  /** The records of the first `pages` pages. */
  function Read(list: seq<Readback>, size: nat, pages: nat): seq<Readback> {
    list[..Least(|list|, pages * size)]
  }

  /** Page p of the list, counting pages from 1. */
  function Slice(list: seq<Readback>, size: nat, p: nat): seq<Readback>
    requires p >= 1
  {
    Read(list, size, p)[|Read(list, size, p - 1)|..]
  }

  /** The response carries page p: past the end that may be an empty page or a 404. */
  predicate CarriesPage(r: Response, list: seq<Readback>, size: nat, p: nat, next: NextLink)
    requires p >= 1
  {
    || r == Response(200, None, Records(Slice(list, size, p), next))
    || (p > 1 && (p - 1) * size >= |list| && r.Response? && r.status == 404)
  }

  /** Page p of the chain points at page p + 1 exactly when there is more to read. */
  ghost predicate LinkedPage(answer: Request -> Response, link: nat -> Url, list: seq<Readback>, size: nat, p: nat)
    requires p >= 1
  {
    CarriesPage(answer(PageRequest(ByLink, link(p), p)), list, size, p,
      if p * size < |list| then SameHost(link(p + 1)) else NoLink)
  }

  /** The server slices `list`, by page number or along a chain of links. */
  ghost predicate Serves(answer: Request -> Response, paging: Paging, url: Url, link: nat -> Url,
    list: seq<Readback>, size: nat)
  {
    match paging
    case SinglePage => false
    case ByNumber(_) =>
      forall p: nat :: p >= 1 ==> CarriesPage(answer(PageRequest(paging, url, p)), list, size, p, NoLink)
    case ByLink =>
      && link(1) == url
      && forall p: nat :: p >= 1 ==> LinkedPage(answer, link, list, size, p)
  }

  lemma ReadGrows(list: seq<Readback>, size: nat, p: nat)
    requires p >= 1
    ensures p * size == (p - 1) * size + size
    ensures Read(list, size, p) == Read(list, size, p - 1) + Slice(list, size, p)
    ensures |Slice(list, size, p)|
      == if (p - 1) * size >= |list| then 0 else Least(|list| - (p - 1) * size, size)
  {
    assert p * size == (p - 1) * size + size;
  }

  /** Whether page p of a list of n records, taken in pages of `size`, looks as if more followed. */
  predicate Continues(paging: Paging, n: nat, size: nat, p: nat)
    requires p >= 1
  {
    match paging
    case SinglePage => false
    case ByLink => p * size < n
    case ByNumber(true) => size >= PAGE_SIZE && (p - 1) * size + PAGE_SIZE <= n
    case ByNumber(false) => if p == 1 then n > 0 else p * size <= n
  }

  /** A listing read `pages` pages: every one before the last looked full, and the last did not unless
      no more were allowed, which is what `partial` says. */
  ghost predicate ReadsPages(r: Result<FetchResult, Failure>, pages: nat, paging: Paging, list: seq<Readback>, size: nat,
      maxPages: nat)
    requires 1 <= pages <= maxPages
  {
    && r.Ok? && r.value.records == Read(list, size, pages)
    && (forall p: nat :: 1 <= p < pages ==> Continues(paging, |list|, size, p))
    && (pages < maxPages ==> !Continues(paging, |list|, size, pages))
    && (r.value.partial <==> pages == maxPages && Continues(paging, |list|, size, maxPages))
  }

  /** The listing that a server with one rule gives. */
  function Listed(l: Listing, answer: Request -> Response, url: Url): Result<FetchResult, Failure>
    requires l.maxPages >= 1
  {
    Collected(l, answer, FirstPage(url), 1)
  }

  function PagesListed(l: Listing, answer: Request -> Response, url: Url): (pages: nat)
    requires l.maxPages >= 1
    ensures 1 <= pages <= l.maxPages
  {
    PagesFrom(l, answer, FirstPage(url), 1)
  }

  /** A listing of `list` that is about to read page `page`. */
  ghost predicate Reading(l: Listing, url: Url, link: nat -> Url, list: seq<Readback>, size: nat, step: PageStep,
      page: nat)
  {
    && 1 <= page <= l.maxPages && size >= 1 && step.More?
    && step.url == (if l.paging.ByLink? then link(page) else url) && step.raw == Read(list, size, page - 1)
    && step.biggest == (if page == 1 then 0 else Least(|list|, size))
    && (page > 1 ==> Continues(l.paging, |list|, size, page - 1))
  }

  /** One page: on to the next when it looks full and one more is allowed. */
  lemma ReadsOnePage(l: Listing, answer: Request -> Response, url: Url, link: nat -> Url, list: seq<Readback>,
      size: nat, step: PageStep, page: nat)
    requires Reading(l, url, link, list, size, step, page) && Serves(answer, l.paging, url, link, list, size)
    ensures var next := InstantStep(l, answer, step, page);
      var full := Continues(l.paging, |list|, size, page);
      if full && page < l.maxPages then Reading(l, url, link, list, size, next, page + 1)
      else next.Done? && next.result.Ok? && next.result.value.partial == full
           && next.result.value.records == Read(list, size, page)
  {
    hide Read, Slice, Continues, Serves;
    var reply := answer(PageRequest(l.paging, step.url, page));
    ReadGrows(list, size, page);
    ServesPage(l.paging, answer, url, link, list, size, step.url, page);
    if page > 1 && reply.Response? && reply.status == 404 {
      PastTheEnd(l.paging, list, size, page);
    } else {
      LooksFull(l.paging, list, size, page, step.biggest);
    }
  }

  lemma ServesPage(paging: Paging, answer: Request -> Response, url: Url, link: nat -> Url, list: seq<Readback>,
      size: nat, current: Url, page: nat)
    requires page >= 1 && Serves(answer, paging, url, link, list, size)
    requires current == if paging.ByLink? then link(page) else url
    ensures CarriesPage(answer(PageRequest(paging, current, page)), list, size, page,
      if paging.ByLink? && page * size < |list| then SameHost(link(page + 1)) else NoLink)
  {
    assert paging.ByLink? ==> LinkedPage(answer, link, list, size, page);
  }

  lemma PastTheEnd(paging: Paging, list: seq<Readback>, size: nat, page: nat)
    requires page > 1 && size >= 1 && (page - 1) * size >= |list|
    ensures Read(list, size, page) == Read(list, size, page - 1) && !Continues(paging, |list|, size, page)
  {
    ReadGrows(list, size, page);
  }

  /** A page looks full to the adapter exactly when `Continues` says so. */
  lemma LooksFull(paging: Paging, list: seq<Readback>, size: nat, page: nat, biggest: nat)
    requires page >= 1 && size >= 1 && biggest == if page == 1 then 0 else Least(|list|, size)
    requires page > 1 ==> Continues(paging, |list|, size, page - 1)
    ensures var n := |Slice(list, size, page)|;
      && (paging.ByNumber? ==>
           (Continues(paging, |list|, size, page) <==> n > 0 && n >= if paging.sized then PAGE_SIZE else biggest))
      && (paging.ByLink? ==> (Continues(paging, |list|, size, page) <==> page * size < |list|))
      && !Continues(SinglePage, |list|, size, page)
      && (!paging.SinglePage? && Continues(paging, |list|, size, page) ==>
           (if n > biggest then n else biggest) == Least(|list|, size))
  {
    hide Read, Slice;
    ReadGrows(list, size, page);
  }

  lemma {:induction false} CollectsFrom(l: Listing, answer: Request -> Response, url: Url, link: nat -> Url,
      list: seq<Readback>, size: nat, step: PageStep, page: nat)
    requires Reading(l, url, link, list, size, step, page) && Serves(answer, l.paging, url, link, list, size)
    requires forall p: nat :: 1 <= p < page ==> Continues(l.paging, |list|, size, p)
    ensures ReadsPages(Collected(l, answer, step, page), page - 1 + PagesFrom(l, answer, step, page), l.paging, list,
      size, l.maxPages)
    decreases l.maxPages - page
  {
    hide Serves, InstantStep, Read, Continues;
    ReadsOnePage(l, answer, url, link, list, size, step, page);
    match InstantStep(l, answer, step, page)
    case Done(_) =>
    case More(current, larger, all, first) =>
      CollectsFrom(l, answer, url, link, list, size, More(current, larger, all, first), page + 1);
  }

  /** A listing is a prefix of the server's list in order, page for page, and stops at the first page
      that does not look full, or at the page limit, and only then with `partial`. */
  lemma ListingReadsPages(l: Listing, answer: Request -> Response, url: Url, link: nat -> Url, list: seq<Readback>,
      size: nat)
    requires l.maxPages >= 1 && size >= 1 && Serves(answer, l.paging, url, link, list, size)
    ensures ReadsPages(Listed(l, answer, url), PagesListed(l, answer, url), l.paging, list, size, l.maxPages)
  {
    CollectsFrom(l, answer, url, link, list, size, FirstPage(url), 1);
  }

  /** What a listing ends with: the whole list, or, after exactly `maxPages` pages, what they hold. */
  ghost predicate Faithful(r: Result<FetchResult, Failure>, pages: nat, list: seq<Readback>, size: nat, maxPages: nat) {
    && r.Ok?
    && (if r.value.partial then r.value.records == Read(list, size, maxPages) && pages == maxPages
        else r.value.records == list)
  }

  /** The server honours the page size asked for, if one was. */
  predicate HonoursSize(paging: Paging, size: nat) {
    paging == ByNumber(true) ==> size >= PAGE_SIZE
  }

  /** A listing without `partial` is the whole list. */
  lemma ListingIsFaithful(l: Listing, answer: Request -> Response, url: Url, link: nat -> Url, list: seq<Readback>,
      size: nat)
    requires l.maxPages >= 1 && size >= 1 && HonoursSize(l.paging, size)
    requires Serves(answer, l.paging, url, link, list, size)
    ensures Faithful(Listed(l, answer, url), PagesListed(l, answer, url), list, size, l.maxPages)
  {
    var pages := PagesListed(l, answer, url);
    ListingReadsPages(l, answer, url, link, list, size);
    ReadGrows(list, size, pages);
    assert !Continues(l.paging, |list|, size, pages) ==> |list| <= pages * size;
    assert list[..|list|] == list;
  }

  /** A server that ignores the page size parameter and serves smaller pages loses records without
      a `partial`: the listing is faithful exactly when the size is honoured or one page is enough. */
  lemma SizedListingIsFaithfulIff(maxPages: nat, lookup: bool, answer: Request -> Response,
      url: Url, list: seq<Readback>, size: nat)
    requires maxPages >= 1 && size >= 1
    requires Serves(answer, ByNumber(true), url, _ => url, list, size)
    ensures var l := Listing(ByNumber(true), maxPages, lookup);
      Faithful(Listed(l, answer, url), PagesListed(l, answer, url), list, size, maxPages)
      <==> size >= PAGE_SIZE || |list| <= size
  {
    var l := Listing(ByNumber(true), maxPages, lookup);
    if size >= PAGE_SIZE {
      ListingIsFaithful(l, answer, url, _ => url, list, size);
    } else {
      ListingReadsPages(l, answer, url, _ => url, list, size);
      assert PagesListed(l, answer, url) > 1 ==> Continues(l.paging, |list|, size, 1);
      assert Read(list, size, 1) == list[..Least(|list|, size)];
      assert |list| <= size ==> list[..|list|] == list;
    }
  }

  /** How few records of a tag one request is enough for. */
  predicate OneRequestIsEnough(paging: Paging, n: nat, size: nat) {
    match paging
    case SinglePage => true
    case ByLink => n <= size
    case ByNumber(true) => n < PAGE_SIZE || size < PAGE_SIZE
    case ByNumber(false) => n == 0
  }

  /** A lookup of n records takes one request exactly when the paging lets it: one page, a list that ends
      on its first page, fewer than a page size of records, or, with page numbers but no page size, none
      at all. */
  lemma OneRequestIffFewRecords(l: Listing, answer: Request -> Response, url: Url, link: nat -> Url,
      list: seq<Readback>, size: nat)
    requires l.maxPages >= 1 && size >= 1
    requires l.paging.SinglePage? || Serves(answer, l.paging, url, link, list, size)
    ensures PagesListed(l, answer, url) == 1 <==> l.maxPages == 1 || OneRequestIsEnough(l.paging, |list|, size)
  {
    if !l.paging.SinglePage? {
      var pages := PagesListed(l, answer, url);
      ListingReadsPages(l, answer, url, link, list, size);
      assert pages > 1 ==> Continues(l.paging, |list|, size, 1);
      assert pages == 1 && l.maxPages > 1 ==> !Continues(l.paging, |list|, size, 1);
    }
  }
}
