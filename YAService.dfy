/** The Yahoo! Auctions service: walking a seller's listing pages, detail-fetching every
    (id, category) pair they yield and accumulating the products, and saving a seller's
    product images into a directory. The repository's fetches are function parameters:
    the listing page of a seller at a limit and an offset (the pairs in the order the
    collecting set yields them), the product of a pair, and the bytes behind an image URL. */
module YAService {
  import opened Wrappers
  import opened Text
  import opened Model
  import opened FileStore

  /** How many products one listing page is asked for. */
  const LIMIT: int := 100

  /** The file extensions an image URL must end with to be saved. */
  const EXTENSIONS: seq<string> := ["jpg", "jpeg", "png"]

  function Max(a: int, b: int): int { if a < b then b else a }

  /** Java's `int` division, which truncates toward zero. */
  function JavaDiv(a: int, b: int): (q: int)
    requires b > 0
    ensures a >= 0 ==> q * b <= a < q * b + b
    ensures a < 0 ==> q * b - b < a <= q * b
  {
    if a >= 0 then a / b else -((-a) / b)
  }

  // ---------------------------------------------------------------------------------
  // Page count

  /** The page count as `Math.max(Math.ceil(total / limit), 1)` computes it: `total / limit`
      is already a truncated `int` when `ceil` sees it, so a partial last page is dropped. */
  function PageCountAsWritten(total: int): (r: int)
    ensures r >= 1
    ensures total < 2 * LIMIT ==> r == 1
    ensures total >= LIMIT ==> r * LIMIT <= total < r * LIMIT + LIMIT
  {
    Max(JavaDiv(total, LIMIT), 1)
  }

  /** The number of pages of `size` items needed to hold `total` items, and at least one:
      the count `ceil(total / size)` with real division, as the call to `Math.ceil` means. */
  function CeilPages(total: int, size: int): (r: int)
    requires size > 0
    ensures r >= 1
    ensures total <= 0 ==> r == 1
    ensures total > 0 ==> (r - 1) * size < total <= r * size
  {
    if total <= 0 then 1 else (total + size - 1) / size
  }

  /** The count as written agrees with the intended one exactly when no partial page is
      left over; 150 items give one page of 100 and the last 50 are never requested. */
  lemma PageCountAsWrittenDropsPartialPage(total: int)
    requires total > 0
    ensures PageCountAsWritten(total) == CeilPages(total, LIMIT) <==>
      total <= LIMIT || total % LIMIT == 0
    ensures PageCountAsWritten(150) == 1 && PageCountAsWritten(150) * LIMIT < 150
    ensures CeilPages(150, LIMIT) == 2
  {
  }

  // ---------------------------------------------------------------------------------
  // Walking the listing pages

  /** A request the service sends through the repository. */
  datatype Request =
    | Listing(seller: string, limit: int, offset: int)
    | Detail(pair: IdAndCategory)

  /** The products collected so far, the requests sent so far, and the exception that
      stopped the walk, if any. */
  datatype Crawl = Crawl(products: seq<YAProduct>, trace: seq<Request>, failure: Option<Exception>)

  /** The exception a request raises, if any. */
  function Failure(req: Request, listPage: (string, int, int) -> Result<seq<IdAndCategory>>,
                   fetchDetail: IdAndCategory -> Result<YAProduct>): Option<Exception>
  {
    match req
    case Listing(s, l, o) => if listPage(s, l, o).Err? then Some(listPage(s, l, o).error) else None
    case Detail(p) => if fetchDetail(p).Err? then Some(fetchDetail(p).error) else None
  }

  /** One iteration of the inner loop: the pair is detail-fetched and its product added to
      the set; an exception ends the walk. */
  function FetchOne(c: Crawl, pair: IdAndCategory, fetchDetail: IdAndCategory -> Result<YAProduct>): Crawl
  {
    if c.failure.Some? then c
    else
      var d := fetchDetail(pair);
      var trace := c.trace + [Detail(pair)];
      if d.Err? then Crawl(c.products, trace, Some(d.error))
      else Crawl(AddProduct(c.products, d.value), trace, None)
  }

  /** The inner loop over the first pairs of a page. */
  function FetchAll(c: Crawl, pairs: seq<IdAndCategory>, fetchDetail: IdAndCategory -> Result<YAProduct>): Crawl
  {
    if pairs == [] then c
    else FetchOne(FetchAll(c, pairs[..|pairs| - 1], fetchDetail), pairs[|pairs| - 1], fetchDetail)
  }

  /** One iteration of the outer loop: the listing page at offset `i * LIMIT` is requested
      and each of its pairs detail-fetched. */
  function VisitPage(c: Crawl, seller: string, i: int,
                     listPage: (string, int, int) -> Result<seq<IdAndCategory>>,
                     fetchDetail: IdAndCategory -> Result<YAProduct>): Crawl
  {
    if c.failure.Some? then c
    else
      var page := listPage(seller, LIMIT, i * LIMIT);
      var c1 := c.(trace := c.trace + [Listing(seller, LIMIT, i * LIMIT)]);
      if page.Err? then c1.(failure := Some(page.error))
      else FetchAll(c1, page.value, fetchDetail)
  }

  /** The outer loop over the first `n` pages. */
  function VisitPages(seller: string, n: nat,
                      listPage: (string, int, int) -> Result<seq<IdAndCategory>>,
                      fetchDetail: IdAndCategory -> Result<YAProduct>): Crawl
  {
    if n == 0 then Crawl([], [], None)
    else VisitPage(VisitPages(seller, n - 1, listPage, fetchDetail), seller, n - 1, listPage, fetchDetail)
  }

  /** The walk over `pages` listing pages: no request at all for a total of 0, otherwise
      the seller with the products of every listed pair, or the first exception raised. */
  function WalkPages(seller: string, total: int, pages: nat,
                     listPage: (string, int, int) -> Result<seq<IdAndCategory>>,
                     fetchDetail: IdAndCategory -> Result<YAProduct>): (Result<Seller>, seq<Request>)
  {
    if total == 0 then (Ok(Seller(seller, [])), [])
    else
      var c := VisitPages(seller, pages, listPage, fetchDetail);
      (if c.failure.Some? then Err(c.failure.value) else Ok(Seller(seller, c.products)), c.trace)
  }

  /** `findSellerBySellerName` as written: the walk over `max(total / 100, 1)` pages, the
      quotient truncated. */
  function FindSeller(seller: string, total: int,
                      listPage: (string, int, int) -> Result<seq<IdAndCategory>>,
                      fetchDetail: IdAndCategory -> Result<YAProduct>): (Result<Seller>, seq<Request>)
  {
    WalkPages(seller, total, PageCountAsWritten(total), listPage, fetchDetail)
  }

  /** `findSellerBySellerName` as intended: the walk over `ceil(total / 100)` pages, at
      least one. */
  function FindSellerIntended(seller: string, total: int,
                              listPage: (string, int, int) -> Result<seq<IdAndCategory>>,
                              fetchDetail: IdAndCategory -> Result<YAProduct>): (Result<Seller>, seq<Request>)
  {
    WalkPages(seller, total, CeilPages(total, LIMIT), listPage, fetchDetail)
  }

  lemma {:induction false} FetchAllStops(c: Crawl, pairs: seq<IdAndCategory>, k: nat,
                                         fetchDetail: IdAndCategory -> Result<YAProduct>)
    requires k <= |pairs|
    requires FetchAll(c, pairs[..k], fetchDetail).failure.Some?
    ensures FetchAll(c, pairs, fetchDetail) == FetchAll(c, pairs[..k], fetchDetail)
  {
    if k < |pairs| {
      var init := pairs[..|pairs| - 1];
      assert init[..k] == pairs[..k];
      FetchAllStops(c, init, k, fetchDetail);
    } else {
      assert pairs[..k] == pairs;
    }
  }

  lemma {:induction false} VisitPagesStops(seller: string, k: nat, n: nat,
                                           listPage: (string, int, int) -> Result<seq<IdAndCategory>>,
                                           fetchDetail: IdAndCategory -> Result<YAProduct>)
    requires k <= n
    requires VisitPages(seller, k, listPage, fetchDetail).failure.Some?
    ensures VisitPages(seller, n, listPage, fetchDetail) == VisitPages(seller, k, listPage, fetchDetail)
  {
    if k < n {
      VisitPagesStops(seller, k, n - 1, listPage, fetchDetail);
    }
  }

  /** The inner loop of `findSellerBySellerName`: the product of each pair of one listing
      page, added to the set; an exception leaves the loop at once. */
  method FetchPairs(pairs: seq<IdAndCategory>, fetchDetail: IdAndCategory -> Result<YAProduct>,
                    products0: seq<YAProduct>, trace0: seq<Request>)
    returns (products: seq<YAProduct>, trace: seq<Request>, failure: Option<Exception>)
    ensures Crawl(products, trace, failure) == FetchAll(Crawl(products0, trace0, None), pairs, fetchDetail)
  {
    products, trace := products0, trace0;
    ghost var start := Crawl(products0, trace0, None);
    for j := 0 to |pairs|
      invariant FetchAll(start, pairs[..j], fetchDetail) == Crawl(products, trace, None)
    {
      var pair := pairs[j];
      assert pairs[..j + 1][..j] == pairs[..j];
      trace := trace + [Detail(pair)];
      var product := fetchDetail(pair);
      if product.Err? {
        FetchAllStops(start, pairs, j + 1, fetchDetail);
        return products, trace, Some(product.error);
      }
      products := AddProduct(products, product.value);
    }
    assert pairs[..|pairs|] == pairs;
    failure := None;
  }

  /** `findSellerBySellerName(seller, total)`: for each page `i` below the page count, the
      listing at offset `i * LIMIT`, then the product of each listed pair, added to one set;
      any exception leaves the method at once. Returns the result and the requests sent. */
  method FindSellerBySellerName(seller: string, total: int,
                                listPage: (string, int, int) -> Result<seq<IdAndCategory>>,
                                fetchDetail: IdAndCategory -> Result<YAProduct>)
    returns (r: Result<Seller>, trace: seq<Request>)
    ensures (r, trace) == FindSeller(seller, total, listPage, fetchDetail)
    ensures total == 0 ==> r == Ok(Seller(seller, [])) && trace == []
  {
    if total == 0 {
      return Ok(Seller(seller, [])), [];
    }
    var offsetNum := Max(JavaDiv(total, LIMIT), 1);
    var products: seq<YAProduct> := [];
    trace := [];
    for i := 0 to offsetNum
      invariant VisitPages(seller, i, listPage, fetchDetail) == Crawl(products, trace, None)
    {
      var failure;
      products, trace, failure := FetchPage(seller, i, listPage, fetchDetail, products, trace);
      if failure.Some? {
        VisitPagesStops(seller, i + 1, offsetNum, listPage, fetchDetail);
        return Err(failure.value), trace;
      }
    }
    r := Ok(Seller(seller, products));
  }

  /** The body of the outer loop: list page `i`, then fetch each of its pairs. */
  method FetchPage(seller: string, i: int,
                   listPage: (string, int, int) -> Result<seq<IdAndCategory>>,
                   fetchDetail: IdAndCategory -> Result<YAProduct>,
                   products0: seq<YAProduct>, trace0: seq<Request>)
    returns (products: seq<YAProduct>, trace: seq<Request>, failure: Option<Exception>)
    ensures Crawl(products, trace, failure)
      == VisitPage(Crawl(products0, trace0, None), seller, i, listPage, fetchDetail)
  {
    trace := trace0 + [Listing(seller, LIMIT, i * LIMIT)];
    var page := listPage(seller, LIMIT, i * LIMIT);
    if page.Err? {
      return products0, trace, Some(page.error);
    }
    products, trace, failure := FetchPairs(page.value, fetchDetail, products0, trace);
  }

  // ---------------------------------------------------------------------------------
  // What the walk does

  /** The listing requests of a trace, in order. */
  function Listings(t: seq<Request>): seq<Request>
  {
    if t == [] then []
    else Listings(t[..|t| - 1]) + (if t[|t| - 1].Listing? then [t[|t| - 1]] else [])
  }

  /** The pairs of the detail requests of a trace, in order. */
  function Details(t: seq<Request>): seq<IdAndCategory>
  {
    if t == [] then []
    else Details(t[..|t| - 1]) + (if t[|t| - 1].Detail? then [t[|t| - 1].pair] else [])
  }

  /** The listings of pages 0 to n - 1, at offsets 0, LIMIT, 2 * LIMIT, ... */
  function PageRequests(seller: string, n: nat): (r: seq<Request>)
    ensures |r| == n
    ensures forall i :: 0 <= i < n ==> r[i] == Listing(seller, LIMIT, i * LIMIT)
  {
    if n == 0 then [] else PageRequests(seller, n - 1) + [Listing(seller, LIMIT, (n - 1) * LIMIT)]
  }

  /** The pairs listed on pages 0 to n - 1, page after page. */
  function PagePairs(seller: string, n: nat,
                     listPage: (string, int, int) -> Result<seq<IdAndCategory>>): seq<IdAndCategory>
  {
    if n == 0 then []
    else
      var page := listPage(seller, LIMIT, (n - 1) * LIMIT);
      PagePairs(seller, n - 1, listPage) + (if page.Ok? then page.value else [])
  }

  /** The product set built from the detail results of `pairs`, in order, skipping the
      pairs whose fetch failed. */
  function Collect(pairs: seq<IdAndCategory>, fetchDetail: IdAndCategory -> Result<YAProduct>): (r: seq<YAProduct>)
    ensures UniqueIds(r)
  {
    if pairs == [] then []
    else
      var init := Collect(pairs[..|pairs| - 1], fetchDetail);
      var d := fetchDetail(pairs[|pairs| - 1]);
      if d.Ok? then AddProduct(init, d.value) else init
  }

  /** Every request of the trace succeeded. */
  predicate Succeeded(t: seq<Request>, listPage: (string, int, int) -> Result<seq<IdAndCategory>>,
                      fetchDetail: IdAndCategory -> Result<YAProduct>)
  {
    forall i :: 0 <= i < |t| ==> Failure(t[i], listPage, fetchDetail).None?
  }

  /** The last request of the trace raised `e` and every earlier one succeeded. */
  predicate FailedLast(t: seq<Request>, e: Exception,
                       listPage: (string, int, int) -> Result<seq<IdAndCategory>>,
                       fetchDetail: IdAndCategory -> Result<YAProduct>)
  {
    && |t| > 0
    && Failure(t[|t| - 1], listPage, fetchDetail) == Some(e)
    && Succeeded(t[..|t| - 1], listPage, fetchDetail)
  }

  /** A crawl whose every request succeeded, or whose last request raised the exception
      recorded as its failure after all earlier ones succeeded; its products are the set
      built from its detail requests. */
  predicate Accounted(c: Crawl, listPage: (string, int, int) -> Result<seq<IdAndCategory>>,
                      fetchDetail: IdAndCategory -> Result<YAProduct>)
  {
    && (c.failure.None? ==> Succeeded(c.trace, listPage, fetchDetail))
    && (c.failure.Some? ==> FailedLast(c.trace, c.failure.value, listPage, fetchDetail))
    && c.products == Collect(Details(c.trace), fetchDetail)
  }

  lemma SucceededAppend(t: seq<Request>, x: Request,
                        listPage: (string, int, int) -> Result<seq<IdAndCategory>>,
                        fetchDetail: IdAndCategory -> Result<YAProduct>)
    requires Succeeded(t, listPage, fetchDetail)
    ensures Failure(x, listPage, fetchDetail).None? ==> Succeeded(t + [x], listPage, fetchDetail)
    ensures Failure(x, listPage, fetchDetail).Some? ==>
      FailedLast(t + [x], Failure(x, listPage, fetchDetail).value, listPage, fetchDetail)
  {
    assert (t + [x])[..|t|] == t;
  }

  lemma ListingsAppend(t: seq<Request>, x: Request)
    ensures Listings(t + [x]) == Listings(t) + (if x.Listing? then [x] else [])
    ensures Details(t + [x]) == Details(t) + (if x.Detail? then [x.pair] else [])
  {
    assert (t + [x])[..|t|] == t;
  }

  lemma FetchOneFacts(c: Crawl, pair: IdAndCategory,
                      listPage: (string, int, int) -> Result<seq<IdAndCategory>>,
                      fetchDetail: IdAndCategory -> Result<YAProduct>)
    requires Accounted(c, listPage, fetchDetail)
    ensures Accounted(FetchOne(c, pair, fetchDetail), listPage, fetchDetail)
  {
    if c.failure.None? {
      ListingsAppend(c.trace, Detail(pair));
      SucceededAppend(c.trace, Detail(pair), listPage, fetchDetail);
    }
  }

  lemma {:induction false} FetchAllFacts(c: Crawl, pairs: seq<IdAndCategory>,
                                         listPage: (string, int, int) -> Result<seq<IdAndCategory>>,
                                         fetchDetail: IdAndCategory -> Result<YAProduct>)
    requires Accounted(c, listPage, fetchDetail)
    ensures Accounted(FetchAll(c, pairs, fetchDetail), listPage, fetchDetail)
  {
    if pairs != [] {
      FetchAllFacts(c, pairs[..|pairs| - 1], listPage, fetchDetail);
      FetchOneFacts(FetchAll(c, pairs[..|pairs| - 1], fetchDetail), pairs[|pairs| - 1], listPage, fetchDetail);
    }
  }

  lemma {:induction false} FetchAllTrace(c: Crawl, pairs: seq<IdAndCategory>,
                                         fetchDetail: IdAndCategory -> Result<YAProduct>)
    ensures Listings(FetchAll(c, pairs, fetchDetail).trace) == Listings(c.trace)
    ensures FetchAll(c, pairs, fetchDetail).failure.None? ==>
      c.failure.None? && Details(FetchAll(c, pairs, fetchDetail).trace) == Details(c.trace) + pairs
  {
    if pairs != [] {
      var init := pairs[..|pairs| - 1];
      var last := pairs[|pairs| - 1];
      FetchAllTrace(c, init, fetchDetail);
      var mid := FetchAll(c, init, fetchDetail);
      var c' := FetchOne(mid, last, fetchDetail);
      assert FetchAll(c, pairs, fetchDetail) == c';
      if mid.failure.None? {
        assert c'.trace == mid.trace + [Detail(last)];
        ListingsAppend(mid.trace, Detail(last));
        if c'.failure.None? {
          assert Details(c'.trace) == Details(c.trace) + init + [last];
          assert init + [last] == pairs;
        }
      } else {
        assert c' == mid;
      }
    }
  }

  /** One page keeps the crawl accounted for. */
  lemma VisitPageAccounted(c: Crawl, seller: string, i: nat,
                           listPage: (string, int, int) -> Result<seq<IdAndCategory>>,
                           fetchDetail: IdAndCategory -> Result<YAProduct>)
    requires Accounted(c, listPage, fetchDetail)
    ensures Accounted(VisitPage(c, seller, i, listPage, fetchDetail), listPage, fetchDetail)
  {
    if c.failure.None? {
      var x := Listing(seller, LIMIT, i * LIMIT);
      ListingsAppend(c.trace, x);
      SucceededAppend(c.trace, x, listPage, fetchDetail);
      var c1 := c.(trace := c.trace + [x]);
      var page := listPage(seller, LIMIT, i * LIMIT);
      assert Details(c1.trace) == Details(c.trace);
      if page.Ok? {
        assert Accounted(c1, listPage, fetchDetail);
        FetchAllFacts(c1, page.value, listPage, fetchDetail);
      }
    }
  }

  /** One page adds its listing request and, when nothing fails, the detail requests of
      its pairs. */
  lemma VisitPageTrace(c: Crawl, seller: string, i: nat,
                       listPage: (string, int, int) -> Result<seq<IdAndCategory>>,
                       fetchDetail: IdAndCategory -> Result<YAProduct>)
    ensures var c' := VisitPage(c, seller, i, listPage, fetchDetail);
      && (c.failure.None? ==> Listings(c'.trace) == Listings(c.trace) + [Listing(seller, LIMIT, i * LIMIT)])
      && (c.failure.Some? ==> c' == c)
      && (c'.failure.None? ==>
            && c.failure.None? && listPage(seller, LIMIT, i * LIMIT).Ok?
            && Details(c'.trace) == Details(c.trace) + listPage(seller, LIMIT, i * LIMIT).value)
  {
    if c.failure.None? {
      var x := Listing(seller, LIMIT, i * LIMIT);
      ListingsAppend(c.trace, x);
      var c1 := c.(trace := c.trace + [x]);
      var page := listPage(seller, LIMIT, i * LIMIT);
      if page.Ok? {
        FetchAllTrace(c1, page.value, fetchDetail);
      }
    }
  }

  lemma VisitPagesStepAccounted(seller: string, n: nat,
                                listPage: (string, int, int) -> Result<seq<IdAndCategory>>,
                                fetchDetail: IdAndCategory -> Result<YAProduct>)
    requires n > 0 && Accounted(VisitPages(seller, n - 1, listPage, fetchDetail), listPage, fetchDetail)
    ensures Accounted(VisitPages(seller, n, listPage, fetchDetail), listPage, fetchDetail)
  {
    VisitPageAccounted(VisitPages(seller, n - 1, listPage, fetchDetail), seller, n - 1, listPage, fetchDetail);
  }

  lemma {:induction false} VisitPagesAccounted(seller: string, n: nat,
                                               listPage: (string, int, int) -> Result<seq<IdAndCategory>>,
                                               fetchDetail: IdAndCategory -> Result<YAProduct>)
    ensures Accounted(VisitPages(seller, n, listPage, fetchDetail), listPage, fetchDetail)
  {
    if n > 0 {
      VisitPagesAccounted(seller, n - 1, listPage, fetchDetail);
      VisitPagesStepAccounted(seller, n, listPage, fetchDetail);
    }
  }

  lemma {:induction false} VisitPagesTrace(seller: string, n: nat,
                                           listPage: (string, int, int) -> Result<seq<IdAndCategory>>,
                                           fetchDetail: IdAndCategory -> Result<YAProduct>)
    ensures var c := VisitPages(seller, n, listPage, fetchDetail);
      && Listings(c.trace) <= PageRequests(seller, n)
      && (c.failure.None? ==> Listings(c.trace) == PageRequests(seller, n)
                              && Details(c.trace) == PagePairs(seller, n, listPage))
  {
    if n > 0 {
      VisitPagesTrace(seller, n - 1, listPage, fetchDetail);
      var c := VisitPages(seller, n - 1, listPage, fetchDetail);
      VisitPageTrace(c, seller, n - 1, listPage, fetchDetail);
      var pr := PageRequests(seller, n - 1);
      assert PageRequests(seller, n) == pr + [Listing(seller, LIMIT, (n - 1) * LIMIT)];
      if c.failure.Some? {
        assert Listings(c.trace) <= pr;
      }
    }
  }

  /** The walk over `n` pages is accounted for, requests a prefix of the `n` listing pages,
      and on success all of them and every pair they list. */
  lemma VisitPagesFacts(seller: string, n: nat,
                        listPage: (string, int, int) -> Result<seq<IdAndCategory>>,
                        fetchDetail: IdAndCategory -> Result<YAProduct>)
    ensures var c := VisitPages(seller, n, listPage, fetchDetail);
      && Accounted(c, listPage, fetchDetail)
      && Listings(c.trace) <= PageRequests(seller, n)
      && (c.failure.None? ==> Listings(c.trace) == PageRequests(seller, n)
                              && Details(c.trace) == PagePairs(seller, n, listPage))
  {
    VisitPagesAccounted(seller, n, listPage, fetchDetail);
    VisitPagesTrace(seller, n, listPage, fetchDetail);
  }

  /** The walk reports an exception exactly when a request raised one: then it is the
      exception of the last request sent and every earlier request succeeded; on success
      every request succeeded. So no partial seller is ever returned. */
  lemma FindSellerFailure(seller: string, total: int,
                          listPage: (string, int, int) -> Result<seq<IdAndCategory>>,
                          fetchDetail: IdAndCategory -> Result<YAProduct>)
    ensures var (r, trace) := FindSeller(seller, total, listPage, fetchDetail);
      && (r.Ok? ==> Succeeded(trace, listPage, fetchDetail))
      && (r.Err? ==> FailedLast(trace, r.error, listPage, fetchDetail))
  {
    if total != 0 {
      VisitPagesFacts(seller, PageCountAsWritten(total), listPage, fetchDetail);
    }
  }

  /** Page `i` is requested with limit 100 and offset `i * 100`, in increasing order of `i`:
      on success every page below the page count, otherwise a prefix of them. */
  lemma FindSellerListings(seller: string, total: int,
                           listPage: (string, int, int) -> Result<seq<IdAndCategory>>,
                           fetchDetail: IdAndCategory -> Result<YAProduct>)
    requires total != 0
    ensures var (r, trace) := FindSeller(seller, total, listPage, fetchDetail);
      && Listings(trace) <= PageRequests(seller, PageCountAsWritten(total))
      && (r.Ok? ==> Listings(trace) == PageRequests(seller, PageCountAsWritten(total)))
  {
    VisitPagesFacts(seller, PageCountAsWritten(total), listPage, fetchDetail);
  }

  /** On success, every pair listed on every page is detail-fetched, page after page and in
      the page's order, and the seller's products are the set built from those details: one
      product per distinct auction id. */
  lemma FindSellerProducts(seller: string, total: int,
                           listPage: (string, int, int) -> Result<seq<IdAndCategory>>,
                           fetchDetail: IdAndCategory -> Result<YAProduct>)
    requires total != 0
    ensures var (r, trace) := FindSeller(seller, total, listPage, fetchDetail);
      r.Ok? ==>
        && Details(trace) == PagePairs(seller, PageCountAsWritten(total), listPage)
        && r.value.name == seller
        && r.value.products == Collect(Details(trace), fetchDetail)
        && UniqueIds(r.value.products)
  {
    VisitPagesFacts(seller, PageCountAsWritten(total), listPage, fetchDetail);
  }

  /** The intended walk requests every page of the ceiling count: a prefix of them, and
      all of them on success. */
  lemma FindSellerIntendedListings(seller: string, total: int,
                                   listPage: (string, int, int) -> Result<seq<IdAndCategory>>,
                                   fetchDetail: IdAndCategory -> Result<YAProduct>)
    requires total != 0
    ensures var (r, trace) := FindSellerIntended(seller, total, listPage, fetchDetail);
      && Listings(trace) <= PageRequests(seller, CeilPages(total, LIMIT))
      && (r.Ok? ==> Listings(trace) == PageRequests(seller, CeilPages(total, LIMIT)))
  {
    VisitPagesFacts(seller, CeilPages(total, LIMIT), listPage, fetchDetail);
  }

  /** For a seller with between 101 and 199 products (150, say) the walk as written asks
      only for the first page, so the products past the 100th are never listed; the
      intended walk, when it succeeds, asks for both pages. */
  lemma FindSellerSkipsPartialPage(seller: string, total: int,
                                   listPage: (string, int, int) -> Result<seq<IdAndCategory>>,
                                   fetchDetail: IdAndCategory -> Result<YAProduct>)
    requires LIMIT < total < 2 * LIMIT
    ensures Listings(FindSeller(seller, total, listPage, fetchDetail).1) <= [Listing(seller, LIMIT, 0)]
    ensures var (r, trace) := FindSellerIntended(seller, total, listPage, fetchDetail);
      r.Ok? ==> Listings(trace) == [Listing(seller, LIMIT, 0), Listing(seller, LIMIT, LIMIT)]
  {
    assert PageCountAsWritten(total) == 1;
    assert CeilPages(total, LIMIT) == 2;
    FindSellerListings(seller, total, listPage, fetchDetail);
    FindSellerIntendedListings(seller, total, listPage, fetchDetail);
    assert PageRequests(seller, 1) == [Listing(seller, LIMIT, 0)];
    assert PageRequests(seller, 2) == PageRequests(seller, 1) + [Listing(seller, LIMIT, LIMIT)];
  }

  /** Every fetched product is represented in the set: by itself or by the first product
      fetched with the same auction id; and nothing else is in it. */
  lemma {:induction false} CollectKeepsEveryId(pairs: seq<IdAndCategory>,
                                               fetchDetail: IdAndCategory -> Result<YAProduct>)
    ensures forall p :: p in pairs && fetchDetail(p).Ok? ==>
      exists q :: q in Collect(pairs, fetchDetail) && SameProduct(q, fetchDetail(p).value)
    ensures forall q :: q in Collect(pairs, fetchDetail) ==>
      exists p :: p in pairs && fetchDetail(p) == Ok(q)
  {
    if pairs != [] {
      var init := pairs[..|pairs| - 1];
      var last := pairs[|pairs| - 1];
      CollectKeepsEveryId(init, fetchDetail);
      assert pairs == init + [last];
      var c0 := Collect(init, fetchDetail);
      var c := Collect(pairs, fetchDetail);
      if fetchDetail(last).Ok? {
        AddProductMembers(c0, fetchDetail(last).value);
      }
      forall p | p in pairs && fetchDetail(p).Ok?
        ensures exists q :: q in c && SameProduct(q, fetchDetail(p).value)
      {
        if p != last {
          assert p in init;
          var q :| q in c0 && SameProduct(q, fetchDetail(p).value);
          assert q in c;
        }
      }
      forall q | q in c ensures exists p :: p in pairs && fetchDetail(p) == Ok(q)
      {
        if q in c0 {
          var p :| p in init && fetchDetail(p) == Ok(q);
          assert p in pairs;
        } else {
          assert fetchDetail(last) == Ok(q);
        }
      }
    }
  }

  // ---------------------------------------------------------------------------------
  // Saving the images

  /** Where saving the images stands: the disk, the image URLs fetched so far, the URLs
      whose write failed and was logged, and the exception that ended the call, if any. */
  datatype Gen = Gen(disk: Disk, fetched: seq<string>, logged: seq<string>, failure: Option<Exception>)

  /** An image URL that is saved: its text ends with one of the extensions. */
  predicate Saveable(url: string)
  {
    exists k :: 0 <= k < |EXTENSIONS| && EndsWith(url, EXTENSIONS[k])
  }

  /** The three extensions end in different ways, so a URL ends with at most one of them
      and is saved under at most one format. */
  lemma ExtensionsExclusive(url: string)
    ensures forall k, m ::
      0 <= k < |EXTENSIONS| && 0 <= m < |EXTENSIONS| && EndsWith(url, EXTENSIONS[k]) && EndsWith(url, EXTENSIONS[m])
      ==> k == m
  {
    var n := |url|;
    if EndsWith(url, EXTENSIONS[0]) {
      assert url[n - 3] == 'j';
    }
    if EndsWith(url, EXTENSIONS[1]) {
      assert url[n - 3] == 'p' && url[n - 2] == 'e';
    }
    if EndsWith(url, EXTENSIONS[2]) {
      assert url[n - 3] == 'p' && url[n - 2] == 'n';
    }
  }

  /** The file name of an image: the last element of `url.split("/")`. A saved URL ends in
      a letter, so the split keeps every piece and the name is the text after the last '/'. */
  function FileName(url: string): (r: string)
    requires Saveable(url)
    ensures r == AfterLast(url, '/') && r != []
  {
    var k :| 0 <= k < |EXTENSIONS| && EndsWith(url, EXTENSIONS[k]);
    assert url[|url| - 1] == EXTENSIONS[k][|EXTENSIONS[k]| - 1];
    LastSplitElement(url, '/');
    var parts := Split(url, '/');
    parts[|parts| - 1]
  }

  /** The path an image URL is saved at. */
  function ImagePath(dirName: string, url: string): string
    requires Saveable(url)
  {
    dirName + "/" + FileName(url)
  }

  /** The image path is a file directly inside `dirName`, named after the text of the URL
      after its last '/'. */
  lemma ImagePathInDir(dirName: string, url: string)
    requires Saveable(url)
    ensures Parent(ImagePath(dirName, url)) == dirName
    ensures AfterLast(ImagePath(dirName, url), '/') == AfterLast(url, '/')
  {
    var name := FileName(url);
    ParentAppend(dirName, name);
    AfterLastAppend(dirName, '/', name);
  }

  /** The `forEach` step for extension `k`: when the URL ends with it, the image is written
      in that format to the image path, and a write failure is logged; a `null` image (no
      reader could decode the bytes) makes `ImageIO.write` throw. */
  function SaveAs(g: Gen, dirName: string, url: string, image: Option<seq<bv8>>, k: nat): Gen
    requires k < |EXTENSIONS|
  {
    if g.failure.Some? || !EndsWith(url, EXTENSIONS[k]) then g
    else if image.None? then g.(failure := Some(IllegalArgument))
    else
      var w := WriteOn(g.disk, ImagePath(dirName, url), ImageFile(image.value, EXTENSIONS[k]));
      g.(disk := w.1, logged := if w.0.Err? then g.logged + [url] else g.logged)
  }

  /** Extension `k` leaves everything as it was after an earlier exception or when the URL
      does not end with it; otherwise a `null` image throws `IllegalArgumentException`, and
      a decoded image is either written in that format at the image path, when the
      directory is there and nothing blocks the path, or logged with the disk unchanged. */
  lemma SaveAsWrites(g: Gen, dirName: string, url: string, image: Option<seq<bv8>>, k: nat)
    requires k < |EXTENSIONS|
    ensures g.failure.Some? || !EndsWith(url, EXTENSIONS[k]) ==> SaveAs(g, dirName, url, image, k) == g
    ensures g.failure.None? && EndsWith(url, EXTENSIONS[k]) && image.None?
      ==> SaveAs(g, dirName, url, image, k) == g.(failure := Some(IllegalArgument))
    ensures g.failure.None? && EndsWith(url, EXTENSIONS[k]) && image.Some? ==>
      var r := SaveAs(g, dirName, url, image, k); var path := ImagePath(dirName, url);
      && r.failure.None? && r.fetched == g.fetched
      && if ParentPresent(g.disk, path) && path !in g.disk.dirs && path !in g.disk.broken
         then r.logged == g.logged
           && r.disk == g.disk.(files := g.disk.files[path := ImageFile(image.value, EXTENSIONS[k])])
         else r.logged == g.logged + [url] && r.disk == g.disk
  {
    if g.failure.None? && EndsWith(url, EXTENSIONS[k]) && image.Some? {
      assert Saveable(url);
      var path := ImagePath(dirName, url);
      var w := WriteOn(g.disk, path, ImageFile(image.value, EXTENSIONS[k]));
      assert w.0.Ok? <==> ParentPresent(g.disk, path) && path !in g.disk.dirs && path !in g.disk.broken;
      assert SaveAs(g, dirName, url, image, k)
        == g.(disk := w.1, logged := if w.0.Err? then g.logged + [url] else g.logged);
    }
  }

  /** The `forEach` over the first `n` extensions. */
  function SaveAsEach(g: Gen, dirName: string, url: string, image: Option<seq<bv8>>, n: nat): Gen
    requires n <= |EXTENSIONS|
  {
    if n == 0 then g else SaveAs(SaveAsEach(g, dirName, url, image, n - 1), dirName, url, image, n - 1)
  }

  /** A URL ends with at most one extension, so the `forEach` is the step for that one
      extension, or nothing at all when the URL ends with none of them. */
  lemma {:induction false} SaveAsEachOnly(g: Gen, dirName: string, url: string, image: Option<seq<bv8>>, n: nat)
    requires n <= |EXTENSIONS|
    ensures (forall k :: 0 <= k < n ==> !EndsWith(url, EXTENSIONS[k]))
      ==> SaveAsEach(g, dirName, url, image, n) == g
    ensures forall k :: (0 <= k < n && EndsWith(url, EXTENSIONS[k])
      ==> SaveAsEach(g, dirName, url, image, n) == SaveAs(g, dirName, url, image, k))
  {
    if n > 0 {
      SaveAsEachOnly(g, dirName, url, image, n - 1);
      SaveAsEachOnlyStep(g, dirName, url, image, n);
    }
  }

  /** The step of `SaveAsEachOnly`, from the first `n - 1` extensions to the first `n`. */
  lemma SaveAsEachOnlyStep(g: Gen, dirName: string, url: string, image: Option<seq<bv8>>, n: nat)
    requires 0 < n <= |EXTENSIONS|
    requires (forall k :: 0 <= k < n - 1 ==> !EndsWith(url, EXTENSIONS[k]))
      ==> SaveAsEach(g, dirName, url, image, n - 1) == g
    requires forall k :: (0 <= k < n - 1 && EndsWith(url, EXTENSIONS[k])
      ==> SaveAsEach(g, dirName, url, image, n - 1) == SaveAs(g, dirName, url, image, k))
    ensures (forall k :: 0 <= k < n ==> !EndsWith(url, EXTENSIONS[k]))
      ==> SaveAsEach(g, dirName, url, image, n) == g
    ensures forall k :: (0 <= k < n && EndsWith(url, EXTENSIONS[k])
      ==> SaveAsEach(g, dirName, url, image, n) == SaveAs(g, dirName, url, image, k))
  {
    var prev := SaveAsEach(g, dirName, url, image, n - 1);
    assert SaveAsEach(g, dirName, url, image, n) == SaveAs(prev, dirName, url, image, n - 1);
    if EndsWith(url, EXTENSIONS[n - 1]) {
      forall k | 0 <= k < n - 1
        ensures !EndsWith(url, EXTENSIONS[k])
      {
        if EndsWith(url, EXTENSIONS[k]) {
          ExtensionsExclusive(url);
          assert false;
        }
      }
      assert prev == g;
    }
  }

  /** One image URL: its bytes are fetched and decoded (an exception from either ends the
      call), then offered to every extension. */
  function SaveUrl(g: Gen, dirName: string, url: string,
                   fetchImg: string -> Result<seq<bv8>>,
                   decode: seq<bv8> -> Result<Option<seq<bv8>>>): Gen
  {
    if g.failure.Some? then g
    else
      var g1 := g.(fetched := g.fetched + [url]);
      var data := fetchImg(url);
      if data.Err? then g1.(failure := Some(data.error))
      else
        var image := decode(data.value);
        if image.Err? then g1.(failure := Some(image.error))
        else SaveAsEach(g1, dirName, url, image.value, |EXTENSIONS|)
  }

  /** The inner loop over the first image URLs of a product. */
  function SaveUrls(g: Gen, dirName: string, urls: seq<string>,
                    fetchImg: string -> Result<seq<bv8>>,
                    decode: seq<bv8> -> Result<Option<seq<bv8>>>): Gen
  {
    if urls == [] then g
    else SaveUrl(SaveUrls(g, dirName, urls[..|urls| - 1], fetchImg, decode), dirName, urls[|urls| - 1], fetchImg, decode)
  }

  /** The outer loop over the first products. */
  function SaveProducts(g: Gen, dirName: string, products: seq<YAProduct>,
                        fetchImg: string -> Result<seq<bv8>>,
                        decode: seq<bv8> -> Result<Option<seq<bv8>>>): Gen
  {
    if products == [] then g
    else
      var g' := SaveProducts(g, dirName, products[..|products| - 1], fetchImg, decode);
      SaveUrls(g', dirName, products[|products| - 1].imageUrl, fetchImg, decode)
  }

  /** `generateImg(dirName, seller)` on a disk: nothing at all for a seller without
      products; otherwise the directory is created when it does not exist (an exception
      ends the call) and the images of every product are saved into it. */
  function GenerateImgOn(d: Disk, dirName: string, seller: Seller,
                         fetchImg: string -> Result<seq<bv8>>,
                         decode: seq<bv8> -> Result<Option<seq<bv8>>>): Gen
  {
    if seller.products == [] then Gen(d, [], [], None)
    else if Exists(d, dirName) then SaveProducts(Gen(d, [], [], None), dirName, seller.products, fetchImg, decode)
    else
      var c := CreateDirectoryOn(d, dirName);
      if c.0.Err? then Gen(d, [], [], Some(c.0.error))
      else SaveProducts(Gen(c.1, [], [], None), dirName, seller.products, fetchImg, decode)
  }

  lemma {:induction false} SaveAsEachStops(g: Gen, dirName: string, url: string, image: Option<seq<bv8>>, k: nat, n: nat)
    requires k <= n <= |EXTENSIONS|
    requires SaveAsEach(g, dirName, url, image, k).failure.Some?
    ensures SaveAsEach(g, dirName, url, image, n) == SaveAsEach(g, dirName, url, image, k)
  {
    if k < n {
      SaveAsEachStops(g, dirName, url, image, k, n - 1);
    }
  }

  lemma {:induction false} SaveUrlsStops(g: Gen, dirName: string, urls: seq<string>, k: nat,
                                         fetchImg: string -> Result<seq<bv8>>,
                                         decode: seq<bv8> -> Result<Option<seq<bv8>>>)
    requires k <= |urls|
    requires SaveUrls(g, dirName, urls[..k], fetchImg, decode).failure.Some?
    ensures SaveUrls(g, dirName, urls, fetchImg, decode) == SaveUrls(g, dirName, urls[..k], fetchImg, decode)
  {
    if k < |urls| {
      var init := urls[..|urls| - 1];
      assert init[..k] == urls[..k];
      SaveUrlsStops(g, dirName, init, k, fetchImg, decode);
    } else {
      assert urls[..k] == urls;
    }
  }

  lemma {:induction false} SaveProductsStops(g: Gen, dirName: string, products: seq<YAProduct>, k: nat,
                                             fetchImg: string -> Result<seq<bv8>>,
                                             decode: seq<bv8> -> Result<Option<seq<bv8>>>)
    requires k <= |products|
    requires SaveProducts(g, dirName, products[..k], fetchImg, decode).failure.Some?
    ensures SaveProducts(g, dirName, products, fetchImg, decode) == SaveProducts(g, dirName, products[..k], fetchImg, decode)
  {
    if k < |products| {
      var init := products[..|products| - 1];
      assert init[..k] == products[..k];
      SaveProductsStops(g, dirName, init, k, fetchImg, decode);
      SaveUrlsFailed(SaveProducts(g, dirName, init, fetchImg, decode), dirName, products[|products| - 1].imageUrl, fetchImg, decode);
    } else {
      assert products[..k] == products;
    }
  }

  lemma {:induction false} SaveUrlsFailed(g: Gen, dirName: string, urls: seq<string>,
                                          fetchImg: string -> Result<seq<bv8>>,
                                          decode: seq<bv8> -> Result<Option<seq<bv8>>>)
    requires g.failure.Some?
    ensures SaveUrls(g, dirName, urls, fetchImg, decode) == g
  {
    if urls != [] {
      SaveUrlsFailed(g, dirName, urls[..|urls| - 1], fetchImg, decode);
    }
  }

  /** For one image URL fetched and decoded without an exception: a URL without one of the
      extensions writes nothing; otherwise a `null` image throws, and a decoded image is
      written under the one extension the URL ends with, at the directory followed by the
      URL's last segment, or the URL is logged when that write fails. */
  lemma SaveUrlOutcome(g: Gen, dirName: string, url: string,
                       fetchImg: string -> Result<seq<bv8>>,
                       decode: seq<bv8> -> Result<Option<seq<bv8>>>)
    requires g.failure.None?
    ensures var g' := SaveUrl(g, dirName, url, fetchImg, decode);
      && g'.fetched == g.fetched + [url]
      && (fetchImg(url).Err? ==>
            g' == g.(fetched := g'.fetched, failure := Some(fetchImg(url).error)))
      && (fetchImg(url).Ok? && decode(fetchImg(url).value).Err? ==>
            g' == g.(fetched := g'.fetched, failure := Some(decode(fetchImg(url).value).error)))
      && (fetchImg(url).Ok? && decode(fetchImg(url).value).Ok? ==>
            var image := decode(fetchImg(url).value).value;
            && (!Saveable(url) ==> g' == g.(fetched := g'.fetched))
            && (Saveable(url) && image.None? ==> g' == g.(fetched := g'.fetched, failure := Some(IllegalArgument)))
            && (Saveable(url) && image.Some? ==>
                  exists k :: 0 <= k < |EXTENSIONS| && EndsWith(url, EXTENSIONS[k]) &&
                    var w := WriteOn(g.disk, ImagePath(dirName, url), ImageFile(image.value, EXTENSIONS[k]));
                    g' == g.(fetched := g'.fetched, disk := w.1,
                             logged := if w.0.Err? then g.logged + [url] else g.logged)))
  {
    var data := fetchImg(url);
    if data.Ok? && decode(data.value).Ok? {
      var image := decode(data.value).value;
      var g1 := g.(fetched := g.fetched + [url]);
      var e0, e1, e2 := EndsWith(url, EXTENSIONS[0]), EndsWith(url, EXTENSIONS[1]), EndsWith(url, EXTENSIONS[2]);
      assert Saveable(url) <==> e0 || e1 || e2;
      ExtensionsExclusive(url);
      var s0 := SaveAs(g1, dirName, url, image, 0);
      var s1 := SaveAs(s0, dirName, url, image, 1);
      assert SaveAsEach(g1, dirName, url, image, 1) == s0;
      assert SaveAsEach(g1, dirName, url, image, 2) == s1;
      assert SaveAsEach(g1, dirName, url, image, 3) == SaveAs(s1, dirName, url, image, 2);
    }
  }

  /** The disk `d1` differs from `d0` only in files written at the image path of one of
      `urls`: no directory changes, no file disappears. */
  predicate WrittenFrom(d0: Disk, d1: Disk, dirName: string, urls: seq<string>)
  {
    && d1.dirs == d0.dirs && d1.broken == d0.broken
    && d0.files.Keys <= d1.files.Keys
    && forall p :: p in d1.files && (p !in d0.files || d1.files[p] != d0.files[p]) ==>
         exists u :: u in urls && Saveable(u) && p == ImagePath(dirName, u)
  }

  predicate GenInv(d0: Disk, dirName: string, g: Gen)
  {
    && WrittenFrom(d0, g.disk, dirName, g.fetched)
    && forall u :: u in g.logged ==> u in g.fetched && Saveable(u)
  }

  lemma SaveAsInv(d0: Disk, g: Gen, dirName: string, url: string, image: Option<seq<bv8>>, k: nat)
    requires k < |EXTENSIONS|
    requires GenInv(d0, dirName, g) && url in g.fetched
    ensures GenInv(d0, dirName, SaveAs(g, dirName, url, image, k))
    ensures SaveAs(g, dirName, url, image, k).fetched == g.fetched
  {
    if g.failure.None? && EndsWith(url, EXTENSIONS[k]) && image.Some? {
      assert Saveable(url);
      var path := ImagePath(dirName, url);
      var w := WriteOn(g.disk, path, ImageFile(image.value, EXTENSIONS[k]));
      var g' := g.(disk := w.1, logged := if w.0.Err? then g.logged + [url] else g.logged);
      assert SaveAs(g, dirName, url, image, k) == g';
      if w.0.Ok? {
        var d1 := g.disk.(files := g.disk.files[path := ImageFile(image.value, EXTENSIONS[k])]);
        assert w.1 == d1;
        forall p | p in d1.files && (p !in d0.files || d1.files[p] != d0.files[p])
          ensures exists u :: u in g.fetched && Saveable(u) && p == ImagePath(dirName, u)
        {
          if p != path {
            assert p in g.disk.files && d1.files[p] == g.disk.files[p];
          }
        }
        assert WrittenFrom(d0, d1, dirName, g.fetched);
      }
    }
  }

  lemma {:induction false} SaveAsEachInv(d0: Disk, g: Gen, dirName: string, url: string, image: Option<seq<bv8>>, n: nat)
    requires n <= |EXTENSIONS|
    requires GenInv(d0, dirName, g) && url in g.fetched
    ensures GenInv(d0, dirName, SaveAsEach(g, dirName, url, image, n))
    ensures SaveAsEach(g, dirName, url, image, n).fetched == g.fetched
  {
    if n > 0 {
      SaveAsEachInv(d0, g, dirName, url, image, n - 1);
      SaveAsEachStepInv(d0, g, dirName, url, image, n);
    }
  }

  lemma SaveAsEachStepInv(d0: Disk, g: Gen, dirName: string, url: string, image: Option<seq<bv8>>, n: nat)
    requires 0 < n <= |EXTENSIONS| && url in g.fetched
    requires GenInv(d0, dirName, SaveAsEach(g, dirName, url, image, n - 1))
    requires SaveAsEach(g, dirName, url, image, n - 1).fetched == g.fetched
    ensures GenInv(d0, dirName, SaveAsEach(g, dirName, url, image, n))
    ensures SaveAsEach(g, dirName, url, image, n).fetched == g.fetched
  {
    SaveAsInv(d0, SaveAsEach(g, dirName, url, image, n - 1), dirName, url, image, n - 1);
  }

  lemma SaveUrlInv(d0: Disk, g: Gen, dirName: string, url: string,
                   fetchImg: string -> Result<seq<bv8>>,
                   decode: seq<bv8> -> Result<Option<seq<bv8>>>)
    requires GenInv(d0, dirName, g)
    ensures GenInv(d0, dirName, SaveUrl(g, dirName, url, fetchImg, decode))
    ensures g.failure.None? ==> SaveUrl(g, dirName, url, fetchImg, decode).fetched == g.fetched + [url]
    ensures g.failure.Some? ==> SaveUrl(g, dirName, url, fetchImg, decode) == g
  {
    if g.failure.None? {
      var g1 := g.(fetched := g.fetched + [url]);
      assert url in g1.fetched;
      assert forall u :: u in g.fetched ==> u in g1.fetched;
      assert GenInv(d0, dirName, g1);
      var data := fetchImg(url);
      if data.Ok? && decode(data.value).Ok? {
        SaveAsEachInv(d0, g1, dirName, url, decode(data.value).value, |EXTENSIONS|);
      }
    }
  }

  lemma {:induction false} SaveUrlsInv(d0: Disk, g: Gen, dirName: string, urls: seq<string>,
                                       fetchImg: string -> Result<seq<bv8>>,
                                       decode: seq<bv8> -> Result<Option<seq<bv8>>>)
    requires GenInv(d0, dirName, g)
    ensures GenInv(d0, dirName, SaveUrls(g, dirName, urls, fetchImg, decode))
    ensures SaveUrls(g, dirName, urls, fetchImg, decode).failure.None? ==>
      g.failure.None? && SaveUrls(g, dirName, urls, fetchImg, decode).fetched == g.fetched + urls
  {
    if urls != [] {
      var init := urls[..|urls| - 1];
      SaveUrlsInv(d0, g, dirName, init, fetchImg, decode);
      SaveUrlInv(d0, SaveUrls(g, dirName, init, fetchImg, decode), dirName, urls[|urls| - 1], fetchImg, decode);
      assert init + [urls[|urls| - 1]] == urls;
    }
  }

  /** The image URLs of the products, product after product. */
  function AllUrls(products: seq<YAProduct>): seq<string>
  {
    if products == [] then [] else AllUrls(products[..|products| - 1]) + products[|products| - 1].imageUrl
  }

  lemma {:induction false} SaveProductsInv(d0: Disk, g: Gen, dirName: string, products: seq<YAProduct>,
                                           fetchImg: string -> Result<seq<bv8>>,
                                           decode: seq<bv8> -> Result<Option<seq<bv8>>>)
    requires GenInv(d0, dirName, g)
    ensures GenInv(d0, dirName, SaveProducts(g, dirName, products, fetchImg, decode))
    ensures SaveProducts(g, dirName, products, fetchImg, decode).failure.None? ==>
      SaveProducts(g, dirName, products, fetchImg, decode).fetched == g.fetched + AllUrls(products)
  {
    if products != [] {
      var init := products[..|products| - 1];
      SaveProductsInv(d0, g, dirName, init, fetchImg, decode);
      var last := products[|products| - 1].imageUrl;
      SaveUrlsInv(d0, SaveProducts(g, dirName, init, fetchImg, decode), dirName, last, fetchImg, decode);
      assert g.fetched + AllUrls(init) + last == g.fetched + AllUrls(products);
    }
  }

  /** What `generateImg` does to the disk: at most the one directory is created, no file
      disappears, and every file it writes or replaces lies at the image path of a fetched
      URL that ends with an extension; every logged URL is such a URL. When no exception
      occurs, every image URL of every product is fetched, in order. */
  lemma GenerateImgEffects(d: Disk, dirName: string, seller: Seller,
                           fetchImg: string -> Result<seq<bv8>>,
                           decode: seq<bv8> -> Result<Option<seq<bv8>>>)
    ensures var g := GenerateImgOn(d, dirName, seller, fetchImg, decode);
      && (g.failure.None? ==> g.fetched == AllUrls(seller.products))
      && (g.disk.dirs == d.dirs || g.disk.dirs == d.dirs + {dirName})
      && g.disk.broken == d.broken
      && d.files.Keys <= g.disk.files.Keys
      && (forall p :: p in g.disk.files && (p !in d.files || g.disk.files[p] != d.files[p]) ==>
            exists u :: u in g.fetched && Saveable(u) && p == ImagePath(dirName, u))
      && (forall u :: u in g.logged ==> u in g.fetched && Saveable(u))
  {
    if seller.products != [] {
      var d1 := if Exists(d, dirName) then d else CreateDirectoryOn(d, dirName).1;
      assert d1.files == d.files;
      if Exists(d, dirName) || CreateDirectoryOn(d, dirName).0.Ok? {
        SaveProductsInv(d1, Gen(d1, [], [], None), dirName, seller.products, fetchImg, decode);
      }
    }
  }

  /** The body of the `forEach` for extension `k`. */
  method SaveInFormat(dirName: string, url: string, image: Option<seq<bv8>>, k: nat, fs: FileSystem,
                      fetched: seq<string>, logged0: seq<string>)
    returns (logged: seq<string>, failure: Option<Exception>)
    requires k < |EXTENSIONS|
    modifies fs
    ensures Gen(fs.State(), fetched, logged, failure)
      == SaveAs(Gen(old(fs.State()), fetched, logged0, None), dirName, url, image, k)
  {
    logged, failure := logged0, None;
    var ext := EXTENSIONS[k];
    if EndsWith(url, ext) {
      assert Saveable(url);
      assert url[|url| - 1] == ext[|ext| - 1] != '/';
      LastSplitElement(url, '/');
      var parts := Split(url, '/');
      var fileName := parts[|parts| - 1];
      var path := dirName + "/" + fileName;
      assert path == ImagePath(dirName, url);
      if image.None? {
        return logged, Some(IllegalArgument);
      }
      var w := fs.Write(path, ImageFile(image.value, ext));
      if w.Err? {
        logged := logged + [url];
      }
    }
  }

  /** The body of the loop over the image URLs: fetch and decode one image, then write it
      under each extension the URL ends with. */
  method SaveImageUrl(dirName: string, url: string, fs: FileSystem,
                      fetchImg: string -> Result<seq<bv8>>,
                      decode: seq<bv8> -> Result<Option<seq<bv8>>>,
                      fetched0: seq<string>, logged0: seq<string>)
    returns (fetched: seq<string>, logged: seq<string>, failure: Option<Exception>)
    modifies fs
    ensures Gen(fs.State(), fetched, logged, failure)
      == SaveUrl(Gen(old(fs.State()), fetched0, logged0, None), dirName, url, fetchImg, decode)
  {
    fetched, logged := fetched0 + [url], logged0;
    var data := fetchImg(url);
    if data.Err? {
      return fetched, logged, Some(data.error);
    }
    var image := decode(data.value);
    if image.Err? {
      return fetched, logged, Some(image.error);
    }
    logged, failure := SaveAllFormats(dirName, url, image.value, fs, fetched, logged);
  }

  /** The `forEach` over the extensions for one decoded image. */
  method SaveAllFormats(dirName: string, url: string, image: Option<seq<bv8>>, fs: FileSystem,
                        fetched: seq<string>, logged0: seq<string>)
    returns (logged: seq<string>, failure: Option<Exception>)
    modifies fs
    ensures Gen(fs.State(), fetched, logged, failure)
      == SaveAsEach(Gen(old(fs.State()), fetched, logged0, None), dirName, url, image, |EXTENSIONS|)
  {
    logged := logged0;
    ghost var gu := Gen(fs.State(), fetched, logged0, None);
    for k := 0 to |EXTENSIONS|
      invariant SaveAsEach(gu, dirName, url, image, k) == Gen(fs.State(), fetched, logged, None)
    {
      ghost var before := Gen(fs.State(), fetched, logged, None);
      logged, failure := SaveInFormat(dirName, url, image, k, fs, fetched, logged);
      assert Gen(fs.State(), fetched, logged, failure) == SaveAs(before, dirName, url, image, k)
        == SaveAsEach(gu, dirName, url, image, k + 1);
      if failure.Some? {
        SaveAsEachStops(gu, dirName, url, image, k + 1, |EXTENSIONS|);
        return;
      }
    }
    failure := None;
  }

  /** The loop over the image URLs of one product. */
  method SaveProductImages(dirName: string, urls: seq<string>, fs: FileSystem,
                           fetchImg: string -> Result<seq<bv8>>,
                           decode: seq<bv8> -> Result<Option<seq<bv8>>>,
                           fetched0: seq<string>, logged0: seq<string>)
    returns (fetched: seq<string>, logged: seq<string>, failure: Option<Exception>)
    modifies fs
    ensures Gen(fs.State(), fetched, logged, failure)
      == SaveUrls(Gen(old(fs.State()), fetched0, logged0, None), dirName, urls, fetchImg, decode)
  {
    fetched, logged := fetched0, logged0;
    ghost var start := Gen(fs.State(), fetched0, logged0, None);
    for j := 0 to |urls|
      invariant SaveUrls(start, dirName, urls[..j], fetchImg, decode) == Gen(fs.State(), fetched, logged, None)
    {
      assert urls[..j + 1][..j] == urls[..j];
      fetched, logged, failure := SaveImageUrl(dirName, urls[j], fs, fetchImg, decode, fetched, logged);
      if failure.Some? {
        SaveUrlsStops(start, dirName, urls, j + 1, fetchImg, decode);
        return;
      }
    }
    assert urls[..|urls|] == urls;
    failure := None;
  }

  /** `generateImg(dirName, seller)`: returns at once for a seller without products;
      otherwise creates the directory when it does not exist, then for every image URL of
      every product fetches and decodes the image and writes it under each extension the
      URL ends with. A failed write is logged and the loops go on; any other exception
      leaves the method. Returns the outcome, the URLs fetched and the URLs logged. */
  method GenerateImg(dirName: string, seller: Seller, fs: FileSystem,
                     fetchImg: string -> Result<seq<bv8>>,
                     decode: seq<bv8> -> Result<Option<seq<bv8>>>)
    returns (r: Result<()>, fetched: seq<string>, logged: seq<string>)
    modifies fs
    ensures var g := GenerateImgOn(old(fs.State()), dirName, seller, fetchImg, decode);
      && fs.State() == g.disk && fetched == g.fetched && logged == g.logged
      && r == (if g.failure.Some? then Err(g.failure.value) else Ok(()))
    ensures seller.products == [] ==> r == Ok(()) && fs.State() == old(fs.State()) && fetched == []
  {
    fetched, logged := [], [];
    if seller.products == [] {
      return Ok(()), fetched, logged;
    }
    if !fs.PathExists(dirName) {
      var c := fs.CreateDirectory(dirName);
      if c.Err? {
        return Err(c.error), fetched, logged;
      }
    }
    var failure;
    fetched, logged, failure := SaveAllProducts(dirName, seller.products, fs, fetchImg, decode);
    r := if failure.Some? then Err(failure.value) else Ok(());
  }

  /** The loop over the products, once the directory is there. */
  method SaveAllProducts(dirName: string, products: seq<YAProduct>, fs: FileSystem,
                         fetchImg: string -> Result<seq<bv8>>,
                         decode: seq<bv8> -> Result<Option<seq<bv8>>>)
    returns (fetched: seq<string>, logged: seq<string>, failure: Option<Exception>)
    modifies fs
    ensures Gen(fs.State(), fetched, logged, failure)
      == SaveProducts(Gen(old(fs.State()), [], [], None), dirName, products, fetchImg, decode)
  {
    fetched, logged := [], [];
    ghost var g0 := Gen(fs.State(), [], [], None);
    for i := 0 to |products|
      invariant SaveProducts(g0, dirName, products[..i], fetchImg, decode) == Gen(fs.State(), fetched, logged, None)
    {
      assert products[..i + 1][..i] == products[..i];
      fetched, logged, failure := SaveProductImages(dirName, products[i].imageUrl, fs, fetchImg, decode, fetched, logged);
      if failure.Some? {
        SaveProductsStops(g0, dirName, products, i + 1, fetchImg, decode);
        return;
      }
    }
    assert products[..|products|] == products;
    failure := None;
  }
}
