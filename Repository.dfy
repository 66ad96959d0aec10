/** The Yahoo! Auctions repository: the seller-listing and item URLs, the price and
    item-total parsers, the (id, category) pairs kept from a listing page and the image
    URLs collected from a detail page. Every page fetch is a function parameter from the
    requested URL to what the HTML selectors extract, or to the I/O error of the fetch. */
module YARepository {
  import opened Wrappers
  import opened Text
  import opened Model

  const SELLER_URL: string := "https://auctions.yahoo.co.jp/seller"
  const PRODUCT_URL: string := "https://page.auctions.yahoo.co.jp/jp/auction"
  const SID_KEY: string := "sid"
  const OFFSET_KEY: string := "b"
  const LIMIT_KEY: string := "n"
  const YEN: char := '円'

  /** `Long.MAX_VALUE` and `Integer.MAX_VALUE`: the largest values `Long.valueOf` and
      `Integer.valueOf` accept. */
  const LONG_MAX: int := 0x7fff_ffff_ffff_ffff
  const INT_MAX: int := 0x7fff_ffff

  function Max(a: int, b: int): int { if a < b then b else a }

  /** One query parameter, `key=value`. */
  function Param(key: string, value: string): string { key + "=" + value }

  /** The path of a seller's listing page. */
  function SellerPath(seller: string): string
  {
    SELLER_URL + "/" + seller
  }

  /** The query parameters of a listing page: `sid` (the seller), `b` (the 1-based position
      of the first item, never below 1) and `n` (the page size). */
  function SellerParams(seller: string, limit: int, offset: int): seq<string>
  {
    [Param(SID_KEY, seller), Param(OFFSET_KEY, IntToDecimal(Max(offset, 1))), Param(LIMIT_KEY, IntToDecimal(limit))]
  }

  /** The listing page of a seller, piece by piece:
      `SELLER_URL/<seller>?sid=<seller>&b=<max(offset, 1)>&n=<limit>`. */
  function SellerUrl(seller: string, limit: int, offset: int): string
  {
    SELLER_URL + "/" + seller + "?" + SID_KEY + "=" + seller + "&" + OFFSET_KEY + "="
      + IntToDecimal(Max(offset, 1)) + "&" + LIMIT_KEY + "=" + IntToDecimal(limit)
  }

  /** `createUrlAsStr(seller, limit, offset)`: appends the pieces of the listing URL to a
      builder one after another. */
  method CreateSellerUrl(seller: string, limit: int, offset: int) returns (url: string)
    ensures url == SellerUrl(seller, limit, offset)
    ensures url == SellerPath(seller) + "?" + Join(SellerParams(seller, limit, offset), '&')
  {
    var sb := SELLER_URL;
    sb := sb + "/";
    sb := sb + seller;
    sb := sb + "?";
    sb := sb + SID_KEY;
    sb := sb + "=";
    sb := sb + seller;
    sb := sb + "&";
    sb := sb + OFFSET_KEY;
    sb := sb + "=";
    sb := sb + IntToDecimal(Max(offset, 1));
    sb := sb + "&";
    sb := sb + LIMIT_KEY;
    sb := sb + "=";
    sb := sb + IntToDecimal(limit);
    url := sb;
    SellerUrlJoinsParams(seller, limit, offset);
  }

  /** The listing URL is the seller path, '?', and the three parameters joined by '&'. */
  lemma SellerUrlJoinsParams(seller: string, limit: int, offset: int)
    ensures SellerUrl(seller, limit, offset) == SellerPath(seller) + "?" + Join(SellerParams(seller, limit, offset), '&')
  {
    var ps := SellerParams(seller, limit, offset);
    Join3(ps[0], ps[1], ps[2], '&');
    Regroup(SellerPath(seller) + "?", SID_KEY, seller, OFFSET_KEY, IntToDecimal(Max(offset, 1)),
            LIMIT_KEY, IntToDecimal(limit), "=", "&");
  }

  lemma Regroup(pre: string, k0: string, v0: string, k1: string, v1: string, k2: string, v2: string,
                eq: string, amp: string)
    ensures pre + k0 + eq + v0 + amp + k1 + eq + v1 + amp + k2 + eq + v2
      == pre + ((k0 + eq + v0) + amp + (k1 + eq + v1) + amp + (k2 + eq + v2))
  {
  }

  /** The query parameters of a URL: the text after its last '?', split at every '&'. */
  function QueryParams(url: string): seq<string>
  {
    Fields(AfterLast(url, '?'), '&')
  }

  /** For a seller handle holding neither '?' nor '&', the query of the listing URL reads
      back as exactly the three parameters, and the `b` value it carries is the offset
      raised to at least 1. */
  lemma SellerUrlQuery(seller: string, limit: int, offset: int)
    requires '?' !in seller && '&' !in seller
    ensures QueryParams(SellerUrl(seller, limit, offset)) == SellerParams(seller, limit, offset)
    ensures var b := QueryParams(SellerUrl(seller, limit, offset))[1][|"b="|..];
      AllDigits(b) && DecimalValue(b) == Max(offset, 1) >= 1
  {
    var ps := SellerParams(seller, limit, offset);
    ParamsLack(seller, limit, offset, '?');
    ParamsLack(seller, limit, offset, '&');
    var q := Join(ps, '&');
    JoinLacks(ps, '&', '?');
    SellerUrlJoinsParams(seller, limit, offset);
    AfterLastAppend(SellerPath(seller), '?', q);
    JoinFields(ps, '&');
    assert ps[1][|"b="|..] == IntToDecimal(Max(offset, 1));
  }

  lemma ParamsLack(seller: string, limit: int, offset: int, c: char)
    requires c == '?' || c == '&'
    requires c !in seller
    ensures forall i :: 0 <= i < 3 ==> c !in SellerParams(seller, limit, offset)[i]
  {
    DecimalLacks(Max(offset, 1), c);
    DecimalLacks(limit, c);
  }

  /** The offset is clamped to at least 1: offsets 0 and 1 (and every offset below 1) give
      the same URL, and different offsets of at least 1 give different URLs. */
  lemma SellerUrlOffsetClamp(seller: string, limit: int, offset: int, other: int)
    ensures offset <= 1 ==> SellerUrl(seller, limit, offset) == SellerUrl(seller, limit, 1)
    ensures offset >= 1 && other >= 1 && offset != other ==>
      SellerUrl(seller, limit, offset) != SellerUrl(seller, limit, other)
  {
    if offset >= 1 && other >= 1 && offset != other {
      IntToDecimalInjective(offset, other);
      var pre := SELLER_URL + "/" + seller + "?" + SID_KEY + "=" + seller + "&" + OFFSET_KEY + "=";
      var tail := "&" + LIMIT_KEY + "=" + IntToDecimal(limit);
      Regroup3(pre, IntToDecimal(offset), "&", LIMIT_KEY, "=", IntToDecimal(limit));
      Regroup3(pre, IntToDecimal(other), "&", LIMIT_KEY, "=", IntToDecimal(limit));
      if SellerUrl(seller, limit, offset) == SellerUrl(seller, limit, other) {
        MiddleDetermined(pre, IntToDecimal(offset), IntToDecimal(other), tail);
      }
    }
  }

  lemma Regroup3(pre: string, mid: string, a: string, b: string, c: string, e: string)
    ensures pre + mid + a + b + c + e == pre + mid + (a + b + c + e)
  {
  }

  lemma MiddleDetermined(p: string, a: string, b: string, t: string)
    requires p + a + t == p + b + t
    ensures a == b
  {
    assert |a| == |b|;
    assert a == (p + a + t)[|p|..|p| + |a|];
    assert b == (p + b + t)[|p|..|p| + |b|];
  }

  /** The URL of the page quoted in the repository's own unit test: offsets 0 and 1 both give
      `b=1`. */
  lemma SellerUrlExample()
    ensures SellerUrl("tomomooo0716", 100, 0) == SellerUrl("tomomooo0716", 100, 1)
    ensures SellerUrl("tomomooo0716", 100, 0)
      == SELLER_URL + "/" + "tomomooo0716" + "?" + "sid" + "=" + "tomomooo0716" + "&" + "b" + "=" + "1"
         + "&" + "n" + "=" + "100"
  {
    SmallDecimals();
  }

  lemma SmallDecimals()
    ensures IntToDecimal(1) == "1" && IntToDecimal(100) == "100"
  {
    assert NatToDecimal(1) == [DigitChar(1)] == "1";
    assert NatToDecimal(10) == NatToDecimal(1) + [DigitChar(0)] == "10";
    assert NatToDecimal(100) == NatToDecimal(10) + [DigitChar(0)] == "100";
  }

  /** The detail page of an auction. */
  function ItemUrl(auctionId: string): string
  {
    PRODUCT_URL + "/" + auctionId
  }

  /** `createUrlAsStr(auctionId)`. */
  method CreateItemUrl(auctionId: string) returns (url: string)
    ensures url == ItemUrl(auctionId)
    ensures '/' !in auctionId ==> AfterLast(url, '/') == auctionId
  {
    var sb := PRODUCT_URL;
    sb := sb + "/";
    sb := sb + auctionId;
    url := sb;
    if '/' !in auctionId {
      ItemUrlNamesAuction(auctionId);
    }
  }

  /** The auction id is the last path segment of its item URL. */
  lemma ItemUrlNamesAuction(auctionId: string)
    requires '/' !in auctionId
    ensures AfterLast(ItemUrl(auctionId), '/') == auctionId
    ensures ItemUrl(auctionId)[..|PRODUCT_URL| + 1] == PRODUCT_URL + "/"
  {
    AfterLastAppend(PRODUCT_URL, '/', auctionId);
    assert ItemUrl(auctionId) == PRODUCT_URL + ['/'] + auctionId;
  }

  /** `Long.valueOf` (bound `LONG_MAX`) or `Integer.valueOf` (bound `INT_MAX`) applied to a
      string of ASCII digits: the empty string and a value beyond the bound are rejected. */
  function ParseDecimal(s: string, bound: int): (r: Result<int>)
    requires AllDigits(s)
    ensures r.Ok? ==> 0 <= r.value <= bound && r.value == DecimalValue(s)
    ensures r.Err? ==> r.error == NumberFormat && (s == [] || DecimalValue(s) > bound)
  {
    if s == [] || DecimalValue(s) > bound then Err(NumberFormat) else Ok(DecimalValue(s))
  }

  /** `convertToNum`: the digits of the text before the first '円', read as a `Long`.
      `substring(0, indexOf("円"))` throws when there is no '円'; `Long.valueOf` throws when
      no digit precedes it or the number does not fit. */
  function ConvertToNum(target: string): (r: Result<int>)
    ensures YEN !in target <==> r == Err(StringIndexOutOfBounds)
    ensures r.Ok? ==> 0 <= r.value <= LONG_MAX
    ensures r.Err? ==> r.error in {StringIndexOutOfBounds, NumberFormat}
  {
    var index := IndexOf(target, YEN);
    if index < 0 then Err(StringIndexOutOfBounds)
    else ParseDecimal(DigitsOnly(target[..index]), LONG_MAX)
  }

  /** Only the text before the first '円' matters, and of it only the digits. */
  lemma ConvertToNumReadsDigitsBeforeYen(before: string, after: string)
    requires YEN !in before
    ensures ConvertToNum(before + [YEN] + after) == ParseDecimal(DigitsOnly(before), LONG_MAX)
    ensures ConvertToNum(before + [YEN] + after).Err? <==>
      DigitsOnly(before) == [] || DecimalValue(DigitsOnly(before)) > LONG_MAX
  {
    var s := before + [YEN] + after;
    assert s[|before|] == YEN && s[..|before|] == before;
    assert forall i :: 0 <= i < |before| ==> s[i] == before[i];
    assert IndexOf(s, YEN) == |before|;
  }

  /** A comma (or any other non-digit) between the digits changes nothing. */
  lemma ConvertToNumIgnoresSeparator(a: string, c: char, b: string, after: string)
    requires YEN !in a && YEN !in b && c != YEN && !IsDigit(c)
    ensures ConvertToNum(a + [c] + b + [YEN] + after) == ConvertToNum(a + b + [YEN] + after)
  {
    ConvertToNumReadsDigitsBeforeYen(a + [c] + b, after);
    ConvertToNumReadsDigitsBeforeYen(a + b, after);
    DigitsOnlyAppend(a + [c], b);
    DigitsOnlyAppend(a, [c]);
    DigitsOnlyAppend(a, b);
    assert DigitsOnly([c]) == [] by { assert [c][1..] == []; }
    assert DigitsOnly(a + [c]) == DigitsOnly(a);
    assert DigitsOnly(a + [c] + b) == DigitsOnly(a + b);
  }

  /** A price rendered in decimal before '円' reads back as itself. */
  lemma ConvertToNumRoundTrip(n: nat, after: string)
    requires n <= LONG_MAX
    ensures ConvertToNum(NatToDecimal(n) + [YEN] + after) == Ok(n)
  {
    var d := NatToDecimal(n);
    assert YEN !in d by { assert AllDigits(d); }
    ConvertToNumReadsDigitsBeforeYen(d, after);
    DecimalRoundTrip(n);
  }

  /** The price format of the site, with a thousands separator and a tax note. */
  lemma ConvertToNumExample()
    ensures ConvertToNum("1,200円（税込）") == Ok(1200)
  {
    var note := "（税込）";
    assert "1,200円（税込）" == "1" + [','] + "200" + [YEN] + note;
    ConvertToNumWithComma(note);
  }

  lemma ConvertToNumWithComma(note: string)
    ensures ConvertToNum("1" + [','] + "200" + [YEN] + note) == Ok(1200)
  {
    ConvertToNumIgnoresSeparator("1", ',', "200", note);
    Decimal1200();
    assert "1" + "200" == NatToDecimal(1200);
    ConvertToNumRoundTrip(1200, note);
  }

  lemma Decimal1200()
    ensures NatToDecimal(1200) == "1200"
  {
    assert NatToDecimal(1) == "1";
    assert NatToDecimal(12) == "12";
    assert NatToDecimal(120) == "120";
  }

  /** The item total from the texts of the pager's options: 0 when there is no option,
      otherwise the digits of the first space-separated token of the first option, read as
      an `Integer` (`split(" ")` of an all-space text gives an empty array, whose `[0]`
      throws). */
  function ParseTotal(optionTexts: seq<string>): (r: Result<int>)
    ensures optionTexts == [] ==> r == Ok(0)
    ensures r.Ok? ==> 0 <= r.value <= INT_MAX
  {
    if optionTexts == [] then Ok(0)
    else
      var tokens := Split(optionTexts[0], ' ');
      if tokens == [] then Err(ArrayIndexOutOfBounds)
      else ParseDecimal(DigitsOnly(tokens[0]), INT_MAX)
  }

  /** Only the first token of the first option counts: what follows the first space, and
      every later option, is ignored. */
  lemma TotalFromFirstToken(token: string, rest: string, others: seq<string>)
    requires token != [] && ' ' !in token
    ensures ParseTotal([token + " " + rest] + others) == ParseDecimal(DigitsOnly(token), INT_MAX)
  {
    FirstSplitField(token, ' ', rest);
    assert token + " " + rest == token + [' '] + rest;
  }

  /** A count rendered in decimal, followed by a space and any text, reads back as itself. */
  lemma TotalRoundTrip(n: nat, rest: string, others: seq<string>)
    requires n <= INT_MAX
    ensures ParseTotal([NatToDecimal(n) + " " + rest] + others) == Ok(n)
  {
    var d := NatToDecimal(n);
    assert ' ' !in d by { assert AllDigits(d); }
    TotalFromFirstToken(d, rest, others);
    DecimalRoundTrip(n);
  }

  /** `fetchTotalNumberOfProducts`: fetches the seller's page and parses the texts of its
      pager options; a failed fetch propagates. */
  function FetchTotalNumberOfProducts(seller: string, fetchOptions: string -> Result<seq<string>>)
    : (r: Result<int>)
    ensures fetchOptions(SELLER_URL + "/" + seller).Err? ==>
      r == Err(fetchOptions(SELLER_URL + "/" + seller).error)
    ensures fetchOptions(SELLER_URL + "/" + seller) == Ok([]) ==> r == Ok(0)
    ensures r.Ok? ==> 0 <= r.value <= INT_MAX
  {
    match fetchOptions(SELLER_URL + "/" + seller)
    case Err(e) => Err(e)
    case Ok(texts) => ParseTotal(texts)
  }

  /** The `data-auction-id` and `data-auction-category` attribute values read from one
      anchor of a listing page ("" when the anchor has none). */
  datatype Anchor = Anchor(id: string, category: string)

  predicate Listed(a: Anchor) { !IsBlank(a.id) && !IsBlank(a.category) }

  /** The pairs a listing page yields: each anchor with a non-blank id and a non-blank
      category, collected into a set (so repeated anchors give one pair). */
  function CollectPairs(anchors: seq<Anchor>): (r: set<IdAndCategory>)
    ensures forall p :: p in r <==> Anchor(p.id, p.category) in anchors && Listed(Anchor(p.id, p.category))
    ensures |r| <= |anchors|
  {
    if anchors == [] then {}
    else
      var a := anchors[|anchors| - 1];
      var init := CollectPairs(anchors[..|anchors| - 1]);
      assert anchors == anchors[..|anchors| - 1] + [a];
      init + (if Listed(a) then {IdAndCategory(a.id, a.category)} else {})
  }

  /** An anchor repeated on the page adds no pair. */
  lemma CollectPairsCollapsesRepeats(anchors: seq<Anchor>, a: Anchor)
    requires a in anchors
    ensures CollectPairs(anchors + [a]) == CollectPairs(anchors)
  {
    var l, r := CollectPairs(anchors + [a]), CollectPairs(anchors);
    forall p | p in l ensures p in r {
      assert Anchor(p.id, p.category) in anchors + [a];
    }
  }

  /** `fetchProductNameListPageBySeller`: fetches the listing page at the URL built from
      the seller, the limit and the offset, and keeps its listed pairs. */
  method FetchProductNameListPageBySeller(seller: string, limit: int, offset: int,
                                          fetchAnchors: string -> Result<seq<Anchor>>)
    returns (r: Result<set<IdAndCategory>>)
    ensures fetchAnchors(SellerUrl(seller, limit, offset)).Err? ==>
      r == Err(fetchAnchors(SellerUrl(seller, limit, offset)).error)
    ensures fetchAnchors(SellerUrl(seller, limit, offset)).Ok? ==>
      r.Ok? && forall p :: p in r.value <==>
        Anchor(p.id, p.category) in fetchAnchors(SellerUrl(seller, limit, offset)).value
        && !IsBlank(p.id) && !IsBlank(p.category)
  {
    var url := CreateSellerUrl(seller, limit, offset);
    var page := fetchAnchors(url);
    if page.Err? {
      return Err(page.error);
    }
    r := Ok(CollectPairs(page.value));
  }

  /** What the selectors read from a detail page: the title, the description, the texts of
      the detail spans (the tenth is the starting price), the buy-now price text, and the
      `src` URLs of the images inside each image element. */
  datatype DetailPage = DetailPage(
    title: string,
    description: string,
    detailTexts: seq<string>,
    buyoutText: string,
    imageSources: seq<seq<string>>)

  predicate NoDuplicates(s: seq<string>)
  {
    forall i, j :: 0 <= i < j < |s| ==> s[i] != s[j]
  }

  /** The image URLs of a detail page, in the order they are first met: every non-blank
      source of every image element, each once (they are added to a set). */
  method CollectImageUrls(elements: seq<seq<string>>) returns (urls: seq<string>)
    ensures NoDuplicates(urls)
    ensures forall u :: u in urls <==> !IsBlank(u) && exists k :: 0 <= k < |elements| && u in elements[k]
  {
    urls := [];
    var i := 0;
    while i < |elements|
      invariant 0 <= i <= |elements|
      invariant NoDuplicates(urls)
      invariant forall u :: u in urls <==> !IsBlank(u) && exists k :: 0 <= k < i && u in elements[k]
    {
      var imgs := elements[i];
      for j := 0 to |imgs|
        invariant NoDuplicates(urls)
        invariant forall u :: u in urls <==>
          !IsBlank(u) && ((exists k :: 0 <= k < i && u in elements[k]) || u in imgs[..j])
      {
        var u := imgs[j];
        assert imgs[..j + 1] == imgs[..j] + [u];
        if !IsBlank(u) && u !in urls {
          urls := urls + [u];
        }
      }
      assert imgs[..|imgs|] == imgs;
      i := i + 1;
    }
  }

  /** `fetchByProductId`: fetches the item page, reads the tenth detail text as the starting
      price, the buy-now text as the buy-now price, and collects the image URLs. A failed
      fetch, fewer than ten detail texts, or an unparsable price each abort the call. */
  method FetchByProductId(idAndCategory: IdAndCategory, fetchDetail: string -> Result<DetailPage>)
    returns (r: Result<YAProduct>)
    ensures fetchDetail(ItemUrl(idAndCategory.id)).Err? ==>
      r == Err(fetchDetail(ItemUrl(idAndCategory.id)).error)
    ensures fetchDetail(ItemUrl(idAndCategory.id)).Ok? ==>
      var page := fetchDetail(ItemUrl(idAndCategory.id)).value;
      && (|page.detailTexts| < 10 ==> r == Err(IndexOutOfBounds))
      && (|page.detailTexts| >= 10 ==>
            var start := ConvertToNum(page.detailTexts[9]);
            var buyout := ConvertToNum(page.buyoutText);
            && (start.Err? ==> r == Err(start.error))
            && (start.Ok? && buyout.Err? ==> r == Err(buyout.error))
            && (start.Ok? && buyout.Ok? ==>
                  && r.Ok?
                  && r.value.idAndCategory == idAndCategory
                  && r.value.title == page.title
                  && r.value.description == page.description
                  && r.value.startingPrice == start.value
                  && r.value.buyoutPrice == buyout.value
                  && NoDuplicates(r.value.imageUrl)
                  && forall u :: u in r.value.imageUrl <==>
                       !IsBlank(u) && exists k :: 0 <= k < |page.imageSources| && u in page.imageSources[k]))
  {
    var url := CreateItemUrl(idAndCategory.id);
    var fetched := fetchDetail(url);
    if fetched.Err? {
      return Err(fetched.error);
    }
    var page := fetched.value;
    if |page.detailTexts| < 10 {
      return Err(IndexOutOfBounds);
    }
    var startingText := page.detailTexts[9];
    var imgUrls := CollectImageUrls(page.imageSources);
    var start := ConvertToNum(startingText);
    if start.Err? {
      return Err(start.error);
    }
    var buyout := ConvertToNum(page.buyoutText);
    if buyout.Err? {
      return Err(buyout.error);
    }
    r := Ok(YAProduct(idAndCategory, page.title, page.description, start.value, buyout.value, imgUrls));
  }
}
