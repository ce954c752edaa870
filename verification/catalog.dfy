/** The fetch-and-extract part of `parse_tokopedia_html`: up to two
    attempts at the catalog page, retrying only SSL errors and timeouts,
    then the shop name taken from the URL and the container loop. */
module Catalog {
  import opened Basics
  import opened Text
  import opened Net
  import opened Extractor

  /** `max_retries` of the catalog loop. */
  const MaxFetchAttempts: nat := 2

  /** `get_shop_name`: the fourth '/'-separated part of the URL, cut at the
      first '?'. A URL with fewer than three '/' has no fourth part and
      `parts[3]` raises `IndexError`, modelled as `None`. */
  function ShopName(url: string): (r: Option<string>)
    ensures r.Some? <==> multiset(url)['/'] >= 3
    ensures r.Some? ==> '/' !in r.value && '?' !in r.value
  {
    var parts := Split(url, '/');
    SplitCount(url, '/');
    if |parts| < 4 then None
    else
      SplitFirstIsPrefix(parts[3], '?');
      Some(Split(parts[3], '?')[0])
  }

  /** The '/'-parts of `scheme//host/z` are the scheme, an empty part,
      the host and then the parts of `z`. */
  lemma StorefrontParts(scheme: string, host: string, z: string)
    requires '/' !in scheme && '/' !in host
    ensures Split(scheme + "//" + host + "/" + z, '/') == [scheme, "", host] + Split(z, '/')
  {
    var y := host + ['/'] + z;
    var x := ['/'] + y;
    assert Split(y, '/') == [host] + Split(z, '/') by {
      SplitSeparator(host, z, '/');
    }
    assert Split(x, '/') == [""] + Split(y, '/') by {
      assert x == "" + ['/'] + y;
      SplitSeparator("", y, '/');
    }
    assert Split(scheme + ['/'] + x, '/') == [scheme] + Split(x, '/') by {
      SplitSeparator(scheme, x, '/');
    }
    assert scheme + "//" + host + "/" + z == scheme + ['/'] + x;
  }

  /** For a storefront URL `scheme//host/shop` followed by nothing, by a
      further path or by a query, the shop name is `shop`. */
  lemma ShopNameOfStorefront(scheme: string, host: string, shop: string, rest: string)
    requires '/' !in scheme && '/' !in host && '/' !in shop && '?' !in shop
    requires |rest| == 0 || rest[0] == '/' || rest[0] == '?'
    ensures ShopName(scheme + "//" + host + "/" + shop + rest) == Some(shop)
  {
    var url := scheme + "//" + host + "/" + shop + rest;
    var tail := Split(rest, '/')[0];
    assert Split(url, '/')[3] == shop + tail by {
      assert url == scheme + "//" + host + "/" + (shop + rest);
      StorefrontParts(scheme, host, shop + rest);
      SplitAfterPrefix(shop, rest, '/');
    }
    assert |tail| == 0 || tail[0] == '?' by {
      SplitFirstIsPrefix(rest, '/');
    }
    SplitFirst(shop, tail, '?');
  }

  /** The result of the catalog loop and how many requests it sent. */
  datatype Fetch = Fetch(result: Result<seq<Product>, Exception>, attempts: nat)

  /** What the loop does with a page it received: name the shop (which can
      raise, outside the per-container `try`) and run the container loop. */
  function OnPage(url: string, containers: seq<Container>): (r: Result<seq<Product>, Exception>)
    ensures r.Raised? <==> multiset(url)['/'] < 3
    ensures r.Raised? ==> r.error == IndexError
    ensures r.Returned? ==> |r.value| <= |containers| && forall p <- r.value :: ShopName(url) == Some(p.shop)
  {
    match ShopName(url)
    case None => Raised(IndexError)
    case Some(shop) => Returned(ExtractAll(containers, shop))
  }

  /** The catalog loop from attempt `k` (0-based) on. SSL errors and
      timeouts are retried; running out of attempts returns the empty list;
      any other request error escapes the function. */
  function FetchFrom(url: string, outcomes: seq<Attempt<seq<Container>>>, k: nat): (f: Fetch)
    requires k < MaxFetchAttempts <= |outcomes|
    ensures k < f.attempts <= MaxFetchAttempts
    ensures forall j :: k <= j < f.attempts - 1 ==> outcomes[j].Transient()
    ensures outcomes[f.attempts - 1].Success? ==>
              f.result == OnPage(url, outcomes[f.attempts - 1].body)
    ensures outcomes[f.attempts - 1].OtherReqErr? ==>
              f.result == Raised(RequestError(outcomes[f.attempts - 1].detail))
    ensures outcomes[f.attempts - 1].Transient() ==>
              f.attempts == MaxFetchAttempts && f.result == Returned([])
    decreases MaxFetchAttempts - k
  {
    match outcomes[k]
    case Success(containers) => Fetch(OnPage(url, containers), k + 1)
    case OtherReqErr(detail) => Fetch(Raised(RequestError(detail)), k + 1)
    case _ =>
      if k + 1 < MaxFetchAttempts then FetchFrom(url, outcomes, k + 1)
      else Fetch(Returned([]), k + 1)
  }

  /** `parse_tokopedia_html(url)`. */
  function FetchCatalog(url: string, outcomes: seq<Attempt<seq<Container>>>): (f: Fetch)
    requires MaxFetchAttempts <= |outcomes|
    ensures 1 <= f.attempts <= MaxFetchAttempts
    ensures f.attempts < MaxFetchAttempts ==> !outcomes[f.attempts - 1].Transient()
    ensures f.result.Raised? ==> f.result.error == IndexError || f.result.error.RequestError?
  {
    FetchFrom(url, outcomes, 0)
  }

  /** A page received on the first attempt ends the loop: no further
      request is sent. */
  lemma FirstPageStopsFetch(url: string, outcomes: seq<Attempt<seq<Container>>>)
    requires MaxFetchAttempts <= |outcomes|
    requires outcomes[0].Success?
    ensures FetchCatalog(url, outcomes) == Fetch(OnPage(url, outcomes[0].body), 1)
  {
  }

  /** When both attempts fail transiently the caller gets exactly what a
      page without product containers would give: the two cases cannot be
      told apart. */
  lemma ExhaustedLooksLikeEmptyPage(url: string, outcomes: seq<Attempt<seq<Container>>>)
    requires MaxFetchAttempts <= |outcomes|
    requires outcomes[0].Transient() && outcomes[1].Transient()
    requires ShopName(url).Some?
    ensures FetchCatalog(url, outcomes).result == OnPage(url, [])
    ensures FetchCatalog(url, outcomes).attempts == MaxFetchAttempts
  {
  }

  /** Every record the loop returns belongs to the shop named by the URL,
      and there are no more records than containers on the page. */
  lemma FetchedRecordsBelongToShop(url: string, outcomes: seq<Attempt<seq<Container>>>)
    requires MaxFetchAttempts <= |outcomes|
    requires FetchCatalog(url, outcomes).result.Returned?
    ensures var f := FetchCatalog(url, outcomes);
            && (forall p <- f.result.value :: ShopName(url) == Some(p.shop))
            && (outcomes[f.attempts - 1].Success? ==> |f.result.value| <= |outcomes[f.attempts - 1].body|)
            && (!outcomes[f.attempts - 1].Success? ==> f.result.value == [])
  {
  }
}
