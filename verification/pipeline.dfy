/** The batch run of `__main__`: build the query from the keyword, resolve
    and fetch each shop in order, concatenate the records and sort them by
    price. Reading the keyword and the shop list, writing the CSV file and
    printing are not modelled. */
module Pipeline {
  import opened Basics
  import opened Text
  import opened Net
  import opened Resolver
  import opened Extractor
  import opened Catalog

  /** The query fragment `"?q=" + keyword + "&sort=9"`. */
  function Query(keyword: string): (q: string)
    ensures |q| == |keyword| + 10 && q[0] == '?'
    ensures q[3..|q| - 7] == keyword
  {
    "?q=" + keyword + "&sort=9"
  }

  /** What the network answers for one shop: the outcome of each probe
      attempt and of each catalog attempt, in order. */
  datatype ShopEnv = ShopEnv(probe: seq<Attempt<string>>, catalog: seq<Attempt<seq<Container>>>)

  /** The environment answers every attempt either loop can make. */
  predicate Answers(env: ShopEnv) {
    MaxProbeAttempts <= |env.probe| && MaxFetchAttempts <= |env.catalog|
  }

  predicate AllAnswer(envs: seq<ShopEnv>) {
    forall i :: 0 <= i < |envs| ==> Answers(envs[i])
  }

  /** One iteration of the shop loop: resolve, then fetch the resolved URL.
      A resolver that returns `None` makes `res['final_url']` raise. */
  function ShopProducts(shopUrl: string, query: string, env: ShopEnv): (r: Result<seq<Product>, Exception>)
    requires Answers(env)
    ensures r == Raised(TypeError) <==> Resolve(shopUrl, query, env.probe).result.None?
    ensures r.Raised? ==> r.error == TypeError || r.error == IndexError || r.error.RequestError?
  {
    match Resolve(shopUrl, query, env.probe).result
    case None => Raised(TypeError)
    case Some(res) => FetchCatalog(res.finalUrl, env.catalog).result
  }

  /** What each iteration of the shop loop would give, in shop order.
      Only a prefix of it is ever used: `Concat` stops at the first
      exception. */
  function ShopResults(shopUrls: seq<string>, query: string, envs: seq<ShopEnv>): (rs: seq<Result<seq<Product>, Exception>>)
    requires |envs| == |shopUrls| && AllAnswer(envs)
  {
    seq(|shopUrls|, i requires 0 <= i < |shopUrls| => ShopProducts(shopUrls[i], query, envs[i]))
  }

  /** The shop loop: the records of all shops, concatenated in shop order;
      the first exception ends the run. */
  function Concat(rs: seq<Result<seq<Product>, Exception>>): (r: Result<seq<Product>, Exception>)
    ensures r.Returned? <==> forall i :: 0 <= i < |rs| ==> rs[i].Returned?
  {
    if |rs| == 0 then Returned([])
    else
      var first :- rs[0];
      var others :- Concat(rs[1..]);
      Returned(first + others)
  }

  predicate SortedByPrice(ps: seq<Product>) {
    forall i, j :: 0 <= i < j < |ps| ==> ps[i].price <= ps[j].price
  }

  /** Insert one record into a price-sorted list; the new head is the
      record inserted or the old head. */
  function InsertByPrice(p: Product, ps: seq<Product>): (r: seq<Product>)
    requires SortedByPrice(ps)
    ensures SortedByPrice(r)
    ensures |r| == |ps| + 1
    ensures r[0] == p || (|ps| > 0 && r[0] == ps[0])
    ensures multiset(r) == multiset(ps) + multiset{p}
  {
    if |ps| == 0 then [p]
    else if p.price <= ps[0].price then [p] + ps
    else
      var rest := InsertByPrice(p, ps[1..]);
      assert ps[0].price <= rest[0].price;
      assert ps == [ps[0]] + ps[1..];
      [ps[0]] + rest
  }

  /** `sort_values(by="price")`: a permutation of the records in ascending
      price order. Which of several equally priced records comes first is
      not fixed by the source, since pandas' default sort is not stable. */
  function SortByPrice(ps: seq<Product>): (r: seq<Product>)
    ensures SortedByPrice(r)
    ensures multiset(r) == multiset(ps)
  {
    if |ps| == 0 then []
    else
      assert ps == [ps[0]] + ps[1..];
      InsertByPrice(ps[0], SortByPrice(ps[1..]))
  }

  /** The whole run. A run that gathers no record at all fails: the empty
      frame has no 'price' column to sort by. */
  function Run(keyword: string, shopUrls: seq<string>, envs: seq<ShopEnv>): (r: Result<seq<Product>, Exception>)
    requires |envs| == |shopUrls| && AllAnswer(envs)
    ensures var all := Concat(ShopResults(shopUrls, Query(keyword), envs));
            && (r.Returned? <==> all.Returned? && |all.value| > 0)
            && (r.Returned? ==> SortedByPrice(r.value) && multiset(r.value) == multiset(all.value))
            && (all.Raised? ==> r == all)
            && (all == Returned([]) ==> r == Raised(KeyError))
  {
    var all :- Concat(ShopResults(shopUrls, Query(keyword), envs));
    if |all| == 0 then Raised(KeyError) else Returned(SortByPrice(all))
  }

  /** The shop loop over two consecutive groups of shops: the first group's
      exception if any, else the second group's, else the two record lists
      one after the other. */
  lemma {:induction false} ConcatAppend(a: seq<Result<seq<Product>, Exception>>, b: seq<Result<seq<Product>, Exception>>)
    ensures Concat(a + b) == if Concat(a).Raised? then Concat(a)
                             else if Concat(b).Raised? then Concat(b)
                             else Returned(Concat(a).value + Concat(b).value)
  {
    if |a| == 0 {
      assert a + b == b;
      var cb := Concat(b);
      if cb.Returned? {
        assert [] + cb.value == cb.value;
      }
    } else {
      assert (a + b)[0] == a[0] && (a + b)[1..] == a[1..] + b;
      ConcatAppend(a[1..], b);
      var ca, cb := Concat(a[1..]), Concat(b);
      if a[0].Returned? && ca.Returned? && cb.Returned? {
        assert a[0].value + (ca.value + cb.value) == (a[0].value + ca.value) + cb.value;
      }
    }
  }

  /** A single shop's result is the whole loop's result. */
  lemma ConcatSingle(r: Result<seq<Product>, Exception>)
    ensures Concat([r]) == r
  {
    assert [r][1..] == [];
    if r.Returned? {
      assert r.value + [] == r.value;
    }
  }

  /** The first shop that raises ends the shop loop with its exception:
      the shops after it are never contacted. */
  lemma {:induction false} FirstExceptionEndsRun(rs: seq<Result<seq<Product>, Exception>>, i: nat)
    requires i < |rs| && rs[i].Raised?
    requires forall j :: 0 <= j < i ==> rs[j].Returned?
    ensures Concat(rs) == rs[i]
  {
    if i > 0 {
      assert forall j :: 0 <= j < i - 1 ==> rs[1..][j] == rs[j + 1];
      FirstExceptionEndsRun(rs[1..], i - 1);
    }
  }

  /** A shop that contributes no record, such as one whose catalog requests
      all timed out, leaves the collected records as if it were not in the
      list at all. */
  lemma {:induction false} SilentShopContributesNothing(rs: seq<Result<seq<Product>, Exception>>, i: nat)
    requires i < |rs| && rs[i] == Returned([])
    ensures Concat(rs) == Concat(rs[..i] + rs[i + 1..])
  {
    if i == 0 {
      assert rs[..i] + rs[i + 1..] == rs[1..];
      var others := Concat(rs[1..]);
      if others.Returned? {
        assert [] + others.value == others.value;
      }
    } else {
      var rest := rs[..i] + rs[i + 1..];
      SilentShopContributesNothing(rs[1..], i - 1);
      assert rest[0] == rs[0];
      assert rest[1..] == rs[1..][..i - 1] + rs[1..][i..];
    }
  }

  /** When no shop contributes a record, the shop loop yields nothing. */
  lemma {:induction false} NothingCollected(rs: seq<Result<seq<Product>, Exception>>)
    requires forall i :: 0 <= i < |rs| ==> rs[i] == Returned([])
    ensures Concat(rs) == Returned([])
  {
    if |rs| > 0 {
      assert forall i :: 0 <= i < |rs| - 1 ==> rs[1..][i] == rs[i + 1];
      NothingCollected(rs[1..]);
      var none: seq<Product> := [];
      assert rs[0] == Returned(none) && none + none == none;
    }
  }

  /** When no shop contributes a record the run fails rather than producing
      an empty result. */
  lemma NothingCollectedRaisesKeyError(keyword: string, shopUrls: seq<string>, envs: seq<ShopEnv>)
    requires |envs| == |shopUrls| && AllAnswer(envs)
    requires forall i :: 0 <= i < |shopUrls| ==> ShopProducts(shopUrls[i], Query(keyword), envs[i]) == Returned([])
    ensures Run(keyword, shopUrls, envs) == Raised(KeyError)
  {
    NothingCollected(ShopResults(shopUrls, Query(keyword), envs));
  }

  /** A shop whose probe ends with an SSL error after two transient
      failures aborts the whole run, provided no earlier shop raised. */
  lemma SslExhaustionAbortsRun(keyword: string, shopUrls: seq<string>, envs: seq<ShopEnv>, i: nat)
    requires |envs| == |shopUrls| && AllAnswer(envs) && i < |shopUrls|
    requires forall j :: 0 <= j < i ==> ShopProducts(shopUrls[j], Query(keyword), envs[j]).Returned?
    requires envs[i].probe[0].Transient() && envs[i].probe[1].Transient() && envs[i].probe[2].SSLErr?
    ensures Run(keyword, shopUrls, envs) == Raised(TypeError)
  {
    NoResultIffSslOnLastAttempt(shopUrls[i], Query(keyword), envs[i].probe);
    FirstExceptionEndsRun(ShopResults(shopUrls, Query(keyword), envs), i);
  }
  /** Whichever URL shape the resolver chooses for a storefront
      `scheme//host/shop`, the shop name read back from it is `shop`. */
  lemma ResolvedStorefrontName(scheme: string, host: string, shop: string, query: string, outcomes: seq<Attempt<string>>)
    requires '/' !in scheme && '/' !in host && '/' !in shop && '?' !in shop
    requires |query| == 0 || query[0] == '?'
    requires MaxProbeAttempts <= |outcomes|
    requires Resolve(scheme + "//" + host + "/" + shop, query, outcomes).result.Some?
    ensures ShopName(Resolve(scheme + "//" + host + "/" + shop, query, outcomes).result.value.finalUrl) == Some(shop)
  {
    var shopUrl := scheme + "//" + host + "/" + shop;
    var url := Resolve(shopUrl, query, outcomes).result.value.finalUrl;
    ResolvedUrlShape(shopUrl, query, outcomes);
    if url == shopUrl + ProductPath + query {
      var rest := ProductPath + query;
      assert rest[0] == '/';
      assert url == shopUrl + rest;
      ShopNameOfStorefront(scheme, host, shop, rest);
    } else {
      ShopNameOfStorefront(scheme, host, shop, query);
    }
  }

  /** For a storefront URL `scheme//host/shop`, every record fetched for
      that shop carries the storefront's shop name. */
  lemma StorefrontRecordsNamed(scheme: string, host: string, shop: string, keyword: string, env: ShopEnv)
    requires Answers(env)
    requires '/' !in scheme && '/' !in host && '/' !in shop && '?' !in shop
    requires ShopProducts(scheme + "//" + host + "/" + shop, Query(keyword), env).Returned?
    ensures forall p <- ShopProducts(scheme + "//" + host + "/" + shop, Query(keyword), env).value :: p.shop == shop
  {
    var shopUrl, q := scheme + "//" + host + "/" + shop, Query(keyword);
    var url := Resolve(shopUrl, q, env.probe).result.value.finalUrl;
    ResolvedStorefrontName(scheme, host, shop, q, env.probe);
    FetchedRecordsBelongToShop(url, env.catalog);
  }
}
