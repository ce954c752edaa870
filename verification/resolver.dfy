/** `check_tokopedia_url`: probe a shop's storefront page, up to three times,
    and choose between the two catalog URL shapes by whether the page
    contains the "Beranda" (Home) navigation label. */
module Resolver {
  import opened Basics
  import opened Text
  import opened Net

  /** `max_retries` of the probe loop. */
  const MaxProbeAttempts: nat := 3

  /** The marker whose presence means the catalog lives under `/product`. */
  const Marker: string := "Beranda"

  /** The sub-path inserted before the query on the catalog URL. */
  const ProductPath: string := "/product"

  datatype Status = StatusSuccess | StatusError

  /** The dictionary the resolver returns; `error` is absent on success. */
  datatype ResolveResult = ResolveResult(
    finalUrl: string,
    occurrences: nat,
    status: Status,
    error: Option<string>)

  /** The result and how many requests were sent to obtain it. */
  datatype Resolution = Resolution(result: Option<ResolveResult>, attempts: nat)

  /** The success branch: count the marker and pick the URL shape. The URL
      gets `/product` exactly when the marker occurs in the page. */
  function Probe(shopUrl: string, query: string, html: string): (r: ResolveResult)
    ensures r.status == StatusSuccess && r.error.None?
    ensures r.occurrences == CountOccurrences(html, Marker)
    ensures Contains(html, Marker) ==> r.finalUrl == shopUrl + ProductPath + query
    ensures !Contains(html, Marker) ==> r.finalUrl == shopUrl + query
  {
    var occurrences := CountOccurrences(html, Marker);
    CountPositiveIffContains(html, Marker);
    var finalUrl := if occurrences <= 0 then shopUrl + query else shopUrl + ProductPath + query;
    ResolveResult(finalUrl, occurrences, StatusSuccess, None)
  }

  /** The error record, which guesses the `/product` shape. */
  function Fallback(shopUrl: string, query: string, detail: string): ResolveResult {
    ResolveResult(shopUrl + ProductPath + query, 0, StatusError, Some(detail))
  }

  /** The probe loop from attempt `k` (0-based) on, given the outcome of
      every attempt. It stops at the first attempt that is neither an SSL
      error nor a timeout before the last attempt; an SSL error on the last
      attempt leaves the loop with no result at all. */
  function ProbeFrom(shopUrl: string, query: string, outcomes: seq<Attempt<string>>, k: nat): (res: Resolution)
    requires k < MaxProbeAttempts <= |outcomes|
    ensures k < res.attempts <= MaxProbeAttempts
    ensures forall j :: k <= j < res.attempts - 1 ==> outcomes[j].Transient()
    ensures outcomes[res.attempts - 1].Success? ==>
              res.result == Some(Probe(shopUrl, query, outcomes[res.attempts - 1].body))
    ensures outcomes[res.attempts - 1].OtherReqErr? ==>
              res.result == Some(Fallback(shopUrl, query, outcomes[res.attempts - 1].detail))
    ensures outcomes[res.attempts - 1].TimeoutErr? ==>
              res.attempts == MaxProbeAttempts
              && res.result == Some(Fallback(shopUrl, query, outcomes[res.attempts - 1].detail))
    ensures outcomes[res.attempts - 1].SSLErr? ==>
              res.attempts == MaxProbeAttempts && res.result.None?
    decreases MaxProbeAttempts - k
  {
    var last := k + 1 == MaxProbeAttempts;
    match outcomes[k]
    case Success(html) => Resolution(Some(Probe(shopUrl, query, html)), k + 1)
    case SSLErr =>
      if last then Resolution(None, k + 1) else ProbeFrom(shopUrl, query, outcomes, k + 1)
    case TimeoutErr(detail) =>
      if last then Resolution(Some(Fallback(shopUrl, query, detail)), k + 1)
      else ProbeFrom(shopUrl, query, outcomes, k + 1)
    case OtherReqErr(detail) => Resolution(Some(Fallback(shopUrl, query, detail)), k + 1)
  }

  /** `check_tokopedia_url(shop_url, query)`. */
  function Resolve(shopUrl: string, query: string, outcomes: seq<Attempt<string>>): (res: Resolution)
    requires MaxProbeAttempts <= |outcomes|
    ensures 1 <= res.attempts <= MaxProbeAttempts
    ensures forall j :: 0 <= j < res.attempts - 1 ==> outcomes[j].Transient()
    ensures res.attempts < MaxProbeAttempts ==> !outcomes[res.attempts - 1].Transient()
    ensures res.result.None? ==> res.attempts == MaxProbeAttempts
  {
    ProbeFrom(shopUrl, query, outcomes, 0)
  }

  /** The resolver yields no record exactly when the third attempt fails
      with an SSL error after two transient failures (SSL or timeout). */
  lemma NoResultIffSslOnLastAttempt(shopUrl: string, query: string, outcomes: seq<Attempt<string>>)
    requires MaxProbeAttempts <= |outcomes|
    ensures Resolve(shopUrl, query, outcomes).result.None?
            <==> outcomes[0].Transient() && outcomes[1].Transient() && outcomes[2].SSLErr?
  {
  }

  /** A request error other than SSL or timeout ends the probe at once with
      the fallback record, after the transient failures before it. */
  lemma OtherErrorStopsProbe(shopUrl: string, query: string, outcomes: seq<Attempt<string>>, k: nat)
    requires MaxProbeAttempts <= |outcomes| && k < MaxProbeAttempts
    requires forall j :: 0 <= j < k ==> outcomes[j].Transient()
    requires outcomes[k].OtherReqErr?
    ensures Resolve(shopUrl, query, outcomes)
            == Resolution(Some(Fallback(shopUrl, query, outcomes[k].detail)), k + 1)
  {
  }

  /** Every record the resolver returns carries one of the two URL shapes,
      and the plain one only after a successful probe of a page without
      the marker. */
  lemma ResolvedUrlShape(shopUrl: string, query: string, outcomes: seq<Attempt<string>>)
    requires MaxProbeAttempts <= |outcomes|
    requires Resolve(shopUrl, query, outcomes).result.Some?
    ensures var r := Resolve(shopUrl, query, outcomes).result.value;
            && (r.finalUrl == shopUrl + ProductPath + query || r.finalUrl == shopUrl + query)
            && (r.status == StatusError ==> r.occurrences == 0 && r.finalUrl == shopUrl + ProductPath + query)
            && (r.occurrences > 0 <==> r.status == StatusSuccess && r.finalUrl == shopUrl + ProductPath + query)
  {
    var res := Resolve(shopUrl, query, outcomes);
    var o := outcomes[res.attempts - 1];
    if o.Success? {
      CountPositiveIffContains(o.body, Marker);
    }
  }
}
