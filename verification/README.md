# Tokopedia shop scraper — decision logic in Dafny

The scraper reads a keyword and a list of Tokopedia shop URLs. For each shop
it first probes the storefront page. If the page contains the "Beranda"
navigation label, the shop's catalog lives under `/product`. The scraper then
fetches the catalog page for the keyword, turns each product container into a
record and finally sorts all records by price.

This project models that decision logic as pure functions over immutable
data. Everything that touches the network, the HTML parser or the file
system is an input.

- **Network.** Each request's outcome is an `Attempt`: a body, an SSL error,
  a timeout, or any other request error. HTTP status errors raised by
  `raise_for_status` count as other request errors. A loop receives the
  outcome of every attempt it may make as a sequence, in order.
- **HTML.** A product container is given as the text or attribute of each
  element the extraction looks up, with `None` for an element that is
  absent.
- **Exceptions.** An exception that escapes a function becomes a
  `Result.Raised` value. An exception caught by a `try` becomes the branch
  that handles it.

Modules follow the program's structure:

- `Basics`: `Option` and `Result` with failure propagation.
- `Text`: the string operations the program uses:
  - regex character-class filtering;
  - `int()` on a digit string;
  - `str.strip`, `str.count` and `str.split`.
- `Net`: request outcomes and the exceptions that can end a run.
- `Resolver`: `check_tokopedia_url` and its three-attempt retry loop.
- `Extractor`: the per-container extraction of `parse_tokopedia_html`.
- `Catalog`: the two-attempt fetch loop of `parse_tokopedia_html` and
  `get_shop_name`.
- `Pipeline`: the query construction and the shop loop of `__main__`, the
  concatenation of records and the sort by price.

## Model

| member | source | states |
|---|---|---|
| Text.Keep | tokpedscraper.py:36 | filtering with a negated character class keeps only the chosen characters and never lengthens the text |
| Text.KeepCounts | tokpedscraper.py:36 | every occurrence of a kept character survives the filter and every other character is gone |
| Text.KeepAppend | tokpedscraper.py:36 | filtering distributes over concatenation, so the kept characters stay in their original order |
| Text.KeepEmptyIff | tokpedscraper.py:36 | the filtered text is empty exactly when the input has no kept character |
| Text.KeepNone | tokpedscraper.py:45 | a text with no kept character filters to the empty string |
| Text.DigitsOfDigitsOrPlus | tokpedscraper.py:45-46 | keeping digits and '+' and then removing '+' leaves exactly the digits of the original text |
| Text.ParseDigits | tokpedscraper.py:36 | `int()` of a digit string raises exactly on the empty string, and a numeral without a leading zero is the one written for the number it gives |
| Text.CanonicalRoundTrip | tokpedscraper.py:46 | writing out the number a numeral without leading zeros denotes gives the numeral back |
| Text.DecimalRoundTrip | tokpedscraper.py:36 | `int()` applied to the canonical decimal numeral of n gives back n |
| Text.CountOccurrences | tokpedscraper.py:122 | `str.count` counts non-overlapping occurrences, which fit in the text |
| Text.CountPositiveIffContains | tokpedscraper.py:122-125 | the count of the marker is positive exactly when the marker occurs in the page |
| Text.Strip | tokpedscraper.py:32 | `str.strip` leaves no whitespace at either end of the result |
| Text.StripRemovesOnlySpace | tokpedscraper.py:32 | what `str.strip` removes is whitespace, and only from the two ends |
| Text.StripKeepsDigits | tokpedscraper.py:35-36 | stripping before filtering does not change which digits (or '+') a text carries |
| Text.Split | tokpedscraper.py:100 | `str.split` yields at least one part, and no part contains the separator |
| Text.SplitCount | tokpedscraper.py:100-101 | there is one more part than there are separators in the text |
| Text.JoinSplit | tokpedscraper.py:100 | joining the parts with the separator restores the text |
| Text.SplitJoin | tokpedscraper.py:100 | splitting a join of separator-free parts gives the parts back |
| Text.SplitAfterPrefix | tokpedscraper.py:100 | a separator-free prefix is glued to the first part of what follows it |
| Text.SplitSeparator | tokpedscraper.py:100 | the part before a separator is cut off, and the rest is split on its own |
| Text.SplitFirstIsPrefix | tokpedscraper.py:102 | the first part of a split is a prefix of the text |
| Text.SplitFirst | tokpedscraper.py:102 | the first part is everything before the first separator |
| Resolver.Probe | tokpedscraper.py:119-131 | a received page gives a success record whose count is the number of "Beranda" occurrences; the URL has `/product` exactly when the marker occurs |
| Resolver.ProbeFrom | tokpedscraper.py:111-152 | the loop sends one to three requests and retries only after SSL errors and timeouts. A page gives the probe record. Any other request error gives the error record at once. A timeout on the third attempt gives the error record. An SSL error on the third attempt gives no record |
| Resolver.Resolve | tokpedscraper.py:105-153 | `check_tokopedia_url` sends one to three requests. Every request before the last one failed transiently, the loop stops early only at an outcome that is not transient, and it returns nothing only after three requests |
| Resolver.NoResultIffSslOnLastAttempt | tokpedscraper.py:132-145 | the resolver returns nothing exactly when two transient failures are followed by an SSL error |
| Resolver.OtherErrorStopsProbe | tokpedscraper.py:146-152 | after k transient failures, another request error ends the loop with the error record after k+1 requests |
| Resolver.ResolvedUrlShape | tokpedscraper.py:125-152 | every returned record has one of the two URL shapes; error records always guess `/product`, and a positive count means a success with `/product` |
| Extractor.PriceOf | tokpedscraper.py:35-36 | the price is the number spelled by the digits of the price text, and it fails exactly when the text has no digit |
| Extractor.PriceIgnoresNonDigits | tokpedscraper.py:36 | non-digit characters anywhere in the price text (currency prefix, separators) do not change the price |
| Extractor.PriceRoundTrip | tokpedscraper.py:35-36 | the price text "Rp" followed by the numeral of n reads as n |
| Extractor.SalesOf | tokpedscraper.py:43-46 | the sales count is 0 for an absent element or a label with neither digit nor '+'. A label with '+' but no digit fails. Otherwise the count is the number its digits spell |
| Extractor.SalesFacts | tokpedscraper.py:44-45 | stripping the sales label does not change the digits and '+' signs the filter keeps |
| Extractor.SalesLabelRoundTrip | tokpedscraper.py:43-46 | a label "n+ terjual" reads as n |
| Extractor.PlusOnlySalesFails | tokpedscraper.py:43-46 | any sales label with '+' signs but no digit cannot be read, and its container yields no record |
| Extractor.RatingOf | tokpedscraper.py:39-40 | an absent rating element gives a missing rating; a text `float()` rejects raises |
| Extractor.AttrOf | tokpedscraper.py:49-54 | an absent element gives a missing value; an element without the attribute raises `KeyError`; otherwise the value is the attribute |
| Extractor.ExtractProduct | tokpedscraper.py:30-66 | the per-container `try` yields a record exactly when name and price exist, the price has a digit, the rating parses, the sales label is readable and present links and images carry their attribute |
| Extractor.ExtractProductFields | tokpedscraper.py:56-64 | each field of an extracted record is its container's text as the loop reads it, and absent optional elements give missing values or a zero count |
| Extractor.ExtractAll | tokpedscraper.py:29-70 | the container loop yields at most one record per container, each tagged with the shop name |
| Extractor.NoneDroppedIffAllExtractable | tokpedscraper.py:29-70 | no container is dropped exactly when every container is extractable |
| Extractor.ExtractAllAppend | tokpedscraper.py:29-66 | the loop over two container lists is the two loops' records one after the other |
| Extractor.ExtractOne | tokpedscraper.py:56-70 | a single container yields its record, or nothing when extraction fails |
| Extractor.SkipsFailingContainer | tokpedscraper.py:68-70 | a failing container is skipped without affecting the records before or after it |
| Catalog.ShopName | tokpedscraper.py:99-103 | `get_shop_name` succeeds exactly when the URL has at least three '/', and the name contains neither '/' nor '?' |
| Catalog.StorefrontParts | tokpedscraper.py:100 | the '/'-parts of `scheme//host/z` are the scheme, an empty part, the host and then the parts of z |
| Catalog.ShopNameOfStorefront | tokpedscraper.py:99-103 | for `scheme//host/shop` followed by nothing, a path or a query, the shop name is `shop` |
| Catalog.OnPage | tokpedscraper.py:22-72 | a received page raises `IndexError` exactly when the URL has fewer than three '/'; otherwise it gives at most one record per container, each named after the URL's shop |
| Catalog.FetchFrom | tokpedscraper.py:17-80 | the catalog loop sends one or two requests and retries only after SSL errors and timeouts. A page is extracted under the URL's shop name. Any other request error escapes. Two transient failures give the empty list |
| Catalog.FetchCatalog | tokpedscraper.py:11-80 | `parse_tokopedia_html` sends one or two requests, stops early only at an outcome that is not transient, and can raise only `IndexError` or a request error |
| Catalog.FirstPageStopsFetch | tokpedscraper.py:18-22 | a page received on the first attempt ends the loop after one request |
| Catalog.ExhaustedLooksLikeEmptyPage | tokpedscraper.py:73-80 | for a URL with a shop segment, two transient failures give the caller exactly what a page without containers gives |
| Catalog.FetchedRecordsBelongToShop | tokpedscraper.py:24-72 | every record returned carries the shop name read from the URL; there are no more records than containers, and none after exhaustion |
| Pipeline.Query | tokpedscraper.py:198 | the query starts with '?' and the keyword can be read back from between the fixed prefix and suffix |
| Pipeline.ShopProducts | tokpedscraper.py:204-209 | one iteration of the shop loop raises `TypeError` exactly when the resolver returns nothing; otherwise it can raise only `IndexError` or a request error |
| Pipeline.Concat | tokpedscraper.py:203-209 | the shop loop succeeds exactly when every shop's iteration succeeds |
| Pipeline.ConcatAppend | tokpedscraper.py:203-209 | over two groups of shops the loop gives the first group's exception, else the second's, else both groups' records in order |
| Pipeline.ConcatSingle | tokpedscraper.py:208-209 | the loop over one shop gives that shop's result |
| Pipeline.FirstExceptionEndsRun | tokpedscraper.py:203-209 | the first shop that raises ends the loop with its exception |
| Pipeline.SilentShopContributesNothing | tokpedscraper.py:208-209 | a shop that yields no record leaves the result as if it were not in the list |
| Pipeline.NothingCollected | tokpedscraper.py:208-209 | when no shop yields a record the loop yields the empty list |
| Pipeline.NothingCollectedRaisesKeyError | tokpedscraper.py:212 | when no shop yields a record the sort raises `KeyError` and the run fails |
| Pipeline.SslExhaustionAbortsRun | tokpedscraper.py:204-205 | a shop whose probe ends in an SSL error after two transient failures aborts the run with `TypeError`, unless an earlier shop raised |
| Pipeline.ResolvedStorefrontName | tokpedscraper.py:204-208 | whichever URL shape the resolver picks for `scheme//host/shop`, the shop name read from it is `shop` |
| Pipeline.StorefrontRecordsNamed | tokpedscraper.py:204-209 | every record fetched for a storefront `scheme//host/shop` carries the shop name `shop` |
| Pipeline.InsertByPrice | tokpedscraper.py:212 | inserting a record into a price-sorted list keeps it sorted and adds exactly that record |
| Pipeline.SortByPrice | tokpedscraper.py:212 | sorting gives a permutation of the records in ascending price order |
| Pipeline.Run | tokpedscraper.py:196-212 | the run succeeds exactly when every shop succeeds and at least one record was collected. Its output is a price-sorted permutation of the collected records. A shop's exception ends the run. An empty collection raises `KeyError` |

## Where the model follows the code rather than the expected behaviour

- **Resolver.** If the third probe attempt fails with an SSL error after two
  SSL errors or timeouts, the loop ends without a `return`, so
  `check_tokopedia_url` returns `None`. `__main__` then subscripts it
  (`res['final_url']`), which raises `TypeError` and ends the run. One
  would expect every shop to yield a catalog URL.
- **Catalog exhaustion.** When both catalog attempts fail transiently,
  `parse_tokopedia_html` returns `[]`. For a URL with a shop segment, that is
  the same value a page without product containers gives, so the two cases
  cannot be told apart. For a URL without one, the empty page raises
  `IndexError` while exhaustion still returns `[]`.
- **Other catalog errors.** Only SSL errors and timeouts are caught by the
  catalog loop. An `HTTPError` from `raise_for_status`, any other request
  error, or an `IndexError` from `get_shop_name` escapes
  `parse_tokopedia_html` and aborts the whole run. It does not skip just that
  shop.
- **Sales labels.** The sales label is filtered to digits and '+'. If
  anything remains, the '+' signs are removed and the rest goes to `int()`.
  A label whose kept characters are all '+' makes `int('')` raise, and the
  container is dropped; it does not read as 0.
- **No records.** When no shop yields a record, `pd.DataFrame([])` has no
  `price` column, so `sort_values(by="price")` raises `KeyError`. The run
  does not produce an empty output.
- **Sorting.** pandas' default sort is not stable, so the model states only
  that the output is a price-sorted permutation. It says nothing about the
  order of records with equal prices.

## Left out

- HTTP requests, headers, TLS verification and timeouts are not modelled.
  Their only observable effect is each attempt's outcome, which is an input.
- HTML parsing with BeautifulSoup and the CSS class names of the elements
  are not modelled. A container arrives already decomposed into the elements
  the loop looks up.
- Extractor.RatingOf: Python's `float()` is not modelled. A rating text is
  given as either unparsable or the real value it parses to. `float()` also
  accepts "nan" and "inf", and such a rating is kept in the source. A
  `real` cannot represent these values, so the model has no record for them.
- Text.ParseDigits: CPython's `int()` raises `ValueError` on a decimal string
  longer than 4300 digits (the default `sys.int_max_str_digits` since 3.11,
  also in later 3.7 to 3.10 releases). The model reads numerals of any
  length. A price or sales text with more digits drops its container in the
  source but not in the model. `Text.DecimalRoundTrip` and
  `Extractor.PriceRoundTrip` hold in the source only up to that length.
- Text.IsDigit: the model accepts only ASCII digits. Python's `\d` and
  `int()` also accept other Unicode decimal digits.
- Reading the keyword from `config.json` and the shop list from a CSV file
  (`get_keyword_from_json`, `get_urls_from_csv`) is I/O, and both are
  inputs. A missing keyword (`None`) would make the query concatenation
  raise `TypeError`; it is not modelled because the keyword is a string.
- `get_file_name` reads the clock, and `save_to_formats` writes a CSV file.
  Both are I/O with no effect on the records.
- Printing and the summary statistics after the sort only report on the
  output, so they are not modelled.
- The rebinding of `url` inside the container loop of
  `parse_tokopedia_html` has no effect: the shop name is computed before the
  loop, and the function returns right after it.
