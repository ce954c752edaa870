/** The container loop of `parse_tokopedia_html`: each product container of
    a catalog page becomes one product record, or none when extracting any
    of its fields raises. The HTML parser is not modelled: a container is
    given as the text or attribute of each element the loop looks up. */
module Extractor {
  import opened Basics
  import opened Text

  /** The text of a rating element, seen only through whether Python's
      `float()` accepts it after stripping. */
  datatype RatingText = Unparsable | Parses(value: real)

  /** An `<a>` or `<img>` element, seen only through the one attribute the
      loop reads (`href` or `src`); `None` when the element lacks it. */
  datatype Tag = Tag(attr: Option<string>)

  /** One product container. Each field is `None` when `container.find`
      finds no such element; otherwise it holds the element's text or tag. */
  datatype Container = Container(
    name: Option<string>,
    price: Option<string>,
    rating: Option<RatingText>,
    sales: Option<string>,
    link: Option<Tag>,
    image: Option<Tag>)

  /** One product record (a row of the output dataset). */
  datatype Product = Product(
    shop: string,
    name: string,
    price: nat,
    rating: Option<real>,
    sales: nat,
    url: Option<string>,
    imageUrl: Option<string>)

  /** The price: the digits of the price text read as one decimal number.
      A text without digits makes `int('')` raise, modelled as `None`. */
  function PriceOf(text: string): (r: Option<nat>)
    ensures r.None? <==> !HasAny(text, IsDigit)
    ensures r.Some? ==> r.value == DecimalValue(Keep(text, IsDigit))
  {
    StripKeepsDigits(text, IsDigit);
    KeepEmptyIff(text, IsDigit);
    ParseDigits(Keep(Strip(text), IsDigit))
  }

  /** The rating: absent element gives a missing rating; a text `float()`
      rejects raises. The outer `None` is the raise. */
  function RatingOf(elem: Option<RatingText>): (r: Option<Option<real>>)
    ensures r.None? <==> elem == Some(Unparsable)
    ensures r.Some? ==> (r.value.None? <==> elem.None?)
  {
    match elem
    case None => Some(None)
    case Some(Unparsable) => None
    case Some(Parses(v)) => Some(Some(v))
  }

  /** The sales count. An absent element reads as "0". Otherwise only digits
      and '+' are kept; if nothing is kept the count is 0, else the '+' signs
      are dropped and the rest goes to `int()`, which raises on a text whose
      kept characters are all '+'. So the count depends only on the digits
      of the label. */
  function SalesOf(elem: Option<string>): (r: Option<nat>)
    ensures elem.None? ==> r == Some(0)
    ensures elem.Some? && !HasAny(elem.value, IsDigitOrPlus) ==> r == Some(0)
    ensures elem.Some? && HasAny(elem.value, IsDigitOrPlus) && !HasAny(elem.value, IsDigit) ==> r.None?
    ensures elem.Some? && HasAny(elem.value, IsDigit) ==> r == Some(DecimalValue(Keep(elem.value, IsDigit)))
  {
    var text := if elem.Some? then Strip(elem.value) else "0";
    DigitsOfDigitsOrPlus(text);
    if elem.Some? then
      SalesFacts(elem.value);
      SalesBody(text, Keep(text, IsDigitOrPlus))
    else
      assert Keep(text, IsDigitOrPlus) == "0";
      assert Keep("0", IsNotPlus) == "0";
      assert "0"[..0] == "";
      assert DecimalValue("0") == 0;
      SalesBody(text, Keep(text, IsDigitOrPlus))
  }

  /** Lines 45-46 on the filtered label `kept`. */
  function SalesBody(text: string, kept: string): Option<nat>
    requires kept == Keep(text, IsDigitOrPlus)
  {
    if |kept| == 0 then Some(0)
    else
      DigitsOfDigitsOrPlus(text);
      ParseDigits(Keep(kept, IsNotPlus))
  }

  /** The facts `SalesOf` needs about the label it filters: stripping does
      not change which digits and '+' signs it keeps. */
  lemma SalesFacts(text: string)
    ensures Keep(Strip(text), IsDigitOrPlus) == Keep(text, IsDigitOrPlus)
    ensures Keep(Strip(text), IsDigit) == Keep(text, IsDigit)
    ensures |Keep(text, IsDigitOrPlus)| == 0 <==> !HasAny(text, IsDigitOrPlus)
    ensures |Keep(text, IsDigit)| == 0 <==> !HasAny(text, IsDigit)
  {
    StripKeepsDigits(text, IsDigitOrPlus);
    StripKeepsDigits(text, IsDigit);
    KeepEmptyIff(text, IsDigitOrPlus);
    KeepEmptyIff(text, IsDigit);
  }

  /** `elem['href']` / `elem['src']` when the element exists: an element
      without the attribute raises `KeyError`. */
  function AttrOf(elem: Option<Tag>): (r: Option<Option<string>>)
    ensures r.None? <==> elem.Some? && elem.value.attr.None?
    ensures r.Some? ==> (r.value.None? <==> elem.None?)
    ensures r.Some? && elem.Some? ==> r.value == elem.value.attr
  {
    match elem
    case None => Some(None)
    case Some(Tag(None)) => None
    case Some(Tag(Some(a))) => Some(Some(a))
  }

  /** The conditions under which no field extraction of `c` raises. */
  predicate Extractable(c: Container) {
    && c.name.Some?
    && c.price.Some? && HasAny(c.price.value, IsDigit)
    && c.rating != Some(Unparsable)
    && (c.sales.None? || HasAny(c.sales.value, IsDigit) || !HasAny(c.sales.value, IsDigitOrPlus))
    && (c.link.None? || c.link.value.attr.Some?)
    && (c.image.None? || c.image.value.attr.Some?)
  }

  /** The body of the per-container `try`: `None` when it raises, which
      happens exactly when the container is not `Extractable`. The fields
      are tried in the source's order, but as every failure is caught the
      same way the order does not show in the result. */
  function ExtractProduct(c: Container, shop: string): (r: Option<Product>)
    ensures r.Some? <==> Extractable(c)
  {
    if c.name.None? || c.price.None? then None
    else
      var price := PriceOf(c.price.value);
      var rating := RatingOf(c.rating);
      var sales := SalesOf(c.sales);
      var url := AttrOf(c.link);
      var imageUrl := AttrOf(c.image);
      if price.None? || rating.None? || sales.None? || url.None? || imageUrl.None? then None
      else Some(Product(shop, Strip(c.name.value), price.value, rating.value, sales.value, url.value, imageUrl.value))
  }

  /** The record's fields are the container's texts read as the source
      reads them: the shop given, the stripped name, the digits of the
      price, and absent optional elements as missing values or a zero count. */
  lemma ExtractProductFields(c: Container, shop: string)
    requires ExtractProduct(c, shop).Some?
    ensures var p := ExtractProduct(c, shop).value;
      && p.shop == shop
      && p.name == Strip(c.name.value)
      && p.price == DecimalValue(Keep(c.price.value, IsDigit))
      && (c.rating.None? ==> p.rating.None?)
      && (c.rating.Some? ==> p.rating == Some(c.rating.value.value))
      && (c.sales.None? || !HasAny(c.sales.value, IsDigit) ==> p.sales == 0)
      && (c.sales.Some? && HasAny(c.sales.value, IsDigit) ==> p.sales == DecimalValue(Keep(c.sales.value, IsDigit)))
      && (c.link.None? ==> p.url.None?)
      && (c.link.Some? ==> p.url == c.link.value.attr)
      && (c.image.None? ==> p.imageUrl.None?)
      && (c.image.Some? ==> p.imageUrl == c.image.value.attr)
  {
  }

  /** The container loop: one record per container whose extraction does not
      raise, in document order; a failing container is skipped. */
  function ExtractAll(cs: seq<Container>, shop: string): (ps: seq<Product>)
    ensures |ps| <= |cs|
    ensures forall p <- ps :: p.shop == shop
  {
    if |cs| == 0 then []
    else
      var rest := ExtractAll(cs[1..], shop);
      match ExtractProduct(cs[0], shop)
      case Some(p) => [p] + rest
      case None => rest
  }

  /** No container is dropped exactly when every container is extractable. */
  lemma {:induction false} NoneDroppedIffAllExtractable(cs: seq<Container>, shop: string)
    ensures |ExtractAll(cs, shop)| == |cs| <==> forall i :: 0 <= i < |cs| ==> Extractable(cs[i])
  {
    if |cs| > 0 {
      NoneDroppedIffAllExtractable(cs[1..], shop);
      ExtractAllStep(cs, shop);
      AllExtractableCons(cs);
    }
  }

  /** One step of the loop adds one record exactly for an extractable head. */
  lemma ExtractAllStep(cs: seq<Container>, shop: string)
    requires |cs| > 0
    ensures |ExtractAll(cs, shop)| == |ExtractAll(cs[1..], shop)| + (if Extractable(cs[0]) then 1 else 0)
  {
  }

  /** All containers are extractable exactly when the head and all of the
      tail are. */
  lemma AllExtractableCons(cs: seq<Container>)
    requires |cs| > 0
    ensures (forall i :: 0 <= i < |cs| ==> Extractable(cs[i]))
            <==> Extractable(cs[0]) && forall i :: 0 <= i < |cs[1..]| ==> Extractable(cs[1..][i])
  {
    assert forall i :: 1 <= i < |cs| ==> cs[i] == cs[1..][i - 1];
  }

  /** The loop distributes over concatenation of container lists. */
  lemma {:induction false} ExtractAllAppend(a: seq<Container>, b: seq<Container>, shop: string)
    ensures ExtractAll(a + b, shop) == ExtractAll(a, shop) + ExtractAll(b, shop)
  {
    if |a| == 0 {
      assert a + b == b;
    } else {
      assert (a + b)[1..] == a[1..] + b;
      ExtractAllAppend(a[1..], b, shop);
    }
  }

  /** A single container yields its record, or nothing when it fails. */
  lemma ExtractOne(c: Container, shop: string)
    ensures ExtractProduct(c, shop).Some? ==> ExtractAll([c], shop) == [ExtractProduct(c, shop).value]
    ensures ExtractProduct(c, shop).None? ==> ExtractAll([c], shop) == []
  {
    assert [c][1..] == [];
  }

  /** A container that fails is dropped without affecting the records of the
      containers before or after it. */
  lemma SkipsFailingContainer(a: seq<Container>, c: Container, b: seq<Container>, shop: string)
    requires !Extractable(c)
    ensures ExtractAll(a + [c] + b, shop) == ExtractAll(a, shop) + ExtractAll(b, shop)
  {
    ExtractAllAppend(a + [c], b, shop);
    ExtractAllAppend(a, [c], shop);
    ExtractOne(c, shop);
  }

  /** Characters that are not digits (a currency prefix, thousands
      separators) do not affect the price, wherever they stand: with
      `PriceRoundTrip`, "Rp1.200.000" reads as 1200000. */
  lemma PriceIgnoresNonDigits(a: string, junk: string, b: string)
    requires !HasAny(junk, IsDigit)
    ensures PriceOf(a + junk + b) == PriceOf(a + b)
  {
    assert Keep(a + junk + b, IsDigit) == Keep(a + b, IsDigit) by {
      KeepAppend(a + junk, b, IsDigit);
      KeepAppend(a, junk, IsDigit);
      KeepAppend(a, b, IsDigit);
      KeepEmptyIff(junk, IsDigit);
      assert Keep(a, IsDigit) + Keep(junk, IsDigit) == Keep(a, IsDigit);
    }
    KeepEmptyIff(a + junk + b, IsDigit);
    KeepEmptyIff(a + b, IsDigit);
  }

  /** A sales label of the form "<n>+ terjual" ("<n>+ sold", as in
      "250+ terjual") extracts to n. */
  lemma SalesLabelRoundTrip(n: nat)
    ensures SalesOf(Some(ToDecimal(n) + "+ terjual")) == Some(n)
  {
    var s := ToDecimal(n);
    var t := s + "+ terjual";
    assert HasAny(t, IsDigit) by {
      assert IsDigit(t[0]);
    }
    assert Keep(t, IsDigit) == s by {
      KeepAppend(s, "+ terjual", IsDigit);
      assert Keep("+ terjual", IsDigit) == [];
      KeepAllDigits(s);
    }
    DecimalRoundTrip(n);
  }

  /** A sales label that has '+' signs but no digit (as "+ terjual")
      cannot be read, and its container yields no record. */
  lemma PlusOnlySalesFails(c: Container, shop: string)
    requires c.sales.Some? && HasAny(c.sales.value, IsDigitOrPlus) && !HasAny(c.sales.value, IsDigit)
    ensures SalesOf(c.sales).None?
    ensures ExtractProduct(c, shop).None?
  {
  }

  /** Any price written as "Rp" followed by its decimal numeral round-trips. */
  lemma PriceRoundTrip(n: nat)
    ensures PriceOf("Rp" + ToDecimal(n)) == Some(n)
  {
    var s := ToDecimal(n);
    var t := "Rp" + s;
    assert HasAny(t, IsDigit) by {
      assert IsDigit(t[2]);
    }
    assert Keep(t, IsDigit) == s by {
      KeepAppend("Rp", s, IsDigit);
      assert Keep("Rp", IsDigit) == [];
      KeepAllDigits(s);
    }
    DecimalRoundTrip(n);
  }

  /** A digits-only string filters to itself. */
  lemma {:induction false} KeepAllDigits(s: string)
    requires AllDigits(s)
    ensures Keep(s, IsDigit) == s
  {
    if |s| > 0 {
      KeepAllDigits(s[1..]);
    }
  }
}
