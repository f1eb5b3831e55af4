/**
 * Turning listing cards into vendor records: the dict literal built for each
 * card by `FoodDeliveryAnalyzer.scrape_foodora` and `scrape_wolt`, and
 * `_extract_price`. The two scrapers are one routine here, `Scrape`, driven
 * by a `PlatformConfig` value.
 *
 * Fetching and HTML parsing are outside the model. A fetch is given as
 * `Option<seq<Card>>`: `None` when the request or the parse raised, otherwise
 * the cards the platform's card selector matched, in document order (an HTTP
 * error status still yields `Some`, because the body is parsed regardless).
 */
module Scraper {
  import opened Wrappers
  import opened PyStr

  /** A BeautifulSoup `find` query: a tag name, optionally with a CSS class. */
  datatype Selector = Tag(tag: string) | TagClass(tag: string, cssClass: string)

  /**
   * What `card.find(selector)` gives: no element, an element with this
   * `.text`, or an exception.
   */
  datatype Lookup = Absent | Found(text: string) | Raises

  /** One listing card, seen only through the sub-element queries made on it. */
  datatype Card = Card(elements: map<Selector, Lookup>) {
    function Find(sel: Selector): Lookup {
      if sel in elements then elements[sel] else Absent
    }
  }

  /** What tells the Foodora card loop from the Wolt card loop. */
  datatype PlatformConfig = PlatformConfig(
    platform: string,        // the vendor's 'platform' value
    cuisineSelector: Selector)

  const Foodora := PlatformConfig("Foodora", TagClass("span", "cuisine-type"))
  const Wolt := PlatformConfig("Wolt", TagClass("div", "venue-type"))

  /** A platform's listing URL pattern: the city goes between `prefix` and `suffix`. */
  datatype Listing = Listing(prefix: string, suffix: string)

  const FoodoraListing := Listing("https://www.foodora.no/en/restaurants/city/", "")
  const WoltListing := Listing("https://wolt.com/en/nor/cities/", "/restaurants")

  const NameSelector := Tag("h3")
  const PriceSelector := TagClass("div", "price-range")
  const Unknown := "Unknown"

  /** The dict each scraper appends per card. */
  datatype Vendor = Vendor(
    name: string,
    cuisine: string,
    priceCategory: string,
    platform: string,
    city: string)

  /** The listing page a scraper requests for `city`. */
  function ListingUrl(listing: Listing, city: string): (url: string)
    ensures |url| == |listing.prefix| + |city| + |listing.suffix|
    ensures url[..|listing.prefix|] == listing.prefix
    ensures url[|listing.prefix|..|url| - |listing.suffix|] == city
    ensures url[|url| - |listing.suffix|..] == listing.suffix
  {
    listing.prefix + city + listing.suffix
  }

  /** Different cities give different listing URLs on one platform. */
  lemma ListingUrlInjective(listing: Listing, city1: string, city2: string)
    requires ListingUrl(listing, city1) == ListingUrl(listing, city2)
    ensures city1 == city2
  {
    var u1, u2 := ListingUrl(listing, city1), ListingUrl(listing, city2);
    var p, q := |listing.prefix|, |listing.suffix|;
    assert |city1| == |city2|;
    assert city1 == u1[p..|u1| - q];
    assert city2 == u2[p..|u2| - q];
  }

  /** `max(n, 1)`, the value of Python's `n or 1` on a count. */
  function AtLeastOne(n: nat): (r: nat)
    ensures r >= 1 && (n >= 1 ==> r == n) && (n == 0 ==> r == 1)
  {
    if n == 0 then 1 else n
  }

  /** True when every character of `s` is the dollar sign. */
  predicate AllDollars(s: string) {
    forall i :: 0 <= i < |s| ==> s[i] == '$'
  }

  /**
   * `_extract_price`: as many dollar signs as there are euro signs in the
   * price element's text, and one when there are none, when the element is
   * missing or when looking it up raises. There is no upper bound on the
   * number of dollar signs.
   */
  function ExtractPrice(card: Card): (r: string)
    ensures |r| >= 1 && AllDollars(r)
    ensures card.Find(PriceSelector).Found? ==>
              |r| == AtLeastOne(CountChar(card.Find(PriceSelector).text, '€'))
    ensures !card.Find(PriceSelector).Found? ==> r == "$"
  {
    match card.Find(PriceSelector)
    case Found(text) =>
      StripKeepsCount(text, '€');
      Repeat('$', AtLeastOne(CountChar(Strip(text), '€')))
    case _ => "$"
  }

  /**
   * The name and cuisine rule: the stripped element text when the element
   * exists (so the empty string for an element holding only whitespace),
   * "Unknown" when it does not; `None` when the lookup raises.
   */
  function FieldText(l: Lookup): (r: Option<string>)
    ensures r.None? <==> l.Raises?
    ensures l.Absent? ==> r == Some(Unknown)
    ensures l.Found? ==> r == Some(Strip(l.text))
    ensures l.Found? && AllSpace(l.text) ==> r == Some("")
  {
    match l
    case Absent => Some(Unknown)
    case Found(text) => Some(Strip(text))
    case Raises => None
  }

  /**
   * The vendor dict built for one card, or `None` when building it raises
   * (the name or the cuisine lookup raised; `_extract_price` catches its own).
   */
  function Normalize(config: PlatformConfig, city: string, card: Card): (r: Option<Vendor>)
    ensures r.None? <==> card.Find(NameSelector).Raises? || card.Find(config.cuisineSelector).Raises?
    ensures r.Some? ==>
              && Some(r.value.name) == FieldText(card.Find(NameSelector))
              && Some(r.value.cuisine) == FieldText(card.Find(config.cuisineSelector))
              && r.value.priceCategory == ExtractPrice(card)
              && r.value.platform == config.platform
              && r.value.city == city
  {
    match (FieldText(card.Find(NameSelector)), FieldText(card.Find(config.cuisineSelector)))
    case (Some(name), Some(cuisine)) =>
      Some(Vendor(name, cuisine, ExtractPrice(card), config.platform, city))
    case _ => None
  }

  /** The results `f` gives on `xs`, in order, up to the first `None`. */
  function UntilNone<A, B>(f: A -> Option<B>, xs: seq<A>): (r: seq<B>)
    ensures |r| <= |xs|
  {
    if xs == [] then []
    else
      match f(xs[0])
      case None => []
      case Some(y) => [y] + UntilNone(f, xs[1..])
  }

  /** Result `i` is what `f` gives on `xs[i]`, and the first input left over gives `None`. */
  lemma {:induction false} UntilNonePrefix<A, B>(f: A -> Option<B>, xs: seq<A>)
    ensures var r := UntilNone(f, xs);
            && (forall i :: 0 <= i < |r| ==> f(xs[i]) == Some(r[i]))
            && (|r| < |xs| ==> f(xs[|r|]).None?)
  {
    if xs != [] && f(xs[0]).Some? {
      var rest := UntilNone(f, xs[1..]);
      UntilNonePrefix(f, xs[1..]);
      var r := [f(xs[0]).value] + rest;
      assert UntilNone(f, xs) == r;
      forall i | 1 <= i < |r|
        ensures f(xs[i]) == Some(r[i])
      {
        assert xs[i] == xs[1..][i - 1] && r[i] == rest[i - 1];
      }
      if |r| < |xs| {
        assert xs[|r|] == xs[1..][|rest|];
      }
    }
  }

  /** The vendors the card loop appends: one per card, up to the first card that raises. */
  function NormalizeAll(config: PlatformConfig, city: string, cards: seq<Card>): (r: seq<Vendor>)
    ensures |r| <= |cards|
  {
    UntilNone(card => Normalize(config, city, card), cards)
  }

  /** What a scraper returns for one fetch result. */
  function Scraped(config: PlatformConfig, city: string, fetched: Option<seq<Card>>): seq<Vendor> {
    match fetched
    case None => []
    case Some(cards) => NormalizeAll(config, city, cards)
  }

  /**
   * The scraper's result, stated outright: vendor `i` is the record of card
   * `i`, and the list stops either at the last card or just before the
   * first card whose record could not be built.
   */
  lemma NormalizeAllPrefix(config: PlatformConfig, city: string, cards: seq<Card>)
    ensures var r := NormalizeAll(config, city, cards);
            && (forall i :: 0 <= i < |r| ==> Normalize(config, city, cards[i]) == Some(r[i]))
            && (|r| < |cards| ==> Normalize(config, city, cards[|r|]).None?)
  {
    UntilNonePrefix(card => Normalize(config, city, card), cards);
  }

  /** On a fetch where no card raises, there is exactly one vendor per card, in card order. */
  lemma OneVendorPerCard(config: PlatformConfig, city: string, cards: seq<Card>)
    requires forall i :: 0 <= i < |cards| ==> Normalize(config, city, cards[i]).Some?
    ensures var r := Scraped(config, city, Some(cards));
            && |r| == |cards|
            && forall i :: 0 <= i < |r| ==> Normalize(config, city, cards[i]) == Some(r[i])
  {
    NormalizeAllPrefix(config, city, cards);
  }

  /** Every vendor a scraper returns carries its platform's label and the query city unchanged. */
  lemma ScrapedLabels(config: PlatformConfig, city: string, fetched: Option<seq<Card>>)
    ensures forall v :: v in Scraped(config, city, fetched) ==> v.platform == config.platform && v.city == city
  {
    if fetched.Some? {
      var r := Scraped(config, city, fetched);
      NormalizeAllPrefix(config, city, fetched.value);
      assert forall i :: 0 <= i < |r| ==> r[i].platform == config.platform && r[i].city == city;
    }
  }

  /**
   * The per-platform scraper (`scrape_foodora` / `scrape_wolt`): never
   * raises; on a failed fetch it returns no vendors, and a card whose record
   * raises ends the loop with the vendors appended before it.
   */
  method Scrape(config: PlatformConfig, city: string, fetched: Option<seq<Card>>) returns (vendors: seq<Vendor>)
    ensures vendors == Scraped(config, city, fetched)
  {
    vendors := [];
    if fetched.None? {
      return;
    }
    var cards := fetched.value;
    var i := 0;
    while i < |cards|
      invariant 0 <= i <= |cards|
      invariant vendors + NormalizeAll(config, city, cards[i..]) == NormalizeAll(config, city, cards)
    {
      var vendor := Normalize(config, city, cards[i]);
      if vendor.None? {
        return;
      }
      assert cards[i..][1..] == cards[i + 1..];
      vendors := vendors + [vendor.value];
      i := i + 1;
    }
  }
}
