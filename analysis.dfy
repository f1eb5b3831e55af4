/**
 * `FoodDeliveryAnalyzer.analyze_data`: scrape both platforms for one city
 * and summarise each vendor list by its size, its distinct names, its
 * distinct cuisines and its price distribution.
 */
module Analysis {
  import opened Wrappers
  import opened Scraper
  import opened Distribution

  /** The keys under which each statistic is reported. */
  const FoodoraKey := "foodora"
  const WoltKey := "wolt"
  const PlatformKeys: set<string> := {"foodora", "wolt"}

  /** The dict `analyze_data` returns; `cuisine_types` lists are unordered, so they are sets here. */
  datatype CityAnalysis = CityAnalysis(
    city: string,
    vendorCounts: map<string, nat>,
    uniqueVendors: map<string, nat>,
    cuisineTypes: map<string, set<string>>,
    priceDistribution: map<string, map<string, real>>)

  /** The two fetch results an `analyze_data` call works from, Foodora's first. */
  datatype CityResponses = CityResponses(foodora: Option<seq<Card>>, wolt: Option<seq<Card>>)

  /** `set(v['name'] for v in vendors)` */
  function Names(vendors: seq<Vendor>): set<string> {
    set v | v in vendors :: v.name
  }

  /** `set(v['cuisine'] for v in vendors)` */
  function Cuisines(vendors: seq<Vendor>): set<string> {
    set v | v in vendors :: v.cuisine
  }

  /** There are no more distinct names than vendors, and none only when there are no vendors. */
  lemma {:induction false} NamesBound(vendors: seq<Vendor>)
    ensures |Names(vendors)| <= |vendors|
    ensures |Names(vendors)| == 0 <==> vendors == []
  {
    if vendors != [] {
      var init, last := vendors[..|vendors| - 1], vendors[|vendors| - 1];
      NamesBound(init);
      assert vendors == init + [last];
      assert Names(vendors) == Names(init) + {last.name};
    }
  }

  /** What `analyze_data` reports about one platform's vendor list under `key`. */
  ghost predicate PlatformSummary(a: CityAnalysis, key: string, vendors: seq<Vendor>) {
    && key in a.vendorCounts && key in a.uniqueVendors && key in a.cuisineTypes && key in a.priceDistribution
    && a.vendorCounts[key] == |vendors|
    && a.uniqueVendors[key] <= a.vendorCounts[key]
    && (a.uniqueVendors[key] == 0 <==> vendors == [])
    && (forall name :: name in Names(vendors) <==> exists i :: 0 <= i < |vendors| && vendors[i].name == name)
    && a.uniqueVendors[key] == |Names(vendors)|
    && (forall c :: c in a.cuisineTypes[key] <==> exists i :: 0 <= i < |vendors| && vendors[i].cuisine == c)
    && a.priceDistribution[key] == PriceDistribution(vendors)
  }

  /** The statistics part of `analyze_data`, given the two scraped lists. */
  function Analyze(city: string, foodora: seq<Vendor>, wolt: seq<Vendor>): (a: CityAnalysis)
    ensures a.city == city
    ensures a.vendorCounts.Keys == a.uniqueVendors.Keys == a.cuisineTypes.Keys == a.priceDistribution.Keys
            == PlatformKeys
  {
    CityAnalysis(
      city,
      map[FoodoraKey := |foodora|, WoltKey := |wolt|],
      map[FoodoraKey := |Names(foodora)|, WoltKey := |Names(wolt)|],
      map[FoodoraKey := Cuisines(foodora), WoltKey := Cuisines(wolt)],
      map[FoodoraKey := PriceDistribution(foodora), WoltKey := PriceDistribution(wolt)])
  }

  /**
   * Each platform's list is summarised under its key: the vendor count is
   * the list's length, the unique count is the number of distinct names (no
   * more than the vendor count, and zero only for an empty list), the
   * cuisine set holds exactly the cuisines that occur, and the distribution
   * is that of the list.
   */
  lemma AnalyzeSummary(city: string, foodora: seq<Vendor>, wolt: seq<Vendor>)
    ensures PlatformSummary(Analyze(city, foodora, wolt), FoodoraKey, foodora)
    ensures PlatformSummary(Analyze(city, foodora, wolt), WoltKey, wolt)
  {
    NamesBound(foodora);
    NamesBound(wolt);
  }

  /** The whole of `analyze_data` for one city: the Foodora scrape, the Wolt scrape, the summary. */
  function AnalysisOf(city: string, responses: CityResponses): CityAnalysis {
    Analyze(city, Scraped(Foodora, city, responses.foodora), Scraped(Wolt, city, responses.wolt))
  }

  /** Every analysis names the city it was made for. */
  lemma AnalysisOfCity(city: string, responses: CityResponses)
    ensures AnalysisOf(city, responses).city == city
  {
  }

  /**
   * `analyze_data`: runs both scrapers on the city's responses (Foodora
   * first) and builds the summary from their lists.
   */
  method AnalyzeData(city: string, responses: CityResponses) returns (a: CityAnalysis)
    ensures a == AnalysisOf(city, responses)
  {
    var foodoraVendors := Scrape(Foodora, city, responses.foodora);
    var woltVendors := Scrape(Wolt, city, responses.wolt);
    var foodoraPrices := CalculatePriceDistribution(foodoraVendors);
    var woltPrices := CalculatePriceDistribution(woltVendors);
    a := CityAnalysis(
      city,
      map[FoodoraKey := |foodoraVendors|, WoltKey := |woltVendors|],
      map[FoodoraKey := |Names(foodoraVendors)|, WoltKey := |Names(woltVendors)|],
      map[FoodoraKey := Cuisines(foodoraVendors), WoltKey := Cuisines(woltVendors)],
      map[FoodoraKey := foodoraPrices, WoltKey := woltPrices]);
  }

  /** A platform whose fetch failed is summarised as empty, with an all-zero distribution. */
  lemma FailedFetchSummary(city: string, responses: CityResponses, key: string)
    requires (key == FoodoraKey && responses.foodora.None?) || (key == WoltKey && responses.wolt.None?)
    ensures var a := AnalysisOf(city, responses);
            && a.vendorCounts[key] == 0 && a.uniqueVendors[key] == 0 && a.cuisineTypes[key] == {}
            && a.priceDistribution[key] == map["$" := 0.0, "$$" := 0.0, "$$$" := 0.0]
  {
    var a := AnalysisOf(city, responses);
    var foodora, wolt := Scraped(Foodora, city, responses.foodora), Scraped(Wolt, city, responses.wolt);
    AnalyzeSummary(city, foodora, wolt);
    if key == FoodoraKey {
      assert foodora == [];
    } else {
      assert wolt == [];
    }
    assert forall c :: c !in a.cuisineTypes[key];
  }

  /**
   * Cards without a name element all become vendors named "Unknown": each
   * counts as a vendor, and together they count as one distinct name.
   */
  lemma NamelessCards(config: PlatformConfig, city: string, cards: seq<Card>)
    requires cards != []
    requires forall i :: 0 <= i < |cards| ==>
               cards[i].Find(NameSelector).Absent? && !cards[i].Find(config.cuisineSelector).Raises?
    ensures |Scraped(config, city, Some(cards))| == |cards|
    ensures Names(Scraped(config, city, Some(cards))) == {Unknown}
  {
    var r := Scraped(config, city, Some(cards));
    OneVendorPerCard(config, city, cards);
    assert forall i :: 0 <= i < |r| ==> r[i].name == Unknown;
    assert r[0].name == Unknown;
  }
}
