/**
 * Worked examples of the pipeline on small inputs: concrete cases a reader
 * can follow by hand, stated as lemmas about the model.
 */
module Scenarios {
  import opened Wrappers
  import opened PyStr
  import opened Scraper
  import opened Distribution
  import opened Analysis

  /** A card with a name element and a price element of the given texts. */
  function PricedCard(name: string, price: string): Card {
    Card(map[NameSelector := Found(name), PriceSelector := Found(price)])
  }

  /** A name without surrounding whitespace is kept as it is. */
  lemma StripKeepsTrimmed(s: string)
    requires s != [] && !IsSpace(s[0]) && !IsSpace(s[|s| - 1])
    ensures Strip(s) == s
  {
    assert LeadingSpace(s) == 0;
    assert s[0..] == s;
    assert TrailingSpace(s) == 0;
  }

  /** A card named `name` and priced with the text `price` becomes a Foodora vendor in the tier of its euro count. */
  lemma PricedCardVendor(name: string, price: string, city: string)
    requires name != [] && !IsSpace(name[0]) && !IsSpace(name[|name| - 1])
    ensures Normalize(Foodora, city, PricedCard(name, price))
            == Some(Vendor(name, Unknown, Repeat('$', AtLeastOne(CountChar(price, '€'))), "Foodora", city))
  {
    StripKeepsTrimmed(name);
    var card := PricedCard(name, price);
    assert card.Find(NameSelector) == Found(name);
    assert card.Find(PriceSelector) == Found(price);
    assert card.Find(Foodora.cuisineSelector) == Absent;
    var r := ExtractPrice(card);
    assert r == Repeat('$', |r|);
  }

  /** The two Foodora cards of the Oslo scenario. */
  function OsloCards(): seq<Card> {
    [PricedCard("Cafe A", "€"), PricedCard("Cafe B", "€€")]
  }

  /** Two cards whose records can be built give those two records, in order. */
  lemma TwoCards(config: PlatformConfig, city: string, c1: Card, c2: Card, v1: Vendor, v2: Vendor)
    requires Normalize(config, city, c1) == Some(v1) && Normalize(config, city, c2) == Some(v2)
    ensures Scraped(config, city, Some([c1, c2])) == [v1, v2]
  {
    assert [c1, c2][1..] == [c2];
    assert NormalizeAll(config, city, [c2]) == [v2];
  }

  /** A card priced with one or two euro signs lands in the tier of one or two dollar signs. */
  lemma OsloCardVendor(name: string, price: string, tier: string)
    requires name != [] && !IsSpace(name[0]) && !IsSpace(name[|name| - 1])
    requires (price == "€" && tier == "$") || (price == "€€" && tier == "$$")
    ensures Normalize(Foodora, "oslo", PricedCard(name, price)) == Some(Vendor(name, Unknown, tier, "Foodora", "oslo"))
  {
    PricedCardVendor(name, price, "oslo");
    if price == "€" {
      assert CountChar(price, '€') == 1;
      assert Repeat('$', 1) == "$";
    } else {
      assert price[1..] == "€" && CountChar("€", '€') == 1;
      assert CountChar(price, '€') == 2;
      assert Repeat('$', 2) == "$$";
    }
  }

  /** The Oslo cards become the two vendors "Cafe A" in tier `$` and "Cafe B" in tier `$$`. */
  lemma OsloVendors()
    ensures Scraped(Foodora, "oslo", Some(OsloCards()))
            == [Vendor("Cafe A", Unknown, "$", "Foodora", "oslo"), Vendor("Cafe B", Unknown, "$$", "Foodora", "oslo")]
  {
    OsloCardVendor("Cafe A", "€", "$");
    OsloCardVendor("Cafe B", "€€", "$$");
    TwoCards(Foodora, "oslo", PricedCard("Cafe A", "€"), PricedCard("Cafe B", "€€"),
             Vendor("Cafe A", Unknown, "$", "Foodora", "oslo"), Vendor("Cafe B", Unknown, "$$", "Foodora", "oslo"));
  }

  /**
   * Oslo, with two Foodora cards priced with one and two euro signs and a
   * Wolt fetch that fails: two vendors against none, half of Foodora's in
   * each of the two lower tiers, and an all-zero Wolt distribution.
   */
  lemma OsloScenario()
    ensures var a := AnalysisOf("oslo", CityResponses(Some(OsloCards()), None));
            && a.vendorCounts == map[FoodoraKey := 2, WoltKey := 0]
            && a.priceDistribution[FoodoraKey] == map["$" := 50.0, "$$" := 50.0, "$$$" := 0.0]
            && a.priceDistribution[WoltKey] == map["$" := 0.0, "$$" := 0.0, "$$$" := 0.0]
  {
    OsloVendors();
    FoodoraShares(Vendor("Cafe A", Unknown, "$", "Foodora", "oslo"), Vendor("Cafe B", Unknown, "$$", "Foodora", "oslo"));
  }

  /** One vendor in tier `$` and one in tier `$$` split the distribution half and half. */
  lemma FoodoraShares(a: Vendor, b: Vendor)
    requires a.priceCategory == "$" && b.priceCategory == "$$"
    ensures PriceDistribution([a, b]) == map["$" := 50.0, "$$" := 50.0, "$$$" := 0.0]
  {
    var vs := [a, b];
    assert vs[..1] == [a];
    assert |"$"| == 1 && |"$$"| == 2 && |"$$$"| == 3;
    assert CountCategory([a], "$$") == 0 && CountCategory([a], "$$$") == 0;
    assert CountCategory(vs, "$") == 1 && CountCategory(vs, "$$") == 1 && CountCategory(vs, "$$$") == 0;
  }
}
