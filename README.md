# Food delivery analyzer: extraction and aggregation

This project models the data pipeline of `FoodDeliveryAnalyzer` in
`food_delivery_mvp.py`:

- the per-card vendor record built by `scrape_foodora` and `scrape_wolt`, and
  `_extract_price`, which turns the euro signs of a price element into a
  dollar-sign tier;
- the scraper loop, which appends one vendor per listing card and stops at the
  first card whose record raises;
- `_calculate_price_distribution`, which counts vendors per tier and turns the
  counts into percentages;
- `analyze_data`, which summarises both platforms' vendor lists for one city;
- `generate_report`, which gathers one analysis per city in a dict keyed by city.

The two scrapers are one routine, `Scraper.Scrape`, driven by a
`PlatformConfig` value. The config holds the platform label and the cuisine
selector. Fetching and HTML parsing are abstracted. A fetch is
`Option<seq<Card>>`:

- `None` means the request or the parse raised.
- `Some(cards)` holds the matched cards in document order.

A card is a map from the `find` queries made on it (`h3`, the cuisine
element, `div.price-range`) to what the query gives. That is no element, an
element with a given text, or an exception.

Python's `str.strip()` is modelled with the exact set of characters for which
`str.isspace()` holds. Percentages are exact `real` values `(count / total) * 100`.
`generate_report` takes, beside the city list, the fetch results of each city
in the same order, and the report timestamp as a string.

Modules:

- `Wrappers` holds `Option`.
- `PyStr` holds `strip`, `count` and repetition.
- `Scraper` holds cards, vendors and the card loop.
- `Distribution` holds the price distribution.
- `Analysis` holds `analyze_data`.
- `Report` holds `generate_report`.
- `Scenarios` holds worked examples: concrete cases stated as lemmas.

Three behaviours of the code differ from what one might expect, and the model keeps them:

- The tier is not capped at three dollar signs. Four euro signs give `$$$$`, which the distribution then skips (`Distribution.ManyEurosUntiered`).
- An `h3` element holding only whitespace gives the name `""`, not `"Unknown"` (`Scraper.FieldText`).
- A response with an error status is still parsed, so it yields `Some(cards)`.

## Model

| member | source | states |
|---|---|---|
| `PyStr.Strip` | food_delivery_mvp.py:74 | the stripped text is the piece of the input left after cutting a whitespace-only front and back; it is empty exactly when the input is all whitespace, and otherwise neither starts nor ends with whitespace |
| `PyStr.CountCharMultiplicity` | food_delivery_mvp.py:75 | the one-character `count` is the multiplicity of that character in the text |
| `PyStr.StripKeepsCount` | food_delivery_mvp.py:74-75 | stripping leaves the count of any non-whitespace character (such as `€`) unchanged |
| `PyStr.Repeat` | food_delivery_mvp.py:75 | `'$' * n` has length `n` and consists only of the repeated character |
| `Scraper.ListingUrl` | food_delivery_mvp.py:18 | the listing URL starts with the platform prefix, ends with the platform suffix, and holds exactly the city between them |
| `Scraper.ListingUrlInjective` | food_delivery_mvp.py:45 | two cities with the same listing URL on one platform are the same city |
| `Scraper.AtLeastOne` | food_delivery_mvp.py:75 | `n or 1` on a count is at least 1, is `n` when `n` is positive and 1 when `n` is 0 |
| `Scraper.ExtractPrice` | food_delivery_mvp.py:69-78 | the tier is never empty and made only of `$`; with a price element it has as many `$` as the element text has `€` (at least one, no upper bound); with no element, or when the lookup raises, it is `$` |
| `Scraper.FieldText` | food_delivery_mvp.py:29-30 | name and cuisine: the stripped text when the element exists (`""` for whitespace only), `"Unknown"` when it is absent, an exception when the lookup raises |
| `Scraper.Normalize` | food_delivery_mvp.py:28-34 | a card's record fails exactly when its name or cuisine lookup raises; otherwise its fields are those two texts, the extracted price, the platform label and the query city |
| `Scraper.UntilNonePrefix` | food_delivery_mvp.py:27-35 | the loop's output: result `i` is what input `i` gives, and the first input left over gives nothing |
| `Scraper.NormalizeAll` | food_delivery_mvp.py:54-62 | the card loop appends at most one vendor per card |
| `Scraper.NormalizeAllPrefix` | food_delivery_mvp.py:27-40 | vendor `i` is the record of card `i`, and the list ends at the last card or just before the first card whose record raises, keeping what was appended before it |
| `Scraper.OneVendorPerCard` | food_delivery_mvp.py:25-35 | when no card's record raises, there is exactly one vendor per card, in card order |
| `Scraper.ScrapedLabels` | food_delivery_mvp.py:52-62 | every returned vendor has the scraper's platform label and the query city unchanged |
| `Scraper.Scrape` | food_delivery_mvp.py:15-40 | the scraper never raises; a failed fetch gives no vendors; otherwise the result is the card loop's output as stated by `NormalizeAllPrefix` |
| `Distribution.CountCategory` | food_delivery_mvp.py:117-120 | a tier's counter never exceeds the number of vendors |
| `Distribution.CountCategoryMultiplicity` | food_delivery_mvp.py:117-120 | a tier's counter is the number of times that exact category occurs among the vendors' categories |
| `Distribution.PriceDistribution` | food_delivery_mvp.py:110-122 | the distribution has exactly the keys `$`, `$$`, `$$$`, and all three are 0 for an empty list |
| `Distribution.TierCountsPartition` | food_delivery_mvp.py:117-120 | each vendor is counted under exactly one tier or under none, so the three counters and the skipped vendors add up to the list length |
| `Distribution.NoneUntieredIff` | food_delivery_mvp.py:119 | no vendor is skipped exactly when every category is one of the three keys |
| `Distribution.PercentRange` | food_delivery_mvp.py:122 | a percentage of a part of the total lies in [0, 100] and is 100 exactly for the whole |
| `Distribution.PercentSum` | food_delivery_mvp.py:122 | percentages of one total add up as their counts do |
| `Distribution.TierShare` | food_delivery_mvp.py:116-122 | on a non-empty list each tier's value is 100 times the number of vendors with exactly that category (its multiplicity among the categories) over the total, and lies in [0, 100] |
| `Distribution.DistributionSum` | food_delivery_mvp.py:116-122 | on a non-empty list the three values add up to the share of vendors in some tier: at most 100, and exactly 100 if and only if every vendor's category is a tier |
| `Distribution.ShareSum` | food_delivery_mvp.py:122 | the percentages of three parts of a total that leaves a rest `u` add up to at most 100, and to exactly 100 if and only if `u` is 0 |
| `Distribution.ManyEurosUntiered` | food_delivery_mvp.py:119 | a price text with four or more `€` gives a category outside the three keys, so the distribution skips that vendor |
| `Distribution.CalculatePriceDistribution` | food_delivery_mvp.py:110-122 | the counting loop returns the distribution of its vendor list, with the early return for an empty list |
| `Analysis.NamesBound` | food_delivery_mvp.py:94-96 | there are no more distinct names than vendors, and none exactly when the list is empty |
| `Analysis.Analyze` | food_delivery_mvp.py:88-106 | the summary names its city and has the keys `foodora` and `wolt` in each of its four statistics |
| `Analysis.AnalyzeSummary` | food_delivery_mvp.py:90-105 | per platform: the vendor count is the list length; the unique count is the number of distinct names, at most the vendor count and 0 exactly for an empty list; the cuisine set holds exactly the observed cuisines; the distribution is that of the list |
| `Analysis.AnalysisOfCity` | food_delivery_mvp.py:89 | every analysis carries the city it was made for |
| `Analysis.AnalyzeData` | food_delivery_mvp.py:80-108 | scrapes Foodora, then Wolt, and returns the summary of the two lists |
| `Analysis.FailedFetchSummary` | food_delivery_mvp.py:37-40 | either platform (Foodora or Wolt) whose fetch failed appears under its key with 0 vendors, 0 unique names, no cuisines and an all-zero distribution |
| `Analysis.NamelessCards` | food_delivery_mvp.py:56 | cards without a name element each become a vendor, all named `"Unknown"`, so they count as one distinct name |
| `Report.KeyedPairs` | food_delivery_mvp.py:132-134 | filling a dict key by key in a loop gives exactly the listed keys, each holding the value computed at its last occurrence |
| `Report.GenerateReport` | food_delivery_mvp.py:124-137 | the city loop returns the timestamp, the city list as given, and the dict filled with each city's analysis in order |
| `Report.ReportShape` | food_delivery_mvp.py:126-137 | `cities_analyzed` is the input list; the dict's keys are exactly the input cities; a repeated city holds the analysis of its last occurrence; every entry's `city` is its key |
| `Scenarios.StripKeepsTrimmed` | food_delivery_mvp.py:29 | a name without surrounding whitespace is kept as it is |
| `Scenarios.PricedCardVendor` | food_delivery_mvp.py:28-34 | a card with a trimmed name and a price element becomes the Foodora vendor with that name, cuisine `"Unknown"` and the tier of its euro count |
| `Scenarios.TwoCards` | food_delivery_mvp.py:27-35 | two cards whose records are built give those two vendors, in order |
| `Scenarios.OsloCardVendor` | food_delivery_mvp.py:75 | `€` gives tier `$` and `€€` gives tier `$$` |
| `Scenarios.OsloVendors` | food_delivery_mvp.py:15-40 | the two Oslo cards become the vendors "Cafe A" (`$`) and "Cafe B" (`$$`) |
| `Scenarios.FoodoraShares` | food_delivery_mvp.py:116-122 | one `$` vendor and one `$$` vendor give 50, 50 and 0 |
| `Scenarios.OsloScenario` | food_delivery_mvp.py:80-108 | Oslo with two Foodora cards and a failed Wolt fetch: counts 2 and 0, a 50/50/0 Foodora distribution and an all-zero Wolt one |

## Left out

- `requests.get` and BeautifulSoup (food_delivery_mvp.py:21-25, 48-52) are network I/O and HTML parsing. They, and the card selectors `div.restaurant-card` and `div[data-test-id=venueCard]`, are replaced by the fetch result given as input.
- The listing URL (`Scraper.ListingUrl`) is computed but is not tied to the fetch result, which is an input: the model does not say which page the cards came from.
- The `User-Agent` header (food_delivery_mvp.py:11-13) only matters to the network request.
- For the name and the cuisine the source calls `find` twice, once in the test and once for `.text` (food_delivery_mvp.py:29-30, 56-57). The model gives both calls one result, so a second call that disagrees with the first (and would raise, ending the card loop) is not modelled. The price element is looked up once (food_delivery_mvp.py:72).
- `time.sleep` pauses (food_delivery_mvp.py:84, 135) are wall-clock timing with no effect on the result.
- `pd.Timestamp.now().strftime(...)` (food_delivery_mvp.py:127) reads the system clock through a foreign library. The timestamp is an input string.
- `print` logging throughout has side effects only.
- `save_report` and `json.dump` (food_delivery_mvp.py:139-143) are file I/O and serialisation.
- `run_analysis`, `main` and the `schedule` loop (food_delivery_mvp.py:145-189) are environment reads, an endless scheduling loop and process plumbing.
- frontend/src/App.js is not part of this model. It is a display layer.
- Distribution.PriceDistribution: percentages are exact reals. Python's floating-point `(v/total)*100` is only approximately equal to them.
- Distribution.PriceDistribution: the empty-list result holds the integer `0` in Python and `0.0` here.
- Analysis.Analyze: `cuisine_types` lists are modelled as sets. The order of `list(set(...))` is arbitrary in Python; a set keeps "each observed cuisine once and nothing else".
- Report.GenerateReport: the model keeps no key order for the `analysis` dict. Python keeps first-insertion order.
- Report.GenerateReport: the model keeps no aliasing between `cities_analyzed` and the caller's list.
