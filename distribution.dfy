/**
 * `FoodDeliveryAnalyzer._calculate_price_distribution`: the share of a
 * vendor list in each of the three price tiers, as exact percentages.
 */
module Distribution {
  import opened PyStr
  import opened Scraper

  /** The keys of the distribution dict; any other category is skipped. */
  const Tiers: set<string> := {"$", "$$", "$$$"}

  /** The price categories of `vendors`, in order. */
  function Categories(vendors: seq<Vendor>): (cs: seq<string>)
    ensures |cs| == |vendors| && forall i :: 0 <= i < |vendors| ==> cs[i] == vendors[i].priceCategory
  {
    seq(|vendors|, i requires 0 <= i < |vendors| => vendors[i].priceCategory)
  }

  /** The number of vendors whose category is exactly `tier`. */
  function CountCategory(vendors: seq<Vendor>, tier: string): (n: nat)
    ensures n <= |vendors|
  {
    if vendors == [] then 0
    else CountCategory(vendors[..|vendors| - 1], tier) + (if vendors[|vendors| - 1].priceCategory == tier then 1 else 0)
  }

  /** A tier's counter is the multiplicity of the tier among the vendors' categories. */
  lemma {:induction false} CountCategoryMultiplicity(vendors: seq<Vendor>, tier: string)
    ensures CountCategory(vendors, tier) == multiset(Categories(vendors))[tier]
  {
    if vendors != [] {
      var init := vendors[..|vendors| - 1];
      CountCategoryMultiplicity(init, tier);
      assert Categories(vendors) == Categories(init) + [vendors[|vendors| - 1].priceCategory];
    }
  }

  /** The number of vendors whose category is none of the three tiers. */
  function CountUntiered(vendors: seq<Vendor>): nat {
    if vendors == [] then 0
    else CountUntiered(vendors[..|vendors| - 1]) + (if vendors[|vendors| - 1].priceCategory in Tiers then 0 else 1)
  }

  /** `(count / total) * 100`, computed exactly. */
  function Percent(count: nat, total: nat): real
    requires total > 0
  {
    (count as real / total as real) * 100.0
  }

  /** The dict `_calculate_price_distribution` returns. */
  function PriceDistribution(vendors: seq<Vendor>): (d: map<string, real>)
    ensures d.Keys == Tiers
    ensures vendors == [] ==> d == map["$" := 0.0, "$$" := 0.0, "$$$" := 0.0]
  {
    if |vendors| == 0 then map["$" := 0.0, "$$" := 0.0, "$$$" := 0.0]
    else map tier | tier in Tiers :: Percent(CountCategory(vendors, tier), |vendors|)
  }

  /** Every vendor falls in exactly one of the three tiers or outside them all. */
  lemma {:induction false} TierCountsPartition(vendors: seq<Vendor>)
    ensures CountCategory(vendors, "$") + CountCategory(vendors, "$$") + CountCategory(vendors, "$$$")
            + CountUntiered(vendors) == |vendors|
  {
    if vendors != [] {
      TierCountsPartition(vendors[..|vendors| - 1]);
    }
  }

  /** No vendor lies outside the tiers exactly when every category is a tier. */
  lemma {:induction false} NoneUntieredIff(vendors: seq<Vendor>)
    ensures CountUntiered(vendors) == 0 <==> forall i :: 0 <= i < |vendors| ==> vendors[i].priceCategory in Tiers
  {
    if vendors != [] {
      var init := vendors[..|vendors| - 1];
      NoneUntieredIff(init);
      assert forall i :: 0 <= i < |init| ==> init[i] == vendors[i];
    }
  }

  lemma PercentTimesTotal(n: nat, total: nat)
    requires total > 0
    ensures Percent(n, total) * total as real == 100.0 * n as real
  {
    var q := n as real / total as real;
    assert q * total as real == n as real;
  }

  /** A percentage of a part is between 0 and 100, and 100 only for the whole. */
  lemma PercentRange(n: nat, total: nat)
    requires 0 < total && n <= total
    ensures 0.0 <= Percent(n, total) <= 100.0
    ensures Percent(n, total) == 100.0 <==> n == total
  {
    PercentTimesTotal(n, total);
    var p, t := Percent(n, total), total as real;
    assert (100.0 - p) * t == 100.0 * (t - n as real);
    NonNegativeFactor(100.0 - p, t);
    if p == 100.0 {
      assert 100.0 * t == 100.0 * n as real;
    }
  }

  lemma NonNegativeFactor(x: real, t: real)
    requires t > 0.0 && x * t >= 0.0
    ensures x >= 0.0
  {
  }

  /** Percentages of one total add up like the counts do. */
  lemma PercentSum(a: nat, b: nat, c: nat, total: nat)
    requires total > 0
    ensures Percent(a, total) + Percent(b, total) + Percent(c, total) == Percent(a + b + c, total)
  {
    PercentTimesTotal(a, total);
    PercentTimesTotal(b, total);
    PercentTimesTotal(c, total);
    PercentTimesTotal(a + b + c, total);
    var t := total as real;
    var lhs, rhs := Percent(a, total) + Percent(b, total) + Percent(c, total), Percent(a + b + c, total);
    assert lhs * t == rhs * t;
  }

  /**
   * On a non-empty list each tier's value is the exact percentage of vendors
   * with that category, and so lies between 0 and 100.
   */
  lemma TierShare(vendors: seq<Vendor>, tier: string)
    requires vendors != [] && tier in Tiers
    ensures PriceDistribution(vendors)[tier] == Percent(CountCategory(vendors, tier), |vendors|)
    ensures PriceDistribution(vendors)[tier] == Percent(multiset(Categories(vendors))[tier], |vendors|)
    ensures 0.0 <= PriceDistribution(vendors)[tier] <= 100.0
  {
    CountCategoryMultiplicity(vendors, tier);
    PercentRange(CountCategory(vendors, tier), |vendors|);
  }

  /**
   * On a non-empty list the three values add up to the share of vendors in
   * some tier: at most 100, and exactly 100 when, and only when, every
   * vendor's category is one of the three tiers.
   */
  lemma DistributionSum(vendors: seq<Vendor>)
    requires vendors != []
    ensures CountUntiered(vendors) <= |vendors|
    ensures var d := PriceDistribution(vendors);
            && d["$"] + d["$$"] + d["$$$"] == Percent(|vendors| - CountUntiered(vendors), |vendors|)
            && d["$"] + d["$$"] + d["$$$"] <= 100.0
            && (d["$"] + d["$$"] + d["$$$"] == 100.0 <==>
                forall i :: 0 <= i < |vendors| ==> vendors[i].priceCategory in Tiers)
  {
    var d := PriceDistribution(vendors);
    var a, b, c := CountCategory(vendors, "$"), CountCategory(vendors, "$$"), CountCategory(vendors, "$$$");
    assert d["$"] == Percent(a, |vendors|) && d["$$"] == Percent(b, |vendors|) && d["$$$"] == Percent(c, |vendors|);
    TierCountsPartition(vendors);
    NoneUntieredIff(vendors);
    ShareSum(a, b, c, CountUntiered(vendors), |vendors|);
  }

  /** Three disjoint parts of a total, besides a rest `u`, make up 100 percent exactly when `u` is 0. */
  lemma ShareSum(a: nat, b: nat, c: nat, u: nat, total: nat)
    requires a + b + c + u == total && total > 0
    ensures Percent(a, total) + Percent(b, total) + Percent(c, total) == Percent(total - u, total)
    ensures Percent(total - u, total) <= 100.0
    ensures Percent(total - u, total) == 100.0 <==> u == 0
  {
    PercentSum(a, b, c, total);
    PercentRange(a + b + c, total);
  }

  /**
   * A card whose price text holds four or more euro signs gets a category
   * that is none of the tiers, so the distribution passes over it.
   */
  lemma ManyEurosUntiered(card: Card)
    requires card.Find(PriceSelector).Found? && CountChar(card.Find(PriceSelector).text, '€') >= 4
    ensures ExtractPrice(card) !in Tiers
  {
  }

  /**
   * The counting loop of `_calculate_price_distribution`: a counter per tier,
   * bumped for each vendor whose category is a key, then turned into
   * percentages of the whole list.
   */
  method CalculatePriceDistribution(vendors: seq<Vendor>) returns (d: map<string, real>)
    ensures d == PriceDistribution(vendors)
  {
    var total := |vendors|;
    if total == 0 {
      return map["$" := 0.0, "$$" := 0.0, "$$$" := 0.0];
    }
    var counts: map<string, nat> := map["$" := 0, "$$" := 0, "$$$" := 0];
    for i := 0 to total
      invariant counts.Keys == Tiers
      invariant forall tier :: tier in Tiers ==> counts[tier] == CountCategory(vendors[..i], tier)
    {
      assert vendors[..i + 1][..i] == vendors[..i];
      var category := vendors[i].priceCategory;
      if category in counts {
        counts := counts[category := counts[category] + 1];
      }
    }
    assert vendors[..total] == vendors;
    d := map tier | tier in counts :: Percent(counts[tier], total);
  }
}
