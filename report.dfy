/**
 * `FoodDeliveryAnalyzer.generate_report`: one analysis per city, gathered
 * in a dict keyed by city, stamped once with the generation time.
 */
module Report {
  import opened Analysis

  /** The report dict; the timestamp is the caller's formatted clock reading. */
  datatype Report = Report(
    timestamp: string,
    citiesAnalyzed: seq<string>,
    analysis: map<string, CityAnalysis>)

  /**
   * A dict filled by assigning `values[i]` to `keys[i]` for each `i` in
   * order, so that a later assignment to the same key overwrites an earlier one.
   */
  ghost function KeyedByLast<T>(keys: seq<string>, values: seq<T>): map<string, T>
    requires |values| == |keys|
  {
    if keys == [] then map[]
    else
      var n := |keys| - 1;
      KeyedByLast(keys[..n], values[..n])[keys[n] := values[n]]
  }

  /** One more assignment updates the dict at its key. */
  lemma KeyedByLastSnoc<T>(keys: seq<string>, values: seq<T>, key: string, value: T)
    requires |values| == |keys|
    ensures KeyedByLast(keys + [key], values + [value]) == KeyedByLast(keys, values)[key := value]
  {
    assert (keys + [key])[..|keys|] == keys && (values + [value])[..|keys|] == values;
  }

  /** Position `j` holds the last occurrence of its key in `keys`. */
  ghost predicate IsLastOccurrence(keys: seq<string>, j: int) {
    0 <= j < |keys| && forall k :: j < k < |keys| ==> keys[k] != keys[j]
  }

  /** The dict is keyed by exactly the assigned keys. */
  lemma {:induction false} KeyedByLastKeys<T>(keys: seq<string>, values: seq<T>)
    requires |values| == |keys|
    ensures forall c :: c in KeyedByLast(keys, values) <==> c in keys
  {
    if keys != [] {
      var n := |keys| - 1;
      KeyedByLastKeys(keys[..n], values[..n]);
      assert keys == keys[..n] + [keys[n]];
    }
  }

  /** A key assigned more than once holds the value of its last assignment. */
  lemma {:induction false} KeyedByLastValue<T>(keys: seq<string>, values: seq<T>, j: int)
    requires |values| == |keys|
    requires IsLastOccurrence(keys, j)
    ensures keys[j] in KeyedByLast(keys, values)
    ensures KeyedByLast(keys, values)[keys[j]] == values[j]
  {
    var n := |keys| - 1;
    if j < n {
      KeyedByLastValue(keys[..n], values[..n], j);
    }
  }

  /** Every value of the dict is the value of some last assignment. */
  lemma {:induction false} KeyedByLastFrom<T>(keys: seq<string>, values: seq<T>, c: string)
    requires |values| == |keys|
    requires c in KeyedByLast(keys, values)
    ensures exists j :: IsLastOccurrence(keys, j) && keys[j] == c && KeyedByLast(keys, values)[c] == values[j]
  {
    var n := |keys| - 1;
    if keys[n] == c {
      assert IsLastOccurrence(keys, n);
    } else {
      KeyedByLastFrom(keys[..n], values[..n], c);
      var j :| IsLastOccurrence(keys[..n], j) && keys[..n][j] == c
               && KeyedByLast(keys[..n], values[..n])[c] == values[..n][j];
      assert IsLastOccurrence(keys, j);
    }
  }

  /** `[f(xs[0], ys[0]), f(xs[1], ys[1]), ...]`: one result per pair, in order. */
  ghost function MapPairs<A, B, T>(f: (A, B) -> T, xs: seq<A>, ys: seq<B>): (r: seq<T>)
    requires |ys| == |xs|
    ensures |r| == |xs|
  {
    if xs == [] then []
    else
      var n := |xs| - 1;
      MapPairs(f, xs[..n], ys[..n]) + [f(xs[n], ys[n])]
  }

  /** Result `j` is `f` applied to pair `j`. */
  lemma {:induction false} MapPairsAt<A, B, T>(f: (A, B) -> T, xs: seq<A>, ys: seq<B>, j: int)
    requires |ys| == |xs| && 0 <= j < |xs|
    ensures MapPairs(f, xs, ys)[j] == f(xs[j], ys[j])
  {
    var n := |xs| - 1;
    if j < n {
      MapPairsAt(f, xs[..n], ys[..n], j);
    }
  }

  /** One more pair adds its result at the end. */
  lemma MapPairsSnoc<A, B, T>(f: (A, B) -> T, xs: seq<A>, ys: seq<B>, i: int)
    requires |ys| == |xs| && 0 <= i < |xs|
    ensures MapPairs(f, xs[..i + 1], ys[..i + 1]) == MapPairs(f, xs[..i], ys[..i]) + [f(xs[i], ys[i])]
  {
    assert xs[..i + 1][..i] == xs[..i] && ys[..i + 1][..i] == ys[..i];
  }

  /** One more pair extends both the result list and the dict filled from it. */
  lemma KeyedPairsStep<A, T>(f: (string, A) -> T, keys: seq<string>, args: seq<A>, i: int, done: seq<T>, value: T)
    requires |args| == |keys| && 0 <= i < |keys|
    requires done == MapPairs(f, keys[..i], args[..i]) && value == f(keys[i], args[i])
    ensures done + [value] == MapPairs(f, keys[..i + 1], args[..i + 1])
    ensures KeyedByLast(keys[..i + 1], done + [value]) == KeyedByLast(keys[..i], done)[keys[i] := value]
  {
    MapPairsSnoc(f, keys, args, i);
    assert keys[..i + 1] == keys[..i] + [keys[i]];
    KeyedByLastSnoc(keys[..i], done, keys[i], value);
  }

  /** The analyses the loop computes, one per listed city, in order. */
  ghost function Analyses(cities: seq<string>, responses: seq<CityResponses>): (r: seq<CityAnalysis>)
    requires |responses| == |cities|
    ensures |r| == |cities|
  {
    MapPairs(AnalysisOf, cities, responses)
  }

  /**
   * The city loop of `generate_report`. `responses[i]` are the fetch results
   * met while analysing `cities[i]`; the listed cities are kept as given.
   */
  method GenerateReport(timestamp: string, cities: seq<string>, responses: seq<CityResponses>)
    returns (report: Report)
    requires |responses| == |cities|
    ensures report == Report(timestamp, cities, KeyedByLast(cities, Analyses(cities, responses)))
  {
    var analysis: map<string, CityAnalysis> := map[];
    ghost var results: seq<CityAnalysis> := [];
    for i := 0 to |cities|
      invariant results == Analyses(cities[..i], responses[..i])
      invariant analysis == KeyedByLast(cities[..i], results)
    {
      var cityAnalysis := AnalyzeData(cities[i], responses[i]);
      KeyedPairsStep(AnalysisOf, cities, responses, i, results, cityAnalysis);
      analysis := analysis[cities[i] := cityAnalysis];
      results := results + [cityAnalysis];
    }
    assert cities[..|cities|] == cities && responses[..|responses|] == responses;
    report := Report(timestamp, cities, analysis);
  }

  /**
   * The dict filled from `MapPairs(f, keys, args)` has exactly the listed keys,
   * and each holds `f` of the pair at the key's last occurrence.
   */
  lemma KeyedPairs<A, T>(f: (string, A) -> T, keys: seq<string>, args: seq<A>)
    requires |args| == |keys|
    ensures forall c :: c in KeyedByLast(keys, MapPairs(f, keys, args)) <==> c in keys
    ensures forall j :: IsLastOccurrence(keys, j) ==>
              KeyedByLast(keys, MapPairs(f, keys, args))[keys[j]] == f(keys[j], args[j])
    ensures forall c :: c in KeyedByLast(keys, MapPairs(f, keys, args)) ==>
              exists j :: IsLastOccurrence(keys, j) && keys[j] == c
                          && KeyedByLast(keys, MapPairs(f, keys, args))[c] == f(keys[j], args[j])
  {
    var results := MapPairs(f, keys, args);
    var m := KeyedByLast(keys, results);
    KeyedByLastKeys(keys, results);
    forall j | IsLastOccurrence(keys, j)
      ensures m[keys[j]] == f(keys[j], args[j])
    {
      KeyedByLastValue(keys, results, j);
      MapPairsAt(f, keys, args, j);
    }
    forall c | c in m
      ensures exists j :: IsLastOccurrence(keys, j) && keys[j] == c && m[c] == f(keys[j], args[j])
    {
      KeyedByLastFrom(keys, results, c);
      var j :| IsLastOccurrence(keys, j) && keys[j] == c && m[c] == results[j];
      MapPairsAt(f, keys, args, j);
    }
  }

  /**
   * What a caller of `GenerateReport` may rely on: the listed cities are
   * kept, the analysis has one entry per distinct city, that entry is the
   * analysis of the city's last occurrence, and it names its own key.
   */
  lemma ReportShape(timestamp: string, cities: seq<string>, responses: seq<CityResponses>)
    requires |responses| == |cities|
    ensures var report := Report(timestamp, cities, KeyedByLast(cities, Analyses(cities, responses)));
            && report.citiesAnalyzed == cities
            && (forall c :: c in report.analysis <==> c in cities)
            && (forall c :: c in report.analysis ==> report.analysis[c].city == c)
            && (forall j :: IsLastOccurrence(cities, j) ==>
                  report.analysis[cities[j]] == AnalysisOf(cities[j], responses[j]))
  {
    var analysis := KeyedByLast(cities, Analyses(cities, responses));
    KeyedPairs(AnalysisOf, cities, responses);
    forall c | c in analysis
      ensures analysis[c].city == c
    {
      var j :| IsLastOccurrence(cities, j) && cities[j] == c && analysis[c] == AnalysisOf(cities[j], responses[j]);
      AnalysisOfCity(cities[j], responses[j]);
    }
  }
}
