/**
 * `generate_insights`: reads the dictionary `analyze_tshirts` returns and
 * derives the heads of the three rankings, the size sold in the largest
 * quantity, and the share of revenue of every ranked size.
 */
module Insights {
  import opened Wrappers
  import opened OrderedDict
  import opened Ranking
  import opened Analyzer

  /**
   * The insights dictionary; a key that `generate_insights` does not set is
   * `None`.
   */
  datatype Insights = Insights(
    topSizeRevenue: Option<Entry<real>>,
    topSizeQuantity: Option<Entry<int>>,
    topColor: Option<Entry<real>>,
    topDesign: Option<Entry<real>>,
    sizeDistribution: Option<seq<Entry<real>>>)

  /**
   * `max(items, key=lambda x: x[1])`: the position of the first entry of
   * largest value, since `max` replaces its candidate only on a strictly
   * larger value.
   */
  function ArgMax(s: seq<Entry<int>>): (j: nat)
    requires |s| > 0
    ensures j < |s|
    ensures forall i :: 0 <= i < |s| ==> s[i].value <= s[j].value
    ensures forall i :: 0 <= i < j ==> s[i].value < s[j].value
  {
    if |s| == 1 then 0
    else
      var m := ArgMax(s[..|s| - 1]);
      if s[|s| - 1].value > s[m].value then |s| - 1 else m
  }

  /** `(revenue / total_revenue) * 100` for every ranked size, in ranking order. */
  function Percentages(ranking: seq<Entry<real>>, total: real): (r: seq<Entry<real>>)
    requires total > 0.0
    ensures |r| == |ranking|
    ensures forall i :: 0 <= i < |r| ==>
              r[i].key == ranking[i].key && r[i].value * total == ranking[i].value * 100.0
  {
    seq(|ranking|, i requires 0 <= i < |ranking| =>
      Entry(ranking[i].key, ranking[i].value / total * 100.0))
  }

  /** The loop that builds `size_percentages` by appending one pair per ranked size. */
  method SizePercentages(ranking: seq<Entry<real>>, total: real) returns (r: seq<Entry<real>>)
    requires total > 0.0
    ensures r == Percentages(ranking, total)
  {
    r := [];
    var i := 0;
    while i < |ranking|
      invariant 0 <= i <= |ranking|
      invariant |r| == i
      invariant forall j :: 0 <= j < i ==> r[j] == Percentages(ranking, total)[j]
    {
      var entry := ranking[i];
      r := r + [Entry(entry.key, entry.value / total * 100.0)];
      i := i + 1;
    }
  }

  /**
   * `generate_insights(analysis_results)`. `None` stands for the
   * `ValueError` that `max` raises when `sorted_sizes` is non-empty but
   * `size_quantity` is empty, which no result of `analyze_tshirts` has.
   */
  function GenerateInsights(a: Analysis): (r: Option<Insights>)
    ensures r.None? <==> |a.sortedSizes| > 0 && |a.sizeQuantity| == 0
    ensures r.Some? ==>
              && (r.value.topSizeRevenue.Some? <==> |a.sortedSizes| > 0)
              && (r.value.topSizeQuantity.Some? <==> |a.sortedSizes| > 0)
              && (r.value.topColor.Some? <==> |a.sortedColors| > 0)
              && (r.value.topDesign.Some? <==> |a.sortedDesigns| > 0)
              && (r.value.sizeDistribution.Some? <==> a.totalRevenue > 0.0)
  {
    if |a.sortedSizes| > 0 && |a.sizeQuantity| == 0 then None
    else
      Some(Insights(
        if |a.sortedSizes| > 0 then Some(a.sortedSizes[0]) else None,
        if |a.sortedSizes| > 0 then Some(a.sizeQuantity[ArgMax(a.sizeQuantity)]) else None,
        if |a.sortedColors| > 0 then Some(a.sortedColors[0]) else None,
        if |a.sortedDesigns| > 0 then Some(a.sortedDesigns[0]) else None,
        if a.totalRevenue > 0.0 then Some(Percentages(a.sortedSizes, a.totalRevenue)) else None))
  }

  /** The head of a non-increasing ranking has the largest revenue of the ranking. */
  lemma HeadIsMaximal(s: seq<Entry<real>>)
    requires SortedDesc(s) && |s| > 0
    ensures forall i :: 0 <= i < |s| ==> s[i].value <= s[0].value
  {
    forall i | 0 < i < |s| ensures s[i].value <= s[0].value {
      assert s[0].value >= s[i].value;
    }
  }

  /**
   * On a result of `analyze_tshirts`, `generate_insights` never raises;
   * each top entry is the first entry of its ranking and has the largest
   * revenue in it; the top size by quantity has the largest quantity of all
   * sizes, is the first such size, and is one of the ranked sizes.
   */
  lemma TopEntries(a: Analysis)
    requires WellFormed(a)
    ensures GenerateInsights(a).Some?
    ensures var r := GenerateInsights(a).value;
            && (r.topSizeRevenue.Some? ==>
                  r.topSizeRevenue.value == a.sortedSizes[0]
                  && forall e :: e in a.sortedSizes ==> e.value <= r.topSizeRevenue.value.value)
            && (r.topColor.Some? ==>
                  r.topColor.value == a.sortedColors[0]
                  && forall e :: e in a.sortedColors ==> e.value <= r.topColor.value.value)
            && (r.topDesign.Some? ==>
                  r.topDesign.value == a.sortedDesigns[0]
                  && forall e :: e in a.sortedDesigns ==> e.value <= r.topDesign.value.value)
            && (r.topSizeQuantity.Some? ==>
                  && r.topSizeQuantity.value in a.sizeQuantity
                  && r.topSizeQuantity.value.key in KeySet(a.sortedSizes)
                  && forall e :: e in a.sizeQuantity ==> e.value <= r.topSizeQuantity.value.value)
  {
    if |a.sortedSizes| > 0 {
      assert a.sortedSizes[0].key in KeySet(a.sortedSizes);
      assert |a.sizeQuantity| > 0;
      HeadIsMaximal(a.sortedSizes);
      var j := ArgMax(a.sizeQuantity);
      assert a.sizeQuantity[j].key in KeySet(a.sizeQuantity);
    }
    if |a.sortedColors| > 0 {
      HeadIsMaximal(a.sortedColors);
    }
    if |a.sortedDesigns| > 0 {
      HeadIsMaximal(a.sortedDesigns);
    }
  }

  lemma ScaleSum(x: real, y: real, total: real)
    requires total > 0.0
    ensures x / total * 100.0 + y / total * 100.0 == (x + y) / total * 100.0
  {
  }

  /** The shares of a list of revenues add up to their total's share. */
  lemma {:induction false} PercentagesSum(s: seq<Entry<real>>, total: real)
    requires total > 0.0
    ensures SumReal(Percentages(s, total)) == SumReal(s) / total * 100.0
    decreases s
  {
    if s != [] {
      var ps := Percentages(s, total);
      assert ps[1..] == Percentages(s[1..], total);
      PercentagesSum(s[1..], total);
      ScaleSum(s[0].value, SumReal(s[1..]), total);
    }
  }

  lemma ScaleMonotone(x: real, y: real, total: real)
    requires total > 0.0 && x >= y
    ensures x / total * 100.0 >= y / total * 100.0
  {
    assert x / total - y / total == (x - y) / total;
  }

  /**
   * The shares of a non-increasing list of revenues, taken of their own
   * positive total, are non-increasing and add up to 100.
   */
  lemma Shares(s: seq<Entry<real>>, total: real)
    requires SortedDesc(s) && SumReal(s) == total && total > 0.0
    ensures SortedDesc(Percentages(s, total))
    ensures SumReal(Percentages(s, total)) == 100.0
  {
    var d := Percentages(s, total);
    PercentagesSum(s, total);
    assert total / total == 1.0;
    forall i, j | 0 <= i < j < |d| ensures d[i].value >= d[j].value {
      ScaleMonotone(s[i].value, s[j].value, total);
    }
  }

  /**
   * With positive revenue, the size distribution lists every ranked size
   * once, in ranking order, with its share `revenue / total_revenue * 100`;
   * the shares are non-increasing and add up to exactly 100.
   */
  lemma SizeDistribution(a: Analysis)
    requires WellFormed(a) && a.totalRevenue > 0.0
    ensures GenerateInsights(a).Some?
    ensures var d := GenerateInsights(a).value.sizeDistribution;
            && d.Some?
            && |d.value| == |a.sortedSizes|
            && (forall i :: 0 <= i < |d.value| ==>
                  d.value[i].key == a.sortedSizes[i].key
                  && d.value[i].value == a.sortedSizes[i].value / a.totalRevenue * 100.0)
            && SortedDesc(d.value)
            && SumReal(d.value) == 100.0
  {
    TopEntries(a);
    Shares(a.sortedSizes, a.totalRevenue);
  }

  /** Without positive revenue there is no size distribution. */
  lemma NoDistribution(a: Analysis)
    requires a.totalRevenue <= 0.0 && GenerateInsights(a).Some?
    ensures GenerateInsights(a).value.sizeDistribution.None?
  {
  }

  /** `generate_insights(analyze_tshirts(rows))` for any rows. */
  lemma AnalyzeThenInsights(p: Rows.Parsers, rows: seq<Rows.Row>)
    ensures GenerateInsights(Analyze(p, rows)).Some?
    ensures Analyze(p, rows).totalRevenue > 0.0 ==>
              SumReal(GenerateInsights(Analyze(p, rows)).value.sizeDistribution.value) == 100.0
  {
    AnalyzeWellFormed(p, rows);
    TopEntries(Analyze(p, rows));
    if Analyze(p, rows).totalRevenue > 0.0 {
      SizeDistribution(Analyze(p, rows));
    }
  }
}
