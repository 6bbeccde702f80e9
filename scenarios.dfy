/**
 * Worked examples: `analyze_tshirts` and `generate_insights` on concrete
 * inputs, stated for every pair of parsers that convert the strings involved as Python's
 * `float()` and `int()` do.
 */
module Scenarios {
  import opened Wrappers
  import opened Casing
  import opened OrderedDict
  import opened Ranking
  import opened Rows
  import opened Analyzer
  import opened Insights

  /** No rows: zero totals, no rankings, no warnings, and no insights at all. */
  lemma NoRows(p: Parsers)
    ensures Analyze(p, []) == Analysis(0.0, 0, 0.0, [], [], [], [], [])
    ensures Warnings(p, []) == []
    ensures GenerateInsights(Analyze(p, [])) == Some(Insights(None, None, None, None, None))
  {
  }

  /** A single row whose amount does not convert: the empty result and one warning. */
  lemma OnlyBadRow(p: Parsers)
    requires p.parseFloat("bad") == None
    ensures var row := map["amount" := "bad", "quantity" := "1", "size" := "M"];
            && Analyze(p, [row]) == Analyze(p, [])
            && Warnings(p, [row]) == [Warning(row, Amount)]
  {
    var row := map["amount" := "bad", "quantity" := "1", "size" := "M"];
    assert NormalizeRow(p, row) == Rejected(Amount);
  }

  const NoAmount: Row := map["quantity" := "5", "size" := "L", "color" := "blue", "design" := "x"]

  const AfterNoAmount := Totals(0.0, 5,
                                Dict(["L"], map["L" := 0.0]),
                                Dict(["L"], map["L" := 5]),
                                Dict(["Blue"], map["Blue" := 0.0]),
                                Dict(["Blue"], map["Blue" := 5]),
                                Dict(["x"], map["x" := 0.0]))

  /** A missing amount counts as 0.0; "blue" becomes color "Blue". */
  lemma NoAmountNormalizes(p: Parsers)
    requires p.parseInt("5") == Some(5)
    ensures NormalizeRow(p, NoAmount) == Accepted(Sale(0.0, 5, "L", "Blue", "x"))
  {
    assert Upper("L") == "L";
    assert Title("blue") == "Blue";
  }

  lemma NoAmountRecorded()
    ensures Record(Initial(), Sale(0.0, 5, "L", "Blue", "x")) == AfterNoAmount
  {
  }

  lemma ItemsAfterNoAmount()
    ensures Items(AfterNoAmount.sizeSales) == [Entry("L", 0.0)]
    ensures Items(AfterNoAmount.designSales) == [Entry("x", 0.0)]
    ensures Items(AfterNoAmount.sizeQuantity) == [Entry("L", 5)]
    ensures Items(AfterNoAmount.colorQuantity) == [Entry("Blue", 5)]
  {
  }

  /** The result reported from that state: each grouping a single entry. */
  lemma ReportAfterNoAmount()
    ensures Shaped(AfterNoAmount)
    ensures Report(AfterNoAmount)
            == Analysis(0.0, 5, 0.0, [Entry("L", 0.0)], [Entry("Blue", 0.0)], [Entry("x", 0.0)],
                        [Entry("L", 5)], [Entry("Blue", 5)])
  {
    ItemsAfterNoAmount();
    assert Items(AfterNoAmount.colorSales) == [Entry("Blue", 0.0)];
    SortSingleton(Entry("L", 0.0));
    SortSingleton(Entry("Blue", 0.0));
    SortSingleton(Entry("x", 0.0));
  }

  /** A row without an amount: no revenue, its quantity counts, the average is 0. */
  lemma RowWithoutAmount(p: Parsers)
    requires p.parseInt("5") == Some(5)
    ensures var a := Analyze(p, [NoAmount]);
            && a.totalRevenue == 0.0
            && a.totalQuantity == 5
            && a.avgPrice == 0.0
            && a.sizeQuantity == [Entry("L", 5)]
            && a.colorQuantity == [Entry("Blue", 5)]
            && a.sortedSizes == [Entry("L", 0.0)]
            && a.sortedDesigns == [Entry("x", 0.0)]
  {
    NoAmountNormalizes(p);
    NoAmountRecorded();
    ReportAfterNoAmount();
    assert Accumulate(p, [NoAmount], 1) == Step(p, Initial(), NoAmount) == AfterNoAmount;
  }

  const SmallRed: Row := map["amount" := "10", "quantity" := "2", "size" := "s", "color" := "red", "design" := "logo"]
  const MediumRed: Row := map["amount" := "20", "quantity" := "1", "size" := "M", "color" := "Red", "design" := "logo"]

  predicate ParsesSales(p: Parsers)
  {
    && p.parseFloat("10") == Some(10.0) && p.parseFloat("20") == Some(20.0)
    && p.parseInt("2") == Some(2) && p.parseInt("1") == Some(1)
  }

  /** "s" becomes size "S"; "red" and "Red" both become color "Red". */
  lemma SalesNormalize(p: Parsers)
    requires ParsesSales(p)
    ensures NormalizeRow(p, SmallRed) == Accepted(Sale(10.0, 2, "S", "Red", "logo"))
    ensures NormalizeRow(p, MediumRed) == Accepted(Sale(20.0, 1, "M", "Red", "logo"))
  {
    assert Upper("s") == "S" && Upper("M") == "M";
    assert Title("red") == "Red" && Title("Red") == "Red";
  }

  const AfterSmall := Totals(10.0, 2,
                             Dict(["S"], map["S" := 10.0]),
                             Dict(["S"], map["S" := 2]),
                             Dict(["Red"], map["Red" := 10.0]),
                             Dict(["Red"], map["Red" := 2]),
                             Dict(["logo"], map["logo" := 10.0]))

  const AfterBoth := Totals(30.0, 3,
                            Dict(["S", "M"], map["S" := 10.0, "M" := 20.0]),
                            Dict(["S", "M"], map["S" := 2, "M" := 1]),
                            Dict(["Red"], map["Red" := 30.0]),
                            Dict(["Red"], map["Red" := 3]),
                            Dict(["logo"], map["logo" := 30.0]))

  /** The first sale opens one group in each accumulator. */
  lemma FirstSale()
    ensures Record(Initial(), Sale(10.0, 2, "S", "Red", "logo")) == AfterSmall
  {
  }

  /** The second sale opens a new size group and adds to the existing color and design groups. */
  lemma SecondSale()
    ensures Record(AfterSmall, Sale(20.0, 1, "M", "Red", "logo")) == AfterBoth
  {
    assert "M" != "S";
    assert AddReal(AfterSmall.sizeSales, "M", 20.0) == AfterBoth.sizeSales;
    assert AddInt(AfterSmall.sizeQuantity, "M", 1) == AfterBoth.sizeQuantity;
  }

  /** The accumulators after both rows: the two colors merged into one group. */
  lemma SalesAccumulate(p: Parsers)
    requires ParsesSales(p)
    ensures Accumulate(p, [SmallRed, MediumRed], 2) == AfterBoth
  {
    SalesNormalize(p);
    FirstSale();
    SecondSale();
    var rows := [SmallRed, MediumRed];
    assert Accumulate(p, rows, 1) == Step(p, Initial(), SmallRed) == AfterSmall;
    assert Accumulate(p, rows, 2) == Step(p, AfterSmall, MediumRed);
  }

  /** The groupings after both rows, in first-encounter order. */
  lemma ItemsAfterBoth()
    ensures Items(AfterBoth.sizeSales) == [Entry("S", 10.0), Entry("M", 20.0)]
    ensures Items(AfterBoth.sizeQuantity) == [Entry("S", 2), Entry("M", 1)]
    ensures Items(AfterBoth.colorSales) == [Entry("Red", 30.0)]
    ensures Items(AfterBoth.colorQuantity) == [Entry("Red", 3)]
    ensures Items(AfterBoth.designSales) == [Entry("logo", 30.0)]
  {
  }

  /** The ranking puts the larger size revenue first. */
  lemma RankSizes()
    ensures SortDesc([Entry("S", 10.0), Entry("M", 20.0)]) == [Entry("M", 20.0), Entry("S", 10.0)]
  {
    assert SortDesc([Entry("M", 20.0)]) == [Entry("M", 20.0)];
  }

  /**
   * Two sales of 10 and 20: revenue 30, three items at 10 each, size "M"
   * ranked before "S", one color and one design group of 30.
   */
  lemma TwoSales(p: Parsers)
    requires ParsesSales(p)
    ensures Analyze(p, [SmallRed, MediumRed])
            == Analysis(30.0, 3, 10.0,
                        [Entry("M", 20.0), Entry("S", 10.0)],
                        [Entry("Red", 30.0)],
                        [Entry("logo", 30.0)],
                        [Entry("S", 2), Entry("M", 1)],
                        [Entry("Red", 3)])
  {
    SalesAccumulate(p);
    ItemsAfterBoth();
    RankSizes();
    SortSingleton(Entry("Red", 30.0));
    SortSingleton(Entry("logo", 30.0));
  }

  lemma TwoSalesShares()
    ensures Percentages([Entry("M", 20.0), Entry("S", 10.0)], 30.0)
            == [Entry("M", 200.0 / 3.0), Entry("S", 100.0 / 3.0)]
  {
  }

  /**
   * The insights of the two sales: "M" leads by revenue while "S" leads by
   * quantity, and the sizes take two thirds and one third of the revenue.
   */
  lemma TwoSalesInsights(p: Parsers)
    requires ParsesSales(p)
    ensures GenerateInsights(Analyze(p, [SmallRed, MediumRed]))
            == Some(Insights(Some(Entry("M", 20.0)), Some(Entry("S", 2)),
                             Some(Entry("Red", 30.0)), Some(Entry("logo", 30.0)),
                             Some([Entry("M", 200.0 / 3.0), Entry("S", 100.0 / 3.0)])))
  {
    TwoSales(p);
    TwoSalesShares();
    assert ArgMax([Entry("S", 2), Entry("M", 1)]) == 0;
  }
}
