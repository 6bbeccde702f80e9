/**
 * `analyze_tshirts`: one pass over the rows that adds every accepted row's
 * amount and quantity to two running totals and to five per-key
 * accumulators, then ranks the revenue groupings and computes the average
 * price. `Accumulate` is the specification of the loop; `AnalyzeTshirts` is the
 * loop itself, proved to compute `Analyze`.
 */
module Analyzer {
  import opened OrderedDict
  import opened Ranking
  import opened Rows

  /** The warning printed for a skipped row: the row and the conversion that failed. */
  datatype Warning = Warning(row: Row, field: NumericField)

  /** The loop state: running totals and the five defaultdicts. */
  datatype Totals = Totals(
    revenue: real,
    quantity: int,
    sizeSales: Dict<real>,
    sizeQuantity: Dict<int>,
    colorSales: Dict<real>,
    colorQuantity: Dict<int>,
    designSales: Dict<real>)

  /** The dictionary `analyze_tshirts` returns. */
  datatype Analysis = Analysis(
    totalRevenue: real,
    totalQuantity: int,
    avgPrice: real,
    sortedSizes: seq<Entry<real>>,
    sortedColors: seq<Entry<real>>,
    sortedDesigns: seq<Entry<real>>,
    sizeQuantity: seq<Entry<int>>,
    colorQuantity: seq<Entry<int>>)

  /**
   * The five dictionaries are well formed, and each quantity dictionary
   * lists the same keys, in the same order, as its revenue twin.
   */
  ghost predicate Shaped(t: Totals)
  {
    && Valid(t.sizeSales) && Valid(t.sizeQuantity)
    && Valid(t.colorSales) && Valid(t.colorQuantity)
    && Valid(t.designSales)
    && t.sizeQuantity.keys == t.sizeSales.keys
    && t.colorQuantity.keys == t.colorSales.keys
  }

  /**
   * The loop invariant: each revenue grouping sums to the revenue total and
   * each quantity grouping to the quantity total.
   */
  ghost predicate Consistent(t: Totals)
  {
    && Shaped(t)
    && SumReal(Items(t.sizeSales)) == t.revenue
    && SumReal(Items(t.colorSales)) == t.revenue
    && SumReal(Items(t.designSales)) == t.revenue
    && SumInt(Items(t.sizeQuantity)) == t.quantity
    && SumInt(Items(t.colorQuantity)) == t.quantity
  }

  /** The state before the first row. */
  function Initial(): (t: Totals)
    ensures Consistent(t) && t.sizeSales.keys == [] && t.colorSales.keys == [] && t.designSales.keys == []
  {
    Totals(0.0, 0, Empty(), Empty(), Empty(), Empty(), Empty())
  }

  /** The updates of one accepted sale: both totals and the five accumulators. */
  function Record(t: Totals, s: Sale): Totals
  {
    Totals(
      t.revenue + s.amount,
      t.quantity + s.quantity,
      AddReal(t.sizeSales, s.size, s.amount),
      AddInt(t.sizeQuantity, s.size, s.quantity),
      AddReal(t.colorSales, s.color, s.amount),
      AddInt(t.colorQuantity, s.color, s.quantity),
      AddReal(t.designSales, s.design, s.amount))
  }

  /** A sale adds the same amount to the revenue total and to each grouping. */
  lemma RecordConsistent(t: Totals, s: Sale)
    requires Consistent(t)
    ensures Consistent(Record(t, s))
  {
    AddRealValid(t.sizeSales, s.size, s.amount);
    AddIntValid(t.sizeQuantity, s.size, s.quantity);
    AddRealValid(t.colorSales, s.color, s.amount);
    AddIntValid(t.colorQuantity, s.color, s.quantity);
    AddRealValid(t.designSales, s.design, s.amount);
    AddRealTotal(t.sizeSales, s.size, s.amount);
    AddIntTotal(t.sizeQuantity, s.size, s.quantity);
    AddRealTotal(t.colorSales, s.color, s.amount);
    AddIntTotal(t.colorQuantity, s.color, s.quantity);
    AddRealTotal(t.designSales, s.design, s.amount);
  }

  /** One iteration of the loop: a rejected row changes nothing. */
  function Step(p: Parsers, t: Totals, row: Row): Totals
  {
    match NormalizeRow(p, row)
    case Rejected(_) => t
    case Accepted(s) => Record(t, s)
  }

  lemma StepConsistent(p: Parsers, t: Totals, row: Row)
    requires Consistent(t)
    ensures Consistent(Step(p, t, row))
  {
    match NormalizeRow(p, row) {
      case Rejected(_) =>
      case Accepted(s) => RecordConsistent(t, s);
    }
  }

  /** The state after the loop has processed the first `n` rows. */
  function Accumulate(p: Parsers, rows: seq<Row>, n: nat): Totals
    requires n <= |rows|
    decreases n
  {
    if n == 0 then Initial() else Step(p, Accumulate(p, rows, n - 1), rows[n - 1])
  }

  /** The loop keeps every grouping summing to the totals. */
  lemma {:induction false} AccumulateConsistent(p: Parsers, rows: seq<Row>, n: nat)
    requires n <= |rows|
    ensures Consistent(Accumulate(p, rows, n))
    decreases n
  {
    if n > 0 {
      AccumulateConsistent(p, rows, n - 1);
      StepConsistent(p, Accumulate(p, rows, n - 1), rows[n - 1]);
    }
  }

  /** The state after `n` rows depends on those rows only. */
  lemma {:induction false} AccumulatePrefix(p: Parsers, a: seq<Row>, b: seq<Row>, n: nat)
    requires n <= |a| && n <= |b|
    requires forall i :: 0 <= i < n ==> a[i] == b[i]
    ensures Accumulate(p, a, n) == Accumulate(p, b, n)
    decreases n
  {
    if n > 0 {
      AccumulatePrefix(p, a, b, n - 1);
    }
  }

  /** The warning one row produces: one when it is rejected, none otherwise. */
  function RowWarning(p: Parsers, row: Row): (r: seq<Warning>)
    ensures |r| <= 1
    ensures r != [] <==> NormalizeRow(p, row).Rejected?
  {
    match NormalizeRow(p, row)
    case Rejected(f) => [Warning(row, f)]
    case Accepted(_) => []
  }

  /** The warnings emitted for the first `n` rows, in row order. */
  function WarningsUpTo(p: Parsers, rows: seq<Row>, n: nat): (r: seq<Warning>)
    requires n <= |rows|
    ensures |r| <= n
    decreases n
  {
    if n == 0 then [] else WarningsUpTo(p, rows, n - 1) + RowWarning(p, rows[n - 1])
  }

  /** The warnings emitted for all rows. */
  function Warnings(p: Parsers, rows: seq<Row>): (r: seq<Warning>)
    ensures |r| <= |rows|
  {
    WarningsUpTo(p, rows, |rows|)
  }

  /** The warnings for `n` rows depend on those rows only. */
  lemma {:induction false} WarningsPrefix(p: Parsers, a: seq<Row>, b: seq<Row>, n: nat)
    requires n <= |a| && n <= |b|
    requires forall i :: 0 <= i < n ==> a[i] == b[i]
    ensures WarningsUpTo(p, a, n) == WarningsUpTo(p, b, n)
    decreases n
  {
    if n > 0 {
      WarningsPrefix(p, a, b, n - 1);
    }
  }

  /** Every warning names a row of the input that was rejected for the field it reports. */
  lemma {:induction false} WarningsSound(p: Parsers, rows: seq<Row>, n: nat)
    requires n <= |rows|
    ensures forall w :: w in WarningsUpTo(p, rows, n) ==>
              exists i :: 0 <= i < n && w.row == rows[i] && NormalizeRow(p, rows[i]) == Rejected(w.field)
    decreases n
  {
    if n > 0 {
      WarningsSound(p, rows, n - 1);
      var prev := WarningsUpTo(p, rows, n - 1);
      var last := RowWarning(p, rows[n - 1]);
      forall w: Warning | w in prev + last
        ensures exists i :: 0 <= i < n && w.row == rows[i] && NormalizeRow(p, rows[i]) == Rejected(w.field)
      {
        if w !in prev {
          assert w.row == rows[n - 1] && NormalizeRow(p, rows[n - 1]) == Rejected(w.field);
        }
      }
    }
  }

  /** Every rejected row gets a warning naming it and the field that failed. */
  lemma {:induction false} WarningsComplete(p: Parsers, rows: seq<Row>, n: nat)
    requires n <= |rows|
    ensures forall i :: 0 <= i < n && NormalizeRow(p, rows[i]).Rejected? ==>
              Warning(rows[i], NormalizeRow(p, rows[i]).field) in WarningsUpTo(p, rows, n)
    decreases n
  {
    if n > 0 {
      WarningsComplete(p, rows, n - 1);
      var prev := WarningsUpTo(p, rows, n - 1);
      var last := RowWarning(p, rows[n - 1]);
      forall i | 0 <= i < n && NormalizeRow(p, rows[i]).Rejected?
        ensures Warning(rows[i], NormalizeRow(p, rows[i]).field) in prev + last
      {
        if i == n - 1 {
          assert Warning(rows[i], NormalizeRow(p, rows[i]).field) in last;
        } else {
          assert Warning(rows[i], NormalizeRow(p, rows[i]).field) in prev;
        }
      }
    }
  }

  /** `avg` is revenue per item, and 0 when no items were counted. */
  predicate IsAverage(avg: real, revenue: real, quantity: int)
  {
    && (quantity > 0 ==> avg * quantity as real == revenue)
    && (quantity <= 0 ==> avg == 0.0)
  }

  /** `total_revenue / total_quantity if total_quantity > 0 else 0`. */
  function AveragePrice(revenue: real, quantity: int): (avg: real)
    ensures IsAverage(avg, revenue, quantity)
  {
    if quantity > 0 then revenue / quantity as real else 0.0
  }

  /** The result after the loop: rankings, average price, quantity dictionaries. */
  function Report(t: Totals): Analysis
    requires Shaped(t)
  {
    Analysis(
      t.revenue,
      t.quantity,
      AveragePrice(t.revenue, t.quantity),
      SortDesc(Items(t.sizeSales)),
      SortDesc(Items(t.colorSales)),
      SortDesc(Items(t.designSales)),
      Items(t.sizeQuantity),
      Items(t.colorQuantity))
  }

  /** `analyze_tshirts(rows)`. */
  function Analyze(p: Parsers, rows: seq<Row>): Analysis
  {
    AccumulateConsistent(p, rows, |rows|);
    Report(Accumulate(p, rows, |rows|))
  }

  /** Each revenue grouping sums to the revenue total, each quantity grouping to the quantity total. */
  ghost predicate Conserves(a: Analysis)
  {
    && SumReal(a.sortedSizes) == a.totalRevenue
    && SumReal(a.sortedColors) == a.totalRevenue
    && SumReal(a.sortedDesigns) == a.totalRevenue
    && SumInt(a.sizeQuantity) == a.totalQuantity
    && SumInt(a.colorQuantity) == a.totalQuantity
  }

  /**
   * Each ranking is non-increasing in revenue with distinct keys, and each
   * quantity dictionary has exactly the keys of the matching ranking.
   */
  ghost predicate Ranked(a: Analysis)
  {
    && SortedDesc(a.sortedSizes) && SortedDesc(a.sortedColors) && SortedDesc(a.sortedDesigns)
    && DistinctKeys(a.sortedSizes) && DistinctKeys(a.sortedColors) && DistinctKeys(a.sortedDesigns)
    && DistinctKeys(a.sizeQuantity) && DistinctKeys(a.colorQuantity)
    && KeySet(a.sizeQuantity) == KeySet(a.sortedSizes)
    && KeySet(a.colorQuantity) == KeySet(a.sortedColors)
  }

  /** The average price is revenue per item, and 0 when no items were counted. */
  ghost predicate Averaged(a: Analysis)
  {
    IsAverage(a.avgPrice, a.totalRevenue, a.totalQuantity)
  }

  /** What every result of `analyze_tshirts` promises. */
  ghost predicate WellFormed(a: Analysis)
  {
    Conserves(a) && Ranked(a) && Averaged(a)
  }

  /** A ranking of a grouping keeps its total and its keys, is sorted and has distinct keys. */
  lemma RankingFacts(d: Dict<real>)
    requires Valid(d)
    ensures var r := SortDesc(Items(d));
            && SumReal(r) == SumReal(Items(d))
            && DistinctKeys(r)
            && KeySet(r) == set k | k in d.keys
  {
    SortSum(Items(d));
    SortDistinct(Items(d));
    ItemsKeys(d);
    SortKeys(Items(d));
  }

  lemma ReportAveraged(t: Totals)
    requires Shaped(t)
    ensures Averaged(Report(t))
  {
  }

  lemma ReportWellFormed(t: Totals)
    requires Consistent(t)
    ensures WellFormed(Report(t))
  {
    ReportAveraged(t);
    RankingFacts(t.sizeSales);
    RankingFacts(t.colorSales);
    RankingFacts(t.designSales);
    ItemsKeys(t.sizeQuantity);
    ItemsKeys(t.colorQuantity);
  }

  /** Conservation, sortedness, key agreement and the average for every input. */
  lemma AnalyzeWellFormed(p: Parsers, rows: seq<Row>)
    ensures WellFormed(Analyze(p, rows))
  {
    AccumulateConsistent(p, rows, |rows|);
    ReportWellFormed(Accumulate(p, rows, |rows|));
  }

  /** After the bad row, the run over `xs + [bad] + ys` is in the state of the run over `xs + ys`. */
  lemma {:induction false} SkipInvalidAccumulate(p: Parsers, xs: seq<Row>, bad: Row, ys: seq<Row>, k: nat)
    requires NormalizeRow(p, bad).Rejected? && k <= |ys|
    ensures Accumulate(p, xs + [bad] + ys, |xs| + 1 + k) == Accumulate(p, xs + ys, |xs| + k)
    decreases k
  {
    var a, b := xs + [bad] + ys, xs + ys;
    var m := |xs| + k;
    assert Accumulate(p, a, m + 1) == Step(p, Accumulate(p, a, m), a[m]);
    if k == 0 {
      AccumulatePrefix(p, a, b, m);
      assert a[m] == bad;
      assert Step(p, Accumulate(p, a, m), bad) == Accumulate(p, a, m);
      assert Accumulate(p, a, m + 1) == Accumulate(p, a, m);
    } else {
      assert |xs| + 1 + (k - 1) == m && |xs| + (k - 1) == m - 1;
      SkipInvalidAccumulate(p, xs, bad, ys, k - 1);
      assert Accumulate(p, b, m) == Step(p, Accumulate(p, b, m - 1), b[m - 1]);
      assert a[m] == ys[k - 1] == b[m - 1];
      assert Accumulate(p, a, m + 1) == Accumulate(p, b, m);
    }
  }

  lemma AppendAssociative<T>(a: seq<T>, b: seq<T>, c: seq<T>)
    ensures (a + b) + c == a + (b + c)
  {
  }

  /** The warnings over `xs + [bad] + ys`: those of `xs`, the bad row's, then those of `ys`. */
  lemma {:induction false} SkipInvalidWarnings(p: Parsers, xs: seq<Row>, bad: Row, ys: seq<Row>, k: nat)
    requires NormalizeRow(p, bad).Rejected? && k <= |ys|
    ensures WarningsUpTo(p, xs + [bad] + ys, |xs| + 1 + k)
            == Warnings(p, xs) + [Warning(bad, NormalizeRow(p, bad).field)] + WarningsUpTo(p, ys, k)
    decreases k
  {
    var a := xs + [bad] + ys;
    var m := |xs| + k;
    var w := [Warning(bad, NormalizeRow(p, bad).field)];
    assert WarningsUpTo(p, a, m + 1) == WarningsUpTo(p, a, m) + RowWarning(p, a[m]);
    if k == 0 {
      WarningsPrefix(p, a, xs, m);
      assert a[m] == bad;
      assert RowWarning(p, bad) == w;
      assert WarningsUpTo(p, ys, 0) == [];
    } else {
      assert |xs| + 1 + (k - 1) == m;
      SkipInvalidWarnings(p, xs, bad, ys, k - 1);
      var before, u := Warnings(p, xs) + w, WarningsUpTo(p, ys, k - 1);
      assert a[m] == ys[k - 1];
      var last := RowWarning(p, ys[k - 1]);
      calc {
        WarningsUpTo(p, a, m + 1);
        WarningsUpTo(p, a, m) + last;
        (before + u) + last;
        { AppendAssociative(before, u, last); }
        before + (u + last);
        before + WarningsUpTo(p, ys, k);
      }
    }
  }

  /**
   * A row whose amount or quantity fails to convert is skipped atomically:
   * wherever it stands, the result is that of the other rows, and the only
   * trace is one warning naming the row and the failed field.
   */
  lemma SkipInvalidRow(p: Parsers, xs: seq<Row>, bad: Row, ys: seq<Row>)
    requires NormalizeRow(p, bad).Rejected?
    ensures Analyze(p, xs + [bad] + ys) == Analyze(p, xs + ys)
    ensures Warnings(p, xs + [bad] + ys)
            == Warnings(p, xs) + [Warning(bad, NormalizeRow(p, bad).field)] + Warnings(p, ys)
  {
    var a, b := xs + [bad] + ys, xs + ys;
    SkipInvalidAccumulate(p, xs, bad, ys, |ys|);
    SkipInvalidWarnings(p, xs, bad, ys, |ys|);
    assert |a| == |xs| + 1 + |ys| && |b| == |xs| + |ys|;
    assert Accumulate(p, a, |a|) == Accumulate(p, b, |b|);
    SameStateSameResult(p, a, b);
  }

  /** The result depends on the rows only through the state the loop ends in. */
  lemma SameStateSameResult(p: Parsers, a: seq<Row>, b: seq<Row>)
    requires Accumulate(p, a, |a|) == Accumulate(p, b, |b|)
    ensures Analyze(p, a) == Analyze(p, b)
  {
  }

  /**
   * `after` is `before` with sale `s` added: its amount once to the revenue
   * total and to its size, color and design groups, its quantity once to
   * the quantity total and to its size and color groups, and no other key
   * changed.
   */
  ghost predicate Contributes(before: Totals, after: Totals, s: Sale)
  {
    && after.revenue == before.revenue + s.amount
    && after.quantity == before.quantity + s.quantity
    && Get(after.sizeSales, s.size, 0.0) == Get(before.sizeSales, s.size, 0.0) + s.amount
    && Get(after.sizeQuantity, s.size, 0) == Get(before.sizeQuantity, s.size, 0) + s.quantity
    && Get(after.colorSales, s.color, 0.0) == Get(before.colorSales, s.color, 0.0) + s.amount
    && Get(after.colorQuantity, s.color, 0) == Get(before.colorQuantity, s.color, 0) + s.quantity
    && Get(after.designSales, s.design, 0.0) == Get(before.designSales, s.design, 0.0) + s.amount
    && (forall k :: k != s.size ==> Get(after.sizeSales, k, 0.0) == Get(before.sizeSales, k, 0.0))
    && (forall k :: k != s.size ==> Get(after.sizeQuantity, k, 0) == Get(before.sizeQuantity, k, 0))
    && (forall k :: k != s.color ==> Get(after.colorSales, k, 0.0) == Get(before.colorSales, k, 0.0))
    && (forall k :: k != s.color ==> Get(after.colorQuantity, k, 0) == Get(before.colorQuantity, k, 0))
    && (forall k :: k != s.design ==> Get(after.designSales, k, 0.0) == Get(before.designSales, k, 0.0))
  }

  lemma RecordContributes(t: Totals, s: Sale)
    ensures Contributes(t, Record(t, s), s)
  {
    AddRealSpec(t.sizeSales, s.size, s.amount);
    AddIntSpec(t.sizeQuantity, s.size, s.quantity);
    AddRealSpec(t.colorSales, s.color, s.amount);
    AddIntSpec(t.colorQuantity, s.color, s.quantity);
    AddRealSpec(t.designSales, s.design, s.amount);
  }

  /** Appending a row runs one more iteration on the state after the other rows. */
  lemma AccumulateLast(p: Parsers, rows: seq<Row>, row: Row)
    ensures Accumulate(p, rows + [row], |rows| + 1) == Step(p, Accumulate(p, rows, |rows|), row)
  {
    var a := rows + [row];
    AccumulatePrefix(p, a, rows, |rows|);
    var before := Accumulate(p, a, |rows|);
    assert a[|rows|] == row;
    assert Accumulate(p, a, |rows| + 1) == Step(p, before, row);
  }

  /** An accepted row contributes to the totals and groupings exactly once each. */
  lemma RowContribution(p: Parsers, rows: seq<Row>, row: Row)
    requires NormalizeRow(p, row).Accepted?
    ensures Contributes(Accumulate(p, rows, |rows|), Accumulate(p, rows + [row], |rows| + 1),
                        NormalizeRow(p, row).sale)
  {
    var before := Accumulate(p, rows, |rows|);
    var s := NormalizeRow(p, row).sale;
    AccumulateLast(p, rows, row);
    assert Step(p, before, row) == Record(before, s);
    RecordContributes(before, s);
  }

  /** A row without an amount adds no revenue but still counts its quantity (default 1). */
  lemma MissingAmountStillCounts(p: Parsers, rows: seq<Row>, row: Row)
    requires !HasValue(row, "amount") && !IntFails(p, row, "quantity")
    ensures Analyze(p, rows + [row]).totalRevenue == Analyze(p, rows).totalRevenue
    ensures Analyze(p, rows + [row]).totalQuantity
            == Analyze(p, rows).totalQuantity
               + (if HasValue(row, "quantity") then p.parseInt(row["quantity"]).value else 1)
  {
    AmountDefault(p, row);
    ConvertedValues(p, row);
    RowContribution(p, rows, row);
  }

  /**
   * Each ranking is a permutation of its grouping's `items()`, and entries
   * of equal revenue keep the grouping's insertion (first-encounter) order.
   */
  lemma RankingsArePermutations(t: Totals, v: real)
    requires Shaped(t)
    ensures var a := Report(t);
            && multiset(a.sortedSizes) == multiset(Items(t.sizeSales))
            && multiset(a.sortedColors) == multiset(Items(t.colorSales))
            && multiset(a.sortedDesigns) == multiset(Items(t.designSales))
            && WithValue(a.sortedSizes, v) == WithValue(Items(t.sizeSales), v)
            && WithValue(a.sortedColors, v) == WithValue(Items(t.colorSales), v)
            && WithValue(a.sortedDesigns, v) == WithValue(Items(t.designSales), v)
  {
    SortStable(Items(t.sizeSales), v);
    SortStable(Items(t.colorSales), v);
    SortStable(Items(t.designSales), v);
  }

  /** No rows: all totals zero, all rankings and quantity dictionaries empty, no warnings. */
  lemma EmptyInput(p: Parsers)
    ensures Analyze(p, []) == Analysis(0.0, 0, 0.0, [], [], [], [], [])
    ensures Warnings(p, []) == []
  {
  }

  /** The loop of `analyze_tshirts`, reassigning its accumulators each iteration. */
  method AnalyzeTshirts(p: Parsers, rows: seq<Row>) returns (result: Analysis, warnings: seq<Warning>)
    ensures result == Analyze(p, rows)
    ensures warnings == Warnings(p, rows)
  {
    var sizeSales: Dict<real> := Empty();
    var colorSales: Dict<real> := Empty();
    var designSales: Dict<real> := Empty();
    var sizeQuantity: Dict<int> := Empty();
    var colorQuantity: Dict<int> := Empty();
    var totalRevenue := 0.0;
    var totalQuantity := 0;
    warnings := [];

    var i := 0;
    while i < |rows|
      invariant 0 <= i <= |rows|
      invariant Totals(totalRevenue, totalQuantity, sizeSales, sizeQuantity,
                       colorSales, colorQuantity, designSales) == Accumulate(p, rows, i)
      invariant warnings == WarningsUpTo(p, rows, i)
    {
      var row := rows[i];
      ghost var before := Totals(totalRevenue, totalQuantity, sizeSales, sizeQuantity,
                                 colorSales, colorQuantity, designSales);
      match NormalizeRow(p, row) {
        case Rejected(field) =>
          warnings := warnings + [Warning(row, field)];
          assert Step(p, before, row) == before;
        case Accepted(sale) =>
          assert Step(p, before, row) == Record(before, sale);
          totalRevenue := totalRevenue + sale.amount;
          totalQuantity := totalQuantity + sale.quantity;
          sizeSales := AddReal(sizeSales, sale.size, sale.amount);
          sizeQuantity := AddInt(sizeQuantity, sale.size, sale.quantity);
          colorSales := AddReal(colorSales, sale.color, sale.amount);
          colorQuantity := AddInt(colorQuantity, sale.color, sale.quantity);
          designSales := AddReal(designSales, sale.design, sale.amount);
      }
      assert Totals(totalRevenue, totalQuantity, sizeSales, sizeQuantity,
                    colorSales, colorQuantity, designSales) == Step(p, before, row);
      assert warnings == WarningsUpTo(p, rows, i) + RowWarning(p, row);
      i := i + 1;
    }
    var final := Totals(totalRevenue, totalQuantity, sizeSales, sizeQuantity,
                        colorSales, colorQuantity, designSales);
    AccumulateConsistent(p, rows, |rows|);
    result := Report(final);
  }
}
