# T-shirt sales analyzer, modelled in Dafny

This project models the analysis core of a small t-shirt sales tool. The core has two parts.

`analyze_tshirts` makes one pass over the sales rows:

- It converts each row's `amount` and `quantity` to numbers.
- It normalises `size` to upper case and `color` to title case, and keeps `design` as it is.
- It skips a row whose numbers do not convert, with a warning.
- For every other row it adds the amount and quantity to two running totals and to five per-key accumulators: revenue and quantity per size, revenue and quantity per color, and revenue per design.
- After the pass it ranks the three revenue groupings, largest first, and computes the average price.

`generate_insights` reads that result and derives:

- the head of each ranking;
- the size sold in the largest quantity;
- each size's share of the revenue, when revenue is positive.

The modules follow that structure:

- `Wrappers`: `Option`.
- `Casing`: ASCII `str.upper()` and `str.title()`.
- `OrderedDict`: a `defaultdict` that remembers the order keys were first inserted. It provides `d[k] += x`, `items()` and sums.
- `Ranking`: `sorted(..., key=value, reverse=True)`. Python's sort is stable, so this is a stable insertion sort by descending value.
- `Rows`: normalisation of a single row.
- `Analyzer`: the loop and the result. `AnalyzeTshirts` is the imperative loop, with the seven accumulators as local variables reassigned each iteration. It is proved equal to the specification `Analyze`, which is built from `Accumulate`: the state after the first `n` rows.
- `Insights`: `generate_insights`, plus the loop that builds the size distribution.
- `Scenarios`: worked examples, the model on concrete inputs.

Python's `float()` and `int()` are parameters of the model: a `Parsers` value that holds two partial functions. `None` from either function stands for the `ValueError` that a malformed string raises. Amounts are exact reals and quantities are unbounded integers.

Three points of the code's behaviour shape the model:

- The rankings break ties in first-encounter order, because Python's `sorted` is stable.
- `generate_insights` is not total: `max` raises `ValueError` when `sorted_sizes` is non-empty but `size_quantity` is empty. That case is modelled as `None`, and `TopEntries` proves it never arises on a result of `analyze_tshirts`.
- Only a *missing* `size`, `color` or `design` key takes its default. `row.get` returns a present empty string unchanged. In contrast, `amount` and `quantity` default when missing *or* empty, because the code tests their truthiness.

## Model

| member | source | states |
|---|---|---|
| Casing.Upper | tshirt_analyzer.py:35 | `str.upper()` on ASCII; its properties are stated by `UpperShape`, `UpperMergesCase` and `UpperIdempotent` |
| Casing.Title | tshirt_analyzer.py:36 | `str.title()` on ASCII; its properties are stated by `TitleShape`, `TitleMergesCase` and `TitleIdempotent` |
| Casing.UpperShape | tshirt_analyzer.py:35 | `upper()` keeps the length and leaves no lower-case letter |
| Casing.TitleShape | tshirt_analyzer.py:36 | `title()` keeps the length; a letter is upper case exactly when it starts the string or follows a non-letter |
| Casing.UpperMergesCase | tshirt_analyzer.py:35 | two sizes map to the same key if and only if they differ only in letter case |
| Casing.TitleMergesCase | tshirt_analyzer.py:36 | two colors map to the same key if and only if they differ only in letter case |
| Casing.UpperIdempotent | tshirt_analyzer.py:35 | normalising an already normalised size changes nothing |
| Casing.TitleIdempotent | tshirt_analyzer.py:36 | normalising an already normalised color changes nothing |
| Casing.DefaultKeys | tshirt_analyzer.py:35-36 | the default "Unknown" becomes size "UNKNOWN" and stays color "Unknown" |
| OrderedDict.Empty | tshirt_analyzer.py:18-22 | a fresh defaultdict is well formed and has no keys |
| OrderedDict.AddReal | tshirt_analyzer.py:44-52 | `d[k] += x` on a `defaultdict(float)`; stated by `AddRealSpec`, `AddRealValid` and `AddRealTotal` |
| OrderedDict.AddInt | tshirt_analyzer.py:45-49 | `d[k] += x` on a `defaultdict(int)`; stated by `AddIntSpec`, `AddIntValid` and `AddIntTotal` |
| OrderedDict.AddRealSpec | tshirt_analyzer.py:44-52 | `d[k] += x` on a float defaultdict: key `k` rises by `x`, a missing key counting as 0.0; every other key is unchanged; a new key is appended to the insertion order |
| OrderedDict.AddIntSpec | tshirt_analyzer.py:45-49 | the same for an int defaultdict |
| OrderedDict.AddRealValid | tshirt_analyzer.py:44-52 | the update keeps the dictionary well formed: distinct keys, exactly the mapped ones |
| OrderedDict.AddIntValid | tshirt_analyzer.py:45-49 | the same for an int defaultdict |
| OrderedDict.Items | tshirt_analyzer.py:59-74 | `items()` has one entry per key, in insertion order, never lists a key twice, and every entry is a pair of the mapping |
| OrderedDict.ItemsPairs | tshirt_analyzer.py:59-74 | every pair of the mapping appears in `items()`; with the contract of `Items`, `items()` holds exactly the mapping's pairs |
| OrderedDict.ItemsKeys | tshirt_analyzer.py:59-74 | the keys in `items()` are exactly the dictionary's keys |
| OrderedDict.AddRealTotal | tshirt_analyzer.py:44-52 | `d[k] += x` raises the sum of the dictionary's values by exactly `x` |
| OrderedDict.AddIntTotal | tshirt_analyzer.py:45-49 | the same for an int defaultdict |
| Ranking.Insert | tshirt_analyzer.py:59-61 | inserting one entry adds exactly that entry to the multiset of entries |
| Ranking.InsertRanks | tshirt_analyzer.py:59-61 | inserting the head of a list into a ranking of its tail gives a ranking of the whole list: sorted, and a permutation of it |
| Ranking.SortDesc | tshirt_analyzer.py:59-61 | the ranking is non-increasing in value and a permutation of its input |
| Ranking.SortSingleton | tshirt_analyzer.py:59-61 | a grouping with a single entry is ranked as itself |
| Ranking.SortStable | tshirt_analyzer.py:59-61 | entries of equal value keep their input order, as Python's stable sort does |
| Ranking.SortSum | tshirt_analyzer.py:59-61 | ranking does not change the total of the values |
| Ranking.SortNoKey | tshirt_analyzer.py:59-61 | a key occurs in the ranking if and only if it occurs in the input |
| Ranking.SortDistinct | tshirt_analyzer.py:59-61 | ranking entries with distinct keys gives distinct keys |
| Ranking.SortKeys | tshirt_analyzer.py:59-61 | the ranking has the same key set as the grouping it ranks |
| Rows.NormalizeRow | tshirt_analyzer.py:29-56 | a row is rejected if and only if a present, non-empty amount or quantity fails to convert; the failed field is `amount` if and only if the amount fails, since the amount is converted first |
| Rows.AmountDefault | tshirt_analyzer.py:31 | a missing or empty amount counts as 0.0 and the row is still accepted |
| Rows.QuantityDefault | tshirt_analyzer.py:32 | a missing or empty quantity counts as 1 |
| Rows.ConvertedValues | tshirt_analyzer.py:31-32 | a present amount or quantity contributes its converted value |
| Rows.KeyDefaults | tshirt_analyzer.py:35-37 | a missing size becomes "UNKNOWN" and a missing color "Unknown"; design is the field verbatim, or "Unknown" when missing |
| Rows.CaseInsensitiveKeys | tshirt_analyzer.py:35-36 | two accepted rows share a size (color) group if and only if their sizes (colors) differ only in letter case |
| Analyzer.Initial | tshirt_analyzer.py:18-25 | the state before the loop: zero totals and empty accumulators, with the groupings summing to the totals |
| Analyzer.Record | tshirt_analyzer.py:40-52 | the seven updates of one accepted sale; stated by `RecordConsistent` and `RecordContributes` |
| Analyzer.RecordConsistent | tshirt_analyzer.py:40-52 | one accepted sale adds its amount to the revenue total and to each revenue grouping, and its quantity to the quantity total and to each quantity grouping, so every grouping still sums to its total |
| Analyzer.Step | tshirt_analyzer.py:29-56 | one loop iteration: a rejected row leaves the state unchanged, an accepted one is recorded; stated by `StepConsistent` and `AccumulateLast` |
| Analyzer.StepConsistent | tshirt_analyzer.py:29-56 | one loop iteration, accepted or skipped, keeps every grouping summing to its total |
| Analyzer.Accumulate | tshirt_analyzer.py:28-56 | the state after the loop has processed the first `n` rows; stated by `AccumulateConsistent`, `AccumulatePrefix`, `SkipInvalidAccumulate` and `RowContribution` |
| Analyzer.AccumulateConsistent | tshirt_analyzer.py:28-56 | after any number of rows, each revenue grouping sums to total revenue and each quantity grouping to total quantity; size and color quantities list the same keys in the same order as the matching revenues |
| Analyzer.AccumulatePrefix | tshirt_analyzer.py:28 | the state after `n` rows depends only on those rows, since they are processed in order |
| Analyzer.RowWarning | tshirt_analyzer.py:54-55 | a row gives one warning if it is rejected and none otherwise |
| Analyzer.WarningsUpTo | tshirt_analyzer.py:28-56 | at most one warning per row processed |
| Analyzer.Warnings | tshirt_analyzer.py:28-56 | at most one warning per input row |
| Analyzer.WarningsPrefix | tshirt_analyzer.py:28-56 | the warnings for `n` rows depend only on those rows |
| Analyzer.WarningsSound | tshirt_analyzer.py:54-56 | every warning names an input row rejected for the field it reports |
| Analyzer.WarningsComplete | tshirt_analyzer.py:54-56 | every rejected row gets a warning naming it and the field that failed |
| Analyzer.AveragePrice | tshirt_analyzer.py:64 | the average times the quantity is the revenue when the quantity is positive, and the average is 0 otherwise |
| Analyzer.Report | tshirt_analyzer.py:58-75 | the returned dictionary built from the loop state; stated by `ReportWellFormed` and `RankingsArePermutations` |
| Analyzer.Analyze | tshirt_analyzer.py:7-75 | `analyze_tshirts(data)` as a function of the rows; stated by `AnalyzeWellFormed`, `SkipInvalidRow`, `MissingAmountStillCounts` and `EmptyInput`, and computed by the loop `AnalyzeTshirts` |
| Analyzer.RankingFacts | tshirt_analyzer.py:59-61 | a ranked grouping keeps its total and its key set and has distinct keys |
| Analyzer.ReportWellFormed | tshirt_analyzer.py:58-75 | from a consistent state, the result conserves revenue and quantity in every grouping, its rankings are sorted with distinct keys, and each quantity dictionary has exactly the keys of its ranking |
| Analyzer.AnalyzeWellFormed | tshirt_analyzer.py:7-75 | for every input, the three rankings each sum to `total_revenue`, the two quantity dictionaries each sum to `total_quantity`, the rankings are non-increasing with distinct keys, `size_quantity` has the keys of `sorted_sizes` (and likewise for color), and `avg_price` is guarded |
| Analyzer.SkipInvalidAccumulate | tshirt_analyzer.py:29-56 | a rejected row leaves every total and accumulator as it was, wherever it stands |
| Analyzer.SkipInvalidWarnings | tshirt_analyzer.py:54-56 | a rejected row adds exactly its own warning, in row order |
| Analyzer.SkipInvalidRow | tshirt_analyzer.py:29-56 | inserting a bad row anywhere leaves the result unchanged and adds exactly one warning for it |
| Analyzer.RecordContributes | tshirt_analyzer.py:40-52 | recording a sale adds its amount to the revenue total and to the revenue of its size, color and design, and its quantity to the quantity total and to the quantity of its size and color; every other key keeps its value |
| Analyzer.AccumulateLast | tshirt_analyzer.py:28 | the state after one more row is one loop iteration applied to the state before it |
| Analyzer.RowContribution | tshirt_analyzer.py:40-52 | an accepted row adds its amount once to total revenue and to its size, color and design groups, and its quantity once to total quantity and to its size and color groups; no other key changes |
| Analyzer.MissingAmountStillCounts | tshirt_analyzer.py:31-41 | a row without an amount adds no revenue but still adds its quantity, 1 by default |
| Analyzer.RankingsArePermutations | tshirt_analyzer.py:59-61 | in the reported result of any well-formed state, each ranking is a permutation of its grouping's `items()`, and ties keep first-encounter order |
| Analyzer.EmptyInput | tshirt_analyzer.py:18-75 | no rows gives zero totals, a zero average, empty rankings and quantity dictionaries, and no warnings |
| Analyzer.AnalyzeTshirts | tshirt_analyzer.py:7-75 | the loop, which reassigns its accumulators each iteration, returns exactly the specified result `Analyze` and the specified warnings |
| Insights.ArgMax | tshirt_analyzer.py:96 | `max` by value picks an entry of largest value, and the first such entry |
| Insights.Percentages | tshirt_analyzer.py:112-115 | one entry per ranked size, in ranking order, with the same key, whose share times the total revenue is 100 times the size's revenue |
| Insights.SizePercentages | tshirt_analyzer.py:112-115 | the append loop builds exactly the list of shares of the ranked sizes |
| Insights.GenerateInsights | tshirt_analyzer.py:77-118 | it fails (`max` of an empty sequence) if and only if sizes are ranked but `size_quantity` is empty; otherwise each top entry is present if and only if its ranking is non-empty, and the distribution is present if and only if revenue is positive |
| Insights.HeadIsMaximal | tshirt_analyzer.py:91 | the head of a non-increasing ranking has the largest value in it |
| Insights.TopEntries | tshirt_analyzer.py:90-107 | on a result of `analyze_tshirts` no error occurs; each top entry is element 0 of its ranking and maximal in it; the top size by quantity is a ranked size whose quantity is at least every other size's |
| Insights.PercentagesSum | tshirt_analyzer.py:113-115 | the shares add up to the total revenue's share |
| Insights.Shares | tshirt_analyzer.py:109-116 | shares of a non-increasing list, taken of its own positive total, are non-increasing and add up to 100 |
| Insights.SizeDistribution | tshirt_analyzer.py:109-116 | with positive revenue the distribution has one entry per ranked size, in ranking order, with value `revenue / total_revenue * 100`; it is non-increasing and sums to 100 |
| Insights.NoDistribution | tshirt_analyzer.py:110-111 | without positive revenue there is no distribution |
| Insights.AnalyzeThenInsights | tshirt_analyzer.py:7-118 | `generate_insights(analyze_tshirts(rows))` never fails, and its distribution sums to 100 whenever revenue is positive |
| Scenarios.NoRows | tshirt_analyzer.py:7-118 | empty input: zero totals, no warnings, and an insights dictionary with no keys |
| Scenarios.OnlyBadRow | tshirt_analyzer.py:31-56 | one row with amount "bad": the empty result and one warning for the amount |
| Scenarios.NoAmountNormalizes | tshirt_analyzer.py:31-37 | a row with quantity "5" and no amount becomes a sale of 0.0 and 5 items, color "blue" becoming "Blue" |
| Scenarios.NoAmountRecorded | tshirt_analyzer.py:40-52 | that sale opens one group of revenue 0.0 and quantity 5 in each accumulator |
| Scenarios.ItemsAfterNoAmount | tshirt_analyzer.py:59-74 | the groupings after that sale |
| Scenarios.ReportAfterNoAmount | tshirt_analyzer.py:58-75 | the result reported from that state: revenue 0, quantity 5, average 0, each grouping a single entry |
| Scenarios.RowWithoutAmount | tshirt_analyzer.py:7-75 | one row with quantity "5" and no amount: revenue 0, quantity 5, average 0, and groups "L", "Blue" and "x" |
| Scenarios.SalesNormalize | tshirt_analyzer.py:31-37 | "s" becomes size "S"; "red" and "Red" both become color "Red" |
| Scenarios.FirstSale | tshirt_analyzer.py:40-52 | the first sale opens one group in each accumulator |
| Scenarios.SecondSale | tshirt_analyzer.py:40-52 | the second sale opens a new size group and adds to the existing color and design groups |
| Scenarios.SalesAccumulate | tshirt_analyzer.py:28-56 | the accumulators after two sales whose colors differ only in case |
| Scenarios.ItemsAfterBoth | tshirt_analyzer.py:59-74 | the groupings after both sales, in first-encounter order |
| Scenarios.RankSizes | tshirt_analyzer.py:59 | size "M" (20) is ranked before "S" (10) |
| Scenarios.TwoSales | tshirt_analyzer.py:7-75 | two sales of 10 and 20: revenue 30, 3 items, average 10, and the expected rankings and quantities |
| Scenarios.TwoSalesShares | tshirt_analyzer.py:113-115 | sizes "M" and "S" take two thirds and one third of the revenue |
| Scenarios.TwoSalesInsights | tshirt_analyzer.py:77-118 | "M" leads by revenue while "S" leads by quantity |

## Left out

- tshirt_report_writer.py is not part of this model. It covers report templating and file output.
- tshirt_data_reader.py is not part of this model. It covers opening the file and parsing CSV.
- tshirt_main.py is not part of this model. It covers command-line handling and exit codes.
- The text-to-number rules of Python's `float()` and `int()` are left abstract. The model takes them as parameters.
- IEEE floating-point rounding is not modelled. Amounts are exact reals, so the sums and the "distribution sums to 100" property hold exactly rather than within a tolerance. The integer `0` that `total_revenue` starts as, the integer `0` that a missing amount defaults to, and the integer `0` of the `else` branch of `avg_price` are all modelled as `0.0`.
- Non-finite floats are outside the model. Python's `float()` also accepts "nan", "inf" and "infinity", but `parseFloat` never returns such a value. On rows holding them, the program's rankings need not be non-increasing and its sums need not be conserved, so `AnalyzeWellFormed` does not describe those inputs.
- Unicode case mapping is left out. `upper()` and `title()` are modelled on ASCII letters only; any other character is left unchanged and counts as uncased.
- The text of the warning is left out, since it is console output. A warning is modelled as the skipped row plus the field whose conversion failed.
- Rows are maps from strings to strings, so the model cannot express two cases:
  - a field holding `None`, which a short CSV row can produce. A `None` size or color raises an uncaught `AttributeError` from `.upper()` or `.title()`. A `None` amount or quantity is falsy, so it takes its default (0, or 1) and the row is still counted. A `None` design raises nothing and becomes a group key of its own, which then appears in `sorted_designs`;
  - the `KeyError` branch of the handler, which `row.get` never raises.
- Analyzer.AnalyzeTshirts: its `ensures` ties the result to `Analyze`; it does not repeat the properties of `Analyze`. Those properties (conservation, sortedness, key agreement, guarded average) are stated once, in `Analyzer.AnalyzeWellFormed`.
