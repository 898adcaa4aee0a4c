/**
 * The processing block of the demographic distribution chart: the rows the
 * insights route returns for one dimension are grouped by their key, the
 * member counts summed, each group labelled for display, and the groups
 * sorted by count, largest first. The percentage column is not modelled.
 */
module DemographicChart {
  import opened Wrappers
  import Tally
  import Sorting
  import Store
  import DemographicInsights

  /** `dimensionLabels`. */
  function DimensionLabels(d: Store.Dimension): map<string, string> {
    match d
    case Gender => map["F" := "Female", "M" := "Male"]
    case Race => map["1" := "Asian", "2" := "Black", "3" := "Hispanic", "4" := "White"]
    case Ethnicity => map["1" := "Hispanic", "2" := "Non-Hispanic", "3" := "Unknown"]
    case State => map["HI" := "Hawaii", "CA" := "California", "WA" := "Washington", "MI" := "Michigan"]
  }

  /** The chart's race and ethnicity labels are the route's. */
  lemma LabelTablesAgree()
    ensures DimensionLabels(Store.Race) == DemographicInsights.RaceLabels
    ensures DimensionLabels(Store.Ethnicity) == DemographicInsights.EthnicityLabels
  {
  }

  /** One bar: the label shown, the summed count and the group key it came from. */
  datatype ChartRow = ChartRow(category: string, count: int, rawValue: string)

  function Count(r: ChartRow): int { r.count }
  function RawValue(r: ChartRow): string { r.rawValue }

  type InsightRow = DemographicInsights.InsightRow

  /** The sum of `member_count` over the rows with key `k`. */
  ghost function KeySum(rows: seq<InsightRow>, k: string): int {
    if |rows| == 0 then 0
    else (if rows[0].key == k then rows[0].memberCount else 0) + KeySum(rows[1..], k)
  }

  /** The sum of `member_count` over all rows. */
  function RowsTotal(rows: seq<InsightRow>): int {
    if |rows| == 0 then 0 else rows[0].memberCount + RowsTotal(rows[1..])
  }

  /** The keys present in the rows. */
  ghost function Keys(rows: seq<InsightRow>): set<string> {
    set j | 0 <= j < |rows| :: rows[j].key
  }

  /** The group keys of the bars. */
  ghost function RawValues(r: seq<ChartRow>): set<string> {
    set i | 0 <= i < |r| :: r[i].rawValue
  }

  function Pairs(rows: seq<InsightRow>): (ps: seq<(string, int)>)
    ensures |ps| == |rows|
    ensures forall i :: 0 <= i < |rows| ==> ps[i] == (rows[i].key, rows[i].memberCount)
  {
    seq(|rows|, i requires 0 <= i < |rows| => (rows[i].key, rows[i].memberCount))
  }

  /** The index of the first row with key `k`, or `|rows|` when none has it. */
  function FirstKey(rows: seq<InsightRow>, k: string): (n: nat)
    ensures n <= |rows|
    ensures forall i :: 0 <= i < n ==> rows[i].key != k
    ensures n < |rows| ==> rows[n].key == k
  {
    Tally.FirstAt(Pairs(rows), k)
  }

  /** `counts` after the `forEach`: each key once, in the order of its first row. */
  function Counts(rows: seq<InsightRow>): (t: seq<(string, int)>)
    ensures Tally.DistinctKeys(t)
    ensures forall i, j :: 0 <= i < j < |t| ==> FirstKey(rows, t[i].0) < FirstKey(rows, t[j].0)
  {
    Tally.FoldFirstOrder(Pairs(rows));
    Tally.Fold(Pairs(rows))
  }

  /** `dimensionLabels[dimension][category] || category`: every label is non-empty, so a known key shows its label. */
  function Display(d: Store.Dimension, key: string): (s: string)
    ensures key in DimensionLabels(d) ==> s == DimensionLabels(d)[key]
    ensures key !in DimensionLabels(d) ==> s == key
  {
    DemographicInsights.Label(DimensionLabels(d), key)
  }

  function Bars(d: Store.Dimension, t: seq<(string, int)>): (bs: seq<ChartRow>)
    ensures |bs| == |t|
    ensures forall i :: 0 <= i < |t| ==> bs[i] == ChartRow(Display(d, t[i].0), t[i].1, t[i].0)
  {
    seq(|t|, i requires 0 <= i < |t| => ChartRow(Display(d, t[i].0), t[i].1, t[i].0))
  }

  lemma {:induction false} PairsMeanKeySums(rows: seq<InsightRow>, k: string)
    ensures Tally.SumFor(Pairs(rows), k) == KeySum(rows, k)
    ensures Tally.Sum(Pairs(rows)) == RowsTotal(rows)
  {
    if |rows| > 0 {
      PairsMeanKeySums(rows[1..], k);
      assert Pairs(rows)[1..] == Pairs(rows[1..]);
    }
  }

  lemma {:induction false} BarsTotal(d: Store.Dimension, t: seq<(string, int)>)
    ensures Sorting.SumBy(Bars(d, t), Count) == Tally.Sum(t)
  {
    if |t| > 0 {
      BarsTotal(d, t[1..]);
      assert Bars(d, t)[1..] == Bars(d, t[1..]);
    }
  }

  /** Each bar before sorting carries its key's sum and its label. */
  lemma BarAt(d: Store.Dimension, rows: seq<InsightRow>, k: int)
    requires 0 <= k < |Counts(rows)|
    ensures var b := Bars(d, Counts(rows))[k];
      b.count == KeySum(rows, b.rawValue) && b.category == Display(d, b.rawValue) && b.rawValue in Keys(rows)
  {
    var ps, t := Pairs(rows), Counts(rows);
    Tally.FoldCorrect(ps);
    Tally.GetAt(t, k);
    PairsMeanKeySums(rows, t[k].0);
    var j := Tally.FoldKeyOrigin(ps, k);
    assert rows[j].key == t[k].0;
  }

  /** The unsorted bars: distinct keys, exactly the keys of the rows, each with its sum. */
  lemma BarsFacts(d: Store.Dimension, rows: seq<InsightRow>)
    ensures Sorting.DistinctBy(Bars(d, Counts(rows)), RawValue)
    ensures RawValues(Bars(d, Counts(rows))) == Keys(rows)
    ensures forall b :: b in Bars(d, Counts(rows)) ==>
      b.count == KeySum(rows, b.rawValue) && b.category == Display(d, b.rawValue)
    ensures Sorting.SumBy(Bars(d, Counts(rows)), Count) == RowsTotal(rows)
  {
    var ps, t := Pairs(rows), Counts(rows);
    var bars := Bars(d, t);
    Tally.FoldCorrect(ps);
    BarsTotal(d, t);
    PairsMeanKeySums(rows, "");
    forall b | b in bars ensures b.count == KeySum(rows, b.rawValue) && b.category == Display(d, b.rawValue) {
      var k :| 0 <= k < |bars| && bars[k] == b;
      BarAt(d, rows, k);
    }
    forall x | x in RawValues(bars) ensures x in Keys(rows) {
      var k :| 0 <= k < |bars| && bars[k].rawValue == x;
      BarAt(d, rows, k);
    }
    forall x | x in Keys(rows) ensures x in RawValues(bars) {
      var j :| 0 <= j < |rows| && rows[j].key == x;
      assert ps[j].0 == x;
      Tally.FoldHasKey(ps, j);
      var k :| 0 <= k < |t| && Tally.Keys(t)[k] == x;
      assert bars[k].rawValue == x;
    }
  }

  /**
   * The chart data for a response: nothing for a failed, non-array or empty
   * response; otherwise one bar per distinct key, carrying the sum of that
   * key's member counts, its display label and the key itself, largest
   * count first, the counts adding up to the response's total.
   */
  function ChartData(d: Store.Dimension, response: Option<seq<InsightRow>>): (r: seq<ChartRow>)
    ensures response.None? || |response.value| == 0 ==> r == []
    ensures Sorting.SortedDesc(r, Count)
    ensures Sorting.DistinctBy(r, RawValue)
    ensures response.Some? ==> RawValues(r) == Keys(response.value)
    ensures response.Some? ==> forall i :: 0 <= i < |r| ==>
      r[i].count == KeySum(response.value, r[i].rawValue) && r[i].category == Display(d, r[i].rawValue)
    ensures response.Some? ==> Sorting.SumBy(r, Count) == RowsTotal(response.value)
    ensures response.Some? ==> forall i, j :: 0 <= i < j < |r| && r[i].count == r[j].count ==>
      FirstKey(response.value, r[i].rawValue) < FirstKey(response.value, r[j].rawValue)
  {
    if response.None? || |response.value| == 0 then []
    else
      var bars := Bars(d, Counts(response.value));
      var r := Sorting.SortDesc(bars, Count);
      SortedBars(d, response.value, bars, r);
      SortedTies(d, response.value, bars, r);
      r
  }

  /** The stable sort keeps bars of equal count in the order of their keys' first rows. */
  lemma SortedTies(d: Store.Dimension, rows: seq<InsightRow>, bars: seq<ChartRow>, r: seq<ChartRow>)
    requires bars == Bars(d, Counts(rows))
    requires r == Sorting.SortDesc(bars, Count)
    ensures forall i, j :: 0 <= i < j < |r| && r[i].count == r[j].count ==>
      FirstKey(rows, r[i].rawValue) < FirstKey(rows, r[j].rawValue)
  {
    var tie := (b: ChartRow) => FirstKey(rows, b.rawValue);
    var t := Counts(rows);
    forall i, j | 0 <= i < j < |bars| ensures tie(bars[i]) < tie(bars[j]) {
      assert bars[i].rawValue == t[i].0 && bars[j].rawValue == t[j].0;
    }
    Sorting.SortStable(bars, Count, tie);
    forall i, j | 0 <= i < j < |r| && r[i].count == r[j].count
      ensures FirstKey(rows, r[i].rawValue) < FirstKey(rows, r[j].rawValue)
    {
      assert Count(r[i]) == Count(r[j]);
      assert tie(r[i]) < tie(r[j]);
    }
  }

  lemma SortedBars(d: Store.Dimension, rows: seq<InsightRow>, bars: seq<ChartRow>, r: seq<ChartRow>)
    requires bars == Bars(d, Counts(rows))
    requires r == Sorting.SortDesc(bars, Count)
    ensures Sorting.DistinctBy(r, RawValue)
    ensures RawValues(r) == Keys(rows)
    ensures forall i :: 0 <= i < |r| ==>
      r[i].count == KeySum(rows, r[i].rawValue) && r[i].category == Display(d, r[i].rawValue)
    ensures Sorting.SumBy(r, Count) == RowsTotal(rows)
  {
    BarsFacts(d, rows);
    SortedRawValues(bars, r);
    Sorting.SortDistinct(bars, Count, RawValue);
    Sorting.SortSum(bars, Count, Count);
    forall i | 0 <= i < |r|
      ensures r[i].count == KeySum(rows, r[i].rawValue) && r[i].category == Display(d, r[i].rawValue)
    {
      SortedBar(d, rows, bars, r, i);
    }
  }

  lemma SortedRawValues(bars: seq<ChartRow>, r: seq<ChartRow>)
    requires r == Sorting.SortDesc(bars, Count)
    ensures RawValues(r) == RawValues(bars)
  {
    Sorting.SortMembers(bars, Count);
    forall x | x in RawValues(r) ensures x in RawValues(bars) {
      var i :| 0 <= i < |r| && r[i].rawValue == x;
      assert r[i] in r;
      var k :| 0 <= k < |bars| && bars[k] == r[i];
    }
    forall x | x in RawValues(bars) ensures x in RawValues(r) {
      var k :| 0 <= k < |bars| && bars[k].rawValue == x;
      assert bars[k] in bars;
      var i :| 0 <= i < |r| && r[i] == bars[k];
    }
  }

  lemma SortedBar(d: Store.Dimension, rows: seq<InsightRow>, bars: seq<ChartRow>, r: seq<ChartRow>, i: int)
    requires bars == Bars(d, Counts(rows))
    requires r == Sorting.SortDesc(bars, Count)
    requires 0 <= i < |r|
    ensures r[i].count == KeySum(rows, r[i].rawValue) && r[i].category == Display(d, r[i].rawValue)
  {
    BarsFacts(d, rows);
    Sorting.SortMembers(bars, Count);
    assert r[i] in r;
  }

  /**
   * The insights route already replaced race and ethnicity codes by labels,
   * so those bars show their group key unchanged: the chart's own table for
   * them never applies, and `rawValue` is the label, not the code.
   */
  lemma RelabelledKeysShowAsIs(d: Store.Dimension, rows: seq<InsightRow>)
    requires d == Store.Race || d == Store.Ethnicity
    ensures forall b :: b in ChartData(d, Some(DemographicInsights.Relabel(d, rows))) ==> b.category == b.rawValue
  {
    var relabelled := DemographicInsights.Relabel(d, rows);
    var r := ChartData(d, Some(relabelled));
    forall b | b in r ensures b.category == b.rawValue {
      var i :| 0 <= i < |r| && r[i] == b;
      assert b.rawValue in RawValues(r);
      var j :| 0 <= j < |relabelled| && relabelled[j].key == b.rawValue;
      DemographicInsights.LabelIdempotent(rows[j].key);
    }
  }
}
