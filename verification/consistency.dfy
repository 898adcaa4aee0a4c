/**
 * The category breakdown and a demographic breakdown of the same records
 * partition the same total: summing the condition-distribution response
 * and summing the demographic chart's bars both give `SUM(count)` over the
 * records.
 */
module Consistency {
  import opened Wrappers
  import Tally
  import Sorting
  import Store
  import ConditionDistribution
  import DemographicInsights
  import DemographicChart

  /** The rows `GROUP BY condition` hands to the condition-distribution route. */
  function ConditionRows(t: seq<(string, int)>): (rows: seq<ConditionDistribution.ConditionRow>)
    ensures |rows| == |t|
    ensures forall i :: 0 <= i < |t| ==> rows[i] == ConditionDistribution.ConditionRow(t[i].0, t[i].1)
  {
    seq(|t|, i requires 0 <= i < |t| => ConditionDistribution.ConditionRow(t[i].0, t[i].1))
  }

  /** The rows `GROUP BY <dimension>` hands to the chart. */
  function InsightRows(t: seq<(string, int)>): (rows: seq<DemographicInsights.InsightRow>)
    ensures |rows| == |t|
    ensures forall i :: 0 <= i < |t| ==> rows[i] == DemographicInsights.InsightRow(t[i].0, t[i].1)
  {
    seq(|t|, i requires 0 <= i < |t| => DemographicInsights.InsightRow(t[i].0, t[i].1))
  }

  lemma {:induction false} ConditionRowsTotal(t: seq<(string, int)>)
    ensures ConditionDistribution.RowsTotal(ConditionRows(t)) == Tally.Sum(t)
  {
    if |t| > 0 {
      ConditionRowsTotal(t[1..]);
      assert ConditionRows(t)[1..] == ConditionRows(t[1..]);
    }
  }

  lemma {:induction false} InsightRowsTotal(t: seq<(string, int)>)
    ensures DemographicChart.RowsTotal(InsightRows(t)) == Tally.Sum(t)
  {
    if |t| > 0 {
      InsightRowsTotal(t[1..]);
      assert InsightRows(t)[1..] == InsightRows(t[1..]);
    }
  }

  /**
   * Over the same records, the category distribution and the chart for any
   * dimension both add up to the records' total count.
   */
  lemma PartitionsAgree(rs: seq<Store.Record>, d: Store.Dimension)
    ensures Sorting.SumBy(ConditionDistribution.Distribution(ConditionRows(Store.SumByCondition(rs))),
                          ConditionDistribution.MemberCount) == Store.TotalCount(rs)
    ensures Sorting.SumBy(DemographicChart.ChartData(d, Some(InsightRows(Store.SumByDimension(rs, d)))),
                          DemographicChart.Count) == Store.TotalCount(rs)
  {
    Store.GroupingKeepsTotal(rs, d);
    ConditionRowsTotal(Store.SumByCondition(rs));
    InsightRowsTotal(Store.SumByDimension(rs, d));
  }
}
