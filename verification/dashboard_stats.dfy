/**
 * `GET /api/dashboard-stats`: the total-patients and active-cases cards.
 * Each card shows the latest month's total, its change against the month
 * before, an up/down trend, and the rows of the latest month behind it.
 * The three queries' results are inputs; the readmission and satisfaction
 * cards are fixed figures and are not modelled.
 */
module DashboardStats {
  import opened Wrappers
  import Text
  import Filters
  import Store
  import HealthTrends

  /** One row of a `GROUP BY month ORDER BY month DESC LIMIT 2` query. */
  datatype MonthTotal = MonthTotal(total: int, month: HealthTrends.Month)

  /** One row of the raw-data query: a condition's total in one month. */
  datatype RawRow = RawRow(condition: string, count: int, month: HealthTrends.Month)

  datatype Trend = Up | Down

  datatype Change = Change(value: int, period: string, trend: Trend)

  datatype Card = Card(current: int, change: Change, rawData: seq<RawRow>)

  datatype Stats = Stats(totalPatients: Card, activeCases: Card)

  const LastMonth := "last month"

  /** `rows[0]?.current_total || 0`: the latest month's total, or 0 with no month. */
  function Current(series: seq<MonthTotal>): (r: int)
    ensures |series| == 0 ==> r == 0
    ensures |series| > 0 ==> r == series[0].total
  {
    if |series| > 0 then series[0].total else 0
  }

  /** `rows[1]?.current_total || 0`: the month before, or 0 with fewer than two months. */
  function Previous(series: seq<MonthTotal>): (r: int)
    ensures |series| < 2 ==> r == 0
    ensures |series| >= 2 ==> r == series[1].total
  {
    if |series| > 1 then series[1].total else 0
  }

  /** `rows[0]?.month`: the latest month, if any. */
  function TopMonth(series: seq<MonthTotal>): (r: Option<HealthTrends.Month>)
    ensures r.Some? <==> |series| > 0
    ensures r.Some? ==> r.value == series[0].month
  {
    if |series| > 0 then Some(series[0].month) else None
  }

  /** `change >= 0 ? 'up' : 'down'`. */
  function TrendOf(change: int): (t: Trend)
    ensures t == Up <==> change >= 0
    ensures t == Down <==> change < 0
  {
    if change >= 0 then Up else Down
  }

  /** Only the first two months of a series are ever read. */
  lemma AtMostTwoMonths(series: seq<MonthTotal>, more: seq<MonthTotal>)
    requires |series| >= 2
    ensures Current(series + more) == Current(series)
    ensures Previous(series + more) == Previous(series)
    ensures TopMonth(series + more) == TopMonth(series)
  {
    assert (series + more)[0] == series[0];
    assert (series + more)[1] == series[1];
  }

  /** `rawData.filter(r => r.month === top)`: an absent month keeps no row. */
  function InMonth(raw: seq<RawRow>, top: Option<HealthTrends.Month>): (r: seq<RawRow>)
    ensures |r| <= |raw|
    ensures forall x :: x in r <==> x in raw && top == Some(x.month)
  {
    if |raw| == 0 then []
    else
      var rest := InMonth(raw[1..], top);
      assert forall x :: x in raw <==> x == raw[0] || x in raw[1..];
      if top == Some(raw[0].month) then [raw[0]] + rest else rest
  }

  /** The JavaScript `!r.condition.includes('HEALTHY')` test: case-sensitive. */
  predicate Active(r: RawRow) {
    !Text.Contains(r.condition, "HEALTHY")
  }

  /** `rawData.filter(r => r.month === top && !r.condition.includes('HEALTHY'))`. */
  function ActiveInMonth(raw: seq<RawRow>, top: Option<HealthTrends.Month>): (r: seq<RawRow>)
    ensures |r| <= |raw|
    ensures forall x :: x in r <==> x in raw && top == Some(x.month) && Active(x)
  {
    if |raw| == 0 then []
    else
      var rest := ActiveInMonth(raw[1..], top);
      assert forall x :: x in raw <==> x == raw[0] || x in raw[1..];
      if top == Some(raw[0].month) && Active(raw[0]) then [raw[0]] + rest else rest
  }

  lemma Regroup(a: seq<RawRow>, b: seq<RawRow>, c: seq<RawRow>)
    ensures a + (b + c) == (a + b) + c
  {
  }

  /** A single raw row survives the month filter exactly when it belongs to the top month. */
  lemma InMonthSingle(x: RawRow, top: Option<HealthTrends.Month>)
    ensures InMonth([x], top) == if top == Some(x.month) then [x] else []
  {
    assert [x][1..] == [];
  }

  /** `filter` keeps the surviving rows in their query order: filtering a concatenation filters each part. */
  lemma {:induction false} InMonthKeepsOrder(a: seq<RawRow>, b: seq<RawRow>, top: Option<HealthTrends.Month>)
    ensures InMonth(a + b, top) == InMonth(a, top) + InMonth(b, top)
  {
    if |a| == 0 {
      assert a + b == b;
    } else {
      var head := if top == Some(a[0].month) then [a[0]] else [];
      assert (a + b)[0] == a[0];
      assert (a + b)[1..] == a[1..] + b;
      assert InMonth(a + b, top) == head + InMonth(a[1..] + b, top);
      assert InMonth(a, top) == head + InMonth(a[1..], top);
      InMonthKeepsOrder(a[1..], b, top);
      var x, y := InMonth(a[1..], top), InMonth(b, top);
      Regroup(head, x, y);
    }
  }

  /** A single raw row survives the active filter exactly when it is in the top month and active. */
  lemma ActiveInMonthSingle(x: RawRow, top: Option<HealthTrends.Month>)
    ensures ActiveInMonth([x], top) == if top == Some(x.month) && Active(x) then [x] else []
  {
    assert [x][1..] == [];
  }

  /** One step of the active filter: the first row's fate, then the rest. */
  lemma ActiveInMonthCons(s: seq<RawRow>, top: Option<HealthTrends.Month>)
    requires |s| > 0
    ensures ActiveInMonth(s, top) == ActiveInMonth([s[0]], top) + ActiveInMonth(s[1..], top)
  {
    ActiveInMonthSingle(s[0], top);
  }

  /** The active filter keeps the surviving rows in their query order. */
  lemma {:induction false} ActiveInMonthKeepsOrder(a: seq<RawRow>, b: seq<RawRow>, top: Option<HealthTrends.Month>)
    ensures ActiveInMonth(a + b, top) == ActiveInMonth(a, top) + ActiveInMonth(b, top)
  {
    if |a| == 0 {
      assert a + b == b;
    } else {
      assert (a + b)[0] == a[0];
      assert (a + b)[1..] == a[1..] + b;
      ActiveInMonthCons(a + b, top);
      ActiveInMonthCons(a, top);
      ActiveInMonthKeepsOrder(a[1..], b, top);
      Regroup(ActiveInMonth([a[0]], top), ActiveInMonth(a[1..], top), ActiveInMonth(b, top));
    }
  }

  /** A card: the latest total, its change against the month before, and the trend of that change. */
  function CardOf(series: seq<MonthTotal>, rawData: seq<RawRow>): (c: Card)
    ensures c.current == Current(series)
    ensures c.change.value + Previous(series) == c.current
    ensures c.change.trend == Up <==> c.current >= Previous(series)
    ensures c.change.period == LastMonth
    ensures c.rawData == rawData
  {
    var change := Current(series) - Previous(series);
    Card(Current(series), Change(change, LastMonth, TrendOf(change)), rawData)
  }

  /**
   * The two cards from the three query results: each card's raw rows are the
   * raw rows of its own latest month, and the active card's drop any row
   * whose condition includes `HEALTHY`.
   */
  function StatsOf(totals: seq<MonthTotal>, active: seq<MonthTotal>, raw: seq<RawRow>): (s: Stats)
    ensures s.totalPatients == CardOf(totals, InMonth(raw, TopMonth(totals)))
    ensures s.activeCases == CardOf(active, ActiveInMonth(raw, TopMonth(active)))
    ensures forall x :: x in s.totalPatients.rawData ==> |totals| > 0 && x.month == totals[0].month
    ensures forall x :: x in s.activeCases.rawData ==>
      |active| > 0 && x.month == active[0].month && !Text.Contains(x.condition, "HEALTHY")
  {
    Stats(CardOf(totals, InMonth(raw, TopMonth(totals))),
          CardOf(active, ActiveInMonth(raw, TopMonth(active))))
  }

  /**
   * The SQL exclusion `condition NOT LIKE '%HEALTHY%'` is case-insensitive,
   * the JavaScript one is not. Whatever the JavaScript test drops the SQL
   * one drops too, but a row spelt `healthy` is left out of the active total
   * while it stays in the active raw rows.
   */
  predicate SqlActive(condition: string) {
    !Text.Contains(Text.Upper(condition), "HEALTHY")
  }

  lemma SqlExcludesMore(r: RawRow)
    requires SqlActive(r.condition)
    ensures Active(r)
  {
    if Text.Contains(r.condition, "HEALTHY") {
      Text.ContainsUpper(r.condition, "HEALTHY");
    }
  }

  lemma ExclusionsDiffer()
    ensures Active(RawRow("healthy", 1, 1)) && !SqlActive("healthy")
  {
    assert Text.Upper("healthy") == "HEALTHY";
    var lower := "healthy";
    assert !Text.Contains(lower, "HEALTHY") by {
      Text.ContainsIff(lower, "HEALTHY");
      forall i ensures !Text.OccursAt(lower, "HEALTHY", i) {
        if 0 <= i && i + 7 <= |lower| {
          assert lower[i..i + 7][0] == 'h';
        }
      }
    }
  }

  /** The response when a query throws: both cards zero with an upward trend, status 500. */
  const FailedCard := Card(0, Change(0, LastMonth, Up), [])
  const FailedStats := Stats(FailedCard, FailedCard)

  /** The body: fixed placeholder figures when the table is missing, otherwise the two cards. */
  datatype Body = Placeholder | Computed(stats: Stats)

  /**
   * The route: all three queries share the five-filter WHERE clause; if any
   * of them throws, the reply is 500 with zeroed cards.
   */
  function Route(
    f: Filters.FilterSet, tableExists: bool,
    runTotals: Filters.Where -> Option<seq<MonthTotal>>,
    runActive: Filters.Where -> Option<seq<MonthTotal>>,
    runRaw: Filters.Where -> Option<seq<RawRow>>): (r: Store.Reply<Body>)
    ensures !tableExists ==> r == Store.Reply(Store.Ok, Placeholder)
    ensures tableExists ==>
      var w := Filters.DashboardWhere(f);
      if runTotals(w).Some? && runActive(w).Some? && runRaw(w).Some?
      then r == Store.Reply(Store.Ok, Computed(StatsOf(runTotals(w).value, runActive(w).value, runRaw(w).value)))
      else r == Store.Reply(Store.ServerError, Computed(FailedStats))
  {
    if !tableExists then Store.Reply(Store.Ok, Placeholder)
    else
      var w := Filters.DashboardWhere(f);
      match (runTotals(w), runActive(w), runRaw(w))
      case (Some(totals), Some(active), Some(raw)) => Store.Reply(Store.Ok, Computed(StatsOf(totals, active, raw)))
      case _ => Store.Reply(Store.ServerError, Computed(FailedStats))
  }
}
