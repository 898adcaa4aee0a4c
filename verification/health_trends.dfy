/**
 * The health-trends route: rows of `GROUP BY condition, month` are pivoted
 * into one chart point per month, holding a total for every category seen
 * in any row (0 where the month has none), and the points are sorted by
 * date. The month is synthetic: `(rowid % 12) + 1`, printed as `2023-MM`.
 */
module HealthTrends {
  import opened Wrappers
  import Text
  import Conditions
  import Tally
  import Sorting
  import Filters
  import Store

  /** The route's own copy of `conditionCategories`, which it is meant to keep in sync. */
  const TrendCategories: seq<Conditions.Bucket> := [
    Conditions.Bucket("Mental Health", ["DEPRESSION", "PSYCHOSIS", "DEMENTIA", "MENTAL"]),
    Conditions.Bucket("Chronic Disease", ["DIABETES", "CAD", "HYPERTENSION", "HEART"]),
    Conditions.Bucket("Respiratory", ["COPD", "ASTHMA"]),
    Conditions.Bucket("Cancer & Critical", ["CANCER", "RENAL", "LIVER", "HIV"]),
    Conditions.Bucket("Healthy", ["HEALTHY"]),
    Conditions.Bucket("Other", [])
  ]

  /** The route's copy of `categorizeCondition`. */
  function Categorize(condition: string): (r: string)
    ensures Conditions.IsFirstMatch(TrendCategories, Text.Upper(condition), r)
  {
    Conditions.FirstMatch(TrendCategories, Text.Upper(condition))
  }

  /** The two copies are in sync: both routes put every label in the same category. */
  lemma CopiesAgree(condition: string)
    ensures Categorize(condition) == Conditions.Categorize(condition)
  {
    assert TrendCategories == Conditions.ConditionCategories;
  }

  type Month = m: int | 1 <= m <= 12 witness 1

  /** `(rowid % 12) + 1`; rowids are positive, so SQLite's `%` agrees with Dafny's here. */
  function MonthOf(rowid: nat): (m: int)
    ensures 1 <= m <= 12
    ensures (m - 1) % 12 == rowid % 12
  {
    rowid % 12 + 1
  }

  function Digit(d: int): (c: char)
    requires 0 <= d <= 9
    ensures c as int == '0' as int + d
  {
    ('0' as int + d) as char
  }

  /** `'2023-' || PRINTF('%02d', m)`. */
  function MonthLabel(m: Month): (s: string)
    ensures |s| == 7 && s[..5] == "2023-"
    ensures '0' <= s[5] <= '9' && '0' <= s[6] <= '9'
    ensures (s[5] as int - '0' as int) * 10 + (s[6] as int - '0' as int) == m
  {
    "2023-" + [Digit(m / 10), Digit(m % 10)]
  }

  /** String order, as `localeCompare` orders strings of ASCII digits and dashes. */
  predicate LexLess(a: string, b: string) {
    if |a| == 0 then |b| > 0
    else if |b| == 0 then false
    else if a[0] == b[0] then LexLess(a[1..], b[1..])
    else a[0] < b[0]
  }

  lemma {:induction false} LexLessCommonPrefix(p: string, a: string, b: string)
    ensures LexLess(p + a, p + b) <==> LexLess(a, b)
  {
    if |p| > 0 {
      assert (p + a)[1..] == p[1..] + a;
      assert (p + b)[1..] == p[1..] + b;
      LexLessCommonPrefix(p[1..], a, b);
    } else {
      assert p + a == a;
      assert p + b == b;
    }
  }

  /** Sorting the labels as strings sorts the months as numbers, so sorting by month models `localeCompare`. */
  lemma MonthLabelOrder(m1: Month, m2: Month)
    ensures LexLess(MonthLabel(m1), MonthLabel(m2)) <==> m1 < m2
  {
    LexLessCommonPrefix("2023-", [Digit(m1 / 10), Digit(m1 % 10)], [Digit(m2 / 10), Digit(m2 % 10)]);
    var a, b := [Digit(m1 / 10), Digit(m1 % 10)], [Digit(m2 / 10), Digit(m2 % 10)];
    assert a[1..] == [Digit(m1 % 10)] && b[1..] == [Digit(m2 % 10)];
    assert [Digit(m1 % 10)][1..] == [] && [Digit(m2 % 10)][1..] == [];
    assert a[0] == b[0] <==> m1 / 10 == m2 / 10;
    assert a[0] < b[0] <==> m1 / 10 < m2 / 10;
    assert a[1] == b[1] <==> m1 % 10 == m2 % 10;
    assert a[1] < b[1] <==> m1 % 10 < m2 % 10;
    assert m1 == 10 * (m1 / 10) + m1 % 10 && m2 == 10 * (m2 / 10) + m2 % 10;
    assert MonthLabel(m1) == "2023-" + a && MonthLabel(m2) == "2023-" + b;
    assert LexLess(a, b) == if a[0] == b[0] then LexLess(a[1..], b[1..]) else a[0] < b[0];
    assert LexLess(a[1..], b[1..]) == if a[1] == b[1] then LexLess([], []) else a[1] < b[1];
    assert !LexLess([], []);
  }

  /** A row of `SELECT condition, SUM(count) as member_count, <month> ... GROUP BY condition, month`. */
  datatype TrendRow = TrendRow(condition: string, memberCount: int, month: Month)

  /** `monthlyData`: month to (category to total), both in first-insertion order. */
  type Monthly = seq<(Month, seq<(string, int)>)>

  /** `monthlyData.get(m)`, with a month never seen read as an empty map. */
  function CountsOf(md: Monthly, m: Month): seq<(string, int)> {
    if |md| == 0 then []
    else if md[0].0 == m then md[0].1
    else CountsOf(md[1..], m)
  }

  /** One step of the `forEach`: create the month's map if missing, then add to the category. */
  function Update(md: Monthly, m: Month, c: string, n: int): (r: Monthly)
    ensures forall x :: CountsOf(r, x) == if x == m then Tally.Add(CountsOf(md, m), c, n) else CountsOf(md, x)
  {
    if |md| == 0 then [(m, Tally.Add([], c, n))]
    else if md[0].0 == m then [(m, Tally.Add(md[0].1, c, n))] + md[1..]
    else [md[0]] + Update(md[1..], m, c, n)
  }

  lemma UpdateMonths(md: Monthly, m: Month, c: string, n: int)
    ensures forall x :: x in Tally.Keys(Update(md, m, c, n)) <==> x in Tally.Keys(md) || x == m
    ensures Tally.DistinctKeys(md) ==> Tally.DistinctKeys(Update(md, m, c, n))
  {
    UpdateKeys(md, m, c, n);
    if Tally.DistinctKeys(md) {
      UpdateDistinct(md, m, c, n);
    }
  }

  /** Updating adds month `m` to the months and no other. */
  lemma {:induction false} UpdateKeys(md: Monthly, m: Month, c: string, n: int)
    ensures forall x :: x in Tally.Keys(Update(md, m, c, n)) <==> x in Tally.Keys(md) || x == m
  {
    var r := Update(md, m, c, n);
    if |md| == 0 {
      assert Tally.Keys(r) == [m];
    } else if md[0].0 == m {
      assert r == [(m, Tally.Add(md[0].1, c, n))] + md[1..];
      assert Tally.Keys(md) == [m] + Tally.Keys(md[1..]);
      assert Tally.Keys(r) == [m] + Tally.Keys(md[1..]);
    } else {
      var rest := Update(md[1..], m, c, n);
      assert r == [md[0]] + rest;
      UpdateKeys(md[1..], m, c, n);
      assert Tally.Keys(md) == [md[0].0] + Tally.Keys(md[1..]);
      assert Tally.Keys(r) == [md[0].0] + Tally.Keys(rest);
    }
  }

  /** Updating never creates a second entry for a month. */
  lemma {:induction false} UpdateDistinct(md: Monthly, m: Month, c: string, n: int)
    requires Tally.DistinctKeys(md)
    ensures Tally.DistinctKeys(Update(md, m, c, n))
  {
    var r := Update(md, m, c, n);
    if |md| == 0 {
      assert Tally.Keys(r) == [m];
    } else if md[0].0 == m {
      assert r == [(m, Tally.Add(md[0].1, c, n))] + md[1..];
      assert Tally.Keys(md) == [m] + Tally.Keys(md[1..]);
      assert Tally.Keys(r) == [m] + Tally.Keys(md[1..]);
    } else {
      var rest := Update(md[1..], m, c, n);
      assert r == [md[0]] + rest;
      UpdateKeys(md[1..], m, c, n);
      UpdateDistinct(md[1..], m, c, n);
      assert Tally.Keys(md) == [md[0].0] + Tally.Keys(md[1..]);
      assert Tally.Keys(r) == [md[0].0] + Tally.Keys(rest);
      forall j | 0 <= j < |rest| ensures rest[j].0 != md[0].0 {
        assert rest[j].0 in Tally.Keys(rest);
        if rest[j].0 != m {
          var k :| 0 <= k < |md[1..]| && Tally.Keys(md[1..])[k] == rest[j].0;
          assert md[k + 1].0 == rest[j].0;
        }
      }
    }
  }

  /** The whole `forEach` over the rows: one map per month, for exactly the months of the rows. */
  function MonthlyData(rows: seq<TrendRow>): (md: Monthly)
    ensures Tally.DistinctKeys(md)
    ensures forall x :: x in Tally.Keys(md) <==> x in RowMonths(rows)
  {
    if |rows| == 0 then [] else
      var init, last := rows[..|rows| - 1], rows[|rows| - 1];
      UpdateMonths(MonthlyData(init), last.month, Categorize(last.condition), last.memberCount);
      RowMonthsSnoc(rows);
      Update(MonthlyData(init), last.month, Categorize(last.condition), last.memberCount)
  }

  /** The (category, member_count) pairs of the rows of month `m`, in row order. */
  function PairsIn(rows: seq<TrendRow>, m: Month): seq<(string, int)> {
    if |rows| == 0 then [] else
      var last := rows[|rows| - 1];
      PairsIn(rows[..|rows| - 1], m) + (if last.month == m then [(Categorize(last.condition), last.memberCount)] else [])
  }

  /** The total of the rows of month `m` whose condition falls in category `c`. */
  ghost function CellSum(rows: seq<TrendRow>, m: Month, c: string): int {
    if |rows| == 0 then 0 else
      var last := rows[|rows| - 1];
      CellSum(rows[..|rows| - 1], m, c) + (if last.month == m && Categorize(last.condition) == c then last.memberCount else 0)
  }

  /** The total of the rows of month `m`. */
  ghost function MonthSum(rows: seq<TrendRow>, m: Month): int {
    if |rows| == 0 then 0 else
      var last := rows[|rows| - 1];
      MonthSum(rows[..|rows| - 1], m) + (if last.month == m then last.memberCount else 0)
  }

  /** Each month's map is the fold of that month's rows alone. */
  lemma {:induction false} MonthlyCounts(rows: seq<TrendRow>, x: Month)
    ensures CountsOf(MonthlyData(rows), x) == Tally.Fold(PairsIn(rows, x))
  {
    if |rows| > 0 {
      var init, last := rows[..|rows| - 1], rows[|rows| - 1];
      MonthlyCounts(init, x);
      var p := (Categorize(last.condition), last.memberCount);
      assert MonthlyData(rows) == Update(MonthlyData(init), last.month, p.0, p.1);
      if x == last.month {
        var ps := PairsIn(init, x) + [p];
        assert PairsIn(rows, x) == ps;
        assert ps[..|ps| - 1] == PairsIn(init, x);
        assert Tally.Fold(ps) == Tally.Add(Tally.Fold(PairsIn(init, x)), p.0, p.1);
      } else {
        assert PairsIn(rows, x) == PairsIn(init, x) + [];
        assert PairsIn(init, x) + [] == PairsIn(init, x);
        assert CountsOf(MonthlyData(rows), x) == CountsOf(MonthlyData(init), x);
      }
    }
  }

  /** The months of the rows are those of all but the last, plus the last row's. */
  lemma RowMonthsSnoc(rows: seq<TrendRow>)
    requires |rows| > 0
    ensures RowMonths(rows) == RowMonths(rows[..|rows| - 1]) + {rows[|rows| - 1].month}
  {
    var init := rows[..|rows| - 1];
    forall x | x in RowMonths(rows) ensures x in RowMonths(init) + {rows[|rows| - 1].month} {
      var i :| 0 <= i < |rows| && rows[i].month == x;
      if i < |init| {
        assert init[i].month == x;
      }
    }
    forall x | x in RowMonths(init) ensures x in RowMonths(rows) {
      var i :| 0 <= i < |init| && init[i].month == x;
      assert rows[i].month == x;
    }
    assert rows[|rows| - 1].month in RowMonths(rows);
  }

  /** A month's map read at a month that is listed is the map stored at that position. */
  lemma {:induction false} CountsOfAt(md: Monthly, k: int)
    requires Tally.DistinctKeys(md)
    requires 0 <= k < |md|
    ensures CountsOf(md, md[k].0) == md[k].1
  {
    if k > 0 {
      CountsOfAt(md[1..], k - 1);
    }
  }

  lemma {:induction false} PairsInMeanCellSums(rows: seq<TrendRow>, m: Month, c: string)
    ensures Tally.SumFor(PairsIn(rows, m), c) == CellSum(rows, m, c)
  {
    if |rows| > 0 {
      var init, last := rows[..|rows| - 1], rows[|rows| - 1];
      PairsInMeanCellSums(init, m, c);
      var tail := if last.month == m then [(Categorize(last.condition), last.memberCount)] else [];
      Tally.SumForAppend(PairsIn(init, m), tail, c);
      if last.month == m {
        assert tail[1..] == [];
      }
    }
  }

  /** Each row as a (category, member_count) pair, in row order. */
  function CategoryPairs(rows: seq<TrendRow>): (ps: seq<(string, int)>)
    ensures |ps| == |rows|
    ensures forall i :: 0 <= i < |rows| ==> ps[i] == (Categorize(rows[i].condition), rows[i].memberCount)
  {
    seq(|rows|, i requires 0 <= i < |rows| => (Categorize(rows[i].condition), rows[i].memberCount))
  }

  /** `categories`: a JavaScript `Set` lists values in first-insertion order, as the keys of a fold do. */
  function Categories(rows: seq<TrendRow>): seq<string> {
    Tally.Keys(Tally.Fold(CategoryPairs(rows)))
  }

  /** The categories some row falls in. */
  ghost function Seen(rows: seq<TrendRow>): set<string> {
    set j | 0 <= j < |rows| :: Categorize(rows[j].condition)
  }

  /** The categories set lists each category seen once. */
  lemma CategoriesFacts(rows: seq<TrendRow>)
    ensures forall i, j :: 0 <= i < j < |Categories(rows)| ==> Categories(rows)[i] != Categories(rows)[j]
    ensures forall c :: c in Categories(rows) <==> c in Seen(rows)
  {
    var ps := CategoryPairs(rows);
    Tally.FoldCorrect(ps);
    forall c ensures c in Categories(rows) <==> c in Seen(rows) {
      if c in Seen(rows) {
        var j :| 0 <= j < |rows| && Categorize(rows[j].condition) == c;
        assert ps[j].0 == c;
      }
    }
  }

  /** One element of the response: `date` and one total per category. */
  datatype Point = Point(month: Month, values: map<string, int>) {
    function Date(): string { MonthLabel(month) }
  }

  /** `dataPoint`: every category seen anywhere, read from the month's map with default 0. */
  function ToPoint(cats: set<string>, e: (Month, seq<(string, int)>)): (p: Point)
    ensures p.month == e.0 && p.values.Keys == cats
    ensures forall c :: c in cats && c !in Tally.Keys(e.1) ==> p.values[c] == 0
    ensures Tally.DistinctKeys(e.1) ==>
      forall k :: 0 <= k < |e.1| && e.1[k].0 in cats ==> p.values[e.1[k].0] == e.1[k].1
  {
    Tally.ZeroFill(e.1);
    Tally.GetAll(e.1);
    Point(e.0, map c | c in cats :: Tally.Get(e.1, c))
  }

  function NegMonth(p: Point): int { -(p.month as int) }
  function PointMonth(p: Point): Month { p.month }

  /** The months of the rows. */
  ghost function RowMonths(rows: seq<TrendRow>): set<Month> {
    set i | 0 <= i < |rows| :: rows[i].month
  }

  /** The months of the points. */
  ghost function PointMonths(ps: seq<Point>): set<Month> {
    set i | 0 <= i < |ps| :: ps[i].month
  }

  /** The points before sorting, one per entry of `monthlyData`. */
  function Points(rows: seq<TrendRow>): (ps: seq<Point>)
    ensures |ps| == |MonthlyData(rows)|
    ensures forall i :: 0 <= i < |ps| ==> ps[i].month == MonthlyData(rows)[i].0
    ensures forall i :: 0 <= i < |ps| ==> ps[i].values.Keys == set c | c in Categories(rows)
  {
    var md := MonthlyData(rows);
    var cats := set c | c in Categories(rows);
    seq(|md|, i requires 0 <= i < |md| => ToPoint(cats, md[i]))
  }

  /** Every point holds, for each category seen, the total of that month's rows in that category. */
  lemma PointFacts(rows: seq<TrendRow>, k: int)
    requires 0 <= k < |Points(rows)|
    ensures Points(rows)[k].values.Keys == Seen(rows)
    ensures forall c :: c in Points(rows)[k].values ==>
      Points(rows)[k].values[c] == CellSum(rows, Points(rows)[k].month, c)
  {
    var md := MonthlyData(rows);
    var p := Points(rows)[k];
    var m := md[k].0;
    CategoriesFacts(rows);
    CountsOfAt(md, k);
    MonthlyCounts(rows, m);
    Tally.FoldCorrect(PairsIn(rows, m));
    forall c | c in p.values ensures p.values[c] == CellSum(rows, m, c) {
      PairsInMeanCellSums(rows, m, c);
    }
  }

  /** The points cover exactly the months of the rows, once each. */
  lemma PointMonthsFacts(rows: seq<TrendRow>)
    ensures Sorting.DistinctBy(Points(rows), PointMonth)
    ensures PointMonths(Points(rows)) == RowMonths(rows)
  {
    var md := MonthlyData(rows);
    var ps := Points(rows);
    forall x ensures x in PointMonths(ps) <==> x in RowMonths(rows) {
      if x in PointMonths(ps) {
        var i :| 0 <= i < |ps| && ps[i].month == x;
        assert Tally.Keys(md)[i] == x;
        assert x in Tally.Keys(md);
      }
      if x in RowMonths(rows) {
        assert x in Tally.Keys(md);
        var i :| 0 <= i < |Tally.Keys(md)| && Tally.Keys(md)[i] == x;
        assert ps[i].month == x;
        assert x in PointMonths(ps);
      }
    }
  }

  /**
   * `chartData`: one point per month present in the rows, in ascending date
   * order; every point has a value for every category seen in any row, and
   * that value is the month's total for the category (0 when it has none).
   */
  function ChartData(rows: seq<TrendRow>): (r: seq<Point>)
    ensures forall i, j :: 0 <= i < j < |r| ==> r[i].month < r[j].month
    ensures PointMonths(r) == RowMonths(rows)
    ensures forall i :: 0 <= i < |r| ==> r[i].values.Keys == Seen(rows)
    ensures forall i, c :: 0 <= i < |r| && c in r[i].values ==> r[i].values[c] == CellSum(rows, r[i].month, c)
  {
    var ps := Points(rows);
    var r := Sorting.SortDesc(ps, NegMonth);
    ChartFacts(rows, ps, r);
    r
  }

  lemma ChartFacts(rows: seq<TrendRow>, ps: seq<Point>, r: seq<Point>)
    requires ps == Points(rows)
    requires r == Sorting.SortDesc(ps, NegMonth)
    ensures forall i, j :: 0 <= i < j < |r| ==> r[i].month < r[j].month
    ensures PointMonths(r) == RowMonths(rows)
    ensures forall i :: 0 <= i < |r| ==> r[i].values.Keys == Seen(rows)
    ensures forall i, c :: 0 <= i < |r| && c in r[i].values ==> r[i].values[c] == CellSum(rows, r[i].month, c)
  {
    PointMonthsFacts(rows);
    ChartAscending(ps, r);
    SortedMonths(ps, r);
    forall i | 0 <= i < |r| ensures r[i].values.Keys == Seen(rows)
      ensures forall c :: c in r[i].values ==> r[i].values[c] == CellSum(rows, r[i].month, c)
    {
      SortedPointOrigin(ps, r, i);
      var k :| 0 <= k < |ps| && ps[k] == r[i];
      PointFacts(rows, k);
    }
  }

  /** Sorting distinct months descending by their negation puts them in strictly ascending order. */
  lemma ChartAscending(ps: seq<Point>, r: seq<Point>)
    requires Sorting.DistinctBy(ps, PointMonth)
    requires r == Sorting.SortDesc(ps, NegMonth)
    ensures forall i, j :: 0 <= i < j < |r| ==> r[i].month < r[j].month
  {
    Sorting.SortDistinct(ps, NegMonth, PointMonth);
    forall i, j | 0 <= i < j < |r| ensures r[i].month < r[j].month {
      assert NegMonth(r[i]) >= NegMonth(r[j]);
      assert PointMonth(r[i]) != PointMonth(r[j]);
    }
  }

  lemma SortedPointOrigin(ps: seq<Point>, r: seq<Point>, i: int)
    requires r == Sorting.SortDesc(ps, NegMonth)
    requires 0 <= i < |r|
    ensures exists k :: 0 <= k < |ps| && ps[k] == r[i]
  {
    Sorting.SortMembers(ps, NegMonth);
    assert r[i] in ps;
  }

  /** Sorting keeps the set of months. */
  lemma SortedMonths(ps: seq<Point>, r: seq<Point>)
    requires r == Sorting.SortDesc(ps, NegMonth)
    ensures PointMonths(r) == PointMonths(ps)
  {
    Sorting.SortMembers(ps, NegMonth);
    forall x | x in PointMonths(r) ensures x in PointMonths(ps) {
      var i :| 0 <= i < |r| && r[i].month == x;
      assert r[i] in ps;
      var k :| 0 <= k < |ps| && ps[k] == r[i];
    }
    forall x | x in PointMonths(ps) ensures x in PointMonths(r) {
      var k :| 0 <= k < |ps| && ps[k].month == x;
      assert ps[k] in r;
      var i :| 0 <= i < |r| && r[i] == ps[k];
    }
  }

  /** The total over `cats` of the cells of month `m`. */
  ghost function SumCells(rows: seq<TrendRow>, m: Month, cats: seq<string>): int {
    if |cats| == 0 then 0 else CellSum(rows, m, cats[0]) + SumCells(rows, m, cats[1..])
  }

  /** `n` once for every listing of `k` in `cats`. */
  ghost function Hits(cats: seq<string>, k: string, n: int): int {
    if |cats| == 0 then 0 else (if cats[0] == k then n else 0) + Hits(cats[1..], k, n)
  }

  lemma {:induction false} HitsOnce(cats: seq<string>, k: string, n: int)
    requires forall i, j :: 0 <= i < j < |cats| ==> cats[i] != cats[j]
    requires k in cats
    ensures Hits(cats, k, n) == n
  {
    if cats[0] == k {
      HitsNone(cats[1..], k, n);
    } else {
      HitsOnce(cats[1..], k, n);
    }
  }

  lemma {:induction false} HitsNone(cats: seq<string>, k: string, n: int)
    requires k !in cats
    ensures Hits(cats, k, n) == 0
  {
    if |cats| > 0 {
      HitsNone(cats[1..], k, n);
    }
  }

  /** Adding one row adds its count once for every listing of its category. */
  lemma {:induction false} SumCellsStep(rows: seq<TrendRow>, m: Month, cats: seq<string>)
    requires |rows| > 0
    ensures SumCells(rows, m, cats) == SumCells(rows[..|rows| - 1], m, cats) +
      (if rows[|rows| - 1].month == m then Hits(cats, Categorize(rows[|rows| - 1].condition), rows[|rows| - 1].memberCount) else 0)
  {
    if |cats| > 0 {
      SumCellsStep(rows, m, cats[1..]);
    }
  }

  /** Summing the cells of a month over a list naming every category once gives the month's total. */
  lemma {:induction false} SumCellsIsMonthSum(rows: seq<TrendRow>, m: Month, cats: seq<string>)
    requires forall i, j :: 0 <= i < j < |cats| ==> cats[i] != cats[j]
    requires forall c :: c in Seen(rows) ==> c in cats
    ensures SumCells(rows, m, cats) == MonthSum(rows, m)
  {
    if |rows| == 0 {
      EmptyCells(m, cats);
    } else {
      var init, last := rows[..|rows| - 1], rows[|rows| - 1];
      forall c | c in Seen(init) ensures c in cats {
        var j :| 0 <= j < |init| && Categorize(init[j].condition) == c;
        assert rows[j] == init[j];
        assert c in Seen(rows);
      }
      SumCellsIsMonthSum(init, m, cats);
      SumCellsStep(rows, m, cats);
      assert Categorize(last.condition) in Seen(rows);
      HitsOnce(cats, Categorize(last.condition), last.memberCount);
    }
  }

  lemma {:induction false} EmptyCells(m: Month, cats: seq<string>)
    ensures SumCells([], m, cats) == 0
  {
    if |cats| > 0 {
      EmptyCells(m, cats[1..]);
    }
  }

  /** The total of a point's values over the listed categories (0 for one it lacks). */
  function SumValues(cats: seq<string>, values: map<string, int>): int {
    if |cats| == 0 then 0 else (if cats[0] in values then values[cats[0]] else 0) + SumValues(cats[1..], values)
  }

  lemma {:induction false} SumValuesAreCells(rows: seq<TrendRow>, p: Point, cats: seq<string>)
    requires forall c :: c in cats ==> c in p.values && p.values[c] == CellSum(rows, p.month, c)
    ensures SumValues(cats, p.values) == SumCells(rows, p.month, cats)
  {
    if |cats| > 0 {
      SumValuesAreCells(rows, p, cats[1..]);
    }
  }

  /**
   * The categories of a point add up to the total of its month's rows: zero
   * filling and categorising move no member between months.
   */
  lemma PointTotal(rows: seq<TrendRow>, i: int)
    requires 0 <= i < |ChartData(rows)|
    ensures SumValues(Categories(rows), ChartData(rows)[i].values) == MonthSum(rows, ChartData(rows)[i].month)
  {
    var p := ChartData(rows)[i];
    var cats := Categories(rows);
    CategoriesFacts(rows);
    SumValuesAreCells(rows, p, cats);
    SumCellsIsMonthSum(rows, p.month, cats);
  }

  /**
   * `GET /api/health-trends`: an empty list when the table is missing, 500 with
   * an empty list when the query fails, and otherwise the chart data of the
   * rows the demographic filters select.
   */
  function Route(f: Filters.FilterSet, tableExists: bool, run: Filters.Where -> Option<seq<TrendRow>>): (r: Store.Reply<seq<Point>>)
    ensures !tableExists ==> r == Store.Reply(Store.Ok, [])
    ensures tableExists && run(Filters.DemographicWhere(f)).None? ==> r == Store.Reply(Store.ServerError, [])
    ensures tableExists && run(Filters.DemographicWhere(f)).Some? ==>
      r.status == Store.Ok && r.body == ChartData(run(Filters.DemographicWhere(f)).value)
  {
    if !tableExists then Store.Reply(Store.Ok, [])
    else match run(Filters.DemographicWhere(f))
      case None => Store.Reply(Store.ServerError, [])
      case Some(rows) => Store.Reply(Store.Ok, ChartData(rows))
  }
}
