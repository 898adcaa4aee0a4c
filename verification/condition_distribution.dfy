/**
 * The condition-distribution route: the per-condition totals of the
 * filtered records are folded into per-category totals (first appearance
 * order), then sorted by total, largest first.
 */
module ConditionDistribution {
  import Conditions
  import Tally
  import Sorting
  import Filters
  import Store
  import opened Wrappers

  /** A row of `SELECT condition, SUM(count) as member_count ... GROUP BY condition`. */
  datatype ConditionRow = ConditionRow(condition: string, memberCount: int)

  /** One element of the response; the percentage is not modelled. */
  datatype CategoryCount = CategoryCount(category: string, memberCount: int)

  function MemberCount(c: CategoryCount): int { c.memberCount }
  function Category(c: CategoryCount): string { c.category }

  /** The sum of `member_count` over the rows whose condition falls in category `c`. */
  ghost function CategorySum(rows: seq<ConditionRow>, c: string): int {
    if |rows| == 0 then 0
    else (if Conditions.Categorize(rows[0].condition) == c then rows[0].memberCount else 0)
         + CategorySum(rows[1..], c)
  }

  /** The sum of `member_count` over all rows. */
  function RowsTotal(rows: seq<ConditionRow>): int {
    if |rows| == 0 then 0 else rows[0].memberCount + RowsTotal(rows[1..])
  }

  /** Each row as a (category, member_count) pair, in row order. */
  function CategoryPairs(rows: seq<ConditionRow>): (ps: seq<(string, int)>)
    ensures |ps| == |rows|
    ensures forall i :: 0 <= i < |rows| ==>
      ps[i] == (Conditions.Categorize(rows[i].condition), rows[i].memberCount)
  {
    seq(|rows|, i requires 0 <= i < |rows| => (Conditions.Categorize(rows[i].condition), rows[i].memberCount))
  }

  /** The index of the first row whose condition falls in category `c`, or `|rows|` when none does. */
  function FirstRow(rows: seq<ConditionRow>, c: string): (n: nat)
    ensures n <= |rows|
    ensures forall i :: 0 <= i < n ==> Conditions.Categorize(rows[i].condition) != c
    ensures n < |rows| ==> Conditions.Categorize(rows[n].condition) == c
  {
    Tally.FirstAt(CategoryPairs(rows), c)
  }

  /**
   * `categoryTotals` after the `forEach`: each category once, in the order
   * its first row appears, holding the sum of its rows.
   */
  function CategoryTotals(rows: seq<ConditionRow>): (t: seq<(string, int)>)
    ensures Tally.DistinctKeys(t)
    ensures forall i, j :: 0 <= i < j < |t| ==> FirstRow(rows, t[i].0) < FirstRow(rows, t[j].0)
    ensures forall c :: Tally.Get(t, c) == CategorySum(rows, c)
    ensures Tally.Sum(t) == RowsTotal(rows)
  {
    var ps := CategoryPairs(rows);
    Tally.FoldCorrect(ps);
    Tally.FoldFirstOrder(ps);
    PairsMeanAllSums(rows);
    Tally.Fold(ps)
  }

  lemma PairsMeanAllSums(rows: seq<ConditionRow>)
    ensures forall c :: Tally.SumFor(CategoryPairs(rows), c) == CategorySum(rows, c)
    ensures Tally.Sum(CategoryPairs(rows)) == RowsTotal(rows)
  {
    forall c ensures Tally.SumFor(CategoryPairs(rows), c) == CategorySum(rows, c) {
      PairsMeanCategorySums(rows, c);
    }
    PairsMeanCategorySums(rows, "");
  }

  function Entries(t: seq<(string, int)>): (es: seq<CategoryCount>)
    ensures |es| == |t|
    ensures forall i :: 0 <= i < |t| ==> es[i] == CategoryCount(t[i].0, t[i].1)
  {
    seq(|t|, i requires 0 <= i < |t| => CategoryCount(t[i].0, t[i].1))
  }

  lemma {:induction false} PairsMeanCategorySums(rows: seq<ConditionRow>, c: string)
    ensures Tally.SumFor(CategoryPairs(rows), c) == CategorySum(rows, c)
    ensures Tally.Sum(CategoryPairs(rows)) == RowsTotal(rows)
  {
    if |rows| > 0 {
      PairsMeanCategorySums(rows[1..], c);
      assert CategoryPairs(rows)[1..] == CategoryPairs(rows[1..]);
    }
  }

  lemma {:induction false} EntriesTotal(t: seq<(string, int)>)
    ensures Sorting.SumBy(Entries(t), MemberCount) == Tally.Sum(t)
  {
    if |t| > 0 {
      EntriesTotal(t[1..]);
      assert Entries(t)[1..] == Entries(t[1..]);
    }
  }

  /** The categories listed in a response. */
  ghost function Listed(r: seq<CategoryCount>): set<string> {
    set i | 0 <= i < |r| :: r[i].category
  }

  /** The categories some row falls in. */
  ghost function Seen(rows: seq<ConditionRow>): set<string> {
    set j | 0 <= j < |rows| :: Conditions.Categorize(rows[j].condition)
  }

  /** Each entry carries the sum of its category, and categories are not repeated. */
  lemma EntriesSums(rows: seq<ConditionRow>)
    ensures Sorting.DistinctBy(Entries(CategoryTotals(rows)), Category)
    ensures forall e :: e in Entries(CategoryTotals(rows)) ==>
      e.memberCount == CategorySum(rows, e.category) && e.category in Conditions.CategoryNames
    ensures Sorting.SumBy(Entries(CategoryTotals(rows)), MemberCount) == RowsTotal(rows)
  {
    var ps, totals := CategoryPairs(rows), CategoryTotals(rows);
    var entries := Entries(totals);
    Tally.FoldCorrect(ps);
    EntriesTotal(totals);
    PairsMeanCategorySums(rows, "");
    forall e | e in entries
      ensures e.memberCount == CategorySum(rows, e.category) && e.category in Conditions.CategoryNames
    {
      var k :| 0 <= k < |entries| && entries[k] == e;
      EntrySum(rows, k);
    }
  }

  lemma EntrySum(rows: seq<ConditionRow>, k: int)
    requires 0 <= k < |CategoryTotals(rows)|
    ensures var e := Entries(CategoryTotals(rows))[k];
      e.memberCount == CategorySum(rows, e.category) && e.category in Conditions.CategoryNames
  {
    var ps, totals := CategoryPairs(rows), CategoryTotals(rows);
    Tally.FoldCorrect(ps);
    Tally.GetAt(totals, k);
    PairsMeanCategorySums(rows, totals[k].0);
    assert totals[k].0 in Tally.Keys(totals);
    var j :| 0 <= j < |ps| && ps[j].0 == totals[k].0;
    Conditions.CategorizeIsACategory(rows[j].condition);
  }

  lemma ListedAreSeen(rows: seq<ConditionRow>, c: string)
    requires c in Listed(Entries(CategoryTotals(rows)))
    ensures c in Seen(rows)
  {
    var ps, totals := CategoryPairs(rows), CategoryTotals(rows);
    var entries := Entries(totals);
    var k :| 0 <= k < |entries| && entries[k].category == c;
    var j := Tally.FoldKeyOrigin(ps, k);
    assert Conditions.Categorize(rows[j].condition) == c;
  }

  lemma SeenAreListed(rows: seq<ConditionRow>, c: string)
    requires c in Seen(rows)
    ensures c in Listed(Entries(CategoryTotals(rows)))
  {
    var ps, totals := CategoryPairs(rows), CategoryTotals(rows);
    var entries := Entries(totals);
    var j :| 0 <= j < |rows| && Conditions.Categorize(rows[j].condition) == c;
    assert ps[j].0 == c;
    Tally.FoldHasKey(ps, j);
    var k :| 0 <= k < |totals| && Tally.Keys(totals)[k] == c;
    assert entries[k].category == c;
  }

  /** A category is listed exactly when some row falls in it. */
  lemma EntriesListed(rows: seq<ConditionRow>)
    ensures Listed(Entries(CategoryTotals(rows))) == Seen(rows)
  {
    forall c | c in Listed(Entries(CategoryTotals(rows))) ensures c in Seen(rows) {
      ListedAreSeen(rows, c);
    }
    forall c | c in Seen(rows) ensures c in Listed(Entries(CategoryTotals(rows))) {
      SeenAreListed(rows, c);
    }
  }

  /**
   * The route's answer for the rows of the GROUP BY query: one entry per
   * category that some row falls in, carrying the sum of those rows'
   * member counts, sorted by that sum, largest first.
   */
  function Distribution(rows: seq<ConditionRow>): (r: seq<CategoryCount>)
    ensures Sorting.SortedDesc(r, MemberCount)
    ensures Sorting.DistinctBy(r, Category)
    ensures Listed(r) == Seen(rows)
    ensures forall i :: 0 <= i < |r| ==>
      r[i].memberCount == CategorySum(rows, r[i].category) && r[i].category in Conditions.CategoryNames
    ensures Sorting.SumBy(r, MemberCount) == RowsTotal(rows)
    ensures forall i, j :: 0 <= i < j < |r| && r[i].memberCount == r[j].memberCount ==>
      FirstRow(rows, r[i].category) < FirstRow(rows, r[j].category)
  {
    var entries := Entries(CategoryTotals(rows));
    var r := Sorting.SortDesc(entries, MemberCount);
    SortedFacts(rows, entries, r);
    SortedTies(rows, entries, r);
    r
  }

  /** The stable sort keeps categories of equal total in the order of their first rows. */
  lemma SortedTies(rows: seq<ConditionRow>, entries: seq<CategoryCount>, r: seq<CategoryCount>)
    requires entries == Entries(CategoryTotals(rows))
    requires r == Sorting.SortDesc(entries, MemberCount)
    ensures forall i, j :: 0 <= i < j < |r| && r[i].memberCount == r[j].memberCount ==>
      FirstRow(rows, r[i].category) < FirstRow(rows, r[j].category)
  {
    var tie := (e: CategoryCount) => FirstRow(rows, e.category);
    var t := CategoryTotals(rows);
    forall i, j | 0 <= i < j < |entries| ensures tie(entries[i]) < tie(entries[j]) {
      assert entries[i].category == t[i].0 && entries[j].category == t[j].0;
    }
    Sorting.SortStable(entries, MemberCount, tie);
    forall i, j | 0 <= i < j < |r| && r[i].memberCount == r[j].memberCount
      ensures FirstRow(rows, r[i].category) < FirstRow(rows, r[j].category)
    {
      assert MemberCount(r[i]) == MemberCount(r[j]);
      assert tie(r[i]) < tie(r[j]);
    }
  }

  lemma SortedFacts(rows: seq<ConditionRow>, entries: seq<CategoryCount>, r: seq<CategoryCount>)
    requires entries == Entries(CategoryTotals(rows))
    requires r == Sorting.SortDesc(entries, MemberCount)
    ensures Sorting.DistinctBy(r, Category)
    ensures Listed(r) == Seen(rows)
    ensures forall i :: 0 <= i < |r| ==>
      r[i].memberCount == CategorySum(rows, r[i].category) && r[i].category in Conditions.CategoryNames
    ensures Sorting.SumBy(r, MemberCount) == RowsTotal(rows)
  {
    EntriesSums(rows);
    EntriesListed(rows);
    SortedListed(entries, r);
    Sorting.SortDistinct(entries, MemberCount, Category);
    Sorting.SortSum(entries, MemberCount, MemberCount);
    forall i | 0 <= i < |r|
      ensures r[i].memberCount == CategorySum(rows, r[i].category) && r[i].category in Conditions.CategoryNames
    {
      SortedEntry(rows, entries, r, i);
    }
  }

  lemma SortedListed(entries: seq<CategoryCount>, r: seq<CategoryCount>)
    requires r == Sorting.SortDesc(entries, MemberCount)
    ensures Listed(r) == Listed(entries)
  {
    Sorting.SortMembers(entries, MemberCount);
    forall c | c in Listed(r) ensures c in Listed(entries) {
      var i :| 0 <= i < |r| && r[i].category == c;
      assert r[i] in r;
      var k :| 0 <= k < |entries| && entries[k] == r[i];
    }
    forall c | c in Listed(entries) ensures c in Listed(r) {
      var k :| 0 <= k < |entries| && entries[k].category == c;
      assert entries[k] in entries;
      var i :| 0 <= i < |r| && r[i] == entries[k];
    }
  }

  lemma SortedEntry(rows: seq<ConditionRow>, entries: seq<CategoryCount>, r: seq<CategoryCount>, i: int)
    requires entries == Entries(CategoryTotals(rows))
    requires r == Sorting.SortDesc(entries, MemberCount)
    requires 0 <= i < |r|
    ensures r[i].memberCount == CategorySum(rows, r[i].category) && r[i].category in Conditions.CategoryNames
  {
    EntriesSums(rows);
    Sorting.SortMembers(entries, MemberCount);
    assert r[i] in r;
  }

  /** An empty or missing table, or no matching rows, gives an empty distribution. */
  function Route(f: Filters.FilterSet, tableExists: bool, run: Filters.Where -> Option<seq<ConditionRow>>)
    : (reply: Store.Reply<seq<CategoryCount>>)
    ensures !tableExists ==> reply == Store.Reply(Store.Ok, [])
    ensures tableExists && run(Filters.DemographicWhere(f)).None? ==> reply == Store.Reply(Store.ServerError, [])
    ensures tableExists && run(Filters.DemographicWhere(f)).Some? ==>
      reply == Store.Reply(Store.Ok, Distribution(run(Filters.DemographicWhere(f)).value))
  {
    if !tableExists then Store.Reply(Store.Ok, [])
    else match run(Filters.DemographicWhere(f))
      case None => Store.Reply(Store.ServerError, [])
      case Some(rows) => Store.Reply(Store.Ok, Distribution(rows))
  }
}
