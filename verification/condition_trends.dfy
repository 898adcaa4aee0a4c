/**
 * `GET /api/condition-trends`: the `condition_prevalence` rows matching an
 * optional condition pattern and an optional date range, oldest first.
 */
module ConditionTrends {
  import opened Wrappers
  import Filters
  import Store

  /** A row of `condition_prevalence`; the prevalence percentage is not modelled. */
  datatype TrendRow = TrendRow(date: string, condition: string, count: int)

  /**
   * The select, with the route's multi-line template normalised to one line
   * and its `col as col` aliases dropped; the column list and table are the route's.
   */
  const SelectFrom := "SELECT date, condition, count, prevalence_percentage FROM condition_prevalence WHERE 1=1"
  const OrderSuffix := " ORDER BY date ASC"

  /** The statement text: the fixed select, the filter clauses, then the ordering. */
  function QueryText(w: Filters.Where): (q: string)
    ensures |q| == |SelectFrom| + |Filters.Render(w.clauses)| + |OrderSuffix|
    ensures q[..|SelectFrom|] == SelectFrom
    ensures q[|SelectFrom|..|q| - |OrderSuffix|] == Filters.Render(w.clauses)
    ensures q[|q| - |OrderSuffix|..] == OrderSuffix
  {
    var q := SelectFrom + Filters.Render(w.clauses) + OrderSuffix;
    assert q[..|SelectFrom|] == SelectFrom;
    assert q[|SelectFrom|..|q| - |OrderSuffix|] == Filters.Render(w.clauses);
    assert q[|q| - |OrderSuffix|..] == OrderSuffix;
    q
  }

  /** Without filters the statement has no clause and no parameter. */
  lemma NoFiltersNoClauses(condition: Option<string>, startDate: Option<string>, endDate: Option<string>)
    requires !Filters.Given(condition) && !Filters.Given(startDate) && !Filters.Given(endDate)
    ensures Filters.DateRangeWhere(condition, startDate, endDate) == Filters.NoFilter
    ensures QueryText(Filters.DateRangeWhere(condition, startDate, endDate)) == SelectFrom + OrderSuffix
  {
    assert Filters.NoFilter.clauses == [];
  }

  /**
   * The route: `run` executes a statement with its parameters and returns
   * the rows, or `None` when it throws.
   */
  function Route(
    condition: Option<string>, startDate: Option<string>, endDate: Option<string>,
    tableExists: bool, run: (string, seq<string>) -> Option<seq<TrendRow>>): (r: Store.Reply<seq<TrendRow>>)
    ensures !tableExists ==> r == Store.Reply(Store.Ok, [])
    ensures tableExists ==>
      var w := Filters.DateRangeWhere(condition, startDate, endDate);
      var rows := run(QueryText(w), w.params);
      r == (if rows.None? then Store.Reply(Store.ServerError, []) else Store.Reply(Store.Ok, rows.value))
  {
    if !tableExists then Store.Reply(Store.Ok, [])
    else
      var w := Filters.DateRangeWhere(condition, startDate, endDate);
      match run(QueryText(w), w.params)
      case None => Store.Reply(Store.ServerError, [])
      case Some(rows) => Store.Reply(Store.Ok, rows)
  }
}
