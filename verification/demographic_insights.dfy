/**
 * `GET /api/demographic-insights`: with a `dimension`, the member totals per
 * value of that column, race and ethnicity codes replaced by their labels;
 * without one, the filter options (distinct column values) and the matching
 * records. Both branches take an optional `condition LIKE` filter.
 */
module DemographicInsights {
  import opened Wrappers
  import Filters
  import Store

  /** `RACE_LABELS`. */
  const RaceLabels: map<string, string> := map["1" := "Asian", "2" := "Black", "3" := "Hispanic", "4" := "White"]

  /** `ETHNICITY_LABELS`. */
  const EthnicityLabels: map<string, string> := map["1" := "Hispanic", "2" := "Non-Hispanic", "3" := "Unknown"]

  /** `LABELS[v || ""] || v`: the label of a known code, the value itself otherwise. */
  function Label(labels: map<string, string>, v: string): (s: string)
    ensures v in labels && labels[v] != "" ==> s == labels[v]
    ensures v !in labels || labels[v] == "" ==> s == v
    ensures s == v || s in labels.Values
  {
    if v in labels && labels[v] != "" then labels[v] else v
  }

  /** Race codes 1 to 4 become Asian, Black, Hispanic and White; anything else is kept. */
  lemma RaceLabelling(v: string)
    ensures Label(RaceLabels, "1") == "Asian" && Label(RaceLabels, "2") == "Black"
    ensures Label(RaceLabels, "3") == "Hispanic" && Label(RaceLabels, "4") == "White"
    ensures v != "1" && v != "2" && v != "3" && v != "4" ==> Label(RaceLabels, v) == v
  {
  }

  /** Ethnicity codes 1 to 3 become Hispanic, Non-Hispanic and Unknown; anything else is kept. */
  lemma EthnicityLabelling(v: string)
    ensures Label(EthnicityLabels, "1") == "Hispanic" && Label(EthnicityLabels, "2") == "Non-Hispanic"
    ensures Label(EthnicityLabels, "3") == "Unknown"
    ensures v != "1" && v != "2" && v != "3" ==> Label(EthnicityLabels, v) == v
  {
  }

  /** No label is itself a code, so labelling a labelled value changes nothing. */
  lemma LabelIdempotent(v: string)
    ensures Label(RaceLabels, Label(RaceLabels, v)) == Label(RaceLabels, v)
    ensures Label(EthnicityLabels, Label(EthnicityLabels, v)) == Label(EthnicityLabels, v)
  {
    assert "Asian" !in RaceLabels && "Black" !in RaceLabels && "Hispanic" !in RaceLabels && "White" !in RaceLabels;
    assert "Hispanic" !in EthnicityLabels && "Non-Hispanic" !in EthnicityLabels && "Unknown" !in EthnicityLabels;
  }

  /** How a value of dimension `d` is shown: race and ethnicity are labelled, gender and state are not. */
  function Display(d: Store.Dimension, v: string): string {
    match d
    case Race => Label(RaceLabels, v)
    case Ethnicity => Label(EthnicityLabels, v)
    case Gender => v
    case State => v
  }

  /** A row of the dimension query: `MEM_<DIMENSION>` and `member_count`. */
  datatype InsightRow = InsightRow(key: string, memberCount: int)

  /**
   * The label rewriting of the dimension branch: only race and ethnicity
   * values change, counts and order never do.
   */
  function Relabel(d: Store.Dimension, rows: seq<InsightRow>): (r: seq<InsightRow>)
    ensures |r| == |rows|
    ensures forall i :: 0 <= i < |rows| ==> r[i].memberCount == rows[i].memberCount
    ensures d == Store.Gender || d == Store.State ==> r == rows
    ensures d == Store.Race ==> forall i :: 0 <= i < |rows| ==> r[i].key == Label(RaceLabels, rows[i].key)
    ensures d == Store.Ethnicity ==> forall i :: 0 <= i < |rows| ==> r[i].key == Label(EthnicityLabels, rows[i].key)
  {
    seq(|rows|, i requires 0 <= i < |rows| => InsightRow(Display(d, rows[i].key), rows[i].memberCount))
  }

  /** The distinct values of each column, offered as filter choices. */
  datatype FilterOptions = FilterOptions(
    gender: seq<string>, race: seq<string>, ethnicity: seq<string>, state: seq<string>, condition: seq<string>)

  function LabelAll(labels: map<string, string>, vs: seq<string>): (r: seq<string>)
    ensures |r| == |vs|
    ensures forall i :: 0 <= i < |vs| ==> r[i] == Label(labels, vs[i])
  {
    seq(|vs|, i requires 0 <= i < |vs| => Label(labels, vs[i]))
  }

  /** `uniqueValues`: race and ethnicity choices are labelled, the others are the raw values. */
  function Options(distinct: FilterOptions): (r: FilterOptions)
    ensures r.gender == distinct.gender && r.state == distinct.state && r.condition == distinct.condition
    ensures |r.race| == |distinct.race| && |r.ethnicity| == |distinct.ethnicity|
    ensures forall i :: 0 <= i < |r.race| ==> r.race[i] == Label(RaceLabels, distinct.race[i])
    ensures forall i :: 0 <= i < |r.ethnicity| ==> r.ethnicity[i] == Label(EthnicityLabels, distinct.ethnicity[i])
  {
    distinct.(race := LabelAll(RaceLabels, distinct.race), ethnicity := LabelAll(EthnicityLabels, distinct.ethnicity))
  }

  /** The response body: the dimension rows, the filter options with the records, or the error shape. */
  datatype Body = Rows(rows: seq<InsightRow>) | Insights(filters: FilterOptions, data: seq<Store.Record>) | Failed

  /**
   * The route. `dimension` is `None` when the parameter is absent or empty;
   * `distinct` is the five DISTINCT queries' result, `None` when one throws;
   * `runDimension` and `runData` return `None` when their query throws.
   * Both branches bind only the condition filter.
   */
  function Route(
    condition: Option<string>, dimension: Option<Store.Dimension>, tableExists: bool,
    distinct: Option<FilterOptions>,
    runDimension: (Store.Dimension, Filters.Where) -> Option<seq<InsightRow>>,
    runData: Filters.Where -> Option<seq<Store.Record>>): (r: Store.Reply<Body>)
    ensures !tableExists ==> r == Store.Reply(Store.Ok, Rows([]))
    ensures tableExists && distinct.None? ==> r == Store.Reply(Store.ServerError, Failed)
    ensures tableExists && distinct.Some? && dimension.Some? ==>
      var rows := runDimension(dimension.value, Filters.ConditionWhere(condition));
      r == (if rows.None? then Store.Reply(Store.ServerError, Failed)
            else Store.Reply(Store.Ok, Rows(Relabel(dimension.value, rows.value))))
    ensures tableExists && distinct.Some? && dimension.None? ==>
      var data := runData(Filters.ConditionWhere(condition));
      r == (if data.None? then Store.Reply(Store.ServerError, Failed)
            else Store.Reply(Store.Ok, Insights(Options(distinct.value), data.value)))
  {
    if !tableExists then Store.Reply(Store.Ok, Rows([]))
    else if distinct.None? then Store.Reply(Store.ServerError, Failed)
    else
      var w := Filters.ConditionWhere(condition);
      match dimension
      case Some(d) =>
        (match runDimension(d, w)
         case None => Store.Reply(Store.ServerError, Failed)
         case Some(rows) => Store.Reply(Store.Ok, Rows(Relabel(d, rows))))
      case None =>
        (match runData(w)
         case None => Store.Reply(Store.ServerError, Failed)
         case Some(data) => Store.Reply(Store.Ok, Insights(Options(distinct.value), data)))
  }

  /** Both branches bind at most the one condition pattern; none without a condition. */
  lemma OnlyConditionIsBound(condition: Option<string>)
    ensures |Filters.ConditionWhere(condition).params| <= 1
    ensures !Filters.Given(condition) ==> Filters.ConditionWhere(condition).params == []
    ensures Filters.Given(condition) ==> Filters.ConditionWhere(condition).params == ["%" + condition.value + "%"]
  {
  }
}
