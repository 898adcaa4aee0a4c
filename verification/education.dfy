/**
 * `POST /api/education`: gathers the figures for a topic from four queries
 * that all match `condition LIKE '%topic%'`, asks the language model for
 * education content, and replaces every asterisk in its answer by a bullet.
 * The queries and the model are parameters; the prompt text is not modelled.
 */
module Education {
  import opened Wrappers
  import Text
  import Filters
  import Store

  /** `searchTerm`: the topic wrapped for `LIKE`. */
  function SearchTerm(topic: string): (p: string)
    ensures |p| == |topic| + 2 && p[0] == '%' && p[|p| - 1] == '%' && p[1..|p| - 1] == topic
  {
    Filters.Pattern(topic)
  }

  /** The three row-returning queries, run in this order. */
  datatype Query = Demographics | StateDistribution | RelatedConditions

  /** `results`: each query's rows (serialised) and the total population. */
  datatype HealthData = HealthData(
    demographics: string, stateDistribution: string, relatedConditions: string, totalPopulation: int)

  /** `Object.keys(results)`: the order the properties are assigned in. */
  const QueriesExecuted: seq<string> := ["demographics", "stateDistribution", "relatedConditions", "totalPopulation"]

  /** `totalResult?.total || 0`: no row, a null total and a zero total all read as 0. */
  function TotalOrZero(total: Option<int>): (n: int)
    ensures total.None? ==> n == 0
    ensures total.Some? ==> n == total.value
  {
    total.GetOr(0)
  }

  /**
   * `getHealthData`. `run(q, term)` is query `q`'s rows for the bound term,
   * `None` when it throws; `total(term)` is `None` when the total query
   * throws and `Some(None)` when it yields no row or a null total.
   */
  function GetHealthData(
    topic: string, run: (Query, string) -> Option<string>, total: string -> Option<Option<int>>)
    : (r: Option<HealthData>)
    ensures var t := SearchTerm(topic);
      r.Some? <==> (run(Demographics, t).Some? && run(StateDistribution, t).Some? &&
        run(RelatedConditions, t).Some? && total(t).Some?)
    ensures r.Some? ==> var t := SearchTerm(topic);
      r.value == HealthData(run(Demographics, t).value, run(StateDistribution, t).value,
        run(RelatedConditions, t).value, TotalOrZero(total(t).value))
  {
    var t := SearchTerm(topic);
    match (run(Demographics, t), run(StateDistribution, t), run(RelatedConditions, t), total(t))
    case (Some(d), Some(s), Some(c), Some(n)) => Some(HealthData(d, s, c, TotalOrZero(n)))
    case _ => None
  }

  /** Every query binds the same term: the data depends on the queries' answers for that term alone. */
  lemma OneSearchTerm(
    topic: string,
    run1: (Query, string) -> Option<string>, total1: string -> Option<Option<int>>,
    run2: (Query, string) -> Option<string>, total2: string -> Option<Option<int>>)
    requires forall q :: run1(q, SearchTerm(topic)) == run2(q, SearchTerm(topic))
    requires total1(SearchTerm(topic)) == total2(SearchTerm(topic))
    ensures GetHealthData(topic, run1, total1) == GetHealthData(topic, run2, total2)
  {
    assert run1(Demographics, SearchTerm(topic)) == run2(Demographics, SearchTerm(topic));
    assert run1(StateDistribution, SearchTerm(topic)) == run2(StateDistribution, SearchTerm(topic));
    assert run1(RelatedConditions, SearchTerm(topic)) == run2(RelatedConditions, SearchTerm(topic));
  }

  const Bullet: char := '•'

  /** The global asterisk-to-bullet replace on the content, or "" when there is none. */
  function Sanitize(content: Option<string>): (r: string)
    ensures '*' !in r
    ensures content.None? ==> r == ""
    ensures content.Some? ==> (|r| == |content.value| &&
      forall i :: 0 <= i < |r| ==> r[i] == (if content.value[i] == '*' then Bullet else content.value[i]))
  {
    match content
    case None => ""
    case Some(s) => Text.ReplaceAll(s, '*', Bullet)
  }

  /** Sanitising sanitised text changes nothing. */
  lemma SanitizeIdempotent(content: Option<string>)
    ensures Sanitize(Some(Sanitize(content))) == Sanitize(content)
  {
    var once := Sanitize(content);
    var twice := Sanitize(Some(once));
    assert forall i :: 0 <= i < |once| ==> twice[i] == once[i];
  }

  /** `dataContext`; its timestamp is not modelled. */
  datatype DataContext = DataContext(queriesExecuted: seq<string>, data: HealthData)

  function ContextOf(data: Option<HealthData>): (r: Option<DataContext>)
    ensures r.None? <==> data.None?
    ensures r.Some? ==> r.value.queriesExecuted == QueriesExecuted && r.value.data == data.value
  {
    match data
    case None => None
    case Some(d) => Some(DataContext(QueriesExecuted, d))
  }

  datatype Body = Content(content: string, dataContext: Option<DataContext>, language: string) | Failure(error: string)

  const FailureText := "Failed to generate content"

  /**
   * The route. `model` answers the request for the topic, audience, cultural
   * context and gathered data: `None` when the call throws, `Some(None)` when
   * the answer has no content.
   */
  function Generate(
    topic: string, targetAudience: string, culturalConsiderations: string,
    run: (Query, string) -> Option<string>, total: string -> Option<Option<int>>,
    model: (string, string, string, Option<HealthData>) -> Option<Option<string>>): (r: Store.Reply<Body>)
    ensures var data := GetHealthData(topic, run, total);
      var answer := model(topic, targetAudience, culturalConsiderations, data);
      r == (if answer.None? then Store.Reply(Store.ServerError, Failure(FailureText))
            else Store.Reply(Store.Ok, Content(Sanitize(answer.value), ContextOf(data), "en")))
    ensures r.body.Content? ==> '*' !in r.body.content && r.body.language == "en"
  {
    var data := GetHealthData(topic, run, total);
    match model(topic, targetAudience, culturalConsiderations, data)
    case None => Store.Reply(Store.ServerError, Failure(FailureText))
    case Some(content) => Store.Reply(Store.Ok, Content(Sanitize(content), ContextOf(data), "en"))
  }
}
