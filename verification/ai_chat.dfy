/**
 * `POST /api/ai-chat`: the assistant. An empty conversation gets a fixed
 * welcome text. Otherwise keyword tests on the lower-cased question choose
 * named database queries, their results are appended to the question, and
 * the system prompt, the history and the question go to the language model.
 * The queries and the model are parameters.
 */
module AiChat {
  import opened Wrappers
  import Text
  import Store

  /** The named queries, in the order the route tries them. */
  datatype QueryKey =
    | RaceDistribution
    | EthnicityDistribution
    | StateDistribution
    | GenderDistribution
    | Conditions
    | ConditionsByRace
    | ConditionsByState

  /** The property name each result is stored under. */
  function KeyName(k: QueryKey): string {
    match k
    case RaceDistribution => "raceDistribution"
    case EthnicityDistribution => "ethnicityDistribution"
    case StateDistribution => "stateDistribution"
    case GenderDistribution => "genderDistribution"
    case Conditions => "conditions"
    case ConditionsByRace => "conditionsByRace"
    case ConditionsByState => "conditionsByState"
  }

  function Rank(k: QueryKey): nat {
    match k
    case RaceDistribution => 0
    case EthnicityDistribution => 1
    case StateDistribution => 2
    case GenderDistribution => 3
    case Conditions => 4
    case ConditionsByRace => 5
    case ConditionsByState => 6
  }

  const AllKeys: seq<QueryKey> := [RaceDistribution, EthnicityDistribution, StateDistribution,
    GenderDistribution, Conditions, ConditionsByRace, ConditionsByState]

  /** Asks for a comparison. */
  predicate Comparing(q: string) {
    Text.Contains(q, "compare") || Text.Contains(q, "across")
  }

  /** The keyword test guarding each query, on the lower-cased question `q`. */
  predicate Wants(q: string, k: QueryKey) {
    match k
    case RaceDistribution => Text.Contains(q, "race") || Text.Contains(q, "demographic")
    case EthnicityDistribution => Text.Contains(q, "ethnicity")
    case StateDistribution => Text.Contains(q, "state") || Text.Contains(q, "location")
    case GenderDistribution => Text.Contains(q, "gender")
    case Conditions => Text.Contains(q, "condition") || Text.Contains(q, "health")
    case ConditionsByRace => Comparing(q) && Text.Contains(q, "race")
    case ConditionsByState => Comparing(q) && Text.Contains(q, "state")
  }

  /** The keys of `ks` whose test passes, in the order of `ks`. */
  function Keep(q: string, ks: seq<QueryKey>): (r: seq<QueryKey>)
    ensures forall k :: k in r <==> k in ks && Wants(q, k)
    ensures (forall i, j :: 0 <= i < j < |ks| ==> Rank(ks[i]) < Rank(ks[j])) ==>
      forall i, j :: 0 <= i < j < |r| ==> Rank(r[i]) < Rank(r[j])
  {
    if |ks| == 0 then []
    else
      var rest := Keep(q, ks[1..]);
      assert forall k :: k in ks <==> k == ks[0] || k in ks[1..];
      if Wants(q, ks[0]) then
        KeepAbove(q, ks, rest);
        [ks[0]] + rest
      else rest
  }

  lemma KeepAbove(q: string, ks: seq<QueryKey>, rest: seq<QueryKey>)
    requires |ks| > 0
    requires forall k :: k in rest ==> k in ks[1..]
    ensures (forall i, j :: 0 <= i < j < |ks| ==> Rank(ks[i]) < Rank(ks[j])) ==>
      forall j :: 0 <= j < |rest| ==> Rank(ks[0]) < Rank(rest[j])
  {
    if forall i, j :: 0 <= i < j < |ks| ==> Rank(ks[i]) < Rank(ks[j]) {
      forall j | 0 <= j < |rest| ensures Rank(ks[0]) < Rank(rest[j]) {
        assert rest[j] in ks[1..];
        var m :| 0 <= m < |ks[1..]| && ks[1..][m] == rest[j];
        assert ks[m + 1] == rest[j];
      }
    }
  }

  /**
   * The queries a question selects: each key is chosen exactly when its
   * keyword test passes on the lower-cased question, and they are listed in
   * the route's order, each once.
   */
  function Selected(question: string): (r: seq<QueryKey>)
    ensures forall k :: k in r <==> Wants(Text.Lower(question), k)
    ensures forall i, j :: 0 <= i < j < |r| ==> Rank(r[i]) < Rank(r[j])
  {
    var r := Keep(Text.Lower(question), AllKeys);
    forall k ensures k in AllKeys {
      assert AllKeys[Rank(k)] == k;
    }
    r
  }

  /** A comparison across race is only asked together with the race distribution; likewise for state. */
  lemma ComparisonsBringDistributions(question: string)
    ensures ConditionsByRace in Selected(question) ==> RaceDistribution in Selected(question)
    ensures ConditionsByState in Selected(question) ==> StateDistribution in Selected(question)
  {
  }

  /** Dispatch ignores the case of the question's ASCII letters. */
  lemma DispatchIgnoresCase(question: string)
    ensures Selected(Text.Upper(question)) == Selected(question)
    ensures Selected(Text.Lower(question)) == Selected(question)
  {
    Text.LowerAbsorbsCase(question);
  }

  /** `results`: each selected key with the text of its query's rows. */
  type Results = seq<(QueryKey, string)>

  /**
   * Runs the queries of `keys` in order; one that throws abandons the lot.
   * `run(k)` is the serialised rows of query `k`, or `None` when it throws.
   */
  function RunAll(keys: seq<QueryKey>, run: QueryKey -> Option<string>): (r: Option<Results>)
    ensures r.Some? <==> forall i :: 0 <= i < |keys| ==> run(keys[i]).Some?
    ensures r.Some? ==> (|r.value| == |keys| &&
      forall i :: 0 <= i < |keys| ==> r.value[i] == (keys[i], run(keys[i]).value))
  {
    if |keys| == 0 then Some([])
    else match run(keys[0])
      case None => None
      case Some(rows) =>
        match RunAll(keys[1..], run)
        case None => None
        case Some(rest) => Some([(keys[0], rows)] + rest)
  }

  /**
   * `queryHealthData`: `null` when no query was selected or one threw;
   * otherwise every selected key, in order, with its rows.
   */
  function QueryHealthData(question: string, run: QueryKey -> Option<string>): (r: Option<Results>)
    ensures r.None? <==> (|Selected(question)| == 0 ||
      exists i :: 0 <= i < |Selected(question)| && run(Selected(question)[i]).None?)
    ensures r.Some? ==> (|r.value| == |Selected(question)| &&
      forall i :: 0 <= i < |r.value| ==> r.value[i] == (Selected(question)[i], run(Selected(question)[i]).value))
  {
    var keys := Selected(question);
    if |keys| == 0 then None else RunAll(keys, run)
  }

  /** `JSON.stringify(results)`, with each query's rows already serialised. */
  function Stringify(data: Results): string {
    "{" + Members(data) + "}"
  }

  function Members(data: Results): string {
    if |data| == 0 then ""
    else
      "\"" + KeyName(data[0].0) + "\":" + data[0].1 + (if |data| > 1 then "," + Members(data[1..]) else "")
  }

  const DataSeparator := "\n\nAvailable data: "

  /**
   * The question sent on: unchanged without data, otherwise the question
   * followed by the separator and the serialised data.
   */
  function Enhance(message: string, data: Option<Results>): (r: string)
    ensures data.None? ==> r == message
    ensures data.Some? ==> (|message| + |DataSeparator| < |r| && r[..|message|] == message &&
      r[|message|..|message| + |DataSeparator|] == DataSeparator)
  {
    match data
    case None => message
    case Some(d) =>
      var r := message + DataSeparator + Stringify(d);
      assert r[..|message|] == message;
      assert r[|message|..|message| + |DataSeparator|] == DataSeparator;
      r
  }

  datatype ChatMessage = ChatMessage(role: string, content: string)

  /** The conversation sent to the model: the system prompt, the history in order, then the question. */
  function Messages(history: seq<ChatMessage>, enhanced: string): (r: seq<ChatMessage>)
    ensures |r| == |history| + 2
    ensures r[0] == ChatMessage("system", SystemPrompt)
    ensures r[1..|history| + 1] == history
    ensures r[|history| + 1] == ChatMessage("user", enhanced)
  {
    [ChatMessage("system", SystemPrompt)] + history + [ChatMessage("user", enhanced)]
  }

  /** `dataContext`; its timestamp is not modelled. */
  datatype DataContext = DataContext(queriesExecuted: seq<string>, data: Results)

  /** `Object.keys(data)`. */
  function KeyNames(data: Results): (r: seq<string>)
    ensures |r| == |data|
    ensures forall i :: 0 <= i < |data| ==> r[i] == KeyName(data[i].0)
  {
    seq(|data|, i requires 0 <= i < |data| => KeyName(data[i].0))
  }

  function ContextOf(data: Option<Results>): (r: Option<DataContext>)
    ensures r.None? <==> data.None?
    ensures r.Some? ==> r.value.data == data.value && r.value.queriesExecuted == KeyNames(data.value)
  {
    match data
    case None => None
    case Some(d) => Some(DataContext(KeyNames(d), d))
  }

  datatype ChatBody = Answer(response: string, dataContext: Option<DataContext>) | Failure(error: string)

  const FailureText := "Failed to process your request"

  /**
   * The route. `history` is `None` when the request has none; `model` is the
   * language model's reply to a conversation, or `None` when the call throws.
   */
  function Chat(
    message: string, history: Option<seq<ChatMessage>>,
    run: QueryKey -> Option<string>, model: seq<ChatMessage> -> Option<string>): (r: Store.Reply<ChatBody>)
    ensures history.None? || |history.value| == 0 ==> r == Store.Reply(Store.Ok, Answer(WelcomeMessage, None))
    ensures history.Some? && |history.value| > 0 ==>
      var data := QueryHealthData(message, run);
      var sent := Messages(history.value, Enhance(message, data));
      if model(sent).None? then r == Store.Reply(Store.ServerError, Failure(FailureText))
      else r == Store.Reply(Store.Ok, Answer(model(sent).value, ContextOf(data)))
  {
    if history.None? || |history.value| == 0 then Store.Reply(Store.Ok, Answer(WelcomeMessage, None))
    else
      var data := QueryHealthData(message, run);
      match model(Messages(history.value, Enhance(message, data)))
      case None => Store.Reply(Store.ServerError, Failure(FailureText))
      case Some(content) => Store.Reply(Store.Ok, Answer(content, ContextOf(data)))
  }

  /** The welcome reply reads neither the database nor the model. */
  lemma WelcomeIsLocal(
    message: string, history: Option<seq<ChatMessage>>,
    run1: QueryKey -> Option<string>, model1: seq<ChatMessage> -> Option<string>,
    run2: QueryKey -> Option<string>, model2: seq<ChatMessage> -> Option<string>)
    requires history.None? || |history.value| == 0
    ensures Chat(message, history, run1, model1) == Chat(message, history, run2, model2)
    ensures Chat(message, history, run1, model1).body.Answer?
    ensures Chat(message, history, run1, model1).body.dataContext.None?
  {
  }

  /** A successful answer lists exactly the selected queries, in order, or has no context when no data was gathered. */
  lemma AnswerContext(
    message: string, history: seq<ChatMessage>,
    run: QueryKey -> Option<string>, model: seq<ChatMessage> -> Option<string>)
    requires |history| > 0
    ensures var body := Chat(message, Some(history), run, model).body;
      body.Answer? ==> var ctx := body.dataContext;
      (ctx.None? <==> QueryHealthData(message, run).None?) &&
      (ctx.Some? ==> (|ctx.value.queriesExecuted| == |Selected(message)| &&
        forall i :: 0 <= i < |Selected(message)| ==> ctx.value.queriesExecuted[i] == KeyName(Selected(message)[i])))
  {
  }

  const WelcomeMessage: string :=
    "Hi! I'm your L\U{014D}kahi Health Compass AI assistant. I can help you understand health trends, demographics, and conditions in our database. Here are some things you can ask me:\n"
    + "\n"
    + "\U{1F4CA} Data Analysis:\n"
    + "- \"What's the population distribution by race?\"\n"
    + "- \"Show me the most common health conditions\"\n"
    + "- \"How many patients do we have in each state?\"\n"
    + "\n"
    + "\U{1F4C8} Trends & Insights:\n"
    + "- \"What are the current mental health trends?\"\n"
    + "- \"Compare chronic disease rates across different demographics\"\n"
    + "- \"Which conditions are increasing the most?\"\n"
    + "\n"
    + "\U{1F50D} Specific Queries:\n"
    + "- \"What's the percentage of Hispanic patients?\"\n"
    + "- \"Show respiratory conditions in Hawaii\"\n"
    + "- \"Compare health outcomes between states\"\n"
    + "\n"
    + "Feel free to ask any questions about our health data!"

  const SystemPrompt: string :=
    "You are a helpful and knowledgeable health data assistant for Lokahi Compass.\n"
    + "You have access to health data that includes:\n"
    + "- Demographic information (race, ethnicity, gender, state)\n"
    + "- Health conditions and their trends over time\n"
    + "- Population health statistics and insights\n"
    + "\n"
    + "Your role is to:\n"
    + "1. Analyze and explain health data clearly and concisely\n"
    + "2. Identify meaningful patterns and trends\n"
    + "3. Provide culturally sensitive insights\n"
    + "4. Help users understand population health metrics\n"
    + "\n"
    + "When responding:\n"
    + "- Always format numbers with commas for readability (e.g., 1,234,567)\n"
    + "- Use percentages when comparing distributions\n"
    + "- Highlight significant patterns or disparities\n"
    + "- Be direct and concise in your explanations\n"
    + "- If you're not sure about something, be honest and say so\n"
    + "\n"
    + "Current data structure:\n"
    + "- Race categories: Asian, Black, Hispanic, White\n"
    + "- Ethnicity categories: Hispanic, Non-Hispanic, Unknown\n"
    + "- Health conditions: Mental Health, Chronic Disease, Respiratory, Cancer & Critical, Healthy, Other\n"
    + "- States: HI, CA, WA, MI\n"
    + "\n"
    + "Base your responses on actual data when possible. If asked about specific statistics, use the provided database results."
}
