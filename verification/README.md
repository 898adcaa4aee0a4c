# Lōkahi Health Compass: the data core in Dafny

Lōkahi Health Compass is a population-health dashboard. Its API routes read
pre-aggregated counts from one `demographic_summary` table (gender, race,
ethnicity, state, condition, count) and reshape them for charts. An
assistant route and an education route also pass questions to a language
model. This project models the parts of those routes that are pure data
shaping:

- **The condition categorizer.** A free-text condition label is
  upper-cased and checked against six ordered keyword buckets. The first
  bucket with a keyword in the label wins, and a label matching none is
  `Other`. The copy in the health-trends route is proved to agree with the
  original (`conditions.dfy`, `health_trends.dfy`).
- **The WHERE builders.** Each optional query-string filter that is set
  and non-empty adds one ` AND col op ?` clause and one parameter, in a
  fixed order. A `LIKE` filter is bound as `%value%`. Decoding the
  parameters gives back the filters that were set (`filters.dfy`).
- **The category distribution.** Per-condition totals are folded into
  per-category totals, kept in first-appearance order like a JavaScript
  `Map`. They are then stably sorted, largest first
  (`condition_distribution.dfy`, `tally.dfy`, `sorting.dfy`).
- **The month × category pivot.** The month is synthetic: `(rowid % 12) + 1`.
  Every category seen anywhere appears in every month, with 0 where it is
  missing. Months are sorted ascending (`health_trends.dfy`).
- **The dashboard cards.** These are current and previous totals, the
  change, the up/down trend and the raw rows of the latest month. The
  active card leaves out `HEALTHY` rows (`dashboard_stats.dfy`).
- **The assistant.** Keyword dispatch chooses the named queries. An empty
  history gets the welcome text. The question is augmented with the data,
  and the conversation is assembled for the model (`ai_chat.dfy`).
- **The demographic insights route and chart.** These cover the
  code-to-label maps with their raw-code fallback, and the chart's
  group/sum/label/sort step (`demographic_insights.dfy`,
  `demographic_chart.dfy`).
- **Condition trends.** These take an optional condition pattern and date
  range, with results ordered by date (`condition_trends.dfy`).
- **Education.** One search term is used for every query, a missing total
  counts as 0, and asterisks become bullets (`education.dfy`).
- **A consistency result.** The category breakdown and any demographic
  breakdown of the same records add up to the same total
  (`consistency.dfy`).

SQL execution is not modelled. A route receives what its statements return
as parameters: `None` stands for a statement that throws, and a flag says
whether the table exists. `SUM(count) ... GROUP BY` over records is
modelled in `store.dfy` as a fold. The language model is also a parameter.
Where the routes behave differently from what their names or comments suggest, the model follows the code:

- The category response's fields are the category name and `member_count`,
  as the code returns them.
- The demographic-insights route reads only `condition` and `dimension`.
  The other filters the chart sends are ignored.
- Health trends and the category distribution do not read `condition`.
- A missing table gives the dashboard its fixed placeholder figures, not
  zeros.
- Race code `"1"` is `Asian`, as in the code.

## Model

| member | source | states |
|---|---|---|
| Text.ContainsIff | app/api/condition-distribution/route.ts:17 | `includes` finds a keyword exactly when it occurs at some position of the label |
| Text.ContainsUpper | app/api/dashboard-stats/route.ts:106 | whatever a case-sensitive search for an upper-case keyword finds, a search in the upper-cased text finds too |
| Text.LowerAbsorbsCase | app/api/ai-chat/route.ts:96 | lower-casing after either case mapping is lower-casing once |
| Text.ReplaceAll | app/api/education/route.ts:150 | the global replace keeps the length and changes exactly the matching characters |
| Filters.Effective | app/api/condition-distribution/route.ts:53 | a filter takes effect exactly when it is present and non-empty (JavaScript truthiness) |
| Filters.Pattern | app/api/dashboard-stats/route.ts:82 | the LIKE parameter is the value between two `%` |
| Filters.Unpattern | app/api/dashboard-stats/route.ts:82 | a parameter is unwrapped exactly when it is some value between two `%`, and then to that value |
| Filters.PatternRoundTrip | app/api/dashboard-stats/route.ts:82 | unwrapping a LIKE parameter gives back the filter value |
| Filters.AddIf | app/api/condition-distribution/route.ts:53-56 | a present filter appends one clause and one parameter; an absent one changes nothing |
| Filters.AddIfKeepsOrder | app/api/condition-distribution/route.ts:53-68 | appending a later-ranked clause keeps clauses and parameters paired and in the fixed column order |
| Filters.ClauseText | app/api/dashboard-stats/route.ts:64-83 | one clause's text starts with ` AND `, ends with ` ?` and holds exactly one `?` |
| Filters.Render | app/api/dashboard-stats/route.ts:64-83 | the appended SQL text is empty without clauses, starts with the first clause's text otherwise, and has exactly one `?` per clause |
| Filters.DemographicWhere | app/api/condition-distribution/route.ts:50-68 | gender, race, ethnicity and state clauses only, in that order, one parameter per present filter, as many `?` as parameters |
| Filters.DashboardWhere | app/api/dashboard-stats/route.ts:57-83 | the four equality clauses then `condition LIKE`, one parameter and one `?` per present filter |
| Filters.ConditionWhere | app/api/demographic-insights/route.ts:73-78 | one `condition LIKE` clause bound to `%c%` when a condition is given, otherwise no clause and no parameter |
| Filters.DateRangeWhere | app/api/condition-trends/route.ts:31-46 | condition, start date, end date clauses in that order, one parameter and one `?` each |
| Filters.DemographicRoundTrip | app/api/health-trends/route.ts:54-69 | reading the parameters back recovers exactly the effective gender/race/ethnicity/state filters, and never a condition |
| Filters.DashboardRoundTrip | app/api/dashboard-stats/route.ts:64-83 | reading the parameters back recovers all five effective filters; the condition comes back unwrapped |
| Filters.DateRangeRoundTrip | app/api/condition-trends/route.ts:33-46 | the condition reads back unwrapped; the dates read back unchanged under `>=` and `<=` |
| Tally.Add | app/api/condition-distribution/route.ts:79-82 | `map.set(k, (map.get(k) \|\| 0) + n)` raises only key k, by n, and raises the grand total by n |
| Tally.AddKeys | app/api/condition-distribution/route.ts:79-82 | a known key keeps its position; a new key is appended last; keys stay distinct |
| Tally.Fold | app/api/condition-distribution/route.ts:76-83 | the folded map has distinct keys, no more entries than pairs, and the same grand total |
| Tally.FirstAt | app/api/condition-distribution/route.ts:79-82 | the index of the first pair with a key: no earlier pair has it, and the pair there does (or the length when none does) |
| Tally.FoldFirstOrder | app/api/condition-distribution/route.ts:76-83 | the map's keys are in the order of their first appearance among the pairs, as a JavaScript `Map` keeps insertion order |
| Tally.FoldCorrect | app/api/condition-distribution/route.ts:76-83 | after the forEach, keys are distinct, are exactly the keys seen, each maps to the sum of its values, and the total is kept |
| Sorting.SortDesc | app/api/condition-distribution/route.ts:95 | the result is ordered by key, largest first, and is a permutation of the input |
| Sorting.SortStable | app/api/condition-distribution/route.ts:95 | the sort is stable: elements with equal keys keep their input order |
| Sorting.SortSum | app/api/condition-distribution/route.ts:95 | sorting keeps the total of any measure |
| Sorting.SortDistinct | app/api/condition-distribution/route.ts:95 | sorting keeps a field distinct |
| Sorting.SortMembers | app/api/condition-distribution/route.ts:95 | sorting neither adds nor drops an element |
| Store.GroupingKeepsTotal | app/api/condition-distribution/route.ts:44-46 | grouping records by condition or by a demographic column loses no count |
| Conditions.Categorize | app/api/condition-distribution/route.ts:14-22 | the category is the first bucket, in declaration order, with a keyword in the upper-cased label, or "Other" |
| Conditions.FirstMatch | app/api/condition-distribution/route.ts:16-21 | the result is the name of the first bucket with a keyword in the label, or "Other" when no bucket matches |
| Conditions.CategorizeIsACategory | app/api/condition-distribution/route.ts:5-22 | every label gets one of the six declared names |
| Conditions.OtherIffNoKeyword | app/api/condition-distribution/route.ts:11-21 | a label is "Other" exactly when no bucket's keyword occurs in its upper-cased form |
| Conditions.CaseInsensitive | app/api/condition-distribution/route.ts:15 | upper- or lower-casing the label first does not change its category |
| Conditions.FirstBucketWins | app/api/condition-distribution/route.ts:16-19 | a label naming both DEPRESSION and DIABETES is "Mental Health" |
| ConditionDistribution.FirstRow | app/api/condition-distribution/route.ts:77-78 | the index of the first row whose condition falls in a category |
| ConditionDistribution.CategoryTotals | app/api/condition-distribution/route.ts:76-83 | categories distinct, in order of their first row; each category's total is the sum of its rows; the totals add up to the rows' total |
| ConditionDistribution.Distribution | app/api/condition-distribution/route.ts:76-95 | sorted largest first, equal totals in order of their first row; categories distinct and exactly those some row falls in; each total is the sum of its rows; totals add up to the rows' total |
| ConditionDistribution.EntriesListed | app/api/condition-distribution/route.ts:76-94 | a category is listed exactly when some row falls in it |
| ConditionDistribution.Route | app/api/condition-distribution/route.ts:24-101 | missing table: 200 with []; query failure: 500 with []; otherwise 200 with the distribution of the filtered rows |
| HealthTrends.Categorize | app/api/health-trends/route.ts:14-22 | the category is the first bucket of the route's own table with a keyword in the upper-cased label, or "Other" |
| HealthTrends.CopiesAgree | app/api/health-trends/route.ts:4-22 | the route's copy of the categorizer agrees with the original on every label |
| HealthTrends.MonthOf | app/api/health-trends/route.ts:47 | the synthetic month lies in 1..12 and is congruent to the rowid modulo 12 |
| HealthTrends.MonthLabel | app/api/health-trends/route.ts:47 | the label is seven characters long, starts with "2023-" and ends with the month's two decimal digits |
| HealthTrends.MonthLabelOrder | app/api/health-trends/route.ts:103 | the string order of labels is the numeric order of months |
| HealthTrends.Update | app/api/health-trends/route.ts:84-91 | adding a row raises only its month's count for its category |
| HealthTrends.MonthlyCounts | app/api/health-trends/route.ts:80-92 | each month's map is the fold of that month's rows alone |
| HealthTrends.MonthlyData | app/api/health-trends/route.ts:80-92 | months are distinct and are exactly the months of the rows |
| HealthTrends.CategoriesFacts | app/api/health-trends/route.ts:78-82 | the category set lists each seen category once and nothing else |
| HealthTrends.ToPoint | app/api/health-trends/route.ts:96-102 | the point has the month and exactly the seen categories; a category absent from the month reads 0; a present one reads its count |
| HealthTrends.Points | app/api/health-trends/route.ts:95-102 | one point per entry of the monthly map, in map order, each with exactly the seen categories |
| HealthTrends.ChartData | app/api/health-trends/route.ts:95-103 | one point per distinct month, strictly ascending; every point has every seen category; each value is that month's total for the category, 0 if none |
| HealthTrends.PointTotal | app/api/health-trends/route.ts:87-100 | a point's values over the categories add up to the total of its month's rows |
| HealthTrends.Route | app/api/health-trends/route.ts:24-109 | missing table: 200 with []; failure: 500 with []; otherwise 200 with the chart data of the rows the demographic filters select |
| DashboardStats.Current | app/api/dashboard-stats/route.ts:96 | the first month's total, or 0 without one |
| DashboardStats.Previous | app/api/dashboard-stats/route.ts:97 | the second month's total, or 0 without one |
| DashboardStats.TopMonth | app/api/dashboard-stats/route.ts:136 | `series[0]?.month`: present exactly when the series is non-empty, and then the first entry's month |
| DashboardStats.TrendOf | app/api/dashboard-stats/route.ts:134 | the trend is up exactly when the change is at least 0 |
| DashboardStats.AtMostTwoMonths | app/api/dashboard-stats/route.ts:91-97 | months after the second never affect current, previous or the top month |
| DashboardStats.InMonth | app/api/dashboard-stats/route.ts:136 | keeps exactly the raw rows of the top month; with no top month, none |
| DashboardStats.ActiveInMonth | app/api/dashboard-stats/route.ts:145 | keeps exactly the raw rows of the top month whose condition does not include HEALTHY (case-sensitive) |
| DashboardStats.InMonthSingle | app/api/dashboard-stats/route.ts:136 | one row is kept exactly when its month is the top month |
| DashboardStats.InMonthKeepsOrder | app/api/dashboard-stats/route.ts:136 | filtering distributes over concatenation, so the kept rows stay in their original order |
| DashboardStats.ActiveInMonthSingle | app/api/dashboard-stats/route.ts:145 | one row is kept exactly when its month is the top month and its condition has no HEALTHY |
| DashboardStats.ActiveInMonthKeepsOrder | app/api/dashboard-stats/route.ts:145 | filtering distributes over concatenation, so the kept rows stay in their original order |
| DashboardStats.CardOf | app/api/dashboard-stats/route.ts:128-144 | change plus previous is current; the trend is up exactly when current is at least previous; the period is "last month" |
| DashboardStats.StatsOf | app/api/dashboard-stats/route.ts:128-146 | both cards' raw rows belong to their own series' top month; the active card has no HEALTHY row |
| DashboardStats.SqlExcludesMore | app/api/dashboard-stats/route.ts:106 | a row the SQL NOT LIKE keeps is one the JavaScript test keeps |
| DashboardStats.ExclusionsDiffer | app/api/dashboard-stats/route.ts:145 | a lower-case "healthy" row is dropped from the active total but kept in the active raw rows |
| DashboardStats.Route | app/api/dashboard-stats/route.ts:16-174 | missing table: placeholder; any query failing: 500 with zeroed cards; otherwise 200 with the two cards from the five-filter queries |
| AiChat.Keep | app/api/ai-chat/route.ts:96-122 | keeps exactly the keys whose test passes, and keeps keys given in route order in route order |
| AiChat.Selected | app/api/ai-chat/route.ts:96-122 | a query is chosen exactly when its keyword test passes on the lower-cased question; chosen keys come once each, in route order |
| AiChat.ComparisonsBringDistributions | app/api/ai-chat/route.ts:100-121 | choosing conditions by race (state) implies choosing the race (state) distribution |
| AiChat.DispatchIgnoresCase | app/api/ai-chat/route.ts:96 | upper- or lower-casing the question does not change the chosen queries |
| AiChat.RunAll | app/api/ai-chat/route.ts:99-121 | succeeds exactly when every chosen query does, pairing each key with its rows in order |
| AiChat.QueryHealthData | app/api/ai-chat/route.ts:124-128 | null exactly when nothing was chosen or a query threw; otherwise every chosen key with its rows |
| AiChat.Enhance | app/api/ai-chat/route.ts:172-175 | without data the message is unchanged; with data it is a strict prefix followed by the separator |
| AiChat.Messages | app/api/ai-chat/route.ts:178-185 | the system prompt, then the history in order, then the user message: length is the history's plus 2 |
| AiChat.ContextOf | app/api/ai-chat/route.ts:197-201 | no context exactly when no data; otherwise the key names of the data and the data |
| AiChat.Chat | app/api/ai-chat/route.ts:158-209 | empty history: the welcome text with no context; model failure: 500 with the generic error; otherwise the model's answer with the data context |
| AiChat.WelcomeIsLocal | app/api/ai-chat/route.ts:163-168 | the welcome reply does not depend on the database or the model |
| AiChat.AnswerContext | app/api/ai-chat/route.ts:195-201 | an answer's executed queries are the chosen keys in order, and it has no context exactly when no data was gathered |
| DemographicInsights.Label | app/api/demographic-insights/route.ts:88 | `LABELS[v] \|\| v`: a known code with a non-empty label becomes the label, anything else stays itself; the result is the value or some label |
| DemographicInsights.RaceLabelling | app/api/demographic-insights/route.ts:21-26 | codes 1 to 4 become Asian, Black, Hispanic, White; any other value is kept |
| DemographicInsights.EthnicityLabelling | app/api/demographic-insights/route.ts:28-32 | codes 1 to 3 become Hispanic, Non-Hispanic, Unknown; any other value is kept |
| DemographicInsights.LabelIdempotent | app/api/demographic-insights/route.ts:21-32 | labelling a labelled value changes nothing |
| DemographicInsights.Relabel | app/api/demographic-insights/route.ts:86-94 | only race and ethnicity keys are relabelled; counts, length and order never change; gender and state pass through |
| DemographicInsights.Options | app/api/demographic-insights/route.ts:52-62 | race and ethnicity options are labelled; gender, state and condition options are the raw values |
| DemographicInsights.OnlyConditionIsBound | app/api/demographic-insights/route.ts:73-78 | at most one parameter, `%c%`, and none without a condition |
| DemographicInsights.Route | app/api/demographic-insights/route.ts:34-128 | missing table: []; a failing query: 500 with the empty filters shape; dimension: the relabelled breakdown; otherwise the options and the records |
| DemographicChart.LabelTablesAgree | app/components/charts/demographic-distribution.tsx:38-60 | the chart's race and ethnicity tables equal the route's |
| DemographicChart.FirstKey | app/components/charts/demographic-distribution.tsx:94-97 | the index of the first row with a key |
| DemographicChart.Counts | app/components/charts/demographic-distribution.tsx:93-97 | the count map has distinct keys, in order of their first row |
| DemographicChart.Display | app/components/charts/demographic-distribution.tsx:105 | a key with a label shows the label; any other key shows itself |
| DemographicChart.Bars | app/components/charts/demographic-distribution.tsx:103-109 | one bar per map entry, in map order, with the entry's label, count and raw key |
| DemographicChart.ChartData | app/components/charts/demographic-distribution.tsx:87-110 | empty or failed response: no bars; otherwise one bar per distinct key carrying the key's sum, its label (or the key) and the key; sorted largest first, equal counts in order of their first row; total kept |
| DemographicChart.RelabelledKeysShowAsIs | app/components/charts/demographic-distribution.tsx:105-108 | for race and ethnicity the route has already labelled the keys, so a bar's category equals its raw value |
| ConditionTrends.QueryText | app/api/condition-trends/route.ts:22-48 | the statement is the fixed select, then exactly the filter clauses, then `ORDER BY date ASC` last |
| ConditionTrends.NoFiltersNoClauses | app/api/condition-trends/route.ts:22-31 | without filters there is no clause and no parameter |
| ConditionTrends.Route | app/api/condition-trends/route.ts:4-57 | missing table: []; failure: 500 with []; otherwise the rows of the statement built from the filters |
| Education.SearchTerm | app/api/education/route.ts:44 | the term is the topic between two `%` |
| Education.TotalOrZero | app/api/education/route.ts:59 | a missing total reads as 0 |
| Education.GetHealthData | app/api/education/route.ts:44-61 | data exactly when all four queries succeed, holding their results with the total defaulted to 0 |
| Education.OneSearchTerm | app/api/education/route.ts:48-58 | the data depends only on the queries' answers for the one search term |
| Education.Sanitize | app/api/education/route.ts:150 | no asterisk remains; each asterisk becomes a bullet, every other character and the length are kept; no content gives "" |
| Education.SanitizeIdempotent | app/api/education/route.ts:150 | sanitising twice is sanitising once |
| Education.ContextOf | app/api/education/route.ts:154-158 | no context exactly when no data; otherwise the four keys in assignment order |
| Education.Generate | app/api/education/route.ts:111-167 | model failure: 500 with the generic error; otherwise 200 with asterisk-free content, the data context and language "en" |
| Consistency.PartitionsAgree | app/api/condition-distribution/route.ts:76-86 | over the same records, the category distribution and any demographic chart add up to the same total |

## Left out

- React components and rendering: only the processing block of the demographic chart is modelled.
- SQL execution: statements are not evaluated. Their results are inputs, and the case-insensitivity of SQLite's `LIKE` is modelled only in `DashboardStats.SqlActive`.
- Percentages: `toFixed`, `toLocaleString` and the division by a possibly zero total are floating-point formatting.
- ConditionTrends.Route: the `prevalence_percentage` column is not carried, because it is a floating-point value passed through unchanged.
- DemographicChart.ChartData: the `percentage` field of a bar is not stated, because it is floating-point formatting.
- ConditionDistribution.Distribution: the `percentage` field of an entry is not stated, for the same reason.
- Language-model calls are parameters. The education prompt text is not modelled. app/api/chat/route.ts and app/lib/openai.ts pass requests straight to the external service and are not part of this model.
- AiChat.Stringify: JSON serialisation is approximated. Each query's rows are an opaque serialised string.
- AiChat.Chat: a model answer with null content is not distinguished from a string answer.
- A request body that is not valid JSON (500 in the assistant and education routes) is not modelled.
- The dashboard's fixed placeholder figures, its readmission and satisfaction cards and all timestamps are constants or clock readings, not logic.
- `dimension` is an enumeration of the four demographic columns. The route interpolates any other string into the SQL unchecked; such a query may fail, or may group by another column (`count`, `id`, `condition` or a constant such as `1`). That case is not modelled.
- Counts and sums are unbounded integers. JavaScript numbers are 64-bit floats, so the sums of `member_count` (app/api/condition-distribution/route.ts:81, app/api/health-trends/route.ts:90, app/components/charts/demographic-distribution.tsx:96), the comparator subtractions (app/api/condition-distribution/route.ts:95, app/components/charts/demographic-distribution.tsx:110) and the dashboard's `current - previous` lose precision above 2^53. Rounding is not modelled.
- Label lookups use a `map`, so inherited object properties such as `constructor` are not modelled as keys.
- Text.Upper: only ASCII letters are case-mapped, because full Unicode case mapping is out of scope.
- Text.Lower: only ASCII letters are case-mapped, for the same reason.
- app/lib/db.ts (table creation) and scripts/import-data.ts (CSV import) are side effects and are not part of this model.
- app/api/cost-trends/route.ts and app/api/service-utilization/route.ts are not modelled. Their optional clauses work like the condition-trends builder.
