/**
 * The dynamic WHERE builders. Every route starts from `WHERE 1=1` and, for
 * each optional query-string filter that is set, appends one ` AND col op ?`
 * clause and pushes one parameter, in a fixed order. A LIKE filter is
 * passed as the pattern `%value%`.
 */
module Filters {
  import opened Wrappers
  import Text

  /** The query-string filters; `searchParams.get` yields null for an absent parameter. */
  datatype FilterSet = FilterSet(
    gender: Option<string>,
    race: Option<string>,
    ethnicity: Option<string>,
    state: Option<string>,
    condition: Option<string>)

  /** `if (v)` on a query-string value: an absent parameter and an empty one are both false. */
  predicate Given(v: Option<string>) {
    v.Some? && v.value != ""
  }

  /** The filter value as the builders see it: set and non-empty, or nothing. */
  function Effective(v: Option<string>): (r: Option<string>)
    ensures r.Some? <==> Given(v)
    ensures r.Some? ==> r == v
  {
    if Given(v) then v else None
  }

  function EffectiveSet(f: FilterSet): FilterSet {
    FilterSet(Effective(f.gender), Effective(f.race), Effective(f.ethnicity),
              Effective(f.state), Effective(f.condition))
  }

  datatype Column = GenderColumn | RaceColumn | EthnicityColumn | StateColumn | ConditionColumn | DateColumn
  datatype Op = Equals | Like | AtLeast | AtMost
  datatype Clause = Clause(column: Column, op: Op)

  const GenderEquals := Clause(GenderColumn, Equals)
  const RaceEquals := Clause(RaceColumn, Equals)
  const EthnicityEquals := Clause(EthnicityColumn, Equals)
  const StateEquals := Clause(StateColumn, Equals)
  const ConditionLike := Clause(ConditionColumn, Like)
  const DateFrom := Clause(DateColumn, AtLeast)
  const DateTo := Clause(DateColumn, AtMost)

  function ColumnName(c: Column): string {
    match c
    case GenderColumn => "gender"
    case RaceColumn => "race"
    case EthnicityColumn => "ethnicity"
    case StateColumn => "state"
    case ConditionColumn => "condition"
    case DateColumn => "date"
  }

  function OpText(o: Op): string {
    match o
    case Equals => "="
    case Like => "LIKE"
    case AtLeast => ">="
    case AtMost => "<="
  }

  /** The text one filter appends to the query, e.g. ` AND gender = ?`: one placeholder, at the end. */
  function ClauseText(c: Clause): (t: string)
    ensures |t| >= 7 && t[..5] == " AND " && t[|t| - 2..] == " ?"
    ensures Text.Count(t, '?') == 1
  {
    var name, op := ColumnName(c.column), OpText(c.op);
    Text.CountAppend(" AND " + name + " " + op, " ?", '?');
    Text.CountAppend(" AND " + name + " ", op, '?');
    Text.CountAppend(" AND " + name, " ", '?');
    Text.CountAppend(" AND ", name, '?');
    Text.CountAbsent(" AND ", '?');
    Text.CountAbsent(" ", '?');
    Text.CountAbsent(name, '?');
    Text.CountAbsent(op, '?');
    assert Text.Count(" ?", '?') == 1;
    " AND " + name + " " + op + " ?"
  }

  /** The text all clauses append to the query, in order: one placeholder per clause. */
  function Render(cs: seq<Clause>): (t: string)
    ensures |cs| == 0 ==> t == ""
    ensures |cs| > 0 ==> |ClauseText(cs[0])| <= |t| && t[..|ClauseText(cs[0])|] == ClauseText(cs[0])
    ensures Text.Count(t, '?') == |cs|
  {
    if |cs| == 0 then ""
    else
      Text.CountAppend(ClauseText(cs[0]), Render(cs[1..]), '?');
      ClauseText(cs[0]) + Render(cs[1..])
  }

  /** The position of a clause in the one order every builder follows. */
  function Rank(c: Clause): nat {
    match c.column
    case GenderColumn => 0
    case RaceColumn => 1
    case EthnicityColumn => 2
    case StateColumn => 3
    case ConditionColumn => 4
    case DateColumn => if c.op == AtMost then 6 else 5
  }

  /** The clauses appended so far and the parameters pushed so far. */
  datatype Where = Where(clauses: seq<Clause>, params: seq<string>)

  const NoFilter := Where([], [])

  /** One parameter per placeholder, and clauses in the fixed order (so none twice). */
  ghost predicate WellFormed(w: Where) {
    && |w.clauses| == |w.params|
    && (forall i, j :: 0 <= i < j < |w.clauses| ==> Rank(w.clauses[i]) < Rank(w.clauses[j]))
  }

  /** The LIKE pattern `%value%`. */
  function Pattern(v: string): (p: string)
    ensures |p| == |v| + 2 && p[0] == '%' && p[|p| - 1] == '%' && p[1..|p| - 1] == v
  {
    "%" + v + "%"
  }

  /** The parameter a clause binds for a filter value. */
  function Param(c: Clause, v: string): string {
    if c.op == Like then Pattern(v) else v
  }

  /** `if (v) { query += clause; params.push(param) }`. */
  function AddIf(w: Where, v: Option<string>, c: Clause): (r: Where)
    ensures Given(v) ==> r == Where(w.clauses + [c], w.params + [Param(c, v.value)])
    ensures !Given(v) ==> r == w
  {
    if Given(v) then Where(w.clauses + [c], w.params + [Param(c, v.value)]) else w
  }

  /** 1 when the filter is set, else 0. */
  function Ind(v: Option<string>): nat {
    if Given(v) then 1 else 0
  }

  /** Appending a clause ranked after every existing one keeps the clauses in order. */
  lemma AddIfKeepsOrder(w: Where, v: Option<string>, c: Clause)
    requires WellFormed(w)
    requires forall x :: x in w.clauses ==> Rank(x) < Rank(c)
    ensures WellFormed(AddIf(w, v, c))
    ensures forall x :: x in AddIf(w, v, c).clauses ==> Rank(x) <= Rank(c)
    ensures |AddIf(w, v, c).params| == |w.params| + Ind(v)
  {
    if Given(v) {
      var cs := w.clauses + [c];
      forall i, j | 0 <= i < j < |cs| ensures Rank(cs[i]) < Rank(cs[j]) {
        if j == |cs| - 1 {
          assert cs[i] in w.clauses;
        }
      }
    }
  }

  /** The builder of app/api/condition-distribution/route.ts and app/api/health-trends/route.ts. */
  function DemographicWhere(f: FilterSet): (w: Where)
    ensures WellFormed(w)
    ensures forall c :: c in w.clauses ==> Rank(c) < 4
    ensures |w.params| == Ind(f.gender) + Ind(f.race) + Ind(f.ethnicity) + Ind(f.state)
    ensures Text.Count(Render(w.clauses), '?') == |w.params|
  {
    var w1 := AddIf(NoFilter, f.gender, GenderEquals);
    AddIfKeepsOrder(NoFilter, f.gender, GenderEquals);
    var w2 := AddIf(w1, f.race, RaceEquals);
    AddIfKeepsOrder(w1, f.race, RaceEquals);
    var w3 := AddIf(w2, f.ethnicity, EthnicityEquals);
    AddIfKeepsOrder(w2, f.ethnicity, EthnicityEquals);
    var w4 := AddIf(w3, f.state, StateEquals);
    AddIfKeepsOrder(w3, f.state, StateEquals);
    w4
  }

  /** The builder of app/api/dashboard-stats/route.ts: the four equality filters, then `condition LIKE`. */
  function DashboardWhere(f: FilterSet): (w: Where)
    ensures WellFormed(w)
    ensures |w.params| == Ind(f.gender) + Ind(f.race) + Ind(f.ethnicity) + Ind(f.state) + Ind(f.condition)
    ensures Text.Count(Render(w.clauses), '?') == |w.params|
  {
    var w4 := DemographicWhere(f);
    var w5 := AddIf(w4, f.condition, ConditionLike);
    AddIfKeepsOrder(w4, f.condition, ConditionLike);
    w5
  }

  /** The builder of app/api/demographic-insights/route.ts: at most one `condition LIKE` clause. */
  function ConditionWhere(condition: Option<string>): (w: Where)
    ensures Given(condition) ==> w == Where([ConditionLike], [Pattern(condition.value)])
    ensures !Given(condition) ==> w == NoFilter
  {
    AddIf(NoFilter, condition, ConditionLike)
  }

  /** The builder of app/api/condition-trends/route.ts: condition LIKE, then `date >=`, then `date <=`. */
  function DateRangeWhere(condition: Option<string>, startDate: Option<string>, endDate: Option<string>): (w: Where)
    ensures WellFormed(w)
    ensures |w.params| == Ind(condition) + Ind(startDate) + Ind(endDate)
    ensures Text.Count(Render(w.clauses), '?') == |w.params|
  {
    var w1 := AddIf(NoFilter, condition, ConditionLike);
    AddIfKeepsOrder(NoFilter, condition, ConditionLike);
    var w2 := AddIf(w1, startDate, DateFrom);
    AddIfKeepsOrder(w1, startDate, DateFrom);
    var w3 := AddIf(w2, endDate, DateTo);
    AddIfKeepsOrder(w2, endDate, DateTo);
    w3
  }

  /** The value a LIKE parameter wraps, or nothing when it is not of the form `%value%`. */
  function Unpattern(p: string): (r: Option<string>)
    ensures r.Some? ==> p == Pattern(r.value)
    ensures r.None? ==> forall v :: p != Pattern(v)
  {
    if 2 <= |p| && p[0] == '%' && p[|p| - 1] == '%' then
      assert p == "%" + p[1..|p| - 1] + "%";
      Some(p[1..|p| - 1])
    else None
  }

  /** `Unpattern` undoes `Pattern`. */
  lemma PatternRoundTrip(v: string)
    ensures Unpattern(Pattern(v)) == Some(v)
  {
    var p := Pattern(v);
    assert Unpattern(p).Some?;
    assert Pattern(Unpattern(p).value)[1..|p| - 1] == Unpattern(p).value;
  }

  /** Read back the filter value bound to clause `c`; a LIKE parameter must be a `%value%` pattern. */
  function Lookup(cs: seq<Clause>, ps: seq<string>, c: Clause): Option<string>
    requires |cs| == |ps|
  {
    if |cs| == 0 then None
    else if cs[0] == c then (if c.op == Like then Unpattern(ps[0]) else Some(ps[0]))
    else Lookup(cs[1..], ps[1..], c)
  }

  function ReadBack(w: Where, c: Clause): Option<string>
    requires |w.clauses| == |w.params|
  {
    Lookup(w.clauses, w.params, c)
  }

  /** Lookup after one more `AddIf`: a new clause reads back its value; earlier clauses are unchanged. */
  lemma {:induction false} LookupAddIf(w: Where, v: Option<string>, c: Clause, d: Clause)
    requires |w.clauses| == |w.params|
    ensures |AddIf(w, v, c).clauses| == |AddIf(w, v, c).params|
    ensures d in w.clauses ==> ReadBack(AddIf(w, v, c), d) == ReadBack(w, d)
    ensures d !in w.clauses ==> ReadBack(AddIf(w, v, c), d) == (if d == c then Effective(v) else None)
  {
    var cs, ps := w.clauses, w.params;
    if Given(v) {
      var p := Param(c, v.value);
      LookupAppend(cs, ps, c, p, d);
      if d !in cs {
        if d == c {
          if c.op == Like {
            PatternRoundTrip(v.value);
          }
        } else {
          assert d !in cs + [c];
          LookupAbsent(cs + [c], ps + [p], d);
        }
      }
    } else if d !in cs {
      LookupAbsent(cs, ps, d);
    }
  }

  lemma {:induction false} LookupAppend(cs: seq<Clause>, ps: seq<string>, c: Clause, p: string, d: Clause)
    requires |cs| == |ps|
    ensures d in cs ==> Lookup(cs + [c], ps + [p], d) == Lookup(cs, ps, d)
    ensures d !in cs && d == c ==> Lookup(cs + [c], ps + [p], d) == Lookup([c], [p], d)
  {
    if |cs| > 0 {
      assert (cs + [c])[1..] == cs[1..] + [c];
      assert (ps + [p])[1..] == ps[1..] + [p];
      LookupAppend(cs[1..], ps[1..], c, p, d);
    }
  }

  lemma {:induction false} LookupAbsent(cs: seq<Clause>, ps: seq<string>, d: Clause)
    requires |cs| == |ps|
    requires d !in cs
    ensures Lookup(cs, ps, d) == None
  {
    if |cs| > 0 {
      LookupAbsent(cs[1..], ps[1..], d);
    }
  }

  /** The filter set a WHERE clause list encodes, read back clause by clause. */
  function Decode(w: Where): FilterSet
    requires |w.clauses| == |w.params|
  {
    FilterSet(ReadBack(w, GenderEquals), ReadBack(w, RaceEquals), ReadBack(w, EthnicityEquals),
              ReadBack(w, StateEquals), ReadBack(w, ConditionLike))
  }

  /** What the four equality filters of `f` bind to clause `d`. */
  function Expected(f: FilterSet, d: Clause): Option<string> {
    if d == GenderEquals then Effective(f.gender)
    else if d == RaceEquals then Effective(f.race)
    else if d == EthnicityEquals then Effective(f.ethnicity)
    else if d == StateEquals then Effective(f.state)
    else None
  }

  lemma ReadBackDemographic(f: FilterSet, d: Clause)
    ensures |DemographicWhere(f).clauses| == |DemographicWhere(f).params|
    ensures ReadBack(DemographicWhere(f), d) == Expected(f, d)
  {
    var w1 := AddIf(NoFilter, f.gender, GenderEquals);
    var w2 := AddIf(w1, f.race, RaceEquals);
    var w3 := AddIf(w2, f.ethnicity, EthnicityEquals);
    LookupAddIf(NoFilter, f.gender, GenderEquals, d);
    LookupAddIf(w1, f.race, RaceEquals, d);
    LookupAddIf(w2, f.ethnicity, EthnicityEquals, d);
    LookupAddIf(w3, f.state, StateEquals, d);
  }

  /**
   * The equality builder encodes exactly the four demographic filters that
   * are set; the condition filter is not read.
   */
  lemma DemographicRoundTrip(f: FilterSet)
    ensures Decode(DemographicWhere(f)) == EffectiveSet(f).(condition := None)
  {
    ReadBackDemographic(f, GenderEquals);
    ReadBackDemographic(f, RaceEquals);
    ReadBackDemographic(f, EthnicityEquals);
    ReadBackDemographic(f, StateEquals);
    ReadBackDemographic(f, ConditionLike);
  }

  lemma ReadBackDashboard(f: FilterSet, d: Clause)
    ensures |DashboardWhere(f).clauses| == |DashboardWhere(f).params|
    ensures ReadBack(DashboardWhere(f), d) == if d == ConditionLike then Effective(f.condition) else Expected(f, d)
  {
    ReadBackDemographic(f, d);
    assert ConditionLike !in DemographicWhere(f).clauses;
    LookupAddIf(DemographicWhere(f), f.condition, ConditionLike, d);
  }

  /** The dashboard builder encodes exactly the five filters that are set, the condition unwrapped from its pattern. */
  lemma DashboardRoundTrip(f: FilterSet)
    ensures Decode(DashboardWhere(f)) == EffectiveSet(f)
  {
    ReadBackDashboard(f, GenderEquals);
    ReadBackDashboard(f, RaceEquals);
    ReadBackDashboard(f, EthnicityEquals);
    ReadBackDashboard(f, StateEquals);
    ReadBackDashboard(f, ConditionLike);
  }

  /** The condition-trends builder encodes exactly the condition and the two date bounds that are set. */
  lemma DateRangeRoundTrip(condition: Option<string>, startDate: Option<string>, endDate: Option<string>)
    ensures var w := DateRangeWhere(condition, startDate, endDate);
      && ReadBack(w, ConditionLike) == Effective(condition)
      && ReadBack(w, DateFrom) == Effective(startDate)
      && ReadBack(w, DateTo) == Effective(endDate)
  {
    var w1 := AddIf(NoFilter, condition, ConditionLike);
    var w2 := AddIf(w1, startDate, DateFrom);
    forall d | d in {ConditionLike, DateFrom, DateTo} ensures ReadBack(AddIf(w2, endDate, DateTo), d) ==
        (if d == ConditionLike then Effective(condition) else if d == DateFrom then Effective(startDate) else Effective(endDate))
    {
      LookupAddIf(NoFilter, condition, ConditionLike, d);
      LookupAddIf(w1, startDate, DateFrom, d);
      LookupAddIf(w2, endDate, DateTo, d);
    }
  }
}
