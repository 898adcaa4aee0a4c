/**
 * The condition categorizer of app/api/condition-distribution/route.ts:
 * a free-text condition label is upper-cased and compared against an
 * ordered table of six buckets; the first bucket one of whose keywords
 * occurs in the label wins, and a label that matches nothing is "Other".
 */
module Conditions {
  import Text

  /** One entry of `conditionCategories`: a category name and its keywords. */
  datatype Bucket = Bucket(name: string, keywords: seq<string>)

  const MentalHealth: string := "Mental Health"
  const ChronicDisease: string := "Chronic Disease"
  const Respiratory: string := "Respiratory"
  const CancerCritical: string := "Cancer & Critical"
  const Healthy: string := "Healthy"
  const Other: string := "Other"

  /** `conditionCategories`, in declaration order (the order `Object.entries` visits them). */
  const ConditionCategories: seq<Bucket> := [
    Bucket(MentalHealth, ["DEPRESSION", "PSYCHOSIS", "DEMENTIA", "MENTAL"]),
    Bucket(ChronicDisease, ["DIABETES", "CAD", "HYPERTENSION", "HEART"]),
    Bucket(Respiratory, ["COPD", "ASTHMA"]),
    Bucket(CancerCritical, ["CANCER", "RENAL", "LIVER", "HIV"]),
    Bucket(Healthy, ["HEALTHY"]),
    Bucket(Other, [])
  ]

  /** The six category names. */
  const CategoryNames: set<string> := {MentalHealth, ChronicDisease, Respiratory, CancerCritical, Healthy, Other}

  /** `keywords.some(keyword => upper.includes(keyword))`. */
  predicate AnyKeyword(upper: string, keywords: seq<string>) {
    exists k :: k in keywords && Text.Contains(upper, k)
  }

  /** Bucket `i` of `table` claims the (already upper-cased) label. */
  predicate MatchesAt(table: seq<Bucket>, upper: string, i: int) {
    0 <= i < |table| && AnyKeyword(upper, table[i].keywords)
  }

  /**
   * `r` is what the loop over `table` returns: the name of the first bucket
   * that matches, or "Other" when no bucket matches.
   */
  ghost predicate IsFirstMatch(table: seq<Bucket>, upper: string, r: string) {
    || (exists i :: MatchesAt(table, upper, i) && r == table[i].name &&
          forall j :: 0 <= j < i ==> !MatchesAt(table, upper, j))
    || ((forall i :: 0 <= i < |table| ==> !MatchesAt(table, upper, i)) && r == Other)
  }

  /** A first match in the rest of the table is the first match of the table when the head does not match. */
  lemma SkipHead(table: seq<Bucket>, upper: string, r: string)
    requires |table| > 0 && !MatchesAt(table, upper, 0)
    requires IsFirstMatch(table[1..], upper, r)
    ensures IsFirstMatch(table, upper, r)
  {
    assert forall i :: MatchesAt(table[1..], upper, i) <==> MatchesAt(table, upper, i + 1);
    if exists i :: MatchesAt(table[1..], upper, i) && r == table[1..][i].name &&
         forall j :: 0 <= j < i ==> !MatchesAt(table[1..], upper, j) {
      var i :| MatchesAt(table[1..], upper, i) && r == table[1..][i].name &&
         forall j :: 0 <= j < i ==> !MatchesAt(table[1..], upper, j);
      assert MatchesAt(table, upper, i + 1) && r == table[i + 1].name;
      forall j | 0 <= j < i + 1 ensures !MatchesAt(table, upper, j) {
        if j > 0 {
          assert !MatchesAt(table[1..], upper, j - 1);
        }
      }
    } else {
      forall i | 0 <= i < |table| ensures !MatchesAt(table, upper, i) {
        if i > 0 {
          assert !MatchesAt(table[1..], upper, i - 1);
        }
      }
    }
  }

  /** The loop over the table, returning on the first bucket with a keyword in the label. */
  function FirstMatch(table: seq<Bucket>, upper: string): (r: string)
    ensures IsFirstMatch(table, upper, r)
  {
    if |table| == 0 then Other
    else if AnyKeyword(upper, table[0].keywords) then
      assert MatchesAt(table, upper, 0);
      table[0].name
    else
      var r := FirstMatch(table[1..], upper);
      SkipHead(table, upper, r);
      r
  }

  /** `categorizeCondition`. */
  function Categorize(condition: string): (r: string)
    ensures IsFirstMatch(ConditionCategories, Text.Upper(condition), r)
  {
    FirstMatch(ConditionCategories, Text.Upper(condition))
  }

  /** The result is always one of the six declared category names. */
  lemma CategorizeIsACategory(condition: string)
    ensures Categorize(condition) in CategoryNames
  {
  }

  /**
   * "Other" has no keywords, so the loop never selects it: a label is "Other"
   * exactly when no bucket has a keyword that occurs in its upper-cased form.
   */
  lemma OtherIffNoKeyword(condition: string)
    ensures Categorize(condition) == Other <==>
      forall i :: 0 <= i < |ConditionCategories| ==>
        !AnyKeyword(Text.Upper(condition), ConditionCategories[i].keywords)
  {
    var t, u := ConditionCategories, Text.Upper(condition);
    assert !MatchesAt(t, u, 5);
    assert forall i :: 0 <= i < |t| && t[i].name == Other ==> i == 5 by {
      assert t[0].name == MentalHealth && t[1].name == ChronicDisease && t[2].name == Respiratory;
      assert t[3].name == CancerCritical && t[4].name == Healthy;
    }
    if Categorize(condition) == Other {
      assert IsFirstMatch(t, u, Other);
      assert !exists i :: MatchesAt(t, u, i) && Other == t[i].name;
    }
  }

  /** Categorization ignores letter case: the label is upper-cased first. */
  lemma CaseInsensitive(condition: string)
    ensures Categorize(Text.Upper(condition)) == Categorize(condition)
    ensures Categorize(Text.Lower(condition)) == Categorize(condition)
  {
    Text.UpperIdempotent(condition);
    Text.UpperAbsorbsLower(condition);
  }

  /** Buckets are tried in order: a label naming both a mental-health and a chronic condition is "Mental Health". */
  lemma FirstBucketWins(condition: string)
    requires Text.Contains(Text.Upper(condition), "DEPRESSION")
    requires Text.Contains(Text.Upper(condition), "DIABETES")
    ensures Categorize(condition) == MentalHealth
  {
    assert MatchesAt(ConditionCategories, Text.Upper(condition), 0);
  }
}
