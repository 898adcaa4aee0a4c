/**
 * The `demographic_summary` table and what a route gets back from it.
 * SQL execution is not modelled: a route receives the rows a statement
 * returns. `GROUP BY key` with `SUM(count)` is modelled as a fold into running
 * totals, listing groups in order of first appearance.
 */
module Store {
  import Tally

  /**
   * One row of `demographic_summary` (app/lib/db.ts): every column is NOT
   * NULL, and `rowid` is the table's autoincrement id, so it is positive.
   */
  datatype Record = Record(
    rowid: nat,
    gender: string,
    race: string,
    ethnicity: string,
    state: string,
    condition: string,
    count: int)

  /** The four demographic columns a chart can be broken down by. */
  datatype Dimension = Gender | Race | Ethnicity | State

  function Field(r: Record, d: Dimension): string {
    match d
    case Gender => r.gender
    case Race => r.race
    case Ethnicity => r.ethnicity
    case State => r.state
  }

  /** An HTTP reply: status code and JSON body. */
  datatype Reply<T> = Reply(status: int, body: T)

  const Ok: int := 200
  const ServerError: int := 500

  /** The sum of `count` over a set of records: what `SUM(count)` adds up. */
  function TotalCount(rs: seq<Record>): int {
    if |rs| == 0 then 0 else rs[0].count + TotalCount(rs[1..])
  }

  /** `SELECT condition, SUM(count) ... GROUP BY condition`. */
  function SumByCondition(rs: seq<Record>): seq<(string, int)> {
    Tally.Fold(seq(|rs|, i requires 0 <= i < |rs| => (rs[i].condition, rs[i].count)))
  }

  /** `SELECT <dimension>, SUM(count) ... GROUP BY <dimension>`. */
  function SumByDimension(rs: seq<Record>, d: Dimension): seq<(string, int)> {
    Tally.Fold(seq(|rs|, i requires 0 <= i < |rs| => (Field(rs[i], d), rs[i].count)))
  }

  /** The pairs a GROUP BY sums have the same total as the records they come from. */
  lemma {:induction false} PairsTotal(rs: seq<Record>, keys: seq<string>)
    requires |keys| == |rs|
    ensures Tally.Sum(seq(|rs|, i requires 0 <= i < |rs| => (keys[i], rs[i].count))) == TotalCount(rs)
  {
    var ps := seq(|rs|, i requires 0 <= i < |rs| => (keys[i], rs[i].count));
    if |rs| > 0 {
      PairsTotal(rs[1..], keys[1..]);
      assert ps[1..] == seq(|rs[1..]|, i requires 0 <= i < |rs[1..]| => (keys[1..][i], rs[1..][i].count));
    }
  }

  /** Grouping loses no count: the group totals add up to the total of the records. */
  lemma GroupingKeepsTotal(rs: seq<Record>, d: Dimension)
    ensures Tally.Sum(SumByCondition(rs)) == TotalCount(rs)
    ensures Tally.Sum(SumByDimension(rs, d)) == TotalCount(rs)
  {
    var cs := seq(|rs|, i requires 0 <= i < |rs| => rs[i].condition);
    var ds := seq(|rs|, i requires 0 <= i < |rs| => Field(rs[i], d));
    Tally.FoldCorrect(seq(|rs|, i requires 0 <= i < |rs| => (rs[i].condition, rs[i].count)));
    Tally.FoldCorrect(seq(|rs|, i requires 0 <= i < |rs| => (Field(rs[i], d), rs[i].count)));
    PairsTotal(rs, cs);
    PairsTotal(rs, ds);
    assert seq(|rs|, i requires 0 <= i < |rs| => (cs[i], rs[i].count)) == seq(|rs|, i requires 0 <= i < |rs| => (rs[i].condition, rs[i].count));
    assert seq(|rs|, i requires 0 <= i < |rs| => (ds[i], rs[i].count)) == seq(|rs|, i requires 0 <= i < |rs| => (Field(rs[i], d), rs[i].count));
  }
}
