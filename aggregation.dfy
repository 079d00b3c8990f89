/** Aggregation: `df.groupby('Team Number', as_index=False).agg(...)` with the
    four means and the standard deviation of the total (db_calc.py:92-100), and
    the `Consistency` column (db_calc.py:109-114). */
module Aggregation {
  import opened Options
  import opened Scoring
  import opened Stats

  /** One row of the `Calcs` table. `None` stands for the NaN pandas produces. */
  datatype TeamAggregate = TeamAggregate(
    team: int,
    autoAvg: real,
    teleopAvg: real,
    climbAvg: real,
    totalAvg: real,
    totalStdev: Option<real>,
    consistency: Option<real>)

  /** `eps` of db_calc.py:109, as an exact real. */
  const Eps: real := 0.000001

  /** What the model needs of the square root behind `std`: it maps 0 to 0
      and a positive x to the positive number whose square is x. */
  ghost predicate IsSquareRoot(sqrt: real -> real)
  {
    sqrt(0.0) == 0.0 && forall x :: 0.0 < x ==> 0.0 < sqrt(x) && sqrt(x) * sqrt(x) == x
  }

  predicate StrictlyIncreasing(keys: seq<int>)
  {
    forall i, j :: 0 <= i < j < |keys| ==> keys[i] < keys[j]
  }

  /** Adds a key to an ascending list of distinct keys. */
  function InsertKey(t: int, keys: seq<int>): (r: seq<int>)
    requires StrictlyIncreasing(keys)
    ensures StrictlyIncreasing(r)
    ensures forall u :: u in r <==> u in keys || u == t
  {
    if keys == [] then [t]
    else if t < keys[0] then [t] + keys
    else if t == keys[0] then keys
    else
      var rest := InsertKey(t, keys[1..]);
      assert forall k :: 0 <= k < |rest| ==> keys[0] < rest[k] by {
        forall k | 0 <= k < |rest| ensures keys[0] < rest[k] {
          assert rest[k] in rest;
        }
      }
      [keys[0]] + rest
  }

  lemma TeamsOfSnoc(rows: seq<ScoredRecord>, x: ScoredRecord)
    ensures TeamsOf(rows + [x]) == TeamsOf(rows) + {x.rec.team}
  {
    var all := rows + [x];
    assert all[|rows|] == x;
    forall t | t in TeamsOf(rows) ensures t in TeamsOf(all) {
      var i :| 0 <= i < |rows| && rows[i].rec.team == t;
      assert all[i] == rows[i];
    }
  }

  /** The group keys of `groupby('Team Number')`: every team present, each
      once, in ascending order. */
  function GroupKeys(rows: seq<ScoredRecord>): (keys: seq<int>)
    ensures StrictlyIncreasing(keys)
    ensures forall t :: t in keys <==> t in TeamsOf(rows)
  {
    if rows == [] then []
    else
      var front := rows[..|rows| - 1];
      var last := rows[|rows| - 1];
      assert rows == front + [last];
      TeamsOfSnoc(front, last);
      InsertKey(last.rec.team, GroupKeys(front))
  }

  /** The group of team `t`: its rows, in frame order, each with its
      multiplicity. */
  function TeamRows(rows: seq<ScoredRecord>, t: int): (g: seq<ScoredRecord>)
    ensures forall x :: multiset(g)[x] == if x.rec.team == t then multiset(rows)[x] else 0
  {
    if rows == [] then []
    else
      var front := rows[..|rows| - 1];
      var last := rows[|rows| - 1];
      assert rows == front + [last];
      TeamRows(front, t) + if last.rec.team == t then [last] else []
  }

  lemma TeamRowsNonEmpty(rows: seq<ScoredRecord>, t: int)
    ensures TeamRows(rows, t) != [] <==> t in TeamsOf(rows)
  {
    var g := TeamRows(rows, t);
    if t in TeamsOf(rows) {
      var i :| 0 <= i < |rows| && rows[i].rec.team == t;
      assert rows[i] in multiset(rows);
      assert rows[i] in multiset(g);
    }
    if g != [] {
      assert g[0] in multiset(g);
      assert g[0] in multiset(rows) && g[0].rec.team == t;
      var i :| 0 <= i < |rows| && rows[i] == g[0];
    }
  }

  lemma TeamRowsAreScored(rows: seq<ScoredRecord>, t: int)
    requires forall i :: 0 <= i < |rows| ==> IsScored(rows[i])
    ensures forall k :: 0 <= k < |TeamRows(rows, t)| ==> IsScored(TeamRows(rows, t)[k])
  {
    var g := TeamRows(rows, t);
    forall k | 0 <= k < |g| ensures IsScored(g[k]) {
      assert g[k] in multiset(g);
      assert g[k] in multiset(rows);
      var i :| 0 <= i < |rows| && rows[i] == g[k];
    }
  }

  /** `df['Total Score'].max()` over every row of every team: the largest
      total of any single row. The maximum of the whole-number column is one of
      its values, so `Floor` only brings it back to `int`. */
  function Peak(rows: seq<ScoredRecord>): (p: int)
    ensures forall i :: 0 <= i < |rows| ==> rows[i].totalScore <= p
    ensures rows != [] ==> exists i :: 0 <= i < |rows| && rows[i].totalScore == p
  {
    if rows == [] then 0 else Max(AsReals(TotalColumn(rows))).Floor
  }

  /** `std` of a column: the square root of the sample variance, NaN (`None`)
      for fewer than two values. */
  function StandardDeviation(xs: seq<int>, sqrt: real -> real): (sd: Option<real>)
    ensures sd.Some? <==> |xs| >= 2
  {
    match SampleVariance(xs)
    case None => None
    case Some(v) => Some(sqrt(v))
  }

  /** `Series.clip(lower, upper)` on one value. */
  function Clip(x: real, lo: real, hi: real): (r: real)
    requires lo <= hi
    ensures lo <= r <= hi
    ensures lo <= x <= hi ==> r == x
    ensures lo < hi ==> (r == lo <==> x <= lo)
    ensures lo < hi ==> (r == hi <==> x >= hi)
  {
    if x < lo then lo else if x > hi then hi else x
  }

  /** Consistency: `clip(1 - stdev / (peak + eps), 0, 1)`. NaN stays NaN. A
      standard deviation of 0 gives exactly 1, and, when the peak is not
      negative, 1 is reached only then and 0 exactly when the deviation is at
      least `peak + eps`. */
  function Consistency(sd: Option<real>, peak: int): (c: Option<real>)
    ensures c.Some? <==> sd.Some?
    ensures c.Some? ==> 0.0 <= c.value <= 1.0
    ensures sd == Some(0.0) ==> c == Some(1.0)
    ensures sd.Some? && sd.value >= 0.0 && peak >= 0 ==>
      (c.value == 1.0 <==> sd.value == 0.0)
    ensures sd.Some? && peak >= 0 ==>
      (c.value == 0.0 <==> sd.value >= peak as real + Eps)
  {
    match sd
    case None => None
    case Some(s) =>
      DeviationRatio(s, peak);
      Some(Clip(1.0 - s / (peak as real + Eps), 0.0, 1.0))
  }

  /** With a non-negative peak the denominator `peak + eps` is positive, so the
      ratio of a deviation to it is 0 only for deviation 0, not negative for a
      non-negative deviation, and reaches 1 exactly when the deviation reaches
      `peak + eps`. */
  lemma DeviationRatio(s: real, peak: int)
    ensures peak >= 0 ==> (s / (peak as real + Eps) == 0.0 <==> s == 0.0)
    ensures peak >= 0 && s >= 0.0 ==> s / (peak as real + Eps) >= 0.0
    ensures peak >= 0 ==> (s / (peak as real + Eps) >= 1.0 <==> s >= peak as real + Eps)
  {
    if peak >= 0 {
      var d := peak as real + Eps;
      var q := s / d;
      assert q * d == s;
      if q >= 1.0 {
        assert (q - 1.0) * d >= 0.0;
      }
      if s >= d {
        assert (q - 1.0) * d >= 0.0;
      }
    }
  }

  /** The aggregate row of team `t`, whose rows are those of `TeamRows`, with
      the means of its four score columns: a standard deviation and a
      consistency exist exactly when the team played at least two matches, and
      the consistency then lies in [0, 1]. */
  function AggregateTeam(rows: seq<ScoredRecord>, t: int, peak: int, sqrt: real -> real): (a: TeamAggregate)
    requires t in TeamsOf(rows)
    ensures a.team == t
    ensures a.totalStdev.Some? <==> |TeamRows(rows, t)| >= 2
    ensures a.consistency.Some? <==> |TeamRows(rows, t)| >= 2
    ensures a.consistency.Some? ==> 0.0 <= a.consistency.value <= 1.0
  {
    TeamRowsNonEmpty(rows, t);
    var g := TeamRows(rows, t);
    var sd := StandardDeviation(TotalColumn(g), sqrt);
    TeamAggregate(
      t,
      Mean(AutoColumn(g)),
      Mean(TeleopColumn(g)),
      Mean(EndgameColumn(g)),
      Mean(TotalColumn(g)),
      sd,
      Consistency(sd, peak))
  }

  /** The `Calcs` table: one row per group key, in key order, so one row per
      team present, in ascending team order. */
  function Aggregate(rows: seq<ScoredRecord>, sqrt: real -> real): (table: seq<TeamAggregate>)
    ensures |table| == |GroupKeys(rows)|
    ensures forall i :: 0 <= i < |table| ==>
      GroupKeys(rows)[i] in TeamsOf(rows)
      && table[i] == AggregateTeam(rows, GroupKeys(rows)[i], Peak(rows), sqrt)
    ensures forall i, j :: 0 <= i < j < |table| ==> table[i].team < table[j].team
    ensures TableTeams(table) == TeamsOf(rows)
  {
    var keys := GroupKeys(rows);
    var peak := Peak(rows);
    var table := seq(|keys|, i requires 0 <= i < |keys| => AggregateTeam(rows, keys[i], peak, sqrt));
    TableTeamsAreKeys(table, keys, rows);
    table
  }

  /** The teams that have a row in the table. */
  function TableTeams(table: seq<TeamAggregate>): set<int>
  {
    set i | 0 <= i < |table| :: table[i].team
  }

  /** A table whose rows carry the group keys in order has exactly the frame's
      teams. */
  lemma TableTeamsAreKeys(table: seq<TeamAggregate>, keys: seq<int>, rows: seq<ScoredRecord>)
    requires keys == GroupKeys(rows)
    requires |table| == |keys| && forall i :: 0 <= i < |table| ==> table[i].team == keys[i]
    ensures TableTeams(table) == TeamsOf(rows)
  {
    forall t | t in TeamsOf(rows) ensures t in TableTeams(table) {
      var i :| 0 <= i < |keys| && keys[i] == t;
      assert table[i].team == t;
    }
  }

  /** Each team's average total is the sum of its three phase averages. */
  lemma TotalAverageIsSumOfPhaseAverages(rows: seq<ScoredRecord>, t: int, peak: int, sqrt: real -> real)
    requires t in TeamsOf(rows)
    requires forall i :: 0 <= i < |rows| ==> IsScored(rows[i])
    ensures var a := AggregateTeam(rows, t, peak, sqrt);
      a.totalAvg == a.autoAvg + a.teleopAvg + a.climbAvg
  {
    TeamRowsNonEmpty(rows, t);
    TeamRowsAreScored(rows, t);
    var g := TeamRows(rows, t);
    MeanOfThreeColumns(AutoColumn(g), TeleopColumn(g), EndgameColumn(g), TotalColumn(g));
  }

  /** Averages stay within the rubric's range: auto in [0, 15], climb in
      [0, 30], teleop and total not negative. */
  lemma AveragesWithinRubric(rows: seq<ScoredRecord>, t: int, peak: int, sqrt: real -> real)
    requires t in TeamsOf(rows)
    requires forall i :: 0 <= i < |rows| ==> IsScored(rows[i])
    ensures var a := AggregateTeam(rows, t, peak, sqrt);
      && 0.0 <= a.autoAvg <= 15.0
      && 0.0 <= a.climbAvg <= 30.0
      && 0.0 <= a.teleopAvg
      && 0.0 <= a.totalAvg
  {
    TeamRowsNonEmpty(rows, t);
    TeamRowsAreScored(rows, t);
    var g := TeamRows(rows, t);
    ScoreColumnsWithinRubric(g);
    MeanBounds(AutoColumn(g), 0, 15);
    MeanBounds(EndgameColumn(g), 0, 30);
    MeanNonNegative(TeleopColumn(g));
    MeanNonNegative(TotalColumn(g));
  }

  lemma ScoreColumnsWithinRubric(g: seq<ScoredRecord>)
    requires forall k :: 0 <= k < |g| ==> IsScored(g[k])
    ensures forall k :: 0 <= k < |g| ==> 0 <= AutoColumn(g)[k] <= 15
    ensures forall k :: 0 <= k < |g| ==> 0 <= EndgameColumn(g)[k] <= 30
    ensures forall k :: 0 <= k < |g| ==> 0 <= TeleopColumn(g)[k]
    ensures forall k :: 0 <= k < |g| ==> 0 <= TotalColumn(g)[k]
  {
    forall k | 0 <= k < |g|
      ensures 0 <= g[k].autoScore <= 15 && 0 <= g[k].endgameScore <= 30
      ensures 0 <= g[k].teleopScore && 0 <= g[k].totalScore
    {
      assert g[k] == ScoreRecord(g[k].rec);
    }
  }

  /** A team with at least two matches gets consistency exactly 1 if and only
      if its total score is the same in every match. */
  lemma ConsistencyOneIffSteady(rows: seq<ScoredRecord>, t: int, sqrt: real -> real)
    requires IsSquareRoot(sqrt)
    requires t in TeamsOf(rows)
    requires forall i :: 0 <= i < |rows| ==> IsScored(rows[i])
    requires |TeamRows(rows, t)| >= 2
    ensures AggregateTeam(rows, t, Peak(rows), sqrt).consistency == Some(1.0)
      <==> AllEqual(TotalColumn(TeamRows(rows, t)))
  {
    var totals := TotalColumn(TeamRows(rows, t));
    var v := SampleVariance(totals).value;
    var sd := sqrt(v);
    assert rows[0].totalScore >= 0 && Peak(rows) >= rows[0].totalScore;
    VarianceZeroIffAllEqual(totals);
    if v == 0.0 {
      assert sd == 0.0;
    } else {
      assert sd > 0.0;
    }
  }

  /** Every row of the table: the average total is the sum of the phase
      averages, averages lie within the rubric's range, and a consistency, when
      defined, lies in [0, 1]. */
  lemma AggregateTableProperties(rows: seq<ScoredRecord>, sqrt: real -> real)
    requires forall i :: 0 <= i < |rows| ==> IsScored(rows[i])
    ensures forall i :: 0 <= i < |Aggregate(rows, sqrt)| ==> RowWithinRubric(Aggregate(rows, sqrt)[i])
  {
    var table := Aggregate(rows, sqrt);
    var keys := GroupKeys(rows);
    forall i | 0 <= i < |table| ensures RowWithinRubric(table[i]) {
      TotalAverageIsSumOfPhaseAverages(rows, keys[i], Peak(rows), sqrt);
      AveragesWithinRubric(rows, keys[i], Peak(rows), sqrt);
    }
  }

  /** The properties every row of `Calcs` has when its frame was scored by
      the rubric. */
  predicate RowWithinRubric(a: TeamAggregate)
  {
    && a.totalAvg == a.autoAvg + a.teleopAvg + a.climbAvg
    && 0.0 <= a.autoAvg <= 15.0
    && 0.0 <= a.climbAvg <= 30.0
    && 0.0 <= a.teleopAvg
    && 0.0 <= a.totalAvg
    && (a.consistency.Some? ==> 0.0 <= a.consistency.value <= 1.0)
  }

  /** The sample (not the population) deviation: totals 100 and 0 have
      variance 5000, so a deviation of about 70.71 rather than 50. */
  lemma SampleVarianceOfTwoMatches()
    ensures SampleVariance([100, 0]) == Some(5000.0)
  {
    assert Sum([100, 0]) == 100;
    assert ScaledSquaredDeviations([100, 0], 2, 100) == 20000;
  }
}
