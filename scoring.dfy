/** Row scoring: the derived `Auto Score`, `Teleop Score`, `Endgame Score` and
    `Total Score` columns (db_calc.py:51-57). */
module Scoring {
  import opened Options
  import opened Rubric

  /** One row of the `Data Entry` worksheet, restricted to the columns the
      calculations read. A blank `Auto Climb` or `Endgame` cell is `None` (it
      scores like any unlisted value); a `Fuel` of `None` is a NaN count. */
  datatype Record = Record(
    team: int,
    matchNumber: int,
    autoClimb: Option<string>,
    endgame: Option<string>,
    fuel: Option<nat>)

  /** A row with its four derived score columns. */
  datatype ScoredRecord = ScoredRecord(
    rec: Record,
    autoScore: int,
    teleopScore: int,
    endgameScore: int,
    totalScore: int)

  /** Scores one row; the total is exactly the sum of the three phases. */
  function ScoreRecord(r: Record): (s: ScoredRecord)
    ensures s.rec == r
    ensures s.autoScore == AutoPoints(r.autoClimb)
    ensures s.teleopScore == TeleopPoints(r.fuel)
    ensures s.endgameScore == EndgamePoints(r.endgame)
    ensures s.totalScore == s.autoScore + s.teleopScore + s.endgameScore
    ensures 0 <= s.totalScore <= 45 + s.teleopScore
  {
    var auto := AutoPoints(r.autoClimb);
    var teleop := TeleopPoints(r.fuel);
    var endgame := EndgamePoints(r.endgame);
    ScoredRecord(r, auto, teleop, endgame, auto + teleop + endgame)
  }

  /** A row whose score columns are those the rubric gives its raw columns. */
  predicate IsScored(s: ScoredRecord)
  {
    s == ScoreRecord(s.rec)
  }

  /** The four column assignments over the whole frame: one scored row per raw
      row, in the same order. */
  function ScoreAll(records: seq<Record>): (rows: seq<ScoredRecord>)
    ensures |rows| == |records|
    ensures forall i :: 0 <= i < |rows| ==> rows[i].rec == records[i] && IsScored(rows[i])
  {
    seq(|records|, i requires 0 <= i < |records| => ScoreRecord(records[i]))
  }

  /** The team numbers of the worksheet rows. */
  function RecordTeams(records: seq<Record>): set<int>
  {
    set j | 0 <= j < |records| :: records[j].team
  }

  /** The set of team numbers present in a frame. */
  function TeamsOf(rows: seq<ScoredRecord>): set<int>
  {
    set i | 0 <= i < |rows| :: rows[i].rec.team
  }

  function AutoColumn(rows: seq<ScoredRecord>): (c: seq<int>)
    ensures |c| == |rows| && forall i :: 0 <= i < |rows| ==> c[i] == rows[i].autoScore
  {
    seq(|rows|, i requires 0 <= i < |rows| => rows[i].autoScore)
  }

  function TeleopColumn(rows: seq<ScoredRecord>): (c: seq<int>)
    ensures |c| == |rows| && forall i :: 0 <= i < |rows| ==> c[i] == rows[i].teleopScore
  {
    seq(|rows|, i requires 0 <= i < |rows| => rows[i].teleopScore)
  }

  function EndgameColumn(rows: seq<ScoredRecord>): (c: seq<int>)
    ensures |c| == |rows| && forall i :: 0 <= i < |rows| ==> c[i] == rows[i].endgameScore
  {
    seq(|rows|, i requires 0 <= i < |rows| => rows[i].endgameScore)
  }

  function TeamColumn(rows: seq<ScoredRecord>): (c: seq<int>)
    ensures |c| == |rows| && forall i :: 0 <= i < |rows| ==> c[i] == rows[i].rec.team
  {
    seq(|rows|, i requires 0 <= i < |rows| => rows[i].rec.team)
  }

  function TotalColumn(rows: seq<ScoredRecord>): (c: seq<int>)
    ensures |c| == |rows| && forall i :: 0 <= i < |rows| ==> c[i] == rows[i].totalScore
  {
    seq(|rows|, i requires 0 <= i < |rows| => rows[i].totalScore)
  }
}
