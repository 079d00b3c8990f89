/** The scoring rubric: three constant tables giving points per phase
    (db_calc.py:8-22), and the cell lookups `series.map(table).fillna(0)`. */
module Rubric {
  import opened Options

  /** Points for the outcome recorded in the `Endgame` column. */
  const EndgameScores: map<string, int> :=
    map["L3 Climb" := 30, "L2 Climb" := 20, "L1 Climb" := 10, "Nothing" := 0]

  /** Points for the `Auto Climb` column. */
  const AutoScores: map<string, int> := map["Yes" := 15, "No" := 0]

  /** Per-unit weight of each teleop counter column; `Fuel` is the only one. */
  const TeleopWeights: map<string, int> := map["Fuel" := 1]

  /** One cell of `column.map(table).fillna(0)`: a blank cell or a value the
      table does not list becomes 0 instead of failing. */
  function Lookup(table: map<string, int>, cell: Option<string>): (r: int)
    ensures cell.Some? && cell.value in table ==> r == table[cell.value]
    ensures cell.None? || cell.value !in table ==> r == 0
  {
    if cell.Some? && cell.value in table then table[cell.value] else 0
  }

  /** Endgame points: 30, 20 or 10 for the three climbs, 0 for anything else. */
  function EndgamePoints(endgame: Option<string>): (r: int)
    ensures r == 0 || r == 10 || r == 20 || r == 30
    ensures r == 30 <==> endgame == Some("L3 Climb")
    ensures r == 20 <==> endgame == Some("L2 Climb")
    ensures r == 10 <==> endgame == Some("L1 Climb")
  {
    Lookup(EndgameScores, endgame)
  }

  /** Auto points: 15 exactly when the robot climbed in auto, 0 otherwise. */
  function AutoPoints(autoClimb: Option<string>): (r: int)
    ensures r == 0 || r == 15
    ensures r == 15 <==> autoClimb == Some("Yes")
  {
    Lookup(AutoScores, autoClimb)
  }

  /** Teleop points: the `Fuel` count times its weight; a NaN count (`None`)
      counts as 0, as `fillna(0)` makes it. */
  function TeleopPoints(fuel: Option<nat>): (r: int)
    ensures fuel.None? ==> r == 0
    ensures fuel.Some? ==> r == fuel.value
  {
    var count := if fuel.Some? then fuel.value else 0;
    count * TeleopWeights["Fuel"]
  }
}
