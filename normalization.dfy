/** Normalisation: the `Normalized Data` table, each average column scaled by
    `100 / column.max()` (db_calc.py:121-126), computed from the unrounded
    averages. */
module Normalization {
  import opened Options
  import opened Stats
  import opened Aggregation

  /** One row of `Normalized Data`. `None` stands for a NaN or infinite cell. */
  datatype NormalizedRow = NormalizedRow(
    team: int,
    auto: Option<real>,
    teleop: Option<real>,
    endgame: Option<real>,
    total: Option<real>)

  /** One cell of `col * (100 / m)`. */
  function Scale(v: real, m: real): (s: real)
    requires m != 0.0
    ensures s * m == 100.0 * v
  {
    v * (100.0 / m)
  }

  /** `col * (100 / col.max())`. When the maximum is 0 the factor is infinite
      and every cell is NaN or infinite, so the whole column is `None`. */
  function NormalizeColumn(col: seq<real>): (r: seq<Option<real>>)
    ensures |r| == |col|
    ensures col != [] && Max(col) == 0.0 ==> forall i :: 0 <= i < |r| ==> r[i].None?
    ensures col != [] && Max(col) != 0.0 ==> forall i :: 0 <= i < |r| ==> r[i].Some?
  {
    if col == [] then []
    else
      var m := Max(col);
      if m == 0.0 then seq(|col|, i => None)
      else seq(|col|, i requires 0 <= i < |col| => Some(Scale(col[i], m)))
  }

  lemma NormalizeColumnAt(col: seq<real>, i: nat)
    requires i < |col| && Max(col) != 0.0
    ensures NormalizeColumn(col)[i] == Some(Scale(col[i], Max(col)))
  {
  }

  /** Every row holding the column's maximum reads exactly 100. */
  lemma MaximumNormalizesTo100(col: seq<real>, i: nat)
    requires i < |col| && col[i] == Max(col) && Max(col) != 0.0
    ensures NormalizeColumn(col)[i] == Some(100.0)
  {
    NormalizeColumnAt(col, i);
    ScaledMaximum(Max(col));
  }

  lemma ScaledMaximum(m: real)
    requires m != 0.0
    ensures Scale(m, m) == 100.0
  {
  }

  /** With a positive maximum and no negative values, every normalised value
      lies in [0, 100]. */
  lemma NormalizedWithin0To100(col: seq<real>)
    requires col != [] && Max(col) > 0.0
    requires forall i :: 0 <= i < |col| ==> col[i] >= 0.0
    ensures forall i :: 0 <= i < |col| ==>
      NormalizeColumn(col)[i].Some? && 0.0 <= NormalizeColumn(col)[i].value <= 100.0
  {
    forall i | 0 <= i < |col|
      ensures NormalizeColumn(col)[i].Some? && 0.0 <= NormalizeColumn(col)[i].value <= 100.0
    {
      NormalizeColumnAt(col, i);
      ScaledBelowMaximum(col[i], Max(col));
    }
  }

  lemma ScaledBelowMaximum(v: real, m: real)
    requires m > 0.0 && 0.0 <= v <= m
    ensures 0.0 <= Scale(v, m) <= 100.0
  {
  }

  /** Normalising keeps the order of the teams' values. */
  lemma NormalizePreservesOrder(col: seq<real>, i: nat, j: nat)
    requires i < |col| && j < |col| && col[i] <= col[j]
    requires Max(col) > 0.0
    ensures NormalizeColumn(col)[i].value <= NormalizeColumn(col)[j].value
  {
    NormalizeColumnAt(col, i);
    NormalizeColumnAt(col, j);
    ScaleMonotone(col[i], col[j], Max(col));
  }

  lemma ScaleMonotone(a: real, b: real, m: real)
    requires a <= b && m > 0.0
    ensures Scale(a, m) <= Scale(b, m)
  {
  }

  /** A normalised cell is NaN/infinite or lies in [0, 100]. */
  predicate CellInRange(c: Option<real>)
  {
    c.Some? ==> 0.0 <= c.value <= 100.0
  }

  lemma {:induction false} MaxNonNegative(col: seq<real>)
    requires col != []
    requires forall i :: 0 <= i < |col| ==> col[i] >= 0.0
    ensures Max(col) >= 0.0
  {
    assert col[0] <= Max(col);
  }

  /** A column with no negative value normalises into cells that are all
      NaN/infinite (maximum 0) or all within [0, 100]. */
  lemma NonNegativeColumnInRange(col: seq<real>)
    requires forall i :: 0 <= i < |col| ==> col[i] >= 0.0
    ensures forall i :: 0 <= i < |col| ==> CellInRange(NormalizeColumn(col)[i])
  {
    if col != [] {
      MaxNonNegative(col);
      if Max(col) > 0.0 {
        NormalizedWithin0To100(col);
      }
    }
  }

  /** Normalising a table whose averages are not negative leaves every cell
      NaN/infinite or within [0, 100]. */
  lemma NormalizedTableInRange(table: seq<TeamAggregate>)
    requires forall i :: 0 <= i < |table| ==>
      table[i].autoAvg >= 0.0 && table[i].teleopAvg >= 0.0
      && table[i].climbAvg >= 0.0 && table[i].totalAvg >= 0.0
    ensures forall i :: 0 <= i < |table| ==>
      var row := Normalize(table)[i];
      CellInRange(row.auto) && CellInRange(row.teleop)
      && CellInRange(row.endgame) && CellInRange(row.total)
  {
    NonNegativeColumnInRange(AutoAverages(table));
    NonNegativeColumnInRange(TeleopAverages(table));
    NonNegativeColumnInRange(ClimbAverages(table));
    NonNegativeColumnInRange(TotalAverages(table));
  }

  function AutoAverages(table: seq<TeamAggregate>): (c: seq<real>)
    ensures |c| == |table| && forall i :: 0 <= i < |table| ==> c[i] == table[i].autoAvg
  {
    seq(|table|, i requires 0 <= i < |table| => table[i].autoAvg)
  }

  function TeleopAverages(table: seq<TeamAggregate>): (c: seq<real>)
    ensures |c| == |table| && forall i :: 0 <= i < |table| ==> c[i] == table[i].teleopAvg
  {
    seq(|table|, i requires 0 <= i < |table| => table[i].teleopAvg)
  }

  function ClimbAverages(table: seq<TeamAggregate>): (c: seq<real>)
    ensures |c| == |table| && forall i :: 0 <= i < |table| ==> c[i] == table[i].climbAvg
  {
    seq(|table|, i requires 0 <= i < |table| => table[i].climbAvg)
  }

  function TotalAverages(table: seq<TeamAggregate>): (c: seq<real>)
    ensures |c| == |table| && forall i :: 0 <= i < |table| ==> c[i] == table[i].totalAvg
  {
    seq(|table|, i requires 0 <= i < |table| => table[i].totalAvg)
  }

  /** The `Normalized Data` table: the teams of the `Calcs` table in the same
      order, each average column normalised on its own. */
  function Normalize(table: seq<TeamAggregate>): (norm: seq<NormalizedRow>)
    ensures |norm| == |table|
    ensures forall i :: 0 <= i < |norm| ==>
      && norm[i].team == table[i].team
      && norm[i].auto == NormalizeColumn(AutoAverages(table))[i]
      && norm[i].teleop == NormalizeColumn(TeleopAverages(table))[i]
      && norm[i].endgame == NormalizeColumn(ClimbAverages(table))[i]
      && norm[i].total == NormalizeColumn(TotalAverages(table))[i]
  {
    var auto := NormalizeColumn(AutoAverages(table));
    var teleop := NormalizeColumn(TeleopAverages(table));
    var endgame := NormalizeColumn(ClimbAverages(table));
    var total := NormalizeColumn(TotalAverages(table));
    seq(|table|, i requires 0 <= i < |table| =>
      NormalizedRow(table[i].team, auto[i], teleop[i], endgame[i], total[i]))
  }
}
