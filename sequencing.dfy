/** Sequencing: the sort by (`Team Number`, `Match Number`) and the per-team
    `Team Match Number` that `groupby(...).cumcount() + 1` assigns
    (db_calc.py:59-61). */
module Sequencing {
  import opened Scoring

  /** Row order of `sort_values(['Team Number', 'Match Number'])`. */
  predicate TeamMatchLe(a: ScoredRecord, b: ScoredRecord)
  {
    a.rec.team < b.rec.team
    || (a.rec.team == b.rec.team && a.rec.matchNumber <= b.rec.matchNumber)
  }

  predicate SortedByTeamMatch(rows: seq<ScoredRecord>)
  {
    forall i, j :: 0 <= i < j < |rows| ==> TeamMatchLe(rows[i], rows[j])
  }

  /** Places `x` into an already sorted frame. */
  function Insert(x: ScoredRecord, rows: seq<ScoredRecord>): (r: seq<ScoredRecord>)
    requires SortedByTeamMatch(rows)
    ensures SortedByTeamMatch(r)
    ensures multiset(r) == multiset(rows) + multiset{x}
  {
    if rows == [] then [x]
    else if TeamMatchLe(x, rows[0]) then [x] + rows
    else
      var rest := Insert(x, rows[1..]);
      assert rows == [rows[0]] + rows[1..];
      assert forall k :: 0 <= k < |rest| ==> TeamMatchLe(rows[0], rest[k]) by {
        forall k | 0 <= k < |rest| ensures TeamMatchLe(rows[0], rest[k]) {
          assert rest[k] in multiset(rest);
          assert rest[k] in multiset(rows[1..]) || rest[k] == x;
        }
      }
      [rows[0]] + rest
  }

  /** The sorted frame. Only the ordering and that no row is lost or invented
      are promised: the call asks for no stable sort and pandas documents no
      order for two rows with the same team and match, so none is promised. */
  function SortByTeamMatch(rows: seq<ScoredRecord>): (r: seq<ScoredRecord>)
    ensures SortedByTeamMatch(r)
    ensures multiset(r) == multiset(rows)
  {
    if rows == [] then []
    else
      assert rows == [rows[0]] + rows[1..];
      Insert(rows[0], SortByTeamMatch(rows[1..]))
  }

  /** Number of rows of team `t`. */
  function CountTeam(rows: seq<ScoredRecord>, t: int): (c: nat)
    ensures c <= |rows|
  {
    if rows == [] then 0
    else CountTeam(rows[..|rows| - 1], t) + (if rows[|rows| - 1].rec.team == t then 1 else 0)
  }

  /** The count of a team is its multiplicity in the frame's team column. */
  lemma {:induction false} CountTeamIsMultiplicity(rows: seq<ScoredRecord>, t: int)
    ensures CountTeam(rows, t) == multiset(TeamColumn(rows))[t]
  {
    if rows != [] {
      var front := rows[..|rows| - 1];
      assert TeamColumn(rows) == TeamColumn(front) + [rows[|rows| - 1].rec.team];
      CountTeamIsMultiplicity(front, t);
    }
  }

  /** `cumcount() + 1` at row `i`: one more than the rows of the same team
      before it. */
  function TeamMatchNumber(rows: seq<ScoredRecord>, i: nat): (k: nat)
    requires i < |rows|
    ensures 1 <= k <= i + 1
  {
    CountTeam(rows[..i], rows[i].rec.team) + 1
  }

  /** A row together with its `Team Match Number`. */
  datatype SequencedRecord = SequencedRecord(scored: ScoredRecord, teamMatchNumber: nat)

  function Scored(out: seq<SequencedRecord>): (rows: seq<ScoredRecord>)
    ensures |rows| == |out| && forall i :: 0 <= i < |out| ==> rows[i] == out[i].scored
  {
    seq(|out|, i requires 0 <= i < |out| => out[i].scored)
  }

  /** The `Team Match Number`s given to team `t`'s rows. */
  function TeamNumbers(out: seq<SequencedRecord>, t: int): set<nat>
  {
    set i | 0 <= i < |out| && out[i].scored.rec.team == t :: out[i].teamMatchNumber
  }

  /** The numbers 1 to `n`. */
  function OneTo(n: nat): (s: set<nat>)
    ensures forall k :: k in s <==> 1 <= k <= n
  {
    if n == 0 then {} else OneTo(n - 1) + {n}
  }

  lemma {:induction false} TeamMatchNumberInRange(rows: seq<ScoredRecord>, i: nat)
    requires i < |rows|
    ensures 1 <= TeamMatchNumber(rows, i) <= CountTeam(rows, rows[i].rec.team)
  {
    var t := rows[i].rec.team;
    if i < |rows| - 1 {
      var front := rows[..|rows| - 1];
      assert front[..i] == rows[..i];
      TeamMatchNumberInRange(front, i);
    } else {
      assert rows[..|rows| - 1] == rows[..i];
    }
  }

  /** Along the frame's order, a team's numbers strictly increase. */
  lemma {:induction false} TeamMatchNumberIncreasing(rows: seq<ScoredRecord>, i: nat, j: nat)
    requires i < j < |rows| && rows[i].rec.team == rows[j].rec.team
    ensures TeamMatchNumber(rows, i) < TeamMatchNumber(rows, j)
  {
    var front := rows[..j];
    assert front[..i] == rows[..i];
    TeamMatchNumberInRange(front, i);
    CountTeamMonotone(rows[..j], rows[..j + 1], rows[i].rec.team);
  }

  lemma {:induction false} CountTeamMonotone(shorter: seq<ScoredRecord>, longer: seq<ScoredRecord>, t: int)
    requires shorter <= longer
    ensures CountTeam(shorter, t) <= CountTeam(longer, t)
    decreases |longer|
  {
    if |shorter| < |longer| {
      var front := longer[..|longer| - 1];
      assert shorter <= front;
      CountTeamMonotone(shorter, front, t);
    } else {
      assert shorter == longer;
    }
  }

  /** Every number from 1 to the team's row count is used. */
  lemma {:induction false} TeamMatchNumberOnto(rows: seq<ScoredRecord>, t: int, k: nat)
    requires 1 <= k <= CountTeam(rows, t)
    ensures exists i :: 0 <= i < |rows| && rows[i].rec.team == t && TeamMatchNumber(rows, i) == k
  {
    var n := |rows| - 1;
    var front := rows[..n];
    assert front == rows[..n];
    if rows[n].rec.team == t && k == CountTeam(rows, t) {
      assert TeamMatchNumber(rows, n) == k;
    } else {
      TeamMatchNumberOnto(front, t, k);
      var i :| 0 <= i < |front| && front[i].rec.team == t && TeamMatchNumber(front, i) == k;
      assert front[..i] == rows[..i];
      assert TeamMatchNumber(rows, i) == k;
    }
  }

  /** The numbering of `TeamMatchNumber` gives each team exactly the numbers 1 to
      its row count, once each, increasing along the frame's order. */
  lemma NumberingIsContiguous(rows: seq<ScoredRecord>, out: seq<SequencedRecord>)
    requires Scored(out) == rows
    requires forall i :: 0 <= i < |out| ==> out[i].teamMatchNumber == TeamMatchNumber(rows, i)
    ensures forall i :: 0 <= i < |out| ==>
      1 <= out[i].teamMatchNumber <= CountTeam(rows, rows[i].rec.team)
    ensures forall i, j :: 0 <= i < j < |out| && rows[i].rec.team == rows[j].rec.team ==>
      out[i].teamMatchNumber < out[j].teamMatchNumber
    ensures forall t :: TeamNumbers(out, t) == OneTo(CountTeam(rows, t))
  {
    forall i | 0 <= i < |out|
      ensures 1 <= out[i].teamMatchNumber <= CountTeam(rows, rows[i].rec.team)
    {
      TeamMatchNumberInRange(rows, i);
    }
    forall i, j | 0 <= i < j < |out| && rows[i].rec.team == rows[j].rec.team
      ensures out[i].teamMatchNumber < out[j].teamMatchNumber
    {
      TeamMatchNumberIncreasing(rows, i, j);
    }
    forall t ensures TeamNumbers(out, t) == OneTo(CountTeam(rows, t)) {
      forall k | k in OneTo(CountTeam(rows, t)) ensures k in TeamNumbers(out, t) {
        TeamMatchNumberOnto(rows, t, k);
        var i :| 0 <= i < |rows| && rows[i].rec.team == t && TeamMatchNumber(rows, i) == k;
        assert out[i].scored.rec.team == t;
      }
    }
  }

  /** The counter map holds, for every team, how many rows of the prefix
      belong to it (teams not yet seen are absent). */
  ghost predicate CounterAgrees(seen: map<int, nat>, prefix: seq<ScoredRecord>)
  {
    forall t :: CountTeam(prefix, t) == if t in seen then seen[t] else 0
  }

  /** The first |out| rows of the frame, each with its `cumcount() + 1`. */
  ghost predicate NumberedPrefix(rows: seq<ScoredRecord>, out: seq<SequencedRecord>)
  {
    |out| <= |rows|
    && forall k :: 0 <= k < |out| ==>
      out[k].scored == rows[k] && out[k].teamMatchNumber == TeamMatchNumber(rows, k)
  }

  /** One step of the counter: the row's count so far plus one is its number,
      and bumping its team's entry keeps the map in step with the prefix. */
  lemma CounterStep(rows: seq<ScoredRecord>, seen: map<int, nat>, i: nat)
    requires i < |rows| && CounterAgrees(seen, rows[..i])
    ensures var t := rows[i].rec.team;
      var c := if t in seen then seen[t] else 0;
      && c + 1 == TeamMatchNumber(rows, i)
      && CounterAgrees(seen[t := c + 1], rows[..i + 1])
  {
    CountTeamStep(rows, i);
  }

  lemma NumberedPrefixStep(rows: seq<ScoredRecord>, out: seq<SequencedRecord>, number: nat)
    requires NumberedPrefix(rows, out) && |out| < |rows|
    requires number == TeamMatchNumber(rows, |out|)
    ensures NumberedPrefix(rows, out + [SequencedRecord(rows[|out|], number)])
  {
  }

  /** The running per-team counter of `groupby('Team Number').cumcount() + 1`:
      one pass over the frame keeping, for each team, how many of its rows have
      been seen. For each team the numbers are exactly 1 to its row count, each
      used once, increasing along the frame's order. */
  method NumberWithinTeams(rows: seq<ScoredRecord>) returns (out: seq<SequencedRecord>)
    ensures Scored(out) == rows
    ensures forall i :: 0 <= i < |out| ==> out[i].teamMatchNumber == TeamMatchNumber(rows, i)
    ensures forall i :: 0 <= i < |out| ==>
      1 <= out[i].teamMatchNumber <= CountTeam(rows, rows[i].rec.team)
    ensures forall i, j :: 0 <= i < j < |out| && rows[i].rec.team == rows[j].rec.team ==>
      out[i].teamMatchNumber < out[j].teamMatchNumber
    ensures forall t :: TeamNumbers(out, t) == OneTo(CountTeam(rows, t))
  {
    var seen: map<int, nat> := map[];
    out := [];
    var i := 0;
    while i < |rows|
      invariant 0 <= i <= |rows|
      invariant |out| == i
      invariant NumberedPrefix(rows, out)
      invariant CounterAgrees(seen, rows[..i])
    {
      var t := rows[i].rec.team;
      var c := if t in seen then seen[t] else 0;
      CounterStep(rows, seen, i);
      NumberedPrefixStep(rows, out, c + 1);
      out := out + [SequencedRecord(rows[i], c + 1)];
      seen := seen[t := c + 1];
      i := i + 1;
    }
    assert Scored(out) == rows;
    NumberingIsContiguous(rows, out);
  }

  /** Taking one more row of the frame adds one to that row's team count and
      leaves every other team's count as it was. */
  lemma CountTeamStep(rows: seq<ScoredRecord>, i: nat)
    requires i < |rows|
    ensures forall t ::
      CountTeam(rows[..i + 1], t) == CountTeam(rows[..i], t) + (if rows[i].rec.team == t then 1 else 0)
  {
    assert rows[..i + 1][..i] == rows[..i];
  }

  /** In a sorted frame a team's rows are numbered in match order. */
  lemma SortedNumbersFollowMatches(rows: seq<ScoredRecord>, i: nat, j: nat)
    requires SortedByTeamMatch(rows)
    requires i < |rows| && j < |rows| && rows[i].rec.team == rows[j].rec.team
    requires TeamMatchNumber(rows, i) < TeamMatchNumber(rows, j)
    ensures rows[i].rec.matchNumber <= rows[j].rec.matchNumber
  {
    if j < i {
      TeamMatchNumberIncreasing(rows, j, i);
    }
  }
}
