/** The calculation pipeline of `perform_calculations` (db_calc.py:51-126),
    from the worksheet rows to the three tables it writes: `Scouting_Data`
    (the scored, sorted and numbered rows), `Calcs` and `Normalized Data`. */
module Pipeline {
  import opened Scoring
  import opened Sequencing
  import opened Aggregation
  import opened Normalization

  /** Builds the three tables step by step, as the source does: score every
      row, sort by team and match, number each team's rows, aggregate per
      team, normalise. `sqrt` is the square root behind `std`. */
  method PerformCalculations(records: seq<Record>, sqrt: real -> real)
    returns (scouting: seq<SequencedRecord>, calcs: seq<TeamAggregate>, normalized: seq<NormalizedRow>)
    ensures multiset(Scored(scouting)) == multiset(ScoreAll(records))
    ensures |scouting| == |records|
    ensures SortedByTeamMatch(Scored(scouting))
    ensures forall i :: 0 <= i < |scouting| ==> IsScored(scouting[i].scored)
    ensures forall i :: 0 <= i < |scouting| ==>
      scouting[i].teamMatchNumber == TeamMatchNumber(Scored(scouting), i)
    ensures forall t :: TeamNumbers(scouting, t) == OneTo(CountTeam(Scored(scouting), t))
    ensures calcs == Aggregate(Scored(scouting), sqrt)
    ensures TableTeams(calcs) == RecordTeams(records)
    ensures forall i :: 0 <= i < |calcs| ==> RowWithinRubric(calcs[i])
    ensures normalized == Normalize(calcs)
    ensures forall i :: 0 <= i < |normalized| ==>
      CellInRange(normalized[i].auto) && CellInRange(normalized[i].teleop)
      && CellInRange(normalized[i].endgame) && CellInRange(normalized[i].total)
  {
    var scored := ScoreAll(records);
    var sorted := SortByTeamMatch(scored);
    scouting := NumberWithinTeams(sorted);
    calcs := Aggregate(sorted, sqrt);
    normalized := Normalize(calcs);

    SortedRowsScored(records, scored, sorted);
    AggregateTableProperties(sorted, sqrt);
    NormalizedTableInRange(calcs);
  }

  /** Reordering the scored rows keeps their number, their scores and the set
      of teams of the worksheet. */
  lemma SortedRowsScored(records: seq<Record>, scored: seq<ScoredRecord>, sorted: seq<ScoredRecord>)
    requires scored == ScoreAll(records)
    requires multiset(sorted) == multiset(scored)
    ensures |sorted| == |records|
    ensures forall i :: 0 <= i < |sorted| ==> IsScored(sorted[i])
    ensures TeamsOf(sorted) == RecordTeams(records)
  {
    assert |multiset(sorted)| == |multiset(scored)|;
    forall i | 0 <= i < |sorted| ensures IsScored(sorted[i]) {
      assert sorted[i] in multiset(scored);
    }
    SameTeams(records, scored, sorted);
  }

  lemma SameTeams(records: seq<Record>, scored: seq<ScoredRecord>, sorted: seq<ScoredRecord>)
    requires scored == ScoreAll(records)
    requires multiset(sorted) == multiset(scored)
    ensures TeamsOf(sorted) == RecordTeams(records)
  {
    forall t | t in TeamsOf(sorted) ensures t in RecordTeams(records) {
      var i :| 0 <= i < |sorted| && sorted[i].rec.team == t;
      assert sorted[i] in multiset(scored);
      var j :| 0 <= j < |scored| && scored[j] == sorted[i];
      assert records[j].team == t;
    }
    forall t | t in RecordTeams(records) ensures t in TeamsOf(sorted) {
      var j :| 0 <= j < |records| && records[j].team == t;
      assert scored[j] in multiset(sorted);
      var i :| 0 <= i < |sorted| && sorted[i] == scored[j];
    }
  }
}
