/** app/services/result_service.py as an object whose methods rewrite the result tables. */
module ResultService {
  import opened Types
  import Sequences
  import opened Counting
  import opened Rounding
  import opened Sorting
  import opened Tally
  import opened TallyFacts

  /** `turnout` is in hundredths of a per cent. */
  datatype Summary = Summary(eligible: nat, checkedIn: nat, cast: nat, turnout: nat, status: ResultStatus, publishedAt: Option<nat>)

  datatype ElectionResult = ElectionResult(
    election: Id, status: ResultStatus, eligible: nat, checkedIn: nat, cast: nat, turnout: nat, positions: seq<PositionResult>)

  function EligibleVoters(voters: map<Id, Voter>, e: Id): set<Id> {
    set v | v in voters && voters[v].election == Some(e)
  }

  function CheckedInVoters(checkins: set<(Id, Id)>, e: Id): set<(Id, Id)> {
    set c | c in checkins && c.0 == e
  }

  /** A voter is checked in once, so the rows of the election are as many as its voters who are checked in. */
  lemma {:induction false} VotersCheckedIn(checkins: set<(Id, Id)>, e: Id)
    ensures |CheckedInVoters(checkins, e)| == |VoterColumn(checkins, e)|
    decreases |checkins|
  {
    if c :| c in checkins {
      VotersCheckedIn(checkins - {c}, e);
      OneCheckinMore(checkins - {c}, c, e);
      assert checkins == checkins - {c} + {c};
    } else {
      assert CheckedInVoters(checkins, e) == {} && VoterColumn(checkins, e) == {};
    }
  }

  function VoterColumn(checkins: set<(Id, Id)>, e: Id): set<Id> {
    set c | c in checkins && c.0 == e :: c.1
  }

  lemma OneCheckinMore(checkins: set<(Id, Id)>, c: (Id, Id), e: Id)
    requires c !in checkins
    ensures CheckedInVoters(checkins + {c}, e) == CheckedInVoters(checkins, e) + if c.0 == e then {c} else {}
    ensures VoterColumn(checkins + {c}, e) == VoterColumn(checkins, e) + if c.0 == e then {c.1} else {}
    ensures c.0 == e ==> c !in CheckedInVoters(checkins, e) && c.1 !in VoterColumn(checkins, e)
  {
    var more := checkins + {c};
    forall v | v in VoterColumn(checkins, e) ensures v in VoterColumn(more, e) {
      assert (e, v) in more;
    }
    assert c.0 == e ==> c in more;
  }

  /** The four figures of a tally, on the rows of the tables. */
  lemma FiguresOnTheTables(voters: map<Id, Voter>, checkins: set<(Id, Id)>, ballots: map<Id, Ballot>, e: Id)
    ensures |EligibleVoters(voters, e)| == |set v | v in voters && voters[v].election == Some(e)|
    ensures |CheckedInVoters(checkins, e)| == |set c | c in checkins && c.0 == e :: c.1|
    ensures |BallotsOf(ballots, e)| == |set b | b in ballots && ballots[b].election == e && ballots[b].isValid|
    ensures var cast, eligible := |BallotsOf(ballots, e)|, |EligibleVoters(voters, e)|; var turnout := Percent(cast, eligible);
      if eligible == 0 then turnout == 0 else -(eligible as int) <= 2 * (turnout * eligible - 10000 * cast) <= eligible
  {
    assert EligibleVoters(voters, e) == set v | v in voters && voters[v].election == Some(e);
    assert BallotsOf(ballots, e) == set b | b in ballots && ballots[b].election == e && ballots[b].isValid;
    VotersCheckedIn(checkins, e);
    assert VoterColumn(checkins, e) == set c | c in checkins && c.0 == e :: c.1;
    PercentIsShare(|BallotsOf(ballots, e)|, |EligibleVoters(voters, e)|);
  }

  lemma TalliedRowsSaySo(results: seq<Row>, e: Id, rs: seq<PositionResult>, now: nat)
    ensures forall row :: row in Retallied(results, e, rs, now) && row.election == e ==> row.status == InCount && row.countedAt == now
  {
    forall row | row in Retallied(results, e, rs, now) && row.election == e ensures row.status == InCount && row.countedAt == now {
      TalliedRowsAreNew(results, e, rs, now, row);
    }
  }

  function ReadAll(results: seq<Row>, candidates: seq<Candidate>, ps: seq<Position>): seq<PositionResult> {
    if ps == [] then [] else [ReadPosition(results, candidates, ps[0])] + ReadAll(results, candidates, ps[1..])
  }

  /** UPDATE results SET status = PUBLISHED WHERE election_id = e. */
  function PublishRows(results: seq<Row>, e: Id): seq<Row> {
    if results == [] then []
    else [PublishRow(results[0], e)] + PublishRows(results[1..], e)
  }

  function PublishRow(r: Row, e: Id): Row {
    if r.election == e then r.(status := Published) else r
  }

  class Service {
    var elections: map<Id, ElectionStatus>
    var voters: map<Id, Voter>
    var checkins: set<(Id, Id)>
    var ballots: map<Id, Ballot>
    var votes: seq<Vote>
    var positions: seq<Position>      // in display order
    var candidates: seq<Candidate>
    var results: seq<Row>
    var summaries: map<Id, Summary>

    /** sum(count_map.values()), in whatever order the dictionary yields them. */
    static method SumValues(counts: map<Id, nat>) returns (total: nat)
      ensures total == SumOver(counts, counts.Keys)
    {
      total := 0;
      var rest := counts.Keys;
      while rest != {}
        invariant rest <= counts.Keys
        invariant total + SumOver(counts, rest) == SumOver(counts, counts.Keys)
        decreases |rest|
      {
        var k :| k in rest;
        SumOverAny(counts, rest, k);
        total := total + counts[k];
        rest := rest - {k};
      }
    }

    /** The loop that looks up and rounds each listed candidate's count. */
    static method CountCandidates(listed: seq<Candidate>, counts: map<Id, nat>, total: nat) returns (items: seq<Item>)
      ensures items == MakeItems(listed, counts, total)
    {
      items := [];
      for i := 0 to |listed|
        invariant |items| == i && forall k :: 0 <= k < i ==> items[k] == MakeItem(listed[k], counts, total)
      {
        var c := listed[i];
        var n := if c.id in counts then counts[c.id] else 0;
        items := items + [Item(c.id, c.name, c.party, n, Percent(n, total), 0)];
      }
    }

    /** The loop that numbers the sorted candidates and stores a row for each. */
    method StoreRanked(e: Id, pos: Id, items: seq<Item>, now: nat) returns (ranked: seq<Item>)
      modifies this`results
      ensures ranked == Ranked(items, 1)
      ensures results == old(results) + ItemRows(e, pos, ranked, now)
    {
      ranked := [];
      for i := 0 to |items|
        invariant |ranked| == i && forall k :: 0 <= k < i ==> ranked[k] == items[k].(rank := 1 + k)
        invariant results == old(results) + ItemRows(e, pos, ranked, now)
      {
        var item := items[i].(rank := i + 1);
        ItemRowsAppend(e, pos, ranked, item, now);
        ranked := ranked + [item];
        results := results + [Row(e, pos, item.candidate, item.votes, item.percent, item.rank, InCount, now)];
      }
    }

    /** The body of the loop over positions: count, sort, rank, store. */
    method TallyOne(e: Id, pos: Position, now: nat) returns (r: PositionResult)
      modifies this`results
      ensures r == TallyPosition(votes, ballots, candidates, e, pos)
      ensures results == old(results) + ItemRows(e, r.position, r.candidates, now)
    {
      var choices := Choices(votes, ballots, e, pos.id);
      var counts := GroupCounts(choices);
      var total := SumValues(counts);
      GroupsSumToAll(choices);
      var items := CountCandidates(Listed(candidates, pos.id), counts, total);
      items := SortBy(items, ByVotes);
      var ranked := StoreRanked(e, pos.id, items, now);
      r := PositionResult(pos.id, pos.title, total, ranked);
    }

    /** Delete the old rows, then the loop over positions. */
    method TallyPositions(e: Id, now: nat) returns (rs: seq<PositionResult>)
      modifies this`results
      ensures rs == TallyAll(votes, ballots, candidates, e, PositionsOf(positions, e))
      ensures results == Retallied(old(results), e, rs, now)
    {
      results := Without(results, e);
      var ps := PositionsOf(positions, e);
      rs := [];
      for i := 0 to |ps|
        invariant |rs| == i && forall k :: 0 <= k < i ==> rs[k] == TallyPosition(votes, ballots, candidates, e, ps[k])
        invariant results == Retallied(old(results), e, rs, now)
      {
        var one := TallyOne(e, ps[i], now);
        RetalliedAppend(old(results), e, rs, one, now);
        rs := rs + [one];
      }
      TallyAllPointwise(votes, ballots, candidates, e, ps, rs);
    }

    /** Update the election's summary, or create it. */
    method StoreSummary(e: Id, eligible: nat, checkedIn: nat, cast: nat, turnout: nat)
      modifies this`summaries
      ensures summaries == old(summaries)[e := Summary(eligible, checkedIn, cast, turnout, UnderReview,
        if e in old(summaries) then old(summaries)[e].publishedAt else None)]
    {
      if e !in summaries {
        summaries := summaries[e := Summary(eligible, checkedIn, cast, turnout, UnderReview, None)];
      } else {
        var s := summaries[e];
        s := s.(eligible := eligible, checkedIn := checkedIn, cast := cast, turnout := turnout, status := UnderReview);
        summaries := summaries[e := s];
      }
    }

    /** tally_results. */
    method TallyResults(e: Id, now: nat) returns (r: Result<ElectionResult>)
      modifies this`results, this`summaries
      ensures r.Ok? <==> e in elections
      ensures r.Ok? ==> r.value.eligible == |set v | v in voters && voters[v].election == Some(e)|
      ensures r.Ok? ==> r.value.checkedIn == |set c | c in checkins && c.0 == e :: c.1|
      ensures r.Ok? ==> r.value.cast == |set b | b in ballots && ballots[b].election == e && ballots[b].isValid|
      ensures r.Ok? && r.value.eligible == 0 ==> r.value.turnout == 0
      ensures r.Ok? && r.value.eligible > 0 ==>
        -(r.value.eligible as int) <= 2 * (r.value.turnout * r.value.eligible - 10000 * r.value.cast) <= r.value.eligible
      ensures r.Ok? ==> forall row :: row in results && row.election == e ==> row.status == InCount && row.countedAt == now
      ensures r.Err? ==> results == old(results) && summaries == old(summaries)
      ensures r.Ok? ==> r.value == ElectionResult(e, UnderReview, |EligibleVoters(voters, e)|, |CheckedInVoters(checkins, e)|,
        |BallotsOf(ballots, e)|, Percent(|BallotsOf(ballots, e)|, |EligibleVoters(voters, e)|),
        TallyAll(votes, ballots, candidates, e, PositionsOf(positions, e)))
      ensures r.Ok? ==> results == Retallied(old(results), e, r.value.positions, now)
      ensures r.Ok? ==> summaries == old(summaries)[e :=
        Summary(r.value.eligible, r.value.checkedIn, r.value.cast, r.value.turnout, UnderReview,
          if e in old(summaries) then old(summaries)[e].publishedAt else None)]
    {
      if e !in elections {
        return Err(ElectionNotFound);
      }
      var eligible := |EligibleVoters(voters, e)|;
      var checkedIn := |CheckedInVoters(checkins, e)|;
      var cast := |BallotsOf(ballots, e)|;
      var turnout := Percent(cast, eligible);
      FiguresOnTheTables(voters, checkins, ballots, e);
      var rs := TallyPositions(e, now);
      TalliedRowsSaySo(old(results), e, rs, now);
      StoreSummary(e, eligible, checkedIn, cast, turnout);
      r := Ok(ElectionResult(e, UnderReview, eligible, checkedIn, cast, turnout, rs));
    }

    /** get_results. */
    method GetResults(e: Id) returns (r: Result<ElectionResult>)
      ensures r.Ok? <==> e in elections
      ensures r.Ok? ==> r.value.positions == ReadAll(results, candidates, PositionsOf(positions, e))
      ensures r.Ok? ==> |r.value.positions| == |PositionsOf(positions, e)|
      ensures r.Ok? ==> forall k :: 0 <= k < |PositionsOf(positions, e)| ==>
        r.value.positions[k] == ReadPosition(results, candidates, PositionsOf(positions, e)[k])
      ensures r.Ok? && e in summaries ==> var s := summaries[e];
        r.value.(positions := []) == ElectionResult(e, s.status, s.eligible, s.checkedIn, s.cast, s.turnout, [])
      ensures r.Ok? && e !in summaries ==> r.value.(positions := []) == ElectionResult(e, NotStarted, 0, 0, 0, 0, [])
    {
      if e !in elections {
        return Err(ElectionNotFound);
      }
      var ps := PositionsOf(positions, e);
      var rs: seq<PositionResult> := [];
      for i := 0 to |ps|
        invariant |rs| == i && forall k :: 0 <= k < i ==> rs[k] == ReadPosition(results, candidates, ps[k])
      {
        var rows := SortBy(RowsAt(results, ps[i].id), ByRank);
        var items := JoinRows(rows, candidates);
        rs := rs + [PositionResult(ps[i].id, ps[i].title, SumVotes(items), items)];
      }
      ReadAllAt(results, candidates, ps);
      assert rs == ReadAll(results, candidates, ps);
      if e in summaries {
        var s := summaries[e];
        r := Ok(ElectionResult(e, s.status, s.eligible, s.checkedIn, s.cast, s.turnout, rs));
      } else {
        r := Ok(ElectionResult(e, NotStarted, 0, 0, 0, 0, rs));
      }
    }

    /** publish_results: from any election status; a failure of the final read rolls everything back. */
    method PublishResults(e: Id, now: nat) returns (r: Result<ElectionResult>)
      modifies this`results, this`summaries, this`elections
      ensures r.Ok? <==> e in old(summaries) && e in old(elections)
      ensures r.Err? ==> results == old(results) && summaries == old(summaries) && elections == old(elections)
      ensures r.Ok? ==>
        && elections == old(elections)[e := ResultPublished]
        && summaries == old(summaries)[e := old(summaries)[e].(status := Published, publishedAt := Some(now))]
        && results == PublishRows(old(results), e)
        && |results| == |old(results)|
        && (forall i :: 0 <= i < |results| ==>
              results[i] == if old(results)[i].election == e then old(results)[i].(status := Published) else old(results)[i])
        && r.value.status == Published
        && r.value.positions == ReadAll(old(results), candidates, PositionsOf(positions, e))
        && |r.value.positions| == |PositionsOf(positions, e)|
        && (forall k :: 0 <= k < |PositionsOf(positions, e)| ==>
              r.value.positions[k] == ReadPosition(old(results), candidates, PositionsOf(positions, e)[k]))
    {
      if e !in summaries {
        return Err(ResultsNotCounted);
      }
      if e !in elections {
        return Err(ElectionNotFound);
      }
      summaries := summaries[e := summaries[e].(status := Published, publishedAt := Some(now))];
      elections := elections[e := ResultPublished];
      results := PublishRows(results, e);
      PublishedAt(old(results), e);
      ReadAllAt(old(results), candidates, PositionsOf(positions, e));
      PublishingKeepsReading(old(results), candidates, PositionsOf(positions, e), e);
      r := GetResults(e);
    }
  }

  lemma {:induction false} ItemRowsAppend(e: Id, pos: Id, items: seq<Item>, x: Item, now: nat)
    ensures ItemRows(e, pos, items + [x], now) == ItemRows(e, pos, items, now) + [ItemRow(e, pos, x, now)]
  {}

  lemma {:induction false} AllRowsAppend(e: Id, rs: seq<PositionResult>, x: PositionResult, now: nat)
    ensures AllRows(e, rs + [x], now) == AllRows(e, rs, now) + ItemRows(e, x.position, x.candidates, now)
  {
    if rs == [] {
      OneResult(e, x, now);
      assert [] + [x] == [x];
    } else {
      AllRowsAppend(e, rs[1..], x, now);
      assert (rs + [x])[1..] == rs[1..] + [x] && (rs + [x])[0] == rs[0];
      Sequences.Regroup(ItemRows(e, rs[0].position, rs[0].candidates, now), AllRows(e, rs[1..], now),
        ItemRows(e, x.position, x.candidates, now));
    }
  }

  lemma RetalliedAppend(results: seq<Row>, e: Id, rs: seq<PositionResult>, x: PositionResult, now: nat)
    ensures Retallied(results, e, rs + [x], now) == Retallied(results, e, rs, now) + ItemRows(e, x.position, x.candidates, now)
  {
    AllRowsAppend(e, rs, x, now);
  }

  lemma OneResult(e: Id, x: PositionResult, now: nat)
    ensures AllRows(e, [x], now) == ItemRows(e, x.position, x.candidates, now)
  {
    assert AllRows(e, [x][1..], now) == [];
  }

  // ---------- tallying and reading ----------

  lemma {:induction false} ReadAllAt(results: seq<Row>, candidates: seq<Candidate>, ps: seq<Position>)
    ensures |ReadAll(results, candidates, ps)| == |ps|
    ensures forall k :: 0 <= k < |ps| ==> ReadAll(results, candidates, ps)[k] == ReadPosition(results, candidates, ps[k])
  {
    if ps != [] {
      ReadAllAt(results, candidates, ps[1..]);
    }
  }

  /** Every vote for the position names one of its candidates. */
  predicate AllVotesListed(votes: seq<Vote>, ballots: map<Id, Ballot>, candidates: seq<Candidate>, e: Id, pos: Id) {
    forall i :: 0 <= i < |votes| && Qualifies(votes[i], ballots, e, pos) ==> Stands(candidates, pos, votes[i].candidate)
  }

  predicate Stands(candidates: seq<Candidate>, pos: Id, x: Id) {
    exists c :: c in candidates && c.position == pos && c.id == x
  }

  lemma {:induction false} ChoiceComesFrom(votes: seq<Vote>, ballots: map<Id, Ballot>, e: Id, pos: Id, x: Id)
    ensures x in Choices(votes, ballots, e, pos) <==> exists i :: 0 <= i < |votes| && Qualifies(votes[i], ballots, e, pos) && votes[i].candidate == x
  {
    if votes != [] {
      ChoiceComesFrom(votes[1..], ballots, e, pos, x);
      if i :| 0 <= i < |votes[1..]| && Qualifies(votes[1..][i], ballots, e, pos) && votes[1..][i].candidate == x {
        assert Qualifies(votes[i + 1], ballots, e, pos);
      }
      if i :| 0 <= i < |votes| && Qualifies(votes[i], ballots, e, pos) && votes[i].candidate == x {
        assert i > 0 ==> Qualifies(votes[1..][i - 1], ballots, e, pos);
      }
    }
  }

  lemma ListedIds(candidates: seq<Candidate>, pos: Id, x: Id)
    ensures x in CandidateIds(Listed(candidates, pos)) <==> Stands(candidates, pos, x)
  {
    var listed := Listed(candidates, pos);
    if x in CandidateIds(listed) {
      var i :| 0 <= i < |listed| && listed[i].id == x;
      ListedBelong(candidates, pos, listed[i]);
    }
    if c :| c in candidates && c.position == pos && c.id == x {
      ListedBelong(candidates, pos, c);
      var i :| 0 <= i < |listed| && listed[i] == c;
      assert CandidateIds(listed)[i] == x;
    }
  }

  /** Every choice made is one of the ids. */
  predicate AllAmong(choices: seq<Id>, ids: seq<Id>) {
    forall i :: 0 <= i < |choices| ==> choices[i] in ids
  }

  lemma ListedIff(votes: seq<Vote>, ballots: map<Id, Ballot>, candidates: seq<Candidate>, e: Id, pos: Id)
    ensures AllVotesListed(votes, ballots, candidates, e, pos)
      <==> AllAmong(Choices(votes, ballots, e, pos), CandidateIds(Listed(candidates, pos)))
  {
    var choices, ids := Choices(votes, ballots, e, pos), CandidateIds(Listed(candidates, pos));
    if AllVotesListed(votes, ballots, candidates, e, pos) {
      forall k | 0 <= k < |choices| ensures choices[k] in ids {
        ChoiceComesFrom(votes, ballots, e, pos, choices[k]);
        ListedIds(candidates, pos, choices[k]);
      }
    }
    if AllAmong(choices, ids) {
      forall i | 0 <= i < |votes| && Qualifies(votes[i], ballots, e, pos) ensures Stands(candidates, pos, votes[i].candidate) {
        var x := votes[i].candidate;
        ChoiceComesFrom(votes, ballots, e, pos, x);
        assert x in choices;
        ListedIds(candidates, pos, x);
      }
    }
  }

  /** What reading position p shows of what a tally wrote about it. */
  predicate ReadsBack(read: PositionResult, tallied: PositionResult, listed: bool) {
    && read.position == tallied.position && read.title == tallied.title && read.candidates == tallied.candidates
    && (read.totalVotes == tallied.totalVotes <==> listed)
  }

  lemma RoundTripAt(votes: seq<Vote>, ballots: map<Id, Ballot>, candidates: seq<Candidate>, positions: seq<Position>,
      results: seq<Row>, e: Id, now: nat, k: nat)
    requires DistinctPositions(positions) && Distinct(CandidateIds(candidates)) && ResultsSound(results, positions)
    requires k < |PositionsOf(positions, e)|
    ensures var ps := PositionsOf(positions, e); var rs := TallyAll(votes, ballots, candidates, e, ps);
      && ReadsBack(ReadPosition(Retallied(results, e, rs, now), candidates, ps[k]), rs[k],
           AllVotesListed(votes, ballots, candidates, e, ps[k].id))
  {
    var ps := PositionsOf(positions, e);
    TallyAllAt(votes, ballots, candidates, e, ps, k);
    ReadBackIsTally(votes, ballots, candidates, positions, results, e, now,
      Retallied(results, e, TallyAll(votes, ballots, candidates, e, ps), now), k);
    ListedIff(votes, ballots, candidates, e, ps[k].id);
  }

  /**
   The round trip of the operations: reading after a tally shows all its positions with the same titles and the same
   lines, the same figures, and the same total for a position if and only if every vote for it names one of its candidates.
   */
  method TallyThenRead(d: Service, e: Id, now: nat) returns (tallied: Result<ElectionResult>, read: Result<ElectionResult>)
    requires e in d.elections
    requires DistinctPositions(d.positions) && Distinct(CandidateIds(d.candidates)) && ResultsSound(d.results, d.positions)
    modifies d`results, d`summaries
    ensures tallied.Ok? && read.Ok? && read.value.(positions := []) == tallied.value.(positions := [])
    ensures |read.value.positions| == |tallied.value.positions| == |PositionsOf(d.positions, e)|
    ensures forall k :: 0 <= k < |read.value.positions| ==>
      && read.value.positions[k].position == tallied.value.positions[k].position
      && read.value.positions[k].title == tallied.value.positions[k].title
      && read.value.positions[k].candidates == tallied.value.positions[k].candidates
    ensures forall k :: 0 <= k < |read.value.positions| ==>
      (read.value.positions[k].totalVotes == tallied.value.positions[k].totalVotes
       <==> AllVotesListed(d.votes, d.ballots, d.candidates, e, PositionsOf(d.positions, e)[k].id))
  {
    ghost var before := d.results;
    tallied := d.TallyResults(e, now);
    read := d.GetResults(e);
    ghost var ps := PositionsOf(d.positions, e);
    forall k | 0 <= k < |ps| ensures ReadsBack(read.value.positions[k], tallied.value.positions[k],
      AllVotesListed(d.votes, d.ballots, d.candidates, e, ps[k].id))
    {
      RoundTripAt(d.votes, d.ballots, d.candidates, d.positions, before, e, now, k);
    }
  }

  // ---------- publishing shows what was read before ----------

  lemma {:induction false} PublishedAt(results: seq<Row>, e: Id)
    ensures |PublishRows(results, e)| == |results|
    ensures forall i :: 0 <= i < |results| ==>
      PublishRows(results, e)[i] == if results[i].election == e then results[i].(status := Published) else results[i]
  {
    if results != [] {
      PublishedAt(results[1..], e);
    }
  }

  lemma {:induction false} PublishedRowsAt(rows: seq<Row>, e: Id, pos: Id)
    ensures RowsAt(PublishRows(rows, e), pos) == PublishRows(RowsAt(rows, pos), e)
  {
    if rows != [] {
      PublishedRowsAt(rows[1..], e, pos);
      if rows[0].position == pos {
        assert RowsAt(rows, pos)[1..] == RowsAt(rows[1..], pos);
      } else {
        assert RowsAt(rows, pos) == RowsAt(rows[1..], pos);
      }
      assert PublishRows(rows, e)[1..] == PublishRows(rows[1..], e);
    }
  }

  lemma {:induction false} PublishedInsert(r: Row, rows: seq<Row>, e: Id)
    ensures Insert(PublishRow(r, e), PublishRows(rows, e), ByRank) == PublishRows(Insert(r, rows, ByRank), e)
  {
    if rows != [] && ByRank(r) > ByRank(rows[0]) {
      PublishedInsert(r, rows[1..], e);
      assert PublishRows(rows, e)[1..] == PublishRows(rows[1..], e);
      assert Insert(r, rows, ByRank)[1..] == Insert(r, rows[1..], ByRank);
    } else {
      assert Insert(r, rows, ByRank)[1..] == rows;
    }
  }

  lemma {:induction false} PublishedSort(rows: seq<Row>, e: Id)
    ensures SortBy(PublishRows(rows, e), ByRank) == PublishRows(SortBy(rows, ByRank), e)
  {
    if rows != [] {
      PublishedSort(rows[1..], e);
      PublishedInsert(rows[0], SortBy(rows[1..], ByRank), e);
      assert PublishRows(rows, e)[1..] == PublishRows(rows[1..], e);
    }
  }

  lemma {:induction false} PublishedJoin(rows: seq<Row>, candidates: seq<Candidate>, e: Id)
    ensures JoinRows(PublishRows(rows, e), candidates) == JoinRows(rows, candidates)
  {
    if rows != [] {
      PublishedJoin(rows[1..], candidates, e);
      assert PublishRows(rows, e)[1..] == PublishRows(rows[1..], e);
    }
  }

  /** Publication changes statuses only: every position reads as it did. */
  lemma {:induction false} PublishingKeepsReading(results: seq<Row>, candidates: seq<Candidate>, ps: seq<Position>, e: Id)
    ensures ReadAll(PublishRows(results, e), candidates, ps) == ReadAll(results, candidates, ps)
  {
    if ps != [] {
      PublishedRowsAt(results, e, ps[0].id);
      PublishedSort(RowsAt(results, ps[0].id), e);
      PublishedJoin(SortBy(RowsAt(results, ps[0].id), ByRank), candidates, e);
      PublishingKeepsReading(results, candidates, ps[1..], e);
    }
  }
}
