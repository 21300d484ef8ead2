/** What holds of every tally, and of a tally followed by reading it back. */
module TallyFacts {
  import opened Types
  import opened Counting
  import opened Rounding
  import opened Sorting
  import opened Tally
  import Sequences

  // ---------- counts ----------

  lemma {:induction false} TallyAllAt(votes: seq<Vote>, ballots: map<Id, Ballot>, candidates: seq<Candidate>, e: Id, ps: seq<Position>, k: nat)
    requires k < |ps|
    ensures TallyAll(votes, ballots, candidates, e, ps)[k] == TallyPosition(votes, ballots, candidates, e, ps[k])
    decreases k
  {
    if k > 0 {
      TallyAllAt(votes, ballots, candidates, e, ps[1..], k - 1);
    }
  }

  lemma TallyAllPointwise(votes: seq<Vote>, ballots: map<Id, Ballot>, candidates: seq<Candidate>, e: Id,
      ps: seq<Position>, rs: seq<PositionResult>)
    requires |rs| == |ps| && forall k :: 0 <= k < |ps| ==> rs[k] == TallyPosition(votes, ballots, candidates, e, ps[k])
    ensures rs == TallyAll(votes, ballots, candidates, e, ps)
  {
    var all := TallyAll(votes, ballots, candidates, e, ps);
    forall k | 0 <= k < |ps| ensures rs[k] == all[k] {
      TallyAllAt(votes, ballots, candidates, e, ps, k);
    }
  }

  lemma ListedBelong(candidates: seq<Candidate>, pos: Id, c: Candidate)
    ensures c in Listed(candidates, pos) <==> c in candidates && c.position == pos
  {
    if candidates != [] {
      ListedBelong(candidates[1..], pos, c);
      assert c in candidates <==> c == candidates[0] || c in candidates[1..];
    }
  }

  /** Every line of a position's result is a listed candidate with the number of votes cast for it. */
  lemma StoredCountsAreVotes(votes: seq<Vote>, ballots: map<Id, Ballot>, candidates: seq<Candidate>, e: Id, pos: Position, i: nat)
    requires i < |TallyPosition(votes, ballots, candidates, e, pos).candidates|
    ensures var r := TallyPosition(votes, ballots, candidates, e, pos); var x := r.candidates[i];
      && x.votes == CountVotes(votes, ballots, e, pos.id, x.candidate)
      && x.percent == Percent(x.votes, r.totalVotes)
      && x.rank == i + 1
      && exists c :: c in candidates && c.position == pos.id && c.id == x.candidate && c.name == x.name && c.party == x.party
  {
    var choices := Choices(votes, ballots, e, pos.id);
    var cs := Listed(candidates, pos.id);
    var items := MakeItems(cs, GroupCounts(choices), |choices|);
    var sorted := SortBy(items, ByVotes);
    SortKeepsItems(items, ByVotes);
    assert sorted[i] in multiset(items);
    var k :| 0 <= k < |items| && items[k] == sorted[i];
    ListedBelong(candidates, pos.id, cs[k]);
    GroupsAreCounts(votes, ballots, e, pos.id, cs[k].id);
  }

  // ---------- the queries, on the rows of the tables ----------

  lemma {:induction false} ChoicesOnTheTable(votes: seq<Vote>, ballots: map<Id, Ballot>, e: Id, pos: Id)
    ensures |Choices(votes, ballots, e, pos)| == |set i | 0 <= i < |votes| && votes[i].position == pos
      && votes[i].ballot in ballots && ballots[votes[i].ballot].election == e && ballots[votes[i].ballot].isValid|
  {
    var rows: set<nat> := set i | 0 <= i < |votes| && votes[i].position == pos
      && votes[i].ballot in ballots && ballots[votes[i].ballot].election == e && ballots[votes[i].ballot].isValid;
    if votes != [] {
      ChoicesOnTheTable(votes[1..], ballots, e, pos);
      Sequences.SizeOfLater(rows);
      assert Sequences.Later(rows) == set i | 0 <= i < |votes[1..]| && votes[1..][i].position == pos
        && votes[1..][i].ballot in ballots && ballots[votes[1..][i].ballot].election == e && ballots[votes[1..][i].ballot].isValid;
    }
  }

  lemma {:induction false} VotesOnTheTable(votes: seq<Vote>, ballots: map<Id, Ballot>, e: Id, pos: Id, cand: Id)
    ensures CountVotes(votes, ballots, e, pos, cand) == |set i | 0 <= i < |votes| && votes[i].position == pos && votes[i].candidate == cand
      && votes[i].ballot in ballots && ballots[votes[i].ballot].election == e && ballots[votes[i].ballot].isValid|
  {
    var rows: set<nat> := set i | 0 <= i < |votes| && votes[i].position == pos && votes[i].candidate == cand
      && votes[i].ballot in ballots && ballots[votes[i].ballot].election == e && ballots[votes[i].ballot].isValid;
    if votes != [] {
      VotesOnTheTable(votes[1..], ballots, e, pos, cand);
      Sequences.SizeOfLater(rows);
      assert Sequences.Later(rows) == set i | 0 <= i < |votes[1..]| && votes[1..][i].position == pos && votes[1..][i].candidate == cand
        && votes[1..][i].ballot in ballots && ballots[votes[1..][i].ballot].election == e && ballots[votes[1..][i].ballot].isValid;
    }
  }

  /** Total and counts are numbers of rows of the vote table, and percentages their share to the nearest hundredth. */
  lemma CountsOnTheTable(votes: seq<Vote>, ballots: map<Id, Ballot>, candidates: seq<Candidate>, e: Id, pos: Position, k: nat)
    requires k < |TallyPosition(votes, ballots, candidates, e, pos).candidates|
    ensures var r := TallyPosition(votes, ballots, candidates, e, pos); var x := r.candidates[k];
      && r.position == pos.id && r.title == pos.title
      && r.totalVotes == |set i | 0 <= i < |votes| && votes[i].position == pos.id
           && votes[i].ballot in ballots && ballots[votes[i].ballot].election == e && ballots[votes[i].ballot].isValid|
      && x.votes == |set i | 0 <= i < |votes| && votes[i].position == pos.id && votes[i].candidate == x.candidate
           && votes[i].ballot in ballots && ballots[votes[i].ballot].election == e && ballots[votes[i].ballot].isValid|
      && (if r.totalVotes == 0 then x.percent == 0
          else -(r.totalVotes as int) <= 2 * (x.percent * r.totalVotes - 10000 * x.votes) <= r.totalVotes)
  {
    var r := TallyPosition(votes, ballots, candidates, e, pos);
    StoredCountsAreVotes(votes, ballots, candidates, e, pos, k);
    ChoicesOnTheTable(votes, ballots, e, pos.id);
    VotesOnTheTable(votes, ballots, e, pos.id, r.candidates[k].candidate);
    PercentIsShare(r.candidates[k].votes, r.totalVotes);
  }

  lemma PercentIsShare(part: nat, total: nat)
    ensures if total == 0 then Percent(part, total) == 0
      else -(total as int) <= 2 * (Percent(part, total) * total - 10000 * part) <= total
  {
    if total > 0 {
      RoundIsNearest(part * 10000, total);
    }
  }

  /** The positions of the election, all of them, in table order. */
  lemma {:induction false} PositionsPicked(positions: seq<Position>, e: Id)
    ensures Sequences.Picks(positions, (set i | 0 <= i < |positions| && positions[i].election == e), PositionsOf(positions, e))
  {
    if positions != [] {
      var keep: set<nat> := set i | 0 <= i < |positions| && positions[i].election == e;
      PositionsPicked(positions[1..], e);
      assert Sequences.Later(keep) == set i | 0 <= i < |positions[1..]| && positions[1..][i].election == e;
      Sequences.PicksFront(positions, keep, PositionsOf(positions[1..], e));
    }
  }

  /** The candidates for the position. */
  lemma {:induction false} ListedPicked(candidates: seq<Candidate>, pos: Id)
    ensures Sequences.Picks(candidates, (set i | 0 <= i < |candidates| && candidates[i].position == pos), Listed(candidates, pos))
  {
    if candidates != [] {
      var keep: set<nat> := set i | 0 <= i < |candidates| && candidates[i].position == pos;
      ListedPicked(candidates[1..], pos);
      assert Sequences.Later(keep) == set i | 0 <= i < |candidates[1..]| && candidates[1..][i].position == pos;
      Sequences.PicksFront(candidates, keep, Listed(candidates[1..], pos));
    }
  }

  /** The result rows of the position. */
  lemma {:induction false} RowsPicked(results: seq<Row>, pos: Id)
    ensures Sequences.Picks(results, (set i | 0 <= i < |results| && results[i].position == pos), RowsAt(results, pos))
  {
    if results != [] {
      var keep: set<nat> := set i | 0 <= i < |results| && results[i].position == pos;
      RowsPicked(results[1..], pos);
      assert Sequences.Later(keep) == set i | 0 <= i < |results[1..]| && results[1..][i].position == pos;
      Sequences.PicksFront(results, keep, RowsAt(results[1..], pos));
    }
  }

  /** The DELETE of a tally spares the rows of every other election, all of them. */
  lemma {:induction false} OthersKept(results: seq<Row>, e: Id)
    ensures Sequences.Picks(results, (set i | 0 <= i < |results| && results[i].election != e), Without(results, e))
  {
    if results != [] {
      var keep: set<nat> := set i | 0 <= i < |results| && results[i].election != e;
      OthersKept(results[1..], e);
      assert Sequences.Later(keep) == set i | 0 <= i < |results[1..]| && results[1..][i].election != e;
      Sequences.PicksFront(results, keep, Without(results[1..], e));
    }
  }

  // ---------- ranks ----------

  lemma SortedCounts(cs: seq<Candidate>, counts: map<Id, nat>, total: nat, i: nat, j: nat)
    requires i < j < |cs|
    ensures var sorted := SortBy(MakeItems(cs, counts, total), ByVotes);
      |sorted| == |cs| && sorted[i].votes >= sorted[j].votes && sorted[i].percent >= sorted[j].percent
  {
    var items := MakeItems(cs, counts, total);
    var sorted := SortBy(items, ByVotes);
    SortKeepsItems(items, ByVotes);
    SortOrders(items, ByVotes);
    assert ByVotes(sorted[i]) <= ByVotes(sorted[j]);
    assert sorted[i] in multiset(items) && sorted[j] in multiset(items);
    PercentIsMonotone(sorted[j].votes, sorted[i].votes, total);
  }

  /** The ranks 1..n run through the listed candidates once each, by falling count. */
  lemma RanksOrderCounts(votes: seq<Vote>, ballots: map<Id, Ballot>, candidates: seq<Candidate>, e: Id, pos: Position)
    ensures var r := TallyPosition(votes, ballots, candidates, e, pos).candidates;
      && |r| == |Listed(candidates, pos.id)|
      && (forall i :: 0 <= i < |r| ==> r[i].rank == i + 1)
      && (forall i, j :: 0 <= i < j < |r| ==> r[i].votes >= r[j].votes && r[i].percent >= r[j].percent)
      && Ids(r) == multiset(CandidateIds(Listed(candidates, pos.id)))
  {
    var choices := Choices(votes, ballots, e, pos.id);
    var cs := Listed(candidates, pos.id);
    var items := MakeItems(cs, GroupCounts(choices), |choices|);
    SortKeepsItems(items, ByVotes);
    var r := Ranked(SortBy(items, ByVotes), 1);
    forall i, j | 0 <= i < j < |r| ensures r[i].votes >= r[j].votes && r[i].percent >= r[j].percent {
      SortedCounts(cs, GroupCounts(choices), |choices|, i, j);
    }
    RankingKeepsIds(SortBy(items, ByVotes), 1);
    SortingKeepsIds(items);
    MakingKeepsIds(cs, GroupCounts(choices), |choices|);
  }

  /** Candidates with equal counts are ranked in table order. */
  lemma TiesKeepTableOrder(votes: seq<Vote>, ballots: map<Id, Ballot>, candidates: seq<Candidate>, e: Id, pos: Position, k: int)
    ensures var choices := Choices(votes, ballots, e, pos.id);
      var items := MakeItems(Listed(candidates, pos.id), GroupCounts(choices), |choices|);
      var sorted := SortBy(items, ByVotes);
      && TallyPosition(votes, ballots, candidates, e, pos).candidates == Ranked(sorted, 1)
      && WithKey(sorted, ByVotes, k) == WithKey(items, ByVotes, k)
  {
    var choices := Choices(votes, ballots, e, pos.id);
    SortIsStable(MakeItems(Listed(candidates, pos.id), GroupCounts(choices), |choices|), ByVotes, k);
  }

  function Ids(items: seq<Item>): multiset<Id> {
    if items == [] then multiset{} else multiset{items[0].candidate} + Ids(items[1..])
  }

  function CandidateIds(cs: seq<Candidate>): (ids: seq<Id>)
    ensures |ids| == |cs| && forall i :: 0 <= i < |cs| ==> ids[i] == cs[i].id
  {
    if cs == [] then [] else [cs[0].id] + CandidateIds(cs[1..])
  }

  lemma {:induction false} RankingKeepsIds(items: seq<Item>, first: nat)
    ensures Ids(Ranked(items, first)) == Ids(items) && SumVotes(Ranked(items, first)) == SumVotes(items)
  {
    if items != [] {
      RankingKeepsIds(items[1..], first + 1);
      assert Ranked(items, first)[1..] == Ranked(items[1..], first + 1);
    }
  }

  lemma {:induction false} InsertingKeepsIds(x: Item, s: seq<Item>)
    ensures Ids(Insert(x, s, ByVotes)) == multiset{x.candidate} + Ids(s)
    ensures SumVotes(Insert(x, s, ByVotes)) == x.votes + SumVotes(s)
  {
    if s != [] && ByVotes(x) > ByVotes(s[0]) {
      InsertingKeepsIds(x, s[1..]);
      assert Insert(x, s, ByVotes)[1..] == Insert(x, s[1..], ByVotes);
    } else {
      assert Insert(x, s, ByVotes)[1..] == s;
    }
  }

  lemma {:induction false} SortingKeepsIds(s: seq<Item>)
    ensures Ids(SortBy(s, ByVotes)) == Ids(s) && SumVotes(SortBy(s, ByVotes)) == SumVotes(s)
  {
    if s != [] {
      SortingKeepsIds(s[1..]);
      InsertingKeepsIds(s[0], SortBy(s[1..], ByVotes));
    }
  }

  lemma {:induction false} MakingKeepsIds(cs: seq<Candidate>, counts: map<Id, nat>, total: nat)
    ensures Ids(MakeItems(cs, counts, total)) == multiset(CandidateIds(cs))
  {
    if cs != [] {
      MakingKeepsIds(cs[1..], counts, total);
      assert MakeItems(cs, counts, total)[1..] == MakeItems(cs[1..], counts, total);
      assert CandidateIds(cs) == [cs[0].id] + CandidateIds(cs[1..]);
    }
  }

  // ---------- conservation ----------

  /** How many entries of xs satisfy membership in ids. */
  function CountIn(xs: seq<Id>, ids: seq<Id>): nat {
    if xs == [] then 0 else (if xs[0] in ids then 1 else 0) + CountIn(xs[1..], ids)
  }

  function CountNotIn(xs: seq<Id>, ids: seq<Id>): nat {
    if xs == [] then 0 else (if xs[0] in ids then 0 else 1) + CountNotIn(xs[1..], ids)
  }

  predicate Distinct(ids: seq<Id>) {
    forall i, j :: 0 <= i < j < |ids| ==> ids[i] != ids[j]
  }

  lemma {:induction false} InAndOut(xs: seq<Id>, ids: seq<Id>)
    ensures CountIn(xs, ids) + CountNotIn(xs, ids) == |xs|
    ensures CountNotIn(xs, ids) == 0 <==> forall i :: 0 <= i < |xs| ==> xs[i] in ids
  {
    if xs != [] {
      InAndOut(xs[1..], ids);
      assert forall i :: 0 < i < |xs| ==> xs[i] == xs[1..][i-1];
    }
  }

  lemma {:induction false} CountInSplits(xs: seq<Id>, ids: seq<Id>)
    requires ids != [] && ids[0] !in ids[1..]
    ensures CountIn(xs, ids) == Get(GroupCounts(xs), ids[0]) + CountIn(xs, ids[1..])
  {
    if xs != [] {
      CountInSplits(xs[1..], ids);
      assert xs[0] in ids <==> xs[0] == ids[0] || xs[0] in ids[1..];
    }
  }

  lemma {:induction false} CountInNone(xs: seq<Id>)
    ensures CountIn(xs, []) == 0
  {
    if xs != [] {
      CountInNone(xs[1..]);
    }
  }

  lemma {:induction false} ItemVotesAreListedVotes(cs: seq<Candidate>, xs: seq<Id>, total: nat)
    requires Distinct(CandidateIds(cs))
    ensures SumVotes(MakeItems(cs, GroupCounts(xs), total)) == CountIn(xs, CandidateIds(cs))
  {
    var ids := CandidateIds(cs);
    if cs == [] {
      CountInNone(xs);
    } else {
      assert ids[1..] == CandidateIds(cs[1..]);
      ItemVotesAreListedVotes(cs[1..], xs, total);
      CountInSplits(xs, ids);
      assert MakeItems(cs, GroupCounts(xs), total)[1..] == MakeItems(cs[1..], GroupCounts(xs), total);
    }
  }

  /** Listed counts plus votes for anybody else make up the position's total: no vote is lost or counted twice. */
  lemma CountsAddUp(votes: seq<Vote>, ballots: map<Id, Ballot>, candidates: seq<Candidate>, e: Id, pos: Position)
    requires Distinct(CandidateIds(Listed(candidates, pos.id)))
    ensures var r := TallyPosition(votes, ballots, candidates, e, pos);
      var choices := Choices(votes, ballots, e, pos.id);
      SumVotes(r.candidates) + CountNotIn(choices, CandidateIds(Listed(candidates, pos.id))) == r.totalVotes == |choices|
  {
    var choices := Choices(votes, ballots, e, pos.id);
    var cs := Listed(candidates, pos.id);
    var items := MakeItems(cs, GroupCounts(choices), |choices|);
    ItemVotesAreListedVotes(cs, choices, |choices|);
    InAndOut(choices, CandidateIds(cs));
    SortingKeepsIds(items);
    RankingKeepsIds(SortBy(items, ByVotes), 1);
  }

  // ---------- percentages ----------

  function VoteColumn(items: seq<Item>): seq<nat> {
    if items == [] then [] else [items[0].votes] + VoteColumn(items[1..])
  }

  function PercentColumn(items: seq<Item>): seq<nat> {
    if items == [] then [] else [items[0].percent] + PercentColumn(items[1..])
  }

  lemma {:induction false} ColumnsAgree(items: seq<Item>, total: nat)
    requires forall i :: 0 <= i < |items| ==> items[i].percent == Percent(items[i].votes, total)
    ensures PercentColumn(items) == Percents(VoteColumn(items), total)
    ensures Sum(VoteColumn(items)) == SumVotes(items) && |VoteColumn(items)| == |items|
  {
    if items != [] {
      ColumnsAgree(items[1..], total);
      assert VoteColumn(items)[1..] == VoteColumn(items[1..]);
    }
  }

  /** If every vote names a listed candidate, the n percentages shown add up to 100 within 0.005 n. */
  lemma PercentagesAddUp(votes: seq<Vote>, ballots: map<Id, Ballot>, candidates: seq<Candidate>, e: Id, pos: Position)
    requires Distinct(CandidateIds(Listed(candidates, pos.id)))
    requires var choices := Choices(votes, ballots, e, pos.id);
      choices != [] && forall i :: 0 <= i < |choices| ==> choices[i] in CandidateIds(Listed(candidates, pos.id))
    ensures var r := TallyPosition(votes, ballots, candidates, e, pos).candidates;
      -(|r| as int) <= 2 * (Sum(PercentColumn(r)) - 10000) <= |r|
  {
    var t := TallyPosition(votes, ballots, candidates, e, pos);
    var r := t.candidates;
    forall i | 0 <= i < |r| ensures r[i].percent == Percent(r[i].votes, t.totalVotes) {
      StoredCountsAreVotes(votes, ballots, candidates, e, pos, i);
    }
    ColumnsAgree(r, t.totalVotes);
    CountsAddUp(votes, ballots, candidates, e, pos);
    InAndOut(Choices(votes, ballots, e, pos.id), CandidateIds(Listed(candidates, pos.id)));
    PercentagesSumToHundred(VoteColumn(r), t.totalVotes);
  }

  // ---------- tallying again ----------

  lemma {:induction false} WithoutConcat(x: seq<Row>, y: seq<Row>, e: Id)
    ensures Without(x + y, e) == Without(x, e) + Without(y, e)
  {
    if x == [] {
      assert x + y == y;
    } else {
      WithoutConcat(x[1..], y, e);
      assert (x + y)[0] == x[0] && (x + y)[1..] == x[1..] + y;
      Sequences.Regroup(if x[0].election != e then [x[0]] else [], Without(x[1..], e), Without(y, e));
    }
  }

  lemma {:induction false} WithoutNone(x: seq<Row>, e: Id)
    requires forall i :: 0 <= i < |x| ==> x[i].election == e
    ensures Without(x, e) == []
  {
    if x != [] {
      WithoutNone(x[1..], e);
    }
  }

  lemma {:induction false} WithoutTwice(x: seq<Row>, e: Id)
    ensures Without(Without(x, e), e) == Without(x, e)
    ensures forall r :: r in Without(x, e) <==> r in x && r.election != e
  {
    if x != [] {
      WithoutTwice(x[1..], e);
      if x[0].election != e {
        assert Without(x, e)[1..] == Without(x[1..], e);
      } else {
        assert Without(x, e) == Without(x[1..], e);
      }
      assert forall r :: r in x <==> r == x[0] || r in x[1..];
    }
  }

  lemma {:induction false} AllRowsOfElection(e: Id, rs: seq<PositionResult>, now: nat)
    ensures forall i :: 0 <= i < |AllRows(e, rs, now)| ==> AllRows(e, rs, now)[i].election == e
  {
    if rs != [] {
      AllRowsOfElection(e, rs[1..], now);
    }
  }

  lemma {:induction false} AllRowsInCount(e: Id, rs: seq<PositionResult>, now: nat)
    ensures forall i :: 0 <= i < |AllRows(e, rs, now)| ==> AllRows(e, rs, now)[i].status == InCount && AllRows(e, rs, now)[i].countedAt == now
  {
    if rs != [] {
      AllRowsInCount(e, rs[1..], now);
    }
  }

  /** The rows of e are those of this tally, and they say so. */
  lemma TalliedRowsAreNew(results: seq<Row>, e: Id, rs: seq<PositionResult>, now: nat, r: Row)
    requires r in Retallied(results, e, rs, now) && r.election == e
    ensures r.status == InCount && r.countedAt == now
  {
    WithoutTwice(results, e);
    AllRowsInCount(e, rs, now);
  }

  /** A second tally replaces the first: only its own rows remain, and with unchanged inputs the same ones. */
  lemma RetallyReplaces(results: seq<Row>, e: Id, first: seq<PositionResult>, t1: nat, second: seq<PositionResult>, t2: nat)
    ensures Retallied(Retallied(results, e, first, t1), e, second, t2) == Retallied(results, e, second, t2)
  {
    var kept, gone := Without(results, e), AllRows(e, first, t1);
    WithoutConcat(kept, gone, e);
    WithoutTwice(results, e);
    AllRowsOfElection(e, first, t1);
    WithoutNone(gone, e);
    assert Without(kept + gone, e) == kept;
  }

  // ---------- round trip ----------

  /** Rows about a position carry its election, as a tally writes them. */
  predicate ResultsSound(results: seq<Row>, positions: seq<Position>) {
    forall r, p :: r in results && p in positions && r.position == p.id ==> r.election == p.election
  }

  predicate DistinctPositions(ps: seq<Position>) {
    forall i, j :: 0 <= i < j < |ps| ==> ps[i].id != ps[j].id
  }

  lemma {:induction false} RowsAtConcat(x: seq<Row>, y: seq<Row>, pos: Id)
    ensures RowsAt(x + y, pos) == RowsAt(x, pos) + RowsAt(y, pos)
  {
    if x == [] {
      assert x + y == y;
    } else {
      RowsAtConcat(x[1..], y, pos);
      assert (x + y)[1..] == x[1..] + y && (x + y)[0] == x[0];
      Sequences.Regroup(if x[0].position == pos then [x[0]] else [], RowsAt(x[1..], pos), RowsAt(y, pos));
    }
  }

  lemma {:induction false} RowsAtAll(x: seq<Row>, pos: Id)
    requires forall i :: 0 <= i < |x| ==> x[i].position == pos
    ensures RowsAt(x, pos) == x
  {
    if x != [] {
      RowsAtAll(x[1..], pos);
    }
  }

  lemma {:induction false} RowsAtNone(x: seq<Row>, pos: Id)
    requires forall i :: 0 <= i < |x| ==> x[i].position != pos
    ensures RowsAt(x, pos) == []
  {
    if x != [] {
      RowsAtNone(x[1..], pos);
    }
  }

  /** The rows at a position, as a multiset, do not depend on how the table is arranged. */
  lemma {:induction false} RowsAtMultiset(x: seq<Row>, pos: Id, r: Row)
    ensures multiset(RowsAt(x, pos))[r] == if r.position == pos then multiset(x)[r] else 0
  {
    if x != [] {
      RowsAtMultiset(x[1..], pos, r);
      assert x == [x[0]] + x[1..];
    }
  }

  lemma RowsAtRearranged(x: seq<Row>, y: seq<Row>, pos: Id)
    requires multiset(x) == multiset(y)
    ensures multiset(RowsAt(x, pos)) == multiset(RowsAt(y, pos))
  {
    forall r ensures multiset(RowsAt(x, pos))[r] == multiset(RowsAt(y, pos))[r] {
      RowsAtMultiset(x, pos, r);
      RowsAtMultiset(y, pos, r);
    }
  }

  lemma {:induction false} AllRowsAt(e: Id, rs: seq<PositionResult>, now: nat, k: nat)
    requires k < |rs| && forall i, j :: 0 <= i < j < |rs| ==> rs[i].position != rs[j].position
    ensures RowsAt(AllRows(e, rs, now), rs[k].position) == ItemRows(e, rs[k].position, rs[k].candidates, now)
    decreases |rs|
  {
    var pos := rs[k].position;
    var head, tail := ItemRows(e, rs[0].position, rs[0].candidates, now), AllRows(e, rs[1..], now);
    RowsAtConcat(head, tail, pos);
    if k == 0 {
      RowsAtAll(head, pos);
      AllRowsElsewhere(e, rs[1..], now, pos);
    } else {
      RowsAtNone(head, pos);
      assert rs[1..][k-1] == rs[k];
      AllRowsAt(e, rs[1..], now, k - 1);
    }
  }

  lemma {:induction false} AllRowsElsewhere(e: Id, rs: seq<PositionResult>, now: nat, pos: Id)
    requires forall i :: 0 <= i < |rs| ==> rs[i].position != pos
    ensures RowsAt(AllRows(e, rs, now), pos) == []
  {
    if rs != [] {
      var head := ItemRows(e, rs[0].position, rs[0].candidates, now);
      RowsAtConcat(head, AllRows(e, rs[1..], now), pos);
      RowsAtNone(head, pos);
      AllRowsElsewhere(e, rs[1..], now, pos);
    }
  }

  lemma {:induction false} FindsItself(candidates: seq<Candidate>, c: Candidate)
    requires c in candidates && Distinct(CandidateIds(candidates))
    ensures FindCandidate(candidates, c.id) == Some(c)
  {
    if candidates[0] != c {
      var i :| 0 <= i < |candidates| && candidates[i] == c;
      assert CandidateIds(candidates)[0] != CandidateIds(candidates)[i];
      assert CandidateIds(candidates)[1..] == CandidateIds(candidates[1..]);
      FindsItself(candidates[1..], c);
    }
  }

  predicate Named(x: Item, candidates: seq<Candidate>) {
    FindCandidate(candidates, x.candidate).Some?
    && FindCandidate(candidates, x.candidate).value.id == x.candidate
    && FindCandidate(candidates, x.candidate).value.name == x.name
    && FindCandidate(candidates, x.candidate).value.party == x.party
  }

  lemma {:induction false} JoinRestores(e: Id, pos: Id, items: seq<Item>, now: nat, candidates: seq<Candidate>)
    requires forall i :: 0 <= i < |items| ==> Named(items[i], candidates)
    ensures JoinRows(ItemRows(e, pos, items, now), candidates) == items
  {
    if items != [] {
      assert Named(items[0], candidates);
      assert ItemRows(e, pos, items, now)[1..] == ItemRows(e, pos, items[1..], now);
      JoinRestores(e, pos, items[1..], now, candidates);
    }
  }

  /** All rows at a position of e, after the tally, in rank order. */
  lemma TalliedRows(results: seq<Row>, positions: seq<Position>, e: Id, rs: seq<PositionResult>, now: nat, k: nat, p: Position)
    requires k < |rs| && forall i, j :: 0 <= i < j < |rs| ==> rs[i].position != rs[j].position
    requires ResultsSound(results, positions) && p in positions && p.election == e && p.id == rs[k].position
    ensures RowsAt(Retallied(results, e, rs, now), p.id) == ItemRows(e, p.id, rs[k].candidates, now)
  {
    RowsAtConcat(Without(results, e), AllRows(e, rs, now), p.id);
    WithoutTwice(results, e);
    RowsAtNone(Without(results, e), p.id);
    AllRowsAt(e, rs, now, k);
  }

  lemma {:induction false} PositionsBelong(positions: seq<Position>, e: Id)
    ensures forall p :: p in PositionsOf(positions, e) <==> p in positions && p.election == e
    ensures DistinctPositions(positions) ==> DistinctPositions(PositionsOf(positions, e))
  {
    if positions != [] {
      PositionsBelong(positions[1..], e);
      assert forall p :: p in positions <==> p == positions[0] || p in positions[1..];
      if DistinctPositions(positions) {
        var rest := PositionsOf(positions[1..], e);
        assert DistinctPositions(positions[1..]);
        forall i | 0 <= i < |rest| ensures rest[i].id != positions[0].id {
          assert rest[i] in rest;
          var j :| 0 <= j < |positions[1..]| && positions[1..][j] == rest[i];
          assert positions[j + 1] == rest[i];
        }
      }
    }
  }

  /** Sorted by rank, the rows at a position are those the tally wrote, whatever order the table keeps them in. */
  lemma SortedRowsAreTallied(votes: seq<Vote>, ballots: map<Id, Ballot>, candidates: seq<Candidate>, positions: seq<Position>,
      results: seq<Row>, e: Id, now: nat, table: seq<Row>, k: nat)
    requires DistinctPositions(positions) && ResultsSound(results, positions)
    requires k < |PositionsOf(positions, e)|
    requires multiset(table) == multiset(Retallied(results, e, TallyAll(votes, ballots, candidates, e, PositionsOf(positions, e)), now))
    ensures var p := PositionsOf(positions, e)[k];
      SortBy(RowsAt(table, p.id), ByRank) == ItemRows(e, p.id, TallyPosition(votes, ballots, candidates, e, p).candidates, now)
  {
    var ps := PositionsOf(positions, e);
    var rs := TallyAll(votes, ballots, candidates, e, ps);
    var p := ps[k];
    PositionsBelong(positions, e);
    assert p in positions && p.election == e;
    forall i | 0 <= i < |rs| ensures rs[i].position == ps[i].id {
      TallyAllAt(votes, ballots, candidates, e, ps, i);
    }
    TallyAllAt(votes, ballots, candidates, e, ps, k);
    TalliedRows(results, positions, e, rs, now, k, p);
    RowsAtRearranged(table, Retallied(results, e, rs, now), p.id);
    RanksOrderCounts(votes, ballots, candidates, e, p);
    SortRestores(RowsAt(table, p.id), ItemRows(e, p.id, rs[k].candidates, now), ByRank);
  }

  lemma AllNamed(votes: seq<Vote>, ballots: map<Id, Ballot>, candidates: seq<Candidate>, e: Id, p: Position)
    requires Distinct(CandidateIds(candidates))
    ensures forall i :: 0 <= i < |TallyPosition(votes, ballots, candidates, e, p).candidates| ==>
      Named(TallyPosition(votes, ballots, candidates, e, p).candidates[i], candidates)
  {
    var items := TallyPosition(votes, ballots, candidates, e, p).candidates;
    forall i | 0 <= i < |items| ensures Named(items[i], candidates) {
      StoredCountsAreVotes(votes, ballots, candidates, e, p, i);
      var c :| c in candidates && c.position == p.id && c.id == items[i].candidate && c.name == items[i].name && c.party == items[i].party;
      FindsItself(candidates, c);
    }
  }

  /**
   The round trip. Whatever order the table keeps its rows in, reading a position back after a tally shows
   the same candidates, names, counts, percentages and ranks in the same order; and the same total exactly
   when every vote for the position names one of its candidates.
   */
  lemma ReadBackIsTally(votes: seq<Vote>, ballots: map<Id, Ballot>, candidates: seq<Candidate>, positions: seq<Position>,
      results: seq<Row>, e: Id, now: nat, table: seq<Row>, k: nat)
    requires DistinctPositions(positions) && Distinct(CandidateIds(candidates)) && ResultsSound(results, positions)
    requires k < |PositionsOf(positions, e)|
    requires multiset(table) == multiset(Retallied(results, e, TallyAll(votes, ballots, candidates, e, PositionsOf(positions, e)), now))
    ensures var p := PositionsOf(positions, e)[k];
      var written := TallyPosition(votes, ballots, candidates, e, p);
      var read := ReadPosition(table, candidates, p);
      var choices := Choices(votes, ballots, e, p.id);
      && read.position == written.position && read.title == written.title && read.candidates == written.candidates
      && (read.totalVotes == written.totalVotes <==>
            forall i :: 0 <= i < |choices| ==> choices[i] in CandidateIds(Listed(candidates, p.id)))
  {
    var p := PositionsOf(positions, e)[k];
    var items := TallyPosition(votes, ballots, candidates, e, p).candidates;
    SortedRowsAreTallied(votes, ballots, candidates, positions, results, e, now, table, k);
    AllNamed(votes, ballots, candidates, e, p);
    JoinRestores(e, p.id, items, now, candidates);
    ListedDistinct(candidates, p.id);
    CountsAddUp(votes, ballots, candidates, e, p);
    InAndOut(Choices(votes, ballots, e, p.id), CandidateIds(Listed(candidates, p.id)));
  }

  lemma {:induction false} ListedDistinct(candidates: seq<Candidate>, pos: Id)
    requires Distinct(CandidateIds(candidates))
    ensures Distinct(CandidateIds(Listed(candidates, pos)))
  {
    if candidates != [] {
      assert CandidateIds(candidates)[1..] == CandidateIds(candidates[1..]);
      ListedDistinct(candidates[1..], pos);
      var rest := Listed(candidates[1..], pos);
      forall i | 0 <= i < |rest| ensures rest[i].id != candidates[0].id {
        ListedBelong(candidates[1..], pos, rest[i]);
        var j :| 0 <= j < |candidates[1..]| && candidates[1..][j] == rest[i];
        assert CandidateIds(candidates)[j + 1] == rest[i].id;
      }
    }
  }

  /** A tally keeps the table in the form that the round trip needs. */
  lemma TallyKeepsSound(results: seq<Row>, positions: seq<Position>, e: Id, rs: seq<PositionResult>, now: nat)
    requires DistinctPositions(positions) && ResultsSound(results, positions)
    requires forall i :: 0 <= i < |rs| ==> exists p :: p in positions && p.election == e && p.id == rs[i].position
    ensures ResultsSound(Retallied(results, e, rs, now), positions)
  {
    WithoutTwice(results, e);
    forall r, q | r in Retallied(results, e, rs, now) && q in positions && r.position == q.id ensures r.election == q.election {
      if r !in Without(results, e) {
        AllRowsFrom(e, rs, now, r);
        var i :| 0 <= i < |rs| && r.position == rs[i].position;
        var p :| p in positions && p.election == e && p.id == rs[i].position;
        assert p == q;
      }
    }
  }

  lemma {:induction false} AllRowsFrom(e: Id, rs: seq<PositionResult>, now: nat, r: Row)
    requires r in AllRows(e, rs, now)
    ensures r.election == e && exists i :: 0 <= i < |rs| && r.position == rs[i].position
  {
    if r in ItemRows(e, rs[0].position, rs[0].candidates, now) {
      assert r.position == rs[0].position;
    } else {
      AllRowsFrom(e, rs[1..], now, r);
      var i :| 0 <= i < |rs[1..]| && r.position == rs[1..][i].position;
      assert r.position == rs[i + 1].position;
    }
  }
}
