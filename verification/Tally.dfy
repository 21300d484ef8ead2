/** app/services/result_service.py: what a tally computes, and what reading it back shows. */
module Tally {
  import opened Types
  import opened Counting
  import opened Rounding
  import opened Sorting

  datatype Position = Position(id: Id, election: Id, title: string)
  datatype Candidate = Candidate(id: Id, position: Id, name: string, party: string)

  /** One line of a result; `percent` is in hundredths of a per cent. */
  datatype Item = Item(candidate: Id, name: string, party: string, votes: nat, percent: nat, rank: nat)

  datatype PositionResult = PositionResult(position: Id, title: string, totalVotes: nat, candidates: seq<Item>)

  datatype ResultStatus = NotStarted | InCount | UnderReview | Approved | Published

  /** A row of the results table. */
  datatype Row = Row(election: Id, position: Id, candidate: Id, votes: nat, percent: nat, rank: nat, status: ResultStatus, countedAt: nat)

  // ---------- counting ----------

  /** The reference definition: the votes for one candidate and position on valid ballots of the election. */
  function CountVotes(votes: seq<Vote>, ballots: map<Id, Ballot>, e: Id, pos: Id, cand: Id): nat {
    if votes == [] then 0
    else (if Qualifies(votes[0], ballots, e, pos) && votes[0].candidate == cand then 1 else 0)
         + CountVotes(votes[1..], ballots, e, pos, cand)
  }

  function Get(m: map<Id, nat>, k: Id): nat {
    if k in m then m[k] else 0
  }

  /** SELECT candidate_id, count(*) ... GROUP BY candidate_id. */
  function GroupCounts(xs: seq<Id>): map<Id, nat> {
    if xs == [] then map[]
    else var m := GroupCounts(xs[1..]); m[xs[0] := Get(m, xs[0]) + 1]
  }

  lemma {:induction false} GroupsAreCounts(votes: seq<Vote>, ballots: map<Id, Ballot>, e: Id, pos: Id, cand: Id)
    ensures Get(GroupCounts(Choices(votes, ballots, e, pos)), cand) == CountVotes(votes, ballots, e, pos, cand)
  {
    if votes != [] {
      GroupsAreCounts(votes[1..], ballots, e, pos, cand);
      if Qualifies(votes[0], ballots, e, pos) {
        assert Choices(votes, ballots, e, pos)[1..] == Choices(votes[1..], ballots, e, pos);
      } else {
        assert Choices(votes, ballots, e, pos) == Choices(votes[1..], ballots, e, pos);
      }
    }
  }

  /** The sum of a map's values over some of its keys. */
  ghost function SumOver(m: map<Id, nat>, keys: set<Id>): nat
    requires keys <= m.Keys
  {
    if keys == {} then 0 else var k :| k in keys; m[k] + SumOver(m, keys - {k})
  }

  lemma {:induction false} SumOverAny(m: map<Id, nat>, keys: set<Id>, k: Id)
    requires keys <= m.Keys && k in keys
    ensures SumOver(m, keys) == m[k] + SumOver(m, keys - {k})
    decreases |keys|
  {
    var j :| j in keys && SumOver(m, keys) == m[j] + SumOver(m, keys - {j});
    if j != k {
      SumOverAny(m, keys - {j}, k);
      SumOverAny(m, keys - {k}, j);
      assert keys - {j} - {k} == keys - {k} - {j};
    }
  }

  lemma {:induction false} SumOverSame(m: map<Id, nat>, n: map<Id, nat>, keys: set<Id>)
    requires keys <= m.Keys && keys <= n.Keys && forall k :: k in keys ==> m[k] == n[k]
    ensures SumOver(m, keys) == SumOver(n, keys)
    decreases |keys|
  {
    if keys != {} {
      var k :| k in keys;
      SumOverAny(m, keys, k);
      SumOverAny(n, keys, k);
      SumOverSame(m, n, keys - {k});
    }
  }

  /** sum(count_map.values()) is the number of grouped rows. */
  lemma {:induction false} GroupsSumToAll(xs: seq<Id>)
    ensures SumOver(GroupCounts(xs), GroupCounts(xs).Keys) == |xs|
  {
    if xs != [] {
      var m, n := GroupCounts(xs[1..]), GroupCounts(xs);
      var x := xs[0];
      GroupsSumToAll(xs[1..]);
      SumOverAny(n, n.Keys, x);
      SumOverSame(m, n, m.Keys - {x});
      if x in m {
        SumOverAny(m, m.Keys, x);
        assert n.Keys - {x} == m.Keys - {x};
      } else {
        assert n.Keys - {x} == m.Keys && m.Keys - {x} == m.Keys;
      }
    }
  }

  // ---------- one position ----------

  function Listed(candidates: seq<Candidate>, pos: Id): seq<Candidate> {
    if candidates == [] then []
    else (if candidates[0].position == pos then [candidates[0]] else []) + Listed(candidates[1..], pos)
  }

  function MakeItem(c: Candidate, counts: map<Id, nat>, total: nat): Item {
    Item(c.id, c.name, c.party, Get(counts, c.id), Percent(Get(counts, c.id), total), 0)
  }

  function MakeItems(cs: seq<Candidate>, counts: map<Id, nat>, total: nat): (items: seq<Item>)
    ensures |items| == |cs| && forall i :: 0 <= i < |cs| ==> items[i] == MakeItem(cs[i], counts, total)
  {
    if cs == [] then [] else [MakeItem(cs[0], counts, total)] + MakeItems(cs[1..], counts, total)
  }

  /** The sort key of `candidate_items.sort(key=vote_count, reverse=True)`. */
  function ByVotes(x: Item): int {
    -(x.votes as int)
  }

  function Ranked(items: seq<Item>, first: nat): (ranked: seq<Item>)
    ensures |ranked| == |items| && forall i :: 0 <= i < |items| ==> ranked[i] == items[i].(rank := first + i)
  {
    if items == [] then [] else [items[0].(rank := first)] + Ranked(items[1..], first + 1)
  }

  function TallyPosition(votes: seq<Vote>, ballots: map<Id, Ballot>, candidates: seq<Candidate>, e: Id, pos: Position): PositionResult {
    var choices := Choices(votes, ballots, e, pos.id);
    var items := MakeItems(Listed(candidates, pos.id), GroupCounts(choices), |choices|);
    PositionResult(pos.id, pos.title, |choices|, Ranked(SortBy(items, ByVotes), 1))
  }

  // ---------- the whole election ----------

  function PositionsOf(positions: seq<Position>, e: Id): seq<Position> {
    if positions == [] then []
    else (if positions[0].election == e then [positions[0]] else []) + PositionsOf(positions[1..], e)
  }

  function TallyAll(votes: seq<Vote>, ballots: map<Id, Ballot>, candidates: seq<Candidate>, e: Id, ps: seq<Position>): (rs: seq<PositionResult>)
    ensures |rs| == |ps|
  {
    if ps == [] then []
    else [TallyPosition(votes, ballots, candidates, e, ps[0])] + TallyAll(votes, ballots, candidates, e, ps[1..])
  }

  function ItemRow(e: Id, pos: Id, x: Item, now: nat): Row {
    Row(e, pos, x.candidate, x.votes, x.percent, x.rank, InCount, now)
  }

  function ItemRows(e: Id, pos: Id, items: seq<Item>, now: nat): (rows: seq<Row>)
    ensures |rows| == |items| && forall i :: 0 <= i < |items| ==> rows[i] == ItemRow(e, pos, items[i], now)
  {
    if items == [] then [] else [ItemRow(e, pos, items[0], now)] + ItemRows(e, pos, items[1..], now)
  }

  function AllRows(e: Id, rs: seq<PositionResult>, now: nat): seq<Row> {
    if rs == [] then [] else ItemRows(e, rs[0].position, rs[0].candidates, now) + AllRows(e, rs[1..], now)
  }

  /** DELETE FROM results WHERE election_id = e. */
  function Without(results: seq<Row>, e: Id): seq<Row> {
    if results == [] then []
    else (if results[0].election != e then [results[0]] else []) + Without(results[1..], e)
  }

  function Retallied(results: seq<Row>, e: Id, rs: seq<PositionResult>, now: nat): seq<Row> {
    Without(results, e) + AllRows(e, rs, now)
  }

  // ---------- reading back ----------

  function RowsAt(results: seq<Row>, pos: Id): seq<Row> {
    if results == [] then []
    else (if results[0].position == pos then [results[0]] else []) + RowsAt(results[1..], pos)
  }

  function ByRank(r: Row): int {
    r.rank
  }

  function FindCandidate(candidates: seq<Candidate>, id: Id): Option<Candidate> {
    if candidates == [] then None
    else if candidates[0].id == id then Some(candidates[0])
    else FindCandidate(candidates[1..], id)
  }

  /** JOIN candidates ON candidates.id = results.candidate_id. */
  function JoinRows(rows: seq<Row>, candidates: seq<Candidate>): seq<Item> {
    if rows == [] then []
    else
      var c := FindCandidate(candidates, rows[0].candidate);
      (if c.Some? then [Item(c.value.id, c.value.name, c.value.party, rows[0].votes, rows[0].percent, rows[0].rank)] else [])
      + JoinRows(rows[1..], candidates)
  }

  function SumVotes(items: seq<Item>): nat {
    if items == [] then 0 else items[0].votes + SumVotes(items[1..])
  }

  function ReadPosition(results: seq<Row>, candidates: seq<Candidate>, pos: Position): PositionResult {
    var items := JoinRows(SortBy(RowsAt(results, pos.id), ByRank), candidates);
    PositionResult(pos.id, pos.title, SumVotes(items), items)
  }
}
