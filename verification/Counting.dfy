/** Reading the vote table: the rows of one ballot, and the votes that count for a position of an election. */
module Counting {
  import opened Types
  import Sequences

  /** The rows that belong to ballot b, in table order. */
  function RowsOf(votes: seq<Vote>, b: Id): seq<Vote> {
    if votes == [] then []
    else (if votes[0].ballot == b then [votes[0]] else []) + RowsOf(votes[1..], b)
  }

  lemma {:induction false} RowsOfConcat(x: seq<Vote>, y: seq<Vote>, b: Id)
    ensures RowsOf(x + y, b) == RowsOf(x, b) + RowsOf(y, b)
  {
    if x == [] {
      assert x + y == y;
    } else {
      RowsOfConcat(x[1..], y, b);
      assert (x + y)[0] == x[0] && (x + y)[1..] == x[1..] + y;
      Sequences.Regroup(if x[0].ballot == b then [x[0]] else [], RowsOf(x[1..], b), RowsOf(y, b));
    }
  }

  lemma {:induction false} RowsOfSame(x: seq<Vote>, b: Id)
    requires forall i :: 0 <= i < |x| ==> x[i].ballot == b
    ensures RowsOf(x, b) == x
  {
    if x != [] {
      RowsOfSame(x[1..], b);
    }
  }

  lemma {:induction false} RowsOfNone(x: seq<Vote>, b: Id)
    requires forall i :: 0 <= i < |x| ==> x[i].ballot != b
    ensures RowsOf(x, b) == []
  {
    if x != [] {
      RowsOfNone(x[1..], b);
    }
  }

  /** WHERE ballots.election_id = e AND votes.position_id = pos AND ballots.is_valid, over the join. */
  predicate Qualifies(v: Vote, ballots: map<Id, Ballot>, e: Id, pos: Id) {
    v.position == pos && v.ballot in ballots && ballots[v.ballot].election == e && ballots[v.ballot].isValid
  }

  /** The candidate column of the qualifying rows. */
  function Choices(votes: seq<Vote>, ballots: map<Id, Ballot>, e: Id, pos: Id): seq<Id> {
    if votes == [] then []
    else (if Qualifies(votes[0], ballots, e, pos) then [votes[0].candidate] else []) + Choices(votes[1..], ballots, e, pos)
  }

  /** The valid ballots of an election. */
  function BallotsOf(ballots: map<Id, Ballot>, e: Id): set<Id> {
    set b | b in ballots && ballots[b].election == e && ballots[b].isValid
  }

  lemma OneMoreBallot(ballots: map<Id, Ballot>, key: Id, ballot: Ballot, e: Id)
    requires key !in ballots && ballot.isValid
    ensures |BallotsOf(ballots[key := ballot], e)| == |BallotsOf(ballots, e)| + if ballot.election == e then 1 else 0
  {
    assert BallotsOf(ballots[key := ballot], e) == BallotsOf(ballots, e) + if ballot.election == e then {key} else {};
  }

  /** How many rows belong to a ballot of `bs` and name position pos. */
  function NamedIn(votes: seq<Vote>, bs: set<Id>, pos: Id): nat {
    if votes == [] then 0
    else (if votes[0].ballot in bs && votes[0].position == pos then 1 else 0) + NamedIn(votes[1..], bs, pos)
  }

  lemma {:induction false} ChoicesAreNamed(votes: seq<Vote>, ballots: map<Id, Ballot>, e: Id, pos: Id)
    ensures |Choices(votes, ballots, e, pos)| == NamedIn(votes, BallotsOf(ballots, e), pos)
  {
    if votes != [] {
      ChoicesAreNamed(votes[1..], ballots, e, pos);
    }
  }

  /** Counting splits over ballots. */
  lemma {:induction false} NamedInSplits(votes: seq<Vote>, bs: set<Id>, b: Id, pos: Id)
    requires b in bs
    ensures NamedIn(votes, bs, pos) == NamedIn(votes, bs - {b}, pos) + NamedIn(RowsOf(votes, b), {b}, pos)
  {
    if votes != [] {
      NamedInSplits(votes[1..], bs, b, pos);
      if votes[0].ballot == b {
        assert RowsOf(votes, b) == [votes[0]] + RowsOf(votes[1..], b);
        assert RowsOf(votes, b)[1..] == RowsOf(votes[1..], b);
      } else {
        assert RowsOf(votes, b) == RowsOf(votes[1..], b);
      }
    }
  }

  lemma {:induction false} NamedInNothing(votes: seq<Vote>, pos: Id)
    ensures NamedIn(votes, {}, pos) == 0
  {
    if votes != [] {
      NamedInNothing(votes[1..], pos);
    }
  }

  lemma {:induction false} NamedInConcat(x: seq<Vote>, y: seq<Vote>, bs: set<Id>, pos: Id)
    ensures NamedIn(x + y, bs, pos) == NamedIn(x, bs, pos) + NamedIn(y, bs, pos)
  {
    if x == [] {
      assert x + y == y;
    } else {
      NamedInConcat(x[1..], y, bs, pos);
      assert (x + y)[1..] == x[1..] + y;
    }
  }
}
