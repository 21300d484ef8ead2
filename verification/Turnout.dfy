/**
 When turnout can exceed 100 per cent. The election of a request is compared with nothing, so what counts is how many
 voters send ballots for an election, not how many are on its roll.
 */
module Turnout {
  import opened Types
  import opened Protocol
  import opened Steps
  import opened Counting
  import opened Bounds
  import opened Cardinality
  import Overlap
  import Safety
  import Sequential

  function RollOf(voters: map<Id, Voter>, e: Id): set<Id> {
    set v | v in voters && voters[v].election == Some(e)
  }

  /** How many voters of e are registered along the run. */
  function Registered(run: seq<Action>, e: Id): nat {
    if run == [] then 0
    else Registered(run[1..], e) + if run[0].AddVoter? && run[0].voter.election == Some(e) then 1 else 0
  }

  lemma StepGrowsRoll(s: State, a: Action, e: Id)
    requires Enabled(s, a)
    ensures |Roll(Apply(s, a), e)|
      == |Roll(s, e)| + if a.AddVoter? && a.voter.election == Some(e) then 1 else 0
  {
    if a.AddVoter? {
      OneMoreEligible(s.db.voters, a.id, a.voter, e);
    } else {
      StepKeepsElections(s, a);
      SameEligible(s.db.voters, Apply(s, a).db.voters, e);
    }
  }

  lemma OneMoreEligible(voters: map<Id, Voter>, id: Id, row: Voter, e: Id)
    requires id !in voters
    ensures |RollOf(voters[id := row], e)|
      == |RollOf(voters, e)| + if row.election == Some(e) then 1 else 0
  {
    var more := if row.election == Some(e) then {id} else {};
    assert RollOf(voters[id := row], e) == RollOf(voters, e) + more;
  }

  lemma SameEligible(voters: map<Id, Voter>, voters': map<Id, Voter>, e: Id)
    requires SameElections(voters, voters')
    ensures RollOf(voters', e) == RollOf(voters, e)
  {}

  predicate SameElections(voters: map<Id, Voter>, voters': map<Id, Voter>) {
    voters'.Keys == voters.Keys && forall v :: v in voters ==> voters'[v].election == voters[v].election
  }

  lemma StepKeepsElections(s: State, a: Action)
    requires Enabled(s, a) && !a.AddVoter?
    ensures SameElections(s.db.voters, Apply(s, a).db.voters)
  {
    if !a.Advance? {
      if a.EditVoter? {
        assert SameElections(s.db.voters, s.db.voters[a.id := Edited(s.db.voters[a.id], a.rollStatus, a.constituency)]);
      } else {
        BackgroundFrame(s, a);
      }
    } else if !IsCast(s.procs[a.p]) {
      OtherFrame(s, a.p, a.drawn);
    } else if Commits(s, a.p) {
      CommitWrites(s, a.p, a.drawn);
    } else {
      CastWritesOnlyAtCommit(s, a.p, a.drawn);
    }
  }

  lemma {:induction false} RollGrows(s: State, run: seq<Action>, e: Id)
    requires ValidRun(s, run)
    ensures |Roll(After(s, run), e)| == |Roll(s, e)| + Registered(run, e)
    decreases |run|
  {
    if run != [] {
      StepGrowsRoll(s, run[0], e);
      RollGrows(Apply(s, run[0]), run[1..], e);
    }
  }

  // ---------- the exact bound ----------

  /** The committed requests for e come from voters of V. */
  predicate SendersIn(s: State, e: Id, V: set<Id>) {
    forall b :: b in s.origin && s.origin[b].election == e ==> s.origin[b].voter in V
  }

  lemma BallotsBoundedBySenders(start: State, run: seq<Action>, e: Id, V: set<Id>)
    requires Initial(start) && ValidRun(start, run) && SendersIn(After(start, run), e, V)
    ensures |BallotsOf(After(start, run).db.ballots, e)| <= |V|
  {
    var s := After(start, run);
    RunRecords(start, run);
    Safety.InitialInv(start);
    Safety.RunKeepsInv(start, run);
    var m := map b | b in BallotsOf(s.db.ballots, e) :: s.origin[b].voter;
    forall b, c | b in m && c in m && m[b] == m[c] ensures b == c {
      assert Safety.ByVoter(s, b, m[b]) && Safety.ByVoter(s, c, m[b]);
    }
    ValuesVersusKeys(m);
    assert m.Keys == BallotsOf(s.db.ballots, e);
    forall v | v in m.Values ensures v in V {
      var b :| b in m && m[b] == v;
      assert BallotMatches(s.origin[b], s.db.ballots[b]);
    }
    ProperSubsetIsSmaller(m.Values, V);
  }

  /** A run after which at most n voters have sent ballots for e, whose roll then has r voters. */
  ghost predicate Polled(start: State, run: seq<Action>, V: set<Id>, e: Id, n: nat, r: nat) {
    Initial(start) && ValidRun(start, run) && |V| == n && SendersIn(After(start, run), e, V) && |Roll(After(start, run), e)| == r
  }

  /** With n voters, r of them on the roll of e, who all vote for e. */
  lemma AllVoteForeign(e: Id, n: nat, r: nat) returns (start: State, run: seq<Action>)
    requires r <= n
    ensures Polled(start, run, Overlap.Upto(n), e, n, r) && |BallotsOf(After(start, run).db.ballots, e)| == n
  {
    start := Overlap.Hall(e, 0, 1, n, r);
    run := Overlap.ManyVote(e, 0, 1, n, r, n);
    Overlap.HallIsVoted(e, 0, 1, n, r);
    Overlap.VotedCounts(After(start, run), e, 0, 1, n);
    AllSend(After(start, run), e, n);
    RollGrows(start, run, e);
    NobodyRegistered(run, e);
    HallRoll(e, n, r);
  }

  lemma AllSend(s: State, e: Id, n: nat)
    requires Overlap.Voted(s, e, 0, 1, n, n)
    ensures SendersIn(s, e, Overlap.Upto(n))
  {}

  lemma HallRoll(e: Id, n: nat, r: nat)
    requires r <= n
    ensures |Roll(Overlap.Hall(e, 0, 1, n, r), e)| == r
  {
    assert Roll(Overlap.Hall(e, 0, 1, n, r), e) == Overlap.Upto(r);
  }

  lemma {:induction false} NobodyRegistered(run: seq<Action>, e: Id)
    requires Sequential.OnlyRequests(run)
    ensures Registered(run, e) == 0
  {
    if run != [] {
      NobodyRegistered(run[1..], e);
    }
  }

  /** In all runs with n senders and a roll of r voters turnout is at most 100 per cent if and only if n is at most r. */
  lemma TurnoutHoldsIffSendersFit(e: Id, n: nat, r: nat)
    ensures n <= r <==> forall start, run, V :: Polled(start, run, V, e, n, r) ==> |BallotsOf(After(start, run).db.ballots, e)| <= r
  {
    if n <= r {
      forall start, run, V | Polled(start, run, V, e, n, r) ensures |BallotsOf(After(start, run).db.ballots, e)| <= r {
        BallotsBoundedBySenders(start, run, e, V);
      }
    } else {
      var start, run := AllVoteForeign(e, n, r);
    }
  }
}
