/** From requests to published figures: what a tally shows of a ballot box that any interleaving has filled. */
module Pipeline {
  import opened Types
  import opened Protocol
  import opened Counting
  import opened Rounding
  import Tally
  import Bounds
  import Secrecy
  import ResultService

  /**
   Taken after any interleaving: if the committed requests for e name the position at most once, and its
   limit never exceeds m, the tally shows at most m votes per ballot; if they also come from e's own roll,
   at most m votes per eligible voter and a turnout of at most 100 per cent.
   */
  lemma TallyWithinLimits(start: State, run: seq<Action>, candidates: seq<Tally.Candidate>, e: Id, pos: Tally.Position, m: nat)
    requires Initial(start) && ValidRun(start, run) && Bounds.CapHolds(start, run, pos.id, m)
    requires Bounds.NamesOnce(After(start, run), e, pos.id)
    ensures var db := After(start, run).db;
      var shown := Tally.TallyPosition(db.votes, db.ballots, candidates, e, pos).totalVotes;
      && shown <= m * |BallotsOf(db.ballots, e)|
      && (Bounds.OwnElection(After(start, run), e) ==>
            && shown <= m * |ResultService.EligibleVoters(db.voters, e)|
            && Percent(|BallotsOf(db.ballots, e)|, |ResultService.EligibleVoters(db.voters, e)|) <= 10000)
  {
    var s := After(start, run);
    Bounds.VotesBoundedByBallots(start, run, e, pos.id, m);
    if Bounds.OwnElection(s, e) {
      Bounds.TurnoutAtMostHundred(start, run, e);
      assert Bounds.Roll(s, e) == ResultService.EligibleVoters(s.db.voters, e);
      PercentAtMostHundred(|BallotsOf(s.db.ballots, e)|, |Bounds.Roll(s, e)|);
      Times(m, |BallotsOf(s.db.ballots, e)|, |Bounds.Roll(s, e)|);
    }
  }

  lemma {:induction false} Times(m: nat, a: nat, b: nat)
    requires a <= b
    ensures m * a <= m * b
  {
    if m > 0 {
      Times(m - 1, a, b);
      assert m * a == (m - 1) * a + a && m * b == (m - 1) * b + b;
    }
  }

  /** Who cast the ballots cannot be told from any tally: it reads no constituency, so any two alike runs are tallied alike. */
  lemma TallyIsSecret(start: State, r1: seq<Action>, r2: seq<Action>, candidates: seq<Tally.Candidate>, e: Id, ps: seq<Tally.Position>)
    requires start.procs == map[] && ValidRun(start, r1) && ValidRun(start, r2) && Secrecy.AlikeRuns(start, r1, r2)
    ensures var d1, d2 := After(start, r1).db, After(start, r2).db;
      Tally.TallyAll(d1.votes, d1.ballots, candidates, e, ps) == Tally.TallyAll(d2.votes, d2.ballots, candidates, e, ps)
  {
    Secrecy.OnlyConstituencyShows(start, r1, r2);
    var d1, d2 := After(start, r1).db, After(start, r2).db;
    AllTalliedAlike(d1.votes, d1.ballots, d2.ballots, candidates, e, ps);
  }

  lemma {:induction false} ChoicesIgnoreConstituency(votes: seq<Vote>, b1: map<Id, Ballot>, b2: map<Id, Ballot>, e: Id, pos: Id)
    requires Secrecy.ErasedAll(b1) == Secrecy.ErasedAll(b2)
    ensures Choices(votes, b1, e, pos) == Choices(votes, b2, e, pos)
  {
    if votes != [] {
      ChoicesIgnoreConstituency(votes[1..], b1, b2, e, pos);
      var b := votes[0].ballot;
      assert b in b1 <==> b in Secrecy.ErasedAll(b1);
      assert b in b2 <==> b in Secrecy.ErasedAll(b2);
      assert b in b1 ==> Secrecy.ErasedAll(b1)[b] == Secrecy.Erased(b1[b]) == Secrecy.Erased(b2[b]);
    }
  }

  lemma {:induction false} AllTalliedAlike(votes: seq<Vote>, b1: map<Id, Ballot>, b2: map<Id, Ballot>,
      candidates: seq<Tally.Candidate>, e: Id, ps: seq<Tally.Position>)
    requires Secrecy.ErasedAll(b1) == Secrecy.ErasedAll(b2)
    ensures Tally.TallyAll(votes, b1, candidates, e, ps) == Tally.TallyAll(votes, b2, candidates, e, ps)
  {
    if ps != [] {
      ChoicesIgnoreConstituency(votes, b1, b2, e, ps[0].id);
      AllTalliedAlike(votes, b1, b2, candidates, e, ps[1..]);
    }
  }
}
