/**
 What the tables do say about who cast a ballot. No column of a ballot names its voter, but the cast writes one
 reading of the clock to both rows, cast_timestamp and voted_at.
 */
module Linkage {
  import opened Types
  import opened Protocol
  import opened Steps
  import opened Safety

  predicate StampedAs(s: State, b: Id) {
    b in s.origin && b in s.db.ballots && s.origin[b].voter in s.db.voters
    && s.db.voters[s.origin[b].voter].votedAt == Some(s.db.ballots[b].castAt)
  }

  /** Every ballot carries the time of its voter's row; a voter who has not voted carries none. */
  ghost predicate Stamped(s: State) {
    && (forall b :: b in s.origin ==> StampedAs(s, b))
    && (forall v :: v in s.db.voters && !s.db.voters[v].hasVoted ==> s.db.voters[v].votedAt.None?)
  }

  predicate SameStamp(row: Voter, row': Voter) {
    row'.votedAt == row.votedAt && row'.hasVoted == row.hasVoted
  }

  /** What every step but a commit leaves alone. */
  ghost predicate SameStamps(s: State, s': State) {
    && s'.origin == s.origin && s'.db.ballots == s.db.ballots
    && (forall v :: v in s.db.voters ==> v in s'.db.voters && SameStamp(s.db.voters[v], s'.db.voters[v]))
    && (forall v :: v in s'.db.voters && v !in s.db.voters ==> s'.db.voters[v].votedAt.None?)
  }

  lemma SameStampsKeepStamped(s: State, s': State)
    requires Stamped(s) && SameStamps(s, s')
    ensures Stamped(s')
  {
    forall b | b in s'.origin ensures StampedAs(s', b) {
      assert StampedAs(s, b);
    }
  }

  /** The committing voter had no ballot, so no other ballot's stamp is overwritten. */
  lemma CommitKeepsStamped(s: State, p: Id, drawn: Id)
    requires Inv(s) && Stamped(s) && p in s.procs && Commits(s, p) && Ready(s, p, drawn)
    ensures Stamped(CastStep(s, p, drawn))
  {
    CommitWrites(s, p, drawn);
    var s' := CastStep(s, p, drawn);
    var v := s.procs[p].req.voter;
    assert LockedRow(s, p) && !HasVoted(s, v);
    forall b | b in s'.origin ensures StampedAs(s', b) {
      if b != drawn {
        assert StampedAs(s, b);
        assert ByVoter(s, b, s.origin[b].voter) && HasVoted(s, s.origin[b].voter);
      }
    }
  }

  lemma StepKeepsStamped(s: State, a: Action)
    requires Inv(s) && Stamped(s) && Enabled(s, a)
    ensures Stamped(Apply(s, a))
  {
    if !a.Advance? {
      BackgroundFrame(s, a);
      SameStampsKeepStamped(s, Apply(s, a));
    } else if !IsCast(s.procs[a.p]) {
      OtherFrame(s, a.p, a.drawn);
      SameStampsKeepStamped(s, Apply(s, a));
    } else if Commits(s, a.p) {
      CommitKeepsStamped(s, a.p, a.drawn);
    } else {
      CastWritesOnlyAtCommit(s, a.p, a.drawn);
      SameStampsKeepStamped(s, Apply(s, a));
    }
  }

  lemma {:induction false} RunKeepsStamped(s: State, run: seq<Action>)
    requires Inv(s) && Stamped(s) && ValidRun(s, run)
    ensures Inv(After(s, run)) && Stamped(After(s, run))
    decreases |run|
  {
    if run != [] {
      StepKeepsInv(s, run[0]);
      StepKeepsStamped(s, run[0]);
      RunKeepsStamped(Apply(s, run[0]), run[1..]);
    }
  }

  /** The voters whose row carries the time t. */
  function StampedAt(s: State, t: nat): set<Id> {
    set v | v in s.db.voters && s.db.voters[v].votedAt == Some(t)
  }

  /** The voters of the ballots cast at t. */
  function SendersAt(s: State, t: nat): set<Id> {
    set b | b in s.origin && b in s.db.ballots && s.db.ballots[b].castAt == t :: s.origin[b].voter
  }

  /** In every reachable state the two time columns link exactly the ballots of an instant to their voters. */
  lemma TimesLinkBallots(start: State, run: seq<Action>, t: nat)
    requires Initial(start) && ValidRun(start, run)
    ensures var s := After(start, run); StampedAt(s, t) == SendersAt(s, t)
  {
    InitialInv(start);
    RunKeepsStamped(start, run);
    var s := After(start, run);
    forall v | v in StampedAt(s, t) ensures v in SendersAt(s, t) {
      assert HasVoted(s, v);
      var b :| ByVoter(s, b, v);
      assert StampedAs(s, b);
    }
    forall v | v in SendersAt(s, t) ensures v in StampedAt(s, t) {
      var b :| b in s.origin && b in s.db.ballots && s.db.ballots[b].castAt == t && s.origin[b].voter == v;
      assert StampedAs(s, b);
    }
  }

  predicate AloneAtItsInstant(s: State, b: Id)
    requires b in s.db.ballots
  {
    forall c :: c in s.db.ballots && c != b ==> s.db.ballots[c].castAt != s.db.ballots[b].castAt
  }

  /** They name a ballot's voter, and nobody else, if and only if no other ballot was cast at the same instant. */
  lemma VoterKnownIffAlone(start: State, run: seq<Action>, b: Id)
    requires Initial(start) && ValidRun(start, run) && b in After(start, run).db.ballots
    ensures var s := After(start, run);
      b in s.origin && (StampedAt(s, s.db.ballots[b].castAt) == {s.origin[b].voter} <==> AloneAtItsInstant(s, b))
  {
    InitialInv(start);
    RunKeepsStamped(start, run);
    var s := After(start, run);
    var t := s.db.ballots[b].castAt;
    var v := s.origin[b].voter;
    TimesLinkBallots(start, run, t);
    assert v in SendersAt(s, t);
    if SendersAt(s, t) == {v} {
      forall c | c in s.db.ballots && s.db.ballots[c].castAt == t ensures c == b {
        assert s.origin[c].voter in SendersAt(s, t);
        assert ByVoter(s, c, v) && ByVoter(s, b, v);
      }
    }
  }
}
