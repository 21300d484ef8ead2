/**
 Ballot secrecy as a property of two runs. Two interleavings with the same schedule, clock and drawn nonces, whose
 casts carry the same choices but come from any voters at all, leave the same votes, and the same ballots but for
 the constituency column; and the same ballots altogether if each two casts that correspond lock voters of one
 constituency. Check-ins, issues, registrations and edits of voters may differ freely.
 */
module Secrecy {
  import opened Types
  import opened Protocol
  import opened Steps

  /** Two requests that differ at most in who sent them. */
  predicate SameChoices(r1: CastRequest, r2: CastRequest) {
    r1.token == r2.token && r1.election == r2.election && r1.selections == r2.selections
  }

  /** A ballot without its constituency. */
  function Erased(b: Ballot): Ballot {
    b.(constituency := None)
  }

  function ErasedAll(ballots: map<Id, Ballot>): map<Id, Ballot> {
    map b | b in ballots :: Erased(ballots[b])
  }

  /** Two processes that the ballot tables do not tell apart. A failed one never touches them. */
  predicate Alike(x1: Process, x2: Process) {
    || x1.Failed? || x2.Failed?
    || (!IsCast(x1) && !IsCast(x2))
    || match (x1, x2)
       case (CastNew(r1), CastNew(r2)) => SameChoices(r1, r2)
       case (CastSession(r1), CastSession(r2)) => SameChoices(r1, r2)
       case (CastLocked(r1, _), CastLocked(r2, _)) => SameChoices(r1, r2)
       case (CastChecking(r1, _, k1), CastChecking(r2, _, k2)) => SameChoices(r1, r2) && k1 == k2
       case (CastStaged(r1, b1), CastStaged(r2, b2)) => SameChoices(r1, r2) && Erased(b1) == Erased(b2)
       case _ => false
  }

  /** Actions that write neither ballots, votes nor positions, and start no cast. */
  predicate Unseen(a: Action) {
    a.AddElection? || a.AddVoter? || a.EditVoter? || a.EditSlate? || a.Tally?
  }

  /** The casts draw the same; what other requests draw or find may differ. */
  predicate AlikeAction(s1: State, a1: Action, a2: Action) {
    || a1 == a2
    || (Unseen(a1) && Unseen(a2))
    || (a1.Begin? && a2.Begin? && a1.p == a2.p && Alike(a1.start, a2.start))
    || (a1.Advance? && a2.Advance? && a1.p == a2.p && a1.p in s1.procs && !IsCast(s1.procs[a1.p]))
  }

  /** The second run goes like the first, action by action. */
  predicate AlikeRuns(s1: State, r1: seq<Action>, r2: seq<Action>)
    requires ValidRun(s1, r1)
    decreases |r1|
  {
    |r1| == |r2| && (r1 == [] || (AlikeAction(s1, r1[0], r2[0]) && AlikeRuns(Apply(s1, r1[0]), r1[1..], r2[1..])))
  }

  /** What the two runs have in common at every moment. */
  ghost predicate Matched(s1: State, s2: State) {
    && ErasedAll(s1.db.ballots) == ErasedAll(s2.db.ballots) && s1.db.votes == s2.db.votes
    && s1.db.positions == s2.db.positions && s1.clock == s2.clock
    && s1.procs.Keys == s2.procs.Keys
    && forall p :: p in s1.procs ==> Alike(s1.procs[p], s2.procs[p])
  }

  lemma SameSerials(b1: map<Id, Ballot>, b2: map<Id, Ballot>, serial: (Id, Id))
    requires ErasedAll(b1) == ErasedAll(b2)
    ensures b1.Keys == b2.Keys && (SerialTaken(b1, serial) <==> SerialTaken(b2, serial))
  {
    assert b1.Keys == ErasedAll(b1).Keys && b2.Keys == ErasedAll(b2).Keys;
    forall b | b in b1 ensures b1[b].serial == b2[b].serial {
      assert ErasedAll(b1)[b] == ErasedAll(b2)[b];
    }
  }

  /** Before its commit, a cast moves on alike in both runs. */
  lemma CastsMoveAlike(s1: State, s2: State, p: Id, drawn: Id)
    requires Matched(s1, s2) && p in s1.procs
    requires IsCast(s1.procs[p]) && IsCast(s2.procs[p]) && !s1.procs[p].CastStaged?
    ensures Alike(CastStep(s1, p, drawn).procs[p], CastStep(s2, p, drawn).procs[p])
  {
    assert Alike(s1.procs[p], s2.procs[p]);
  }

  lemma ErasedUpdate(ballots: map<Id, Ballot>, key: Id, ballot: Ballot)
    ensures ErasedAll(ballots[key := ballot]) == ErasedAll(ballots)[key := Erased(ballot)]
  {}

  /** Two alike casts that commit, commit the same rows but for the constituency. */
  lemma CommitsMatch(s1: State, s2: State, p: Id, drawn: Id)
    requires Matched(s1, s2) && p in s1.procs && Commits(s1, p) && s2.procs[p].CastStaged?
    ensures Commits(s2, p) && Matched(CastStep(s1, p, drawn), CastStep(s2, p, drawn))
  {
    assert Alike(s1.procs[p], s2.procs[p]);
    SameSerials(s1.db.ballots, s2.db.ballots, s1.procs[p].ballot.serial);
    CommitWrites(s1, p, drawn);
    CommitWrites(s2, p, drawn);
    ErasedUpdate(s1.db.ballots, drawn, s1.procs[p].ballot);
    ErasedUpdate(s2.db.ballots, drawn, s2.procs[p].ballot);
  }

  lemma CastsStepAlike(s1: State, s2: State, p: Id, drawn: Id)
    requires Matched(s1, s2) && p in s1.procs
    requires IsCast(s1.procs[p]) && IsCast(s2.procs[p])
    ensures Commits(s1, p) <==> Commits(s2, p)
    ensures Matched(CastStep(s1, p, drawn), CastStep(s2, p, drawn))
  {
    assert Alike(s1.procs[p], s2.procs[p]);
    if Commits(s1, p) {
      CommitsMatch(s1, s2, p, drawn);
    } else {
      if s1.procs[p].CastStaged? {
        SameSerials(s1.db.ballots, s2.db.ballots, s1.procs[p].ballot.serial);
      } else {
        CastsMoveAlike(s1, s2, p, drawn);
      }
      CastWritesOnlyAtCommit(s1, p, drawn);
      CastWritesOnlyAtCommit(s2, p, drawn);
    }
  }

  lemma AdvancesMatch(s1: State, s2: State, p: Id, d1: Id, d2: Id)
    requires Matched(s1, s2) && p in s1.procs && p in s2.procs && Ready(s1, p, d1) && Ready(s2, p, d2)
    requires IsCast(s1.procs[p]) ==> d1 == d2
    ensures Matched(Step(s1, p, d1), Step(s2, p, d2))
  {
    assert Alike(s1.procs[p], s2.procs[p]);
    if IsCast(s1.procs[p]) {
      CastsStepAlike(s1, s2, p, d1);
    } else {
      OtherFrame(s1, p, d1);
      OtherFrame(s2, p, d2);
    }
  }

  lemma UnseenMatch(s1: State, s2: State, a1: Action, a2: Action)
    requires Matched(s1, s2) && Enabled(s1, a1) && Enabled(s2, a2) && Unseen(a1) && Unseen(a2)
    ensures Matched(Apply(s1, a1), Apply(s2, a2))
  {}

  lemma MovesMatch(s1: State, s2: State, a1: Action, a2: Action)
    requires Matched(s1, s2) && Enabled(s1, a1) && Enabled(s2, a2) && AlikeAction(s1, a1, a2) && (a1.Begin? || a1.Crash?)
    ensures Matched(Apply(s1, a1), Apply(s2, a2))
  {}

  lemma BackgroundMatches(s1: State, s2: State, a1: Action, a2: Action)
    requires Matched(s1, s2) && Enabled(s1, a1) && Enabled(s2, a2) && AlikeAction(s1, a1, a2) && !a1.Advance?
    ensures Matched(Apply(s1, a1), Apply(s2, a2))
  {
    if Unseen(a1) {
      UnseenMatch(s1, s2, a1, a2);
    } else if a1.Begin? || a1.Crash? {
      MovesMatch(s1, s2, a1, a2);
    }
  }

  lemma StepsMatch(s1: State, s2: State, a1: Action, a2: Action)
    requires Matched(s1, s2) && Enabled(s1, a1) && Enabled(s2, a2) && AlikeAction(s1, a1, a2)
    ensures Matched(Apply(s1, a1), Apply(s2, a2))
  {
    if a1.Advance? {
      AdvancesMatch(s1, s2, a1.p, a1.drawn, a2.drawn);
    } else {
      BackgroundMatches(s1, s2, a1, a2);
    }
  }

  lemma {:induction false} RunsMatch(s1: State, s2: State, r1: seq<Action>, r2: seq<Action>)
    requires Matched(s1, s2) && ValidRun(s1, r1) && ValidRun(s2, r2) && AlikeRuns(s1, r1, r2)
    ensures Matched(After(s1, r1), After(s2, r2))
    decreases |r1|
  {
    if r1 != [] {
      StepsMatch(s1, s2, r1[0], r2[0]);
      RunsMatch(Apply(s1, r1[0]), Apply(s2, r2[0]), r1[1..], r2[1..]);
    }
  }

  /** Whoever cast what: the votes are the same, and so is every column of the ballots but the constituency. */
  lemma OnlyConstituencyShows(start: State, r1: seq<Action>, r2: seq<Action>)
    requires start.procs == map[] && ValidRun(start, r1) && ValidRun(start, r2) && AlikeRuns(start, r1, r2)
    ensures After(start, r1).db.votes == After(start, r2).db.votes
    ensures ErasedAll(After(start, r1).db.ballots) == ErasedAll(After(start, r2).db.ballots)
  {
    RunsMatch(start, start, r1, r2);
  }

  // ---------- the constituency column ----------

  /** If this action locks a voter's row in both runs, the two voters are of one constituency at that moment. */
  predicate SameDistrict(s1: State, s2: State, a: Action) {
    a.Advance? && a.p in s1.procs && a.p in s2.procs && s1.procs[a.p].CastSession? && s2.procs[a.p].CastSession? ==>
      var v1, v2 := s1.procs[a.p].req.voter, s2.procs[a.p].req.voter;
      v1 in s1.db.voters && v2 in s2.db.voters ==> s1.db.voters[v1].constituency == s2.db.voters[v2].constituency
  }

  predicate SameDistricts(s1: State, s2: State, r1: seq<Action>, r2: seq<Action>)
    requires ValidRun(s1, r1) && ValidRun(s2, r2) && |r1| == |r2|
    decreases |r1|
  {
    r1 == [] || (SameDistrict(s1, s2, r1[0]) && SameDistricts(Apply(s1, r1[0]), Apply(s2, r2[0]), r1[1..], r2[1..]))
  }

  /** The constituency that a cast has loaded and will put on its ballot. */
  function Carried(x: Process): Option<Id>
    requires HoldsLock(x)
  {
    if x.CastStaged? then x.ballot.constituency else x.row.constituency
  }

  ghost predicate SameCarried(s1: State, s2: State) {
    && s1.db.ballots == s2.db.ballots
    && forall p :: p in s1.procs && p in s2.procs && HoldsLock(s1.procs[p]) && HoldsLock(s2.procs[p]) ==>
         Carried(s1.procs[p]) == Carried(s2.procs[p])
  }

  lemma CastCarries(s: State, p: Id, drawn: Id)
    requires p in s.procs && IsCast(s.procs[p]) && HoldsLock(CastStep(s, p, drawn).procs[p])
    ensures s.procs[p].CastSession? ==>
      s.procs[p].req.voter in s.db.voters
      && Carried(CastStep(s, p, drawn).procs[p]) == s.db.voters[s.procs[p].req.voter].constituency
    ensures !s.procs[p].CastSession? ==> HoldsLock(s.procs[p]) && Carried(CastStep(s, p, drawn).procs[p]) == Carried(s.procs[p])
  {}

  lemma CastsCarryAlike(s1: State, s2: State, p: Id, drawn: Id)
    requires Matched(s1, s2) && SameCarried(s1, s2) && p in s1.procs
    requires IsCast(s1.procs[p]) && IsCast(s2.procs[p]) && SameDistrict(s1, s2, Advance(p, drawn))
    ensures SameCarried(CastStep(s1, p, drawn), CastStep(s2, p, drawn))
  {
    assert Alike(s1.procs[p], s2.procs[p]);
    CastsStepAlike(s1, s2, p, drawn);
    if Commits(s1, p) {
      CommitWrites(s1, p, drawn);
      CommitWrites(s2, p, drawn);
      assert Carried(s1.procs[p]) == Carried(s2.procs[p]);
    } else {
      CastWritesOnlyAtCommit(s1, p, drawn);
      CastWritesOnlyAtCommit(s2, p, drawn);
      if HoldsLock(CastStep(s1, p, drawn).procs[p]) && HoldsLock(CastStep(s2, p, drawn).procs[p]) {
        CastCarries(s1, p, drawn);
        CastCarries(s2, p, drawn);
      }
    }
  }

  lemma AdvancesCarryAlike(s1: State, s2: State, p: Id, d1: Id, d2: Id)
    requires Matched(s1, s2) && SameCarried(s1, s2) && p in s1.procs && p in s2.procs
    requires Ready(s1, p, d1) && Ready(s2, p, d2) && SameDistrict(s1, s2, Advance(p, d1))
    requires IsCast(s1.procs[p]) ==> d1 == d2
    ensures SameCarried(Step(s1, p, d1), Step(s2, p, d2))
  {
    assert Alike(s1.procs[p], s2.procs[p]);
    if IsCast(s1.procs[p]) {
      CastsCarryAlike(s1, s2, p, d1);
    } else {
      OtherFrame(s1, p, d1);
      OtherFrame(s2, p, d2);
    }
  }

  lemma BackgroundCarriesAlike(s1: State, s2: State, a1: Action, a2: Action)
    requires Matched(s1, s2) && SameCarried(s1, s2) && Enabled(s1, a1) && Enabled(s2, a2) && AlikeAction(s1, a1, a2)
    requires !a1.Advance?
    ensures SameCarried(Apply(s1, a1), Apply(s2, a2))
  {
    if Unseen(a1) {
      UnseenCarryAlike(s1, s2, a1, a2);
    } else if a1.Begin? || a1.Crash? {
      MovesCarryAlike(s1, s2, a1, a2);
    }
  }

  lemma UnseenCarryAlike(s1: State, s2: State, a1: Action, a2: Action)
    requires SameCarried(s1, s2) && Enabled(s1, a1) && Enabled(s2, a2) && Unseen(a1) && Unseen(a2)
    ensures SameCarried(Apply(s1, a1), Apply(s2, a2))
  {}

  lemma MovesCarryAlike(s1: State, s2: State, a1: Action, a2: Action)
    requires SameCarried(s1, s2) && Enabled(s1, a1) && Enabled(s2, a2) && AlikeAction(s1, a1, a2) && (a1.Begin? || a1.Crash?)
    ensures SameCarried(Apply(s1, a1), Apply(s2, a2))
  {}

  lemma StepsCarryAlike(s1: State, s2: State, a1: Action, a2: Action)
    requires Matched(s1, s2) && SameCarried(s1, s2) && Enabled(s1, a1) && Enabled(s2, a2) && AlikeAction(s1, a1, a2)
    requires SameDistrict(s1, s2, a1)
    ensures SameCarried(Apply(s1, a1), Apply(s2, a2))
  {
    if a1.Advance? {
      AdvancesCarryAlike(s1, s2, a1.p, a1.drawn, a2.drawn);
    } else {
      BackgroundCarriesAlike(s1, s2, a1, a2);
    }
  }

  lemma {:induction false} RunsCarryAlike(s1: State, s2: State, r1: seq<Action>, r2: seq<Action>)
    requires Matched(s1, s2) && SameCarried(s1, s2) && ValidRun(s1, r1) && ValidRun(s2, r2) && AlikeRuns(s1, r1, r2)
    requires SameDistricts(s1, s2, r1, r2)
    ensures SameCarried(After(s1, r1), After(s2, r2))
    decreases |r1|
  {
    if r1 != [] {
      StepsMatch(s1, s2, r1[0], r2[0]);
      StepsCarryAlike(s1, s2, r1[0], r2[0]);
      RunsCarryAlike(Apply(s1, r1[0]), Apply(s2, r2[0]), r1[1..], r2[1..]);
    }
  }

  /** The ballot box does not depend on who cast what among voters of one constituency. */
  lemma BallotSecrecy(start: State, r1: seq<Action>, r2: seq<Action>)
    requires start.procs == map[] && ValidRun(start, r1) && ValidRun(start, r2) && AlikeRuns(start, r1, r2)
    requires SameDistricts(start, start, r1, r2)
    ensures After(start, r1).db.ballots == After(start, r2).db.ballots
    ensures After(start, r1).db.votes == After(start, r2).db.votes
  {
    RunsMatch(start, start, r1, r2);
    RunsCarryAlike(start, start, r1, r2);
  }
}
