/**
 Which ballots an election that is closed for good can still get. The election of a request is not compared with that
 of its session, so a session of another election serves; nothing else does.
 */
module LateBallots {
  import opened Types
  import opened Protocol
  import opened Steps
  import opened Drain
  import opened Counting
  import Bounds
  import Overlap
  import Sequential
  import VotingEngine

  /** e was drained and settled at some moment of the run, and that is more than fifteen minutes ago. */
  ghost predicate LongDrained(start: State, before: seq<Action>, later: seq<Action>, e: Id) {
    && Initial(start) && ValidRun(start, before) && ValidRun(After(start, before), later)
    && IsDrained(After(start, before), e) && Settled(After(start, before), e)
    && After(After(start, before), later).clock > After(start, before).clock + SESSION_TTL
  }

  /** A session that is open then is another election's. */
  lemma OpenSessionIsForeign(start: State, before: seq<Action>, later: seq<Action>, e: Id, token: Id)
    requires LongDrained(start, before, later, e)
    requires var s := After(After(start, before), later); SessionOpen(s.db, token, s.clock)
    ensures After(After(start, before), later).db.sessions[token].election != e
  {
    var s := After(start, before);
    RunIsTimely(start, before);
    SettledStaysDrained(s, later, e);
  }

  /**
   A cast that starts then and runs undisturbed adds a ballot to the box of e if and only if it is accepted, names e
   in its request, and presents a session of another election.
   */
  lemma LateBallotIff(start: State, before: seq<Action>, later: seq<Action>, e: Id, p: Id, req: CastRequest, nonce: Id, key: Id)
      returns (run: seq<Action>)
    requires LongDrained(start, before, later, e)
    requires var s := After(After(start, before), later); p !in s.procs && req.voter !in s.locks && key !in s.db.ballots
    ensures var s := After(After(start, before), later);
      && ValidRun(s, run) && VotingEngine.Solo(run, p)
      && (Adds(s, After(s, run), e) <==> AcceptedForeign(s, req, nonce) && req.election == e)
  {
    var s := After(After(start, before), later);
    run := VotingEngine.CastRefinesProtocol(s, p, req, nonce, key);
    if SessionOpen(s.db, req.token, s.clock) && req.election == e {
      OpenSessionIsForeign(start, before, later, e, req.token);
    }
    var d := VotingEngine.CastDecision(s.db, req, s.clock, nonce);
    if d.Ok? {
      OneMoreBallot(s.db.ballots, key, d.value, e);
    }
  }

  /** There is one ballot more for e. */
  predicate Adds(s: State, s': State, e: Id) {
    |BallotsOf(s'.db.ballots, e)| == |BallotsOf(s.db.ballots, e)| + 1
  }

  predicate AcceptedForeign(s: State, req: CastRequest, nonce: Id) {
    VotingEngine.CastDecision(s.db, req, s.clock, nonce).Ok? && s.db.sessions[req.token].election != req.election
  }

  /** In any interleaving the box of e grows by the commits of the requests that name e, and by nothing else. */
  lemma BoxGrowsByItsRequests(start: State, before: seq<Action>, later: seq<Action>, e: Id)
    requires Initial(start) && ValidRun(start, before) && ValidRun(After(start, before), later)
    ensures var s := After(start, before);
      |BallotsOf(After(s, later).db.ballots, e)| == |BallotsOf(s.db.ballots, e)| + Overlap.CommitsFor(s, later, e)
  {
    Bounds.RunRecords(start, before);
    Overlap.BallotsGrowByCommits(After(start, before), later, e);
  }

  // ---------- casts under way ----------

  /** From here on e is drained, its sessions are over, and a cast outside `early` holds another election's session. */
  ghost predicate LateInv(s: State, e: Id, limit: nat, early: set<Id>) {
    && IsDrained(s, e) && Settled(s, e) && TimeInv(s) && s.clock > limit
    && (forall t :: t in s.db.sessions && s.db.sessions[t].election == e ==> s.db.sessions[t].expiresAt <= limit)
    && (forall p :: p in s.procs && p !in early && PastSession(s.procs[p]) ==> HoldsForeign(s, s.procs[p], e))
  }

  predicate HoldsForeign(s: State, x: Process, e: Id)
    requires PastSession(x)
  {
    x.req.token in s.db.sessions && s.db.sessions[x.req.token].election != e
  }

  /** Sessions stay and keep their election. */
  predicate SessionsStay(s: State, s': State) {
    forall t :: t in s.db.sessions ==> t in s'.db.sessions && s'.db.sessions[t].election == s.db.sessions[t].election
  }

  lemma CastKeepsForeign(s: State, e: Id, limit: nat, early: set<Id>, p: Id, drawn: Id)
    requires LateInv(s, e, limit, early) && p in s.procs && IsCast(s.procs[p]) && Ready(s, p, drawn)
    ensures var s' := CastStep(s, p, drawn);
      SessionsStay(s, s') && (p !in early && PastSession(s'.procs[p]) ==> HoldsForeign(s', s'.procs[p], e))
      && s'.procs == s.procs[p := s'.procs[p]]
  {
    if Commits(s, p) {
      CommitWrites(s, p, drawn);
    } else {
      CastWritesOnlyAtCommit(s, p, drawn);
    }
  }

  lemma StepKeepsLate(s: State, e: Id, limit: nat, early: set<Id>, a: Action)
    requires LateInv(s, e, limit, early) && Enabled(s, a)
    ensures LateInv(Apply(s, a), e, limit, early)
  {
    StepIsTimely(s, a);
    StepIsHarmless(s, a, e);
    ClockAdvances(s, a);
    if !a.Advance? {
      BackgroundFrame(s, a);
    } else if IsCast(s.procs[a.p]) {
      CastKeepsForeign(s, e, limit, early, a.p, a.drawn);
    } else {
      OtherFrame(s, a.p, a.drawn);
    }
  }

  lemma {:induction false} RunKeepsLate(s: State, e: Id, limit: nat, early: set<Id>, run: seq<Action>)
    requires LateInv(s, e, limit, early) && ValidRun(s, run)
    ensures LateInv(After(s, run), e, limit, early)
    decreases |run|
  {
    if run != [] {
      StepKeepsLate(s, e, limit, early, run[0]);
      RunKeepsLate(Apply(s, run[0]), e, limit, early, run[1..]);
    }
  }

  /**
   So in any interleaving, every ballot that the box of e gets more than fifteen minutes after e drained is committed
   by a cast that had found its session before those minutes were over, or by one on another election's session.
   */
  lemma LateCommitsAreEarlyOrForeign(start: State, before: seq<Action>, later: seq<Action>, rest: seq<Action>, e: Id, p: Id)
    requires LongDrained(start, before, later, e)
    requires var s := After(After(start, before), later);
      ValidRun(s, rest) && p in After(s, rest).procs && Commits(After(s, rest), p)
    ensures var s := After(After(start, before), later); var s' := After(s, rest);
      (p in s.procs && PastSession(s.procs[p])) || HoldsForeign(s', s'.procs[p], e)
  {
    var s0 := After(start, before);
    var s := After(s0, later);
    RunIsTimely(start, before);
    RunIsTimely(s0, later);
    DrainedAndSettledLater(s0, later, e);
    SettledStaysDrained(s0, later, e);
    var early := set q | q in s.procs && PastSession(s.procs[q]);
    RunKeepsLate(s, e, s0.clock + SESSION_TTL, early, rest);
  }

  lemma {:induction false} DrainedAndSettledLater(s: State, run: seq<Action>, e: Id)
    requires IsDrained(s, e) && Settled(s, e) && TimeInv(s) && ValidRun(s, run)
    ensures IsDrained(After(s, run), e) && Settled(After(s, run), e)
    decreases |run|
  {
    if run != [] {
      StepIsTimely(s, run[0]);
      StepIsHarmless(s, run[0], e);
      DrainedAndSettledLater(Apply(s, run[0]), run[1..], e);
    }
  }

  // ---------- both kinds do occur ----------

  /** A request that found its session before the close can commit any time after it. */
  lemma EarlyCastCommitsLate() returns (before: seq<Action>, later: seq<Action>, rest: seq<Action>)
    ensures LongDrained(Sequential.Scene(), before, later, 1)
    ensures var s := After(After(Sequential.Scene(), before), later);
      ValidRun(s, rest) && Adds(s, After(s, rest), 1)
  {
    Sequential.SceneIsInitial();
    var s0 := Sequential.Scene();
    var req := Sequential.Abstain(1);
    var r1 := Sequential.Opening(s0, 10, req);
    var s1 := After(s0, r1);
    var r2 := Moving(s1, 21, 1, Closed);
    before := Sequential.Then(s0, r1, r2);
    var s2 := After(s0, before);
    later := [Tick(SESSION_TTL + 1)];
    Sequential.OneStep(s2, later[0]);
    var s3 := After(s2, later);
    rest := Sequential.CastAlone(s3, 10, req, 5, 6);
    OneMoreBallot(s3.db.ballots, 6, Ballot(1, s3.db.voters[1].constituency, (1, 5), s3.clock, true), 1);
  }

  /** Election 2 is closed, election 1 is LIVE, and its voter 1 has number 4. */
  function TwoElections(): State {
    var s := Sequential.Scene();
    s.(db := s.db.(elections := map[1 := Live, 2 := Closed], voters := s.db.voters[1 := s.db.voters[1].(number := Some(4))]))
  }

  /** The issue of a session, step by step, for the row v that its lookup finds. */
  lemma IssueAlone(s: State, p: Id, e: Id, n: Id, v: Id, token: Id) returns (run: seq<Action>)
    requires p !in s.procs && token !in s.db.sessions && e in s.db.elections && s.db.elections[e].Live?
    requires Enrolled(s.db.voters, v, e, n) && IssueGuard(s.db.voters[v], e)
    ensures ValidRun(s, run)
    ensures After(s, run) == s.(procs := s.procs[p := Done],
      db := s.db.(sessions := s.db.sessions[token := Session(e, Active, s.clock + SESSION_TTL)]))
  {
    var first := IssueBegins(s, p, e, n);
    var s1 := s.(procs := s.procs[p := IssueLive(e, n)]);
    var rest := LiveIssueAlone(s1, p, e, n, v, token);
    run := Sequential.Then(s, first, rest);
    assert s1.procs[p := Done] == s.procs[p := Done];
  }

  lemma IssueBegins(s: State, p: Id, e: Id, n: Id) returns (run: seq<Action>)
    requires p !in s.procs && e in s.db.elections && s.db.elections[e].Live?
    ensures ValidRun(s, run) && After(s, run) == s.(procs := s.procs[p := IssueLive(e, n)])
  {
    var s1 := s.(procs := s.procs[p := IssueNew(e, n)]);
    Sequential.OneStep(s, Begin(p, IssueNew(e, n)));
    Sequential.OneStep(s1, Advance(p, 0));
    run := Sequential.Then(s, [Begin(p, IssueNew(e, n))], [Advance(p, 0)]);
    assert s1.procs[p := IssueLive(e, n)] == s.procs[p := IssueLive(e, n)];
  }

  lemma LiveIssueAlone(s: State, p: Id, e: Id, n: Id, v: Id, token: Id) returns (run: seq<Action>)
    requires p in s.procs && s.procs[p] == IssueLive(e, n) && token !in s.db.sessions
    requires Enrolled(s.db.voters, v, e, n) && IssueGuard(s.db.voters[v], e)
    ensures ValidRun(s, run)
    ensures After(s, run) == s.(procs := s.procs[p := Done],
      db := s.db.(sessions := s.db.sessions[token := Session(e, Active, s.clock + SESSION_TTL)]))
  {
    Sequential.OneStep(s, Advance(p, v));
    var s1 := After(s, [Advance(p, v)]);
    assert s1 == s.(procs := s.procs[p := IssueCleared(e)]);
    var rest := ClearedIssueAlone(s1, p, e, token);
    run := Sequential.Then(s, [Advance(p, v)], rest);
    assert s1.procs[p := Done] == s.procs[p := Done];
  }

  lemma ClearedIssueAlone(s: State, p: Id, e: Id, token: Id) returns (run: seq<Action>)
    requires p in s.procs && s.procs[p] == IssueCleared(e) && token !in s.db.sessions
    ensures ValidRun(s, run)
    ensures After(s, run) == s.(procs := s.procs[p := Done],
      db := s.db.(sessions := s.db.sessions[token := Session(e, Active, s.clock + SESSION_TTL)]))
  {
    var stamped := IssueStamped(e, s.clock + SESSION_TTL);
    Sequential.OneStep(s, Advance(p, 0));
    assert After(s, [Advance(p, 0)]) == s.(procs := s.procs[p := stamped]);
    Sequential.Extend(s, [Advance(p, 0)], Advance(p, token));
    run := [Advance(p, 0)] + [Advance(p, token)];
    assert s.procs[p := stamped][p := Done] == s.procs[p := Done];
  }

  /** A whole cast of an empty selection, and what it adds. */
  lemma CastAdds(s: State, p: Id, req: CastRequest, nonce: Id, key: Id) returns (run: seq<Action>)
    requires p !in s.procs && req.selections == [] && SessionOpen(s.db, req.token, s.clock)
    requires req.voter !in s.locks && req.voter in s.db.voters && !AlreadyVoted(s.db.voters[req.voter])
    requires !SerialTaken(s.db.ballots, (req.election, nonce)) && key !in s.db.ballots
    ensures ValidRun(s, run) && Adds(s, After(s, run), req.election)
  {
    var r1 := Sequential.Opening(s, p, req);
    var s1 := After(s, r1);
    var r2 := Sequential.CastAlone(s1, p, req, nonce, key);
    run := Sequential.Then(s, r1, r2);
    var ballot := Ballot(req.election, s.db.voters[req.voter].constituency, (req.election, nonce), s.clock, true);
    OneMoreBallot(s.db.ballots, key, ballot, req.election);
  }

  /** A session of another election serves for a ballot of the closed one, as long after it as one likes. */
  lemma ForeignSessionServes() returns (later: seq<Action>, rest: seq<Action>)
    ensures LongDrained(TwoElections(), [], later, 2)
    ensures var s := After(After(TwoElections(), []), later);
      ValidRun(s, rest) && Adds(s, After(s, rest), 2)
  {
    var s0 := TwoElections();
    later := [Tick(SESSION_TTL + 1)];
    Sequential.OneStep(s0, later[0]);
    var s1 := After(s0, later);
    rest := IssueThenCast(s1);
  }

  /** Voter 1 of election 1 gets a session there and casts with it for election 2. */
  lemma IssueThenCast(s: State) returns (run: seq<Action>)
    requires 30 !in s.procs && 31 !in s.procs && 8 !in s.db.sessions && 1 !in s.locks && s.db.ballots == map[]
    requires 1 in s.db.elections && s.db.elections[1].Live?
    requires Enrolled(s.db.voters, 1, 1, 4) && IssueGuard(s.db.voters[1], 1)
    ensures ValidRun(s, run) && Adds(s, After(s, run), 2)
  {
    var r1 := IssueAlone(s, 30, 1, 4, 1, 8);
    var s1 := After(s, r1);
    var r2 := CastAdds(s1, 31, CastRequest(8, 2, [], 1), 5, 6);
    run := Sequential.Then(s, r1, r2);
  }
}
