/**
 A tally that overlaps with casts. It counts the ballots of an election with one statement and the votes of each
 position with a later one, and PostgreSQL shows each statement what is committed by then. The limits hold for its
 figures up to the casts that commit in between, and in all cases only if there are none.
 */
module Overlap {
  import opened Types
  import opened Protocol
  import opened Steps
  import opened Counting
  import opened Bounds
  import opened Cardinality
  import Sequential
  import Safety

  predicate CommitsInto(s: State, a: Action, e: Id) {
    a.Advance? && a.p in s.procs && Commits(s, a.p) && s.procs[a.p].req.election == e
  }

  /** How many casts for election e commit along the run. */
  function CommitsFor(s: State, run: seq<Action>, e: Id): nat
    requires ValidRun(s, run)
    decreases |run|
  {
    if run == [] then 0
    else (if CommitsInto(s, run[0], e) then 1 else 0) + CommitsFor(Apply(s, run[0]), run[1..], e)
  }

  lemma CommitAddsBallot(s: State, p: Id, drawn: Id, e: Id)
    requires Recorded(s) && p in s.procs && Commits(s, p) && Ready(s, p, drawn)
    ensures |BallotsOf(CastStep(s, p, drawn).db.ballots, e)|
      == |BallotsOf(s.db.ballots, e)| + if s.procs[p].req.election == e then 1 else 0
  {
    CommitWrites(s, p, drawn);
    assert BallotMatches(s.procs[p].req, s.procs[p].ballot);
    OneMoreBallot(s.db.ballots, drawn, s.procs[p].ballot, e);
  }

  lemma OtherActionsAddNone(s: State, a: Action)
    requires Enabled(s, a) && !(a.Advance? && Commits(s, a.p))
    ensures Apply(s, a).db.ballots == s.db.ballots
  {
    if !a.Advance? {
      BackgroundFrame(s, a);
    } else if IsCast(s.procs[a.p]) {
      CastWritesOnlyAtCommit(s, a.p, a.drawn);
    } else {
      OtherFrame(s, a.p, a.drawn);
    }
  }

  lemma {:induction false} BallotsGrowByCommits(s: State, run: seq<Action>, e: Id)
    requires Recorded(s) && ValidRun(s, run)
    ensures |BallotsOf(After(s, run).db.ballots, e)| == |BallotsOf(s.db.ballots, e)| + CommitsFor(s, run, e)
    decreases |run|
  {
    if run != [] {
      var a := run[0];
      StepRecords(s, a);
      if a.Advance? && Commits(s, a.p) {
        CommitAddsBallot(s, a.p, a.drawn, e);
      } else {
        OtherActionsAddNone(s, a);
      }
      BallotsGrowByCommits(Apply(s, a), run[1..], e);
    }
  }

  /** Ballots counted before `between`, votes counted after it: the figures are of one moment exactly if no cast for e committed. */
  lemma SameMomentIff(start: State, before: seq<Action>, between: seq<Action>, e: Id)
    requires Initial(start) && ValidRun(start, before) && ValidRun(After(start, before), between)
    ensures var s1 := After(start, before); var s2 := After(s1, between);
      BallotsOf(s2.db.ballots, e) == BallotsOf(s1.db.ballots, e) <==> CommitsFor(s1, between, e) == 0
  {
    RunRecords(start, before);
    Safety.InitialInv(start);
    Safety.RunKeepsInv(start, before);
    var s1 := After(start, before);
    var s2 := After(s1, between);
    Safety.RunGrows(s1, between);
    BallotsGrowByCommits(s1, between, e);
    ProperSubsetIsSmaller(BallotsOf(s1.db.ballots, e), BallotsOf(s2.db.ballots, e));
  }

  /** The limit on a position's votes, with one ballot more for each cast for e that commits in between. */
  lemma VotesBoundedByFigure(start: State, before: seq<Action>, between: seq<Action>, e: Id, pos: Id, m: nat)
    requires Initial(start) && ValidRun(start, before) && ValidRun(After(start, before), between)
    requires CapHolds(start, before + between, pos, m) && NamesOnce(After(After(start, before), between), e, pos)
    ensures var s1 := After(start, before); var s2 := After(s1, between);
      |Choices(s2.db.votes, s2.db.ballots, e, pos)| <= m * (|BallotsOf(s1.db.ballots, e)| + CommitsFor(s1, between, e))
  {
    RunsCompose(start, before, between);
    VotesBoundedByBallots(start, before + between, e, pos, m);
    RunRecords(start, before);
    BallotsGrowByCommits(After(start, before), between, e);
  }

  // ---------- without that allowance the limit can fail ----------

  /** n voters, of whom r are on the roll of e, with n open sessions, none of whom has voted. */
  function Hall(e: Id, pos: Id, m: nat, n: nat, r: nat): State {
    State(
      Tables(map[], {}, {}, map[pos := m], map v: Id | v in Upto(n) :: Voter(Some(if v < r then e else e + 1), None, None, Valid, NotVoted, false, None), {},
        map t: Id | t in Upto(n) :: Session(e, Active, SESSION_TTL), map[], []),
      0, map[], map[], map[])
  }

  function Upto(n: nat): (s: set<nat>)
    ensures |s| == n && forall k: nat :: k in s <==> k < n
  {
    if n == 0 then {} else Upto(n - 1) + {n - 1}
  }

  function Choose(e: Id, pos: Id, v: Id): CastRequest {
    CastRequest(v, e, [Selection(pos, [0])], v)
  }

  /** The first i of them have voted, one after another, each with one choice for the position. */
  ghost predicate Voted(s: State, e: Id, pos: Id, m: nat, n: nat, i: nat) {
    i <= n && Shape(s, pos, m, n, i) && Waiting(s, e, n, i) && Filled(s, e, pos) && Rowed(s, pos, i)
  }

  predicate Shape(s: State, pos: Id, m: nat, n: nat, i: nat) {
    && s.locks == map[] && s.clock == 0 && s.procs.Keys == Upto(i) && s.db.positions == map[pos := m]
    && s.db.ballots.Keys == Upto(i) && s.origin.Keys == Upto(i)
  }

  predicate Waiting(s: State, e: Id, n: nat, i: nat) {
    forall v :: i <= v < n ==>
      && v in s.db.voters && !AlreadyVoted(s.db.voters[v])
      && v in s.db.sessions && s.db.sessions[v] == Session(e, Active, SESSION_TTL)
  }

  predicate Filled(s: State, e: Id, pos: Id) {
    && (forall b :: b in s.db.ballots ==> s.db.ballots[b].election == e && s.db.ballots[b].isValid && s.db.ballots[b].serial == (e, b))
    && (forall b :: b in s.origin ==> s.origin[b] == Choose(e, pos, b))
  }

  predicate Rowed(s: State, pos: Id, i: nat) {
    |s.db.votes| == i && forall k :: 0 <= k < i ==> s.db.votes[k].position == pos && s.db.votes[k].ballot < i
  }

  /** One choice, checked and staged. */
  lemma OneChoicePasses(s: State, p: Id, req: CastRequest, row: Voter, nonce: Id) returns (run: seq<Action>)
    requires p in s.procs && s.procs[p] == CastChecking(req, row, 0) && |req.selections| == 1
    requires req.selections[0].position in s.db.positions
    requires |req.selections[0].candidates| <= s.db.positions[req.selections[0].position]
    ensures ValidRun(s, run) && Sequential.OnlyRequests(run)
    ensures After(s, run) == s.(procs := s.procs[p :=
      CastStaged(req, Ballot(req.election, row.constituency, (req.election, nonce), s.clock, true))])
  {
    var ballot := Ballot(req.election, row.constituency, (req.election, nonce), s.clock, true);
    Sequential.OneStep(s, Advance(p, nonce));
    Sequential.Extend(s, [Advance(p, nonce)], Advance(p, nonce));
    run := [Advance(p, nonce)] + [Advance(p, nonce)];
    assert s.procs[p := CastChecking(req, row, 1)][p := CastStaged(req, ballot)] == s.procs[p := CastStaged(req, ballot)];
  }

  lemma FinishOne(s: State, p: Id, req: CastRequest, row: Voter, nonce: Id, key: Id) returns (run: seq<Action>)
    requires p in s.procs && s.procs[p] == CastChecking(req, row, 0) && |req.selections| == 1
    requires req.selections[0].position in s.db.positions
    requires |req.selections[0].candidates| <= s.db.positions[req.selections[0].position]
    requires !SerialTaken(s.db.ballots, (req.election, nonce)) && key !in s.db.ballots
    ensures ValidRun(s, run) && Sequential.OnlyRequests(run)
    ensures After(s, run) == s.(
      db := CommitBallot(s.db, req, Ballot(req.election, row.constituency, (req.election, nonce), s.clock, true), key),
      procs := s.procs[p := Done], locks := s.locks - {req.voter}, origin := s.origin[key := req])
  {
    var r1 := OneChoicePasses(s, p, req, row, nonce);
    var s1 := After(s, r1);
    CommitWrites(s1, p, key);
    Sequential.OneStep(s1, Advance(p, key));
    run := Sequential.Then(s, r1, [Advance(p, key)]);
    assert s1.procs[p := Done] == s.procs[p := Done];
  }

  /** What a cast of one accepted choice may ask of its state, besides an open session. */
  predicate OneFits(s: State, req: CastRequest, nonce: Id, key: Id) {
    && |req.selections| == 1 && req.selections[0].position in s.db.positions
    && |req.selections[0].candidates| <= s.db.positions[req.selections[0].position]
    && req.voter !in s.locks && req.voter in s.db.voters && !AlreadyVoted(s.db.voters[req.voter])
    && !SerialTaken(s.db.ballots, (req.election, nonce)) && key !in s.db.ballots
  }

  function Committed(s: State, p: Id, req: CastRequest, nonce: Id, key: Id): State
    requires req.voter in s.db.voters
  {
    var ballot := Ballot(req.election, s.db.voters[req.voter].constituency, (req.election, nonce), s.clock, true);
    s.(db := CommitBallot(s.db, req, ballot, key), procs := s.procs[p := Done], origin := s.origin[key := req])
  }

  lemma CastOpened(s: State, p: Id, req: CastRequest, nonce: Id, key: Id) returns (run: seq<Action>)
    requires p in s.procs && s.procs[p] == CastSession(req) && OneFits(s, req, nonce, key)
    ensures ValidRun(s, run) && Sequential.OnlyRequests(run) && After(s, run) == Committed(s, p, req, nonce, key)
  {
    var row := s.db.voters[req.voter];
    var r1 := Sequential.PassGuard(s, p, req);
    var s1 := After(s, r1);
    var r2 := FinishOne(s1, p, req, row, nonce, key);
    run := Sequential.Then(s, r1, r2);
    assert s.locks[req.voter := p] - {req.voter} == s.locks;
    assert s1.procs[p := Done] == s.procs[p := Done];
  }

  lemma CastOne(s: State, p: Id, req: CastRequest, nonce: Id, key: Id) returns (run: seq<Action>)
    requires p !in s.procs && SessionOpen(s.db, req.token, s.clock) && OneFits(s, req, nonce, key)
    ensures ValidRun(s, run) && Sequential.OnlyRequests(run) && After(s, run) == Committed(s, p, req, nonce, key)
  {
    var r1 := Sequential.Opening(s, p, req);
    var s1 := After(s, r1);
    var r2 := CastOpened(s1, p, req, nonce, key);
    run := Sequential.Then(s, r1, r2);
    assert s1.procs[p := Done] == s.procs[p := Done];
  }

  lemma OneRow(e: Id, pos: Id, i: nat)
    ensures VoteRows(i, Choose(e, pos, i).selections) == [Vote(i, pos, 0)]
  {
    var sels := Choose(e, pos, i).selections;
    var sel := sels[0];
    assert sel.candidates[1..] == [] && CandidateRows(i, pos, sel.candidates) == [Vote(i, pos, 0)];
    assert sels[1..] == [] && VoteRows(i, sels) == CandidateRows(i, pos, sel.candidates) + [];
  }

  /** The state after the next vote. */
  function Next(s: State, e: Id, pos: Id, i: nat): State
    requires i in s.db.voters
  {
    Committed(s, i, Choose(e, pos, i), i, i)
  }

  lemma NextIsVoted(s: State, e: Id, pos: Id, m: nat, n: nat, i: nat)
    requires Voted(s, e, pos, m, n, i) && i < n
    ensures Voted(Next(s, e, pos, i), e, pos, m, n, i + 1)
  {
    NextShape(s, e, pos, m, n, i);
    NextWaiting(s, e, pos, n, i);
    NextFilled(s, e, pos, i);
    NextRowed(s, e, pos, i);
  }

  lemma NextShape(s: State, e: Id, pos: Id, m: nat, n: nat, i: nat)
    requires Shape(s, pos, m, n, i) && i in s.db.voters
    ensures Shape(Next(s, e, pos, i), pos, m, n, i + 1)
  {
    assert Upto(i + 1) == Upto(i) + {i};
  }

  lemma NextWaiting(s: State, e: Id, pos: Id, n: nat, i: nat)
    requires Waiting(s, e, n, i) && i in s.db.voters
    ensures Waiting(Next(s, e, pos, i), e, n, i + 1)
  {}

  lemma NextFilled(s: State, e: Id, pos: Id, i: nat)
    requires Filled(s, e, pos) && i in s.db.voters
    ensures Filled(Next(s, e, pos, i), e, pos)
  {}

  lemma NextRowed(s: State, e: Id, pos: Id, i: nat)
    requires Rowed(s, pos, i) && i in s.db.voters
    ensures Rowed(Next(s, e, pos, i), pos, i + 1)
  {
    OneRow(e, pos, i);
  }

  lemma NextVotes(s: State, e: Id, pos: Id, m: nat, n: nat, i: nat) returns (run: seq<Action>)
    requires Voted(s, e, pos, m, n, i) && i < n && m > 0
    ensures ValidRun(s, run) && Sequential.OnlyRequests(run) && Voted(After(s, run), e, pos, m, n, i + 1)
  {
    NextIsVoted(s, e, pos, m, n, i);
    var req := Choose(e, pos, i);
    assert i !in s.procs && i !in s.db.ballots && SessionOpen(s.db, i, s.clock);
    run := CastOne(s, i, req, i, i);
  }

  lemma HallIsVoted(e: Id, pos: Id, m: nat, n: nat, r: nat)
    ensures Initial(Hall(e, pos, m, n, r)) && Voted(Hall(e, pos, m, n, r), e, pos, m, n, 0)
  {}

  /** A run from `start` after which the first i have voted. */
  ghost predicate HaveVoted(start: State, run: seq<Action>, e: Id, pos: Id, m: nat, n: nat, i: nat) {
    ValidRun(start, run) && Sequential.OnlyRequests(run) && Voted(After(start, run), e, pos, m, n, i)
  }

  lemma OneMoreVotes(start: State, first: seq<Action>, e: Id, pos: Id, m: nat, n: nat, i: nat) returns (run: seq<Action>)
    requires HaveVoted(start, first, e, pos, m, n, i) && i < n && m > 0
    ensures HaveVoted(start, run, e, pos, m, n, i + 1)
  {
    var next := NextVotes(After(start, first), e, pos, m, n, i);
    run := Sequential.Then(start, first, next);
  }

  lemma {:induction false} VoteOneAfterAnother(start: State, e: Id, pos: Id, m: nat, n: nat, i: nat) returns (run: seq<Action>)
    requires i <= n && m > 0 && HaveVoted(start, [], e, pos, m, n, 0)
    ensures HaveVoted(start, run, e, pos, m, n, i)
  {
    if i == 0 {
      run := [];
    } else {
      var first := VoteOneAfterAnother(start, e, pos, m, n, i - 1);
      run := OneMoreVotes(start, first, e, pos, m, n, i - 1);
    }
  }

  /** From the hall, i casts in a row. */
  lemma ManyVote(e: Id, pos: Id, m: nat, n: nat, r: nat, i: nat) returns (run: seq<Action>)
    requires i <= n && m > 0
    ensures ValidRun(Hall(e, pos, m, n, r), run) && Sequential.OnlyRequests(run)
    ensures Voted(After(Hall(e, pos, m, n, r), run), e, pos, m, n, i)
  {
    HallIsVoted(e, pos, m, n, r);
    run := VoteOneAfterAnother(Hall(e, pos, m, n, r), e, pos, m, n, i);
  }

  lemma {:induction false} AllQualify(votes: seq<Vote>, ballots: map<Id, Ballot>, e: Id, pos: Id)
    requires forall k :: 0 <= k < |votes| ==> Qualifies(votes[k], ballots, e, pos)
    ensures |Choices(votes, ballots, e, pos)| == |votes|
  {
    if votes != [] {
      AllQualify(votes[1..], ballots, e, pos);
    }
  }

  /** A run in two parts, between which a tally counts the ballots, under the conditions of the limit. */
  ghost predicate Split(start: State, before: seq<Action>, between: seq<Action>, e: Id, pos: Id, m: nat) {
    && Initial(start) && ValidRun(start, before) && ValidRun(After(start, before), between)
    && CapHolds(start, before + between, pos, m) && NamesOnce(After(After(start, before), between), e, pos)
  }

  /** The votes counted at the end are within the limit for the ballots counted in between. */
  ghost predicate WithinLimit(start: State, before: seq<Action>, between: seq<Action>, e: Id, pos: Id, m: nat)
    requires Split(start, before, between, e, pos, m)
  {
    var s1 := After(start, before);
    var s2 := After(s1, between);
    |Choices(s2.db.votes, s2.db.ballots, e, pos)| <= m * |BallotsOf(s1.db.ballots, e)|
  }

  /** n casts between the two counts break the limit in some run, if n is positive. */
  lemma InterposedCastsBreakLimit(e: Id, pos: Id, m: nat, n: nat) returns (start: State, between: seq<Action>)
    requires m > 0 && n > 0
    ensures Split(start, [], between, e, pos, m) && CommitsFor(start, between, e) == n
    ensures !WithinLimit(start, [], between, e, pos, m)
  {
    start := Hall(e, pos, m, n, n);
    between := ManyVote(e, pos, m, n, n, n);
    HallIsVoted(e, pos, m, n, n);
    BallotsGrowByCommits(start, between, e);
    VotedCounts(After(start, between), e, pos, m, n);
    SplitAtStart(start, between, e, pos, m);
    assert BallotsOf(start.db.ballots, e) == {} && m * 0 == 0;
  }

  lemma SplitAtStart(start: State, between: seq<Action>, e: Id, pos: Id, m: nat)
    requires Initial(start) && ValidRun(start, between) && Sequential.OnlyRequests(between)
    requires start.db.positions == map[pos := m] && NamesOnce(After(start, between), e, pos)
    ensures Split(start, [], between, e, pos, m) && After(start, []) == start
  {
    assert [] + between == between;
  }

  lemma VotedCounts(s: State, e: Id, pos: Id, m: nat, n: nat)
    requires Voted(s, e, pos, m, n, n)
    ensures |Choices(s.db.votes, s.db.ballots, e, pos)| == |BallotsOf(s.db.ballots, e)| == n
    ensures NamesOnce(s, e, pos)
  {
    assert BallotsOf(s.db.ballots, e) == Upto(n);
    AllQualify(s.db.votes, s.db.ballots, e, pos);
    forall b | b in s.origin ensures Occurrences(s.origin[b].selections, pos) <= 1 {
      assert s.origin[b].selections[1..] == [];
    }
  }

  /** So the limit holds in all runs with n casts between the two counts if and only if n is 0. */
  lemma LimitSurvivesIffNoneBetween(e: Id, pos: Id, m: nat, n: nat)
    requires m > 0
    ensures n == 0 <==> forall start, before, between ::
      Split(start, before, between, e, pos, m) && CommitsFor(After(start, before), between, e) == n ==>
        WithinLimit(start, before, between, e, pos, m)
  {
    if n == 0 {
      forall start, before, between | Split(start, before, between, e, pos, m) && CommitsFor(After(start, before), between, e) == n
        ensures WithinLimit(start, before, between, e, pos, m)
      {
        VotesBoundedByFigure(start, before, between, e, pos, m);
      }
    } else {
      var start, between := InterposedCastsBreakLimit(e, pos, m, n);
    }
  }
}
