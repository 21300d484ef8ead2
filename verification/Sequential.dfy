/**
 Runs in which each request finishes before the next begins, where the session bookkeeping is exact too,
 and two short interleavings that show what concurrency really does allow.
 */
module Sequential {
  import opened Types
  import opened Protocol
  import opened Steps
  import opened Safety

  predicate Idle(s: State) {
    forall p :: p in s.procs ==> Ended(s.procs[p])
  }

  predicate SequentialRun(s: State, run: seq<Action>)
    decreases |run|
  {
    run == [] || (Enabled(s, run[0]) && (run[0].Begin? ==> Idle(s)) && SequentialRun(Apply(s, run[0]), run[1..]))
  }

  lemma {:induction false} SequentialIsValid(s: State, run: seq<Action>)
    requires SequentialRun(s, run)
    ensures ValidRun(s, run)
    decreases |run|
  {
    if run != [] {
      SequentialIsValid(Apply(s, run[0]), run[1..]);
    }
  }

  /** At most one live request, whose session nobody else has used up; so no session backs two ballots. */
  ghost predicate SeqInv(s: State) {
    && Inv(s)
    && (forall p, q :: p in s.procs && q in s.procs && !Ended(s.procs[p]) && !Ended(s.procs[q]) ==> p == q)
    && (forall p :: p in s.procs && PastSession(s.procs[p]) ==> s.db.sessions[s.procs[p].req.token].status.Active?)
    && (forall b, c, t :: ByToken(s, b, t) && ByToken(s, c, t) ==> b == c)
  }

  lemma CommitKeepsSeqInv(s: State, p: Id, drawn: Id)
    requires SeqInv(s) && p in s.procs && Commits(s, p) && Ready(s, p, drawn)
    ensures SeqInv(CastStep(s, p, drawn))
  {
    CommitKeepsInv(s, p, drawn);
    var s' := CastStep(s, p, drawn);
    var t := s.procs[p].req.token;
    assert !IsUsed(s, t);
    assert forall b :: !ByToken(s, b, t);
    assert forall b, u :: b != drawn ==> (ByToken(s', b, u) <==> ByToken(s, b, u));
    assert forall q :: q in s'.procs && PastSession(s'.procs[q]) ==> q == p;
  }

  lemma CastKeepsSeqInv(s: State, p: Id, drawn: Id)
    requires SeqInv(s) && p in s.procs && IsCast(s.procs[p]) && Ready(s, p, drawn)
    ensures SeqInv(CastStep(s, p, drawn))
  {
    if Commits(s, p) {
      CommitKeepsSeqInv(s, p, drawn);
    } else {
      CastKeepsInv(s, p, drawn);
      CastWritesOnlyAtCommit(s, p, drawn);
      assert forall b, t :: ByToken(CastStep(s, p, drawn), b, t) <==> ByToken(s, b, t);
    }
  }

  lemma OtherKeepsSeqInv(s: State, p: Id, drawn: Id)
    requires SeqInv(s) && p in s.procs && !IsCast(s.procs[p]) && Ready(s, p, drawn)
    ensures SeqInv(Step(s, p, drawn))
  {
    OtherKeepsInv(s, p, drawn);
    OtherFrame(s, p, drawn);
    assert forall b, t :: ByToken(Step(s, p, drawn), b, t) <==> ByToken(s, b, t);
  }

  lemma StepKeepsSeqInv(s: State, a: Action)
    requires SeqInv(s) && Enabled(s, a) && (a.Begin? ==> Idle(s))
    ensures SeqInv(Apply(s, a))
  {
    if a.Advance? {
      if IsCast(s.procs[a.p]) {
        CastKeepsSeqInv(s, a.p, a.drawn);
      } else {
        OtherKeepsSeqInv(s, a.p, a.drawn);
      }
    } else {
      StepKeepsInv(s, a);
      BackgroundFrame(s, a);
      assert forall b, t :: ByToken(Apply(s, a), b, t) <==> ByToken(s, b, t);
    }
  }

  lemma {:induction false} RunKeepsSeqInv(s: State, run: seq<Action>)
    requires SeqInv(s) && SequentialRun(s, run)
    ensures ValidRun(s, run) && SeqInv(After(s, run))
    decreases |run|
  {
    if run != [] {
      StepKeepsSeqInv(s, run[0]);
      RunKeepsSeqInv(Apply(s, run[0]), run[1..]);
    }
  }

  /** One request at a time: ballots, voters marked `has_voted` and USED sessions are equally many. */
  lemma SequentialCountsAgree(start: State, run: seq<Action>)
    requires Initial(start) && SequentialRun(start, run)
    ensures ValidRun(start, run)
    ensures var s := After(start, run);
      |s.db.ballots| == |VotedSet(s)| == |UsedSet(s)|
  {
    InitialInv(start);
    RunKeepsSeqInv(start, run);
    var s := After(start, run);
    InvCounts(s);
    forall b, c | b in Tokens(s) && c in Tokens(s) && Tokens(s)[b] == Tokens(s)[c] ensures b == c {
      assert ByToken(s, b, Tokens(s)[b]) && ByToken(s, c, Tokens(s)[b]);
    }
  }

  // ---------- two interleavings ----------

  lemma Extend(s: State, run: seq<Action>, a: Action)
    requires ValidRun(s, run) && Enabled(After(s, run), a)
    ensures ValidRun(s, run + [a]) && After(s, run + [a]) == Apply(After(s, run), a)
  {
    assert ValidRun(After(s, run), [a]) by {
      assert [a][1..] == [];
    }
    RunsCompose(s, run, [a]);
    assert After(After(s, run), [a]) == After(Apply(After(s, run), a), [a][1..]);
  }

  /** Election 1 is LIVE, session 7 is open, and voters 1 and 2 may vote. */
  function Scene(): State {
    var row := Voter(Some(1), None, None, Valid, NotVoted, false, None);
    State(Tables(map[1 := Live], {1}, {}, map[], map[1 := row, 2 := row], {},
                 map[7 := Session(1, Active, SESSION_TTL)], map[], []),
          0, map[], map[], map[])
  }

  function Abstain(voter: Id): CastRequest {
    CastRequest(7, 1, [], voter)
  }

  /** Nothing but requests starting and taking steps. */
  predicate OnlyRequests(run: seq<Action>) {
    forall k :: 0 <= k < |run| ==> run[k].Begin? || run[k].Advance?
  }

  /** A cast whose session has been found takes the free lock and passes the guard. */
  lemma PassGuard(s: State, p: Id, req: CastRequest) returns (run: seq<Action>)
    requires p in s.procs && s.procs[p] == CastSession(req)
    requires req.voter !in s.locks && req.voter in s.db.voters && !AlreadyVoted(s.db.voters[req.voter])
    ensures ValidRun(s, run) && OnlyRequests(run)
    ensures After(s, run) == s.(
      procs := s.procs[p := CastChecking(req, s.db.voters[req.voter], 0)], locks := s.locks[req.voter := p])
  {
    var row := s.db.voters[req.voter];
    OneStep(s, Advance(p, 0));
    Extend(s, [Advance(p, 0)], Advance(p, 0));
    run := [Advance(p, 0)] + [Advance(p, 0)];
    assert s.procs[p := CastLocked(req, row)][p := CastChecking(req, row, 0)] == s.procs[p := CastChecking(req, row, 0)];
  }

  /** A cast of an empty selection whose session has been found runs undisturbed to its commit. */
  lemma CastAlone(s: State, p: Id, req: CastRequest, nonce: Id, key: Id) returns (run: seq<Action>)
    requires p in s.procs && s.procs[p] == CastSession(req) && req.selections == []
    requires req.voter !in s.locks && req.voter in s.db.voters && !AlreadyVoted(s.db.voters[req.voter])
    requires !SerialTaken(s.db.ballots, (req.election, nonce)) && key !in s.db.ballots
    ensures ValidRun(s, run)
    ensures After(s, run) == s.(
      db := CommitBallot(s.db, req, Ballot(req.election, s.db.voters[req.voter].constituency, (req.election, nonce), s.clock, true), key),
      procs := s.procs[p := Done], origin := s.origin[key := req])
  {
    var ballot := Ballot(req.election, s.db.voters[req.voter].constituency, (req.election, nonce), s.clock, true);
    run := PassGuard(s, p, req);
    var s2 := After(s, run);
    Extend(s, run, Advance(p, nonce));
    run := run + [Advance(p, nonce)];
    var s3 := After(s, run);
    assert s3 == s2.(procs := s2.procs[p := CastStaged(req, ballot)]);
    CommitWrites(s3, p, key);
    Extend(s, run, Advance(p, key));
    run := run + [Advance(p, key)];
    assert s.locks[req.voter := p] - {req.voter} == s.locks;
    assert s3.procs[p := Done] == s.procs[p := Done];
  }

  lemma OneStep(s: State, a: Action)
    requires Enabled(s, a)
    ensures ValidRun(s, [a]) && After(s, [a]) == Apply(s, a)
  {
    Extend(s, [], a);
    assert [] + [a] == [a];
  }

  /** Run r1 and then r2. */
  lemma Then(s: State, r1: seq<Action>, r2: seq<Action>) returns (run: seq<Action>)
    requires ValidRun(s, r1) && ValidRun(After(s, r1), r2)
    ensures ValidRun(s, run) && After(s, run) == After(After(s, r1), r2) && run == r1 + r2
  {
    RunsCompose(s, r1, r2);
    run := r1 + r2;
  }

  /** Process p begins a cast and finds its session open. */
  lemma Opening(s: State, p: Id, req: CastRequest) returns (run: seq<Action>)
    requires p !in s.procs && SessionOpen(s.db, req.token, s.clock)
    ensures ValidRun(s, run) && After(s, run) == s.(procs := s.procs[p := CastSession(req)]) && OnlyRequests(run)
  {
    OneStep(s, Begin(p, CastNew(req)));
    Extend(s, [Begin(p, CastNew(req))], Advance(p, 0));
    run := [Begin(p, CastNew(req))] + [Advance(p, 0)];
    assert s.procs[p := CastNew(req)][p := CastSession(req)] == s.procs[p := CastSession(req)];
  }

  /** Process q checks voter v in on an unlocked read. */
  lemma Looking(s: State, q: Id, e: Id, v: Id) returns (run: seq<Action>)
    requires q !in s.procs && v in s.db.voters && s.db.voters[v].election == Some(e)
    requires !AlreadyVoted(s.db.voters[v]) && !Barred(s.db.voters[v].rollStatus)
    ensures ValidRun(s, run) && After(s, run) == s.(procs := s.procs[q := CheckinSeen(e, v, s.db.voters[v])])
  {
    OneStep(s, Begin(q, CheckinNew(e, v)));
    Extend(s, [Begin(q, CheckinNew(e, v))], Advance(q, 0));
    run := [Begin(q, CheckinNew(e, v))] + [Advance(q, 0)];
    assert s.procs[q := CheckinNew(e, v)][q := CheckinSeen(e, v, s.db.voters[v])] == s.procs[q := CheckinSeen(e, v, s.db.voters[v])];
  }

  lemma SceneIsInitial()
    ensures Initial(Scene())
  {}

  /** A check-in that read the voter before the cast committed overwrites VOTED with CHECKED_IN; `has_voted` stays. */
  lemma LateCheckinCommits(s: State, q: Id, e: Id, v: Id, seen: Voter)
    requires q in s.procs && s.procs[q] == CheckinSeen(e, v, seen) && !seen.votingStatus.CheckedIn?
    requires (e, v) !in s.db.checkins && v in s.db.voters
    ensures ValidRun(s, [Advance(q, 0)])
    ensures var s' := After(s, [Advance(q, 0)]);
      && v in s'.db.voters && s'.db.voters[v].votingStatus.CheckedIn?
      && s'.db.voters[v].hasVoted == s.db.voters[v].hasVoted
  {
    OneStep(s, Advance(q, 0));
    assert Apply(s, Advance(q, 0)) == CheckinStep(s, q);
  }

  /** From an initial state, an interleaving reaches a voter who has voted but reads CHECKED_IN. */
  lemma LateCheckinOverwritesVoted() returns (run: seq<Action>)
    ensures Initial(Scene()) && ValidRun(Scene(), run)
    ensures var s := After(Scene(), run);
      HasVoted(s, 1) && s.db.voters[1].votingStatus.CheckedIn?
  {
    SceneIsInitial();
    var s0 := Scene();
    var r1 := Opening(s0, 10, Abstain(1));
    var s1 := After(s0, r1);
    var r2 := Looking(s1, 11, 1, 1);
    var s2 := After(s1, r2);
    var r3 := CastAlone(s2, 10, Abstain(1), 5, 6);
    var s3 := After(s2, r3);
    LateCheckinCommits(s3, 11, 1, 1, s0.db.voters[1]);
    var t1 := Then(s2, r3, [Advance(11, 0)]);
    var t2 := Then(s1, r2, t1);
    run := Then(s0, r1, t2);
  }

  lemma BothOpen() returns (run: seq<Action>)
    ensures ValidRun(Scene(), run)
    ensures After(Scene(), run) == Scene().(procs := map[10 := CastSession(Abstain(1)), 11 := CastSession(Abstain(2))])
  {
    var s0 := Scene();
    var r1 := Opening(s0, 10, Abstain(1));
    var s1 := After(s0, r1);
    var r2 := Opening(s1, 11, Abstain(2));
    run := Then(s0, r1, r2);
    assert After(s1, r2).procs == map[10 := CastSession(Abstain(1)), 11 := CastSession(Abstain(2))];
  }

  /** The session row is not locked: two casts that both read it ACTIVE commit two ballots on one USED session. */
  lemma SharedSessionBacksTwoBallots() returns (run: seq<Action>)
    ensures Initial(Scene()) && ValidRun(Scene(), run)
    ensures var s := After(Scene(), run);
      |s.db.ballots| == 2 && |UsedSet(s)| == 1
  {
    SceneIsInitial();
    var r0 := BothOpen();
    var s2 := After(Scene(), r0);
    var r3 := CastAlone(s2, 10, Abstain(1), 5, 6);
    var s3 := After(s2, r3);
    var r4 := CastAlone(s3, 11, Abstain(2), 8, 9);
    var t1 := Then(s2, r3, r4);
    run := Then(Scene(), r0, t1);
    var s := After(Scene(), run);
    assert s.db.ballots.Keys == {6, 9};
    assert UsedSet(s) == {7};
  }
}
