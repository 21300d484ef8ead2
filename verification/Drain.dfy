/**
 Closing an election. CLOSED and what follows it are absorbing and stop the issue of sessions, so fifteen
 minutes later nobody can present a session of that election any more -- provided that no request in flight
 at the closing still carries an older reading of the election. That condition is exact.
 */
module Drain {
  import opened Types
  import opened Lifecycle
  import opened Protocol
  import opened Steps
  import Sequential

  /** A request that read election e before it closed and can still act on that reading. */
  predicate Stale(e: Id, x: Process) {
    match x
    case MoveChecked(e', target) => e' == e && !Drained(target)
    case IssueLive(e', _) => e' == e   // its number can come into e at any time, as import and enrolment show
    case IssueCleared(e') => e' == e
    case IssueStamped(e', _) => e' == e
    case _ => false
  }

  predicate Settled(s: State, e: Id) {
    forall p :: p in s.procs ==> !Stale(e, s.procs[p])
  }

  predicate IsDrained(s: State, e: Id) {
    e in s.db.elections && Drained(s.db.elections[e])
  }

  /** e is drained in s', and has no session that it did not have in s. */
  predicate StaysDrained(s: State, s': State, e: Id) {
    && IsDrained(s', e)
    && forall t :: t in s'.db.sessions && s'.db.sessions[t].election == e ==>
         t in s.db.sessions && s.db.sessions[t].election == e && s'.db.sessions[t].expiresAt == s.db.sessions[t].expiresAt
  }

  /** Sessions outlive the clock by at most their lifetime. */
  predicate TimeInv(s: State) {
    && (forall t :: t in s.db.sessions ==> s.db.sessions[t].expiresAt <= s.clock + SESSION_TTL)
    && (forall p :: p in s.procs && s.procs[p].IssueStamped? ==> s.procs[p].expiresAt <= s.clock + SESSION_TTL)
  }

  // ---------- the timing facts hold in every interleaving ----------

  lemma CastIsTimely(s: State, p: Id, drawn: Id)
    requires TimeInv(s) && p in s.procs && IsCast(s.procs[p]) && Ready(s, p, drawn)
    ensures TimeInv(CastStep(s, p, drawn))
  {
    if Commits(s, p) {
      CommitWrites(s, p, drawn);
    } else {
      CastWritesOnlyAtCommit(s, p, drawn);
    }
  }

  lemma IssueIsTimely(s: State, p: Id, drawn: Id)
    requires TimeInv(s) && p in s.procs && IsIssue(s.procs[p]) && Ready(s, p, drawn)
    ensures TimeInv(IssueStep(s, p, drawn))
  {
    IssueFrame(s, p, drawn);
  }

  lemma OtherIsTimely(s: State, p: Id, drawn: Id)
    requires TimeInv(s) && p in s.procs && !IsCast(s.procs[p]) && Ready(s, p, drawn)
    ensures TimeInv(Step(s, p, drawn))
  {
    if IsIssue(s.procs[p]) {
      IssueIsTimely(s, p, drawn);
    } else {
      OtherFrame(s, p, drawn);
      OnlyIssuesStamp(s, p, drawn);
    }
  }

  lemma OnlyIssuesStamp(s: State, p: Id, drawn: Id)
    requires p in s.procs && !IsCast(s.procs[p]) && !IsIssue(s.procs[p]) && Ready(s, p, drawn)
    ensures p in Step(s, p, drawn).procs && !IsIssue(Step(s, p, drawn).procs[p])
  {}

  lemma StepIsTimely(s: State, a: Action)
    requires TimeInv(s) && Enabled(s, a)
    ensures TimeInv(Apply(s, a))
  {
    if !a.Advance? {
      BackgroundFrame(s, a);
    } else if IsCast(s.procs[a.p]) {
      CastIsTimely(s, a.p, a.drawn);
    } else {
      OtherIsTimely(s, a.p, a.drawn);
    }
  }

  lemma {:induction false} RunIsTimely(s: State, run: seq<Action>)
    requires TimeInv(s) && ValidRun(s, run)
    ensures TimeInv(After(s, run)) && s.clock <= After(s, run).clock
    decreases |run|
  {
    if run != [] {
      StepIsTimely(s, run[0]);
      ClockAdvances(s, run[0]);
      RunIsTimely(Apply(s, run[0]), run[1..]);
    }
  }

  // ---------- a settled election stays drained ----------

  ghost predicate Harmless(s: State, s': State, e: Id) {
    StaysDrained(s, s', e) && Settled(s', e)
  }

  lemma OneProcessMoves(s: State, s': State, p: Id, e: Id)
    requires Settled(s, e) && StaysDrained(s, s', e)
    requires p in s'.procs && s'.procs == s.procs[p := s'.procs[p]] && !Stale(e, s'.procs[p])
    ensures Harmless(s, s', e)
  {
    forall q | q in s'.procs ensures !Stale(e, s'.procs[q]) {
      assert q != p ==> !Stale(e, s.procs[q]);
    }
  }

  lemma CastIsHarmless(s: State, p: Id, drawn: Id, e: Id)
    requires IsDrained(s, e) && Settled(s, e)
    requires p in s.procs && IsCast(s.procs[p]) && Ready(s, p, drawn)
    ensures Harmless(s, CastStep(s, p, drawn), e)
  {
    assert !Stale(e, s.procs[p]);
    if Commits(s, p) {
      CommitWrites(s, p, drawn);
    } else {
      CastWritesOnlyAtCommit(s, p, drawn);
    }
    OneProcessMoves(s, CastStep(s, p, drawn), p, e);
  }

  lemma CheckinIsHarmless(s: State, p: Id, e: Id)
    requires IsDrained(s, e) && Settled(s, e)
    requires p in s.procs && (s.procs[p].CheckinNew? || s.procs[p].CheckinSeen?)
    ensures Harmless(s, CheckinStep(s, p), e)
  {
    CheckinFrame(s, p, 0);
    assert !Stale(e, s.procs[p]);
    OneProcessMoves(s, CheckinStep(s, p), p, e);
  }

  lemma MoveIsHarmless(s: State, p: Id, e: Id)
    requires IsDrained(s, e) && Settled(s, e)
    requires p in s.procs && (s.procs[p].MoveNew? || s.procs[p].MoveChecked?)
    ensures Harmless(s, MoveStep(s, p), e)
  {
    MoveFrame(s, p, 0);
    assert !Stale(e, s.procs[p]);
    OneProcessMoves(s, MoveStep(s, p), p, e);
  }

  lemma PublishIsHarmless(s: State, p: Id, e: Id)
    requires IsDrained(s, e) && Settled(s, e)
    requires p in s.procs && (s.procs[p].PublishNew? || s.procs[p].PublishRead?)
    ensures Harmless(s, PublishStep(s, p), e)
  {
    assert !Stale(e, s.procs[p]);
    OneProcessMoves(s, PublishStep(s, p), p, e);
  }

  lemma IssueIsHarmless(s: State, p: Id, drawn: Id, e: Id)
    requires IsDrained(s, e) && Settled(s, e)
    requires p in s.procs && IsIssue(s.procs[p]) && Ready(s, p, drawn)
    ensures Harmless(s, IssueStep(s, p, drawn), e)
  {
    IssueFrame(s, p, drawn);
    assert !Stale(e, s.procs[p]);
    OneProcessMoves(s, IssueStep(s, p, drawn), p, e);
  }

  lemma BackgroundIsHarmless(s: State, a: Action, e: Id)
    requires IsDrained(s, e) && Settled(s, e) && Enabled(s, a)
    requires !a.Advance? && !a.Begin? && !a.Crash?
    ensures Harmless(s, Apply(s, a), e)
  {
    BackgroundFrame(s, a);
    var s' := Apply(s, a);
    forall q | q in s'.procs ensures !Stale(e, s'.procs[q]) {
      assert !Stale(e, s.procs[q]);
    }
  }

  lemma StepIsHarmless(s: State, a: Action, e: Id)
    requires IsDrained(s, e) && Settled(s, e) && Enabled(s, a)
    ensures Harmless(s, Apply(s, a), e)
  {
    match a
    case Advance(p, drawn) =>
      var x := s.procs[p];
      if IsCast(x) {
        CastIsHarmless(s, p, drawn, e);
      } else if x.CheckinNew? || x.CheckinSeen? {
        CheckinIsHarmless(s, p, e);
      } else if x.MoveNew? || x.MoveChecked? {
        MoveIsHarmless(s, p, e);
      } else if x.PublishNew? || x.PublishRead? {
        PublishIsHarmless(s, p, e);
      } else {
        IssueIsHarmless(s, p, drawn, e);
      }
    case Begin(p, _) => OneProcessMoves(s, Apply(s, a), p, e);
    case Crash(p) => OneProcessMoves(s, Apply(s, a), p, e);
    case _ => BackgroundIsHarmless(s, a, e);
  }

  lemma {:induction false} SettledStaysDrained(s: State, run: seq<Action>, e: Id)
    requires IsDrained(s, e) && Settled(s, e) && ValidRun(s, run)
    ensures StaysDrained(s, After(s, run), e)
    decreases |run|
  {
    if run != [] {
      StepIsHarmless(s, run[0], e);
      SettledStaysDrained(Apply(s, run[0]), run[1..], e);
    }
  }

  // ---------- an unsettled one need not ----------

  lemma {:induction false} UnusedId(used: set<Id>) returns (id: Id)
    ensures forall u :: u in used ==> u < id
  {
    if used == {} {
      id := 0;
    } else {
      var u :| u in used;
      var below := UnusedId(used - {u});
      id := if below <= u then u + 1 else below;
      assert forall w :: w in used ==> w == u || w in used - {u};
    }
  }

  lemma StampedEscapes(s: State, p: Id, e: Id) returns (run: seq<Action>)
    requires p in s.procs && s.procs[p].IssueStamped? && s.procs[p].election == e
    ensures ValidRun(s, run) && !StaysDrained(s, After(s, run), e)
  {
    var token := UnusedId(s.db.sessions.Keys);
    run := [Advance(p, token)];
    Sequential.OneStep(s, run[0]);
    var s' := IssueStep(s, p, token);
    assert After(s, run) == s' && token in s'.db.sessions && s'.db.sessions[token].election == e;
  }

  lemma ClearedEscapes(s: State, p: Id, e: Id) returns (run: seq<Action>)
    requires p in s.procs && s.procs[p] == IssueCleared(e)
    ensures ValidRun(s, run) && !StaysDrained(s, After(s, run), e)
  {
    Sequential.OneStep(s, Advance(p, 0));
    var s1 := After(s, [Advance(p, 0)]);
    assert s1 == IssueStep(s, p, 0);
    var rest := StampedEscapes(s1, p, e);
    run := Sequential.Then(s, [Advance(p, 0)], rest);
  }

  lemma EligibleEscapes(s: State, p: Id, e: Id, n: Id, v: Id) returns (run: seq<Action>)
    requires p in s.procs && s.procs[p] == IssueLive(e, n) && Enrolled(s.db.voters, v, e, n) && IssueGuard(s.db.voters[v], e)
    ensures ValidRun(s, run) && !StaysDrained(s, After(s, run), e)
  {
    Sequential.OneStep(s, Advance(p, v));
    var s1 := After(s, [Advance(p, v)]);
    assert s1 == IssueStep(s, p, v);
    var rest := ClearedEscapes(s1, p, e);
    run := Sequential.Then(s, [Advance(p, v)], rest);
  }

  /** Its number comes into e, by one more row if there is one already, and the lookup finds that. */
  lemma LiveReadEscapes(s: State, p: Id, e: Id, n: Id) returns (run: seq<Action>)
    requires p in s.procs && s.procs[p] == IssueLive(e, n)
    ensures ValidRun(s, run) && !StaysDrained(s, After(s, run), e)
  {
    var v := UnusedId(s.db.voters.Keys);
    var a := AddVoter(v, Voter(Some(e), Some(n), None, Registered, NotVoted, false, None));
    Sequential.OneStep(s, a);
    var s1 := After(s, [a]);
    var tail := EligibleEscapes(s1, p, e, n, v);
    run := Sequential.Then(s, [a], tail);
  }

  /** A request that is still stale can reopen the election or issue one more session. */
  lemma StaleEscapes(s: State, p: Id, e: Id) returns (run: seq<Action>)
    requires p in s.procs && Stale(e, s.procs[p])
    ensures ValidRun(s, run) && !StaysDrained(s, After(s, run), e)
  {
    match s.procs[p]
    case MoveChecked(_, _) =>
      run := [Advance(p, 0)];
      Sequential.OneStep(s, run[0]);
      assert After(s, run) == MoveStep(s, p);
    case IssueLive(_, n) => run := LiveReadEscapes(s, p, e, n);
    case IssueCleared(_) => run := ClearedEscapes(s, p, e);
    case IssueStamped(_, _) => run := StampedEscapes(s, p, e);
  }

  /**
   A drained election is drained for good, and issues no session in any continuation, exactly when no
   request in flight is stale.
   */
  lemma DrainsForGoodIffSettled(start: State, before: seq<Action>, e: Id)
    requires Initial(start) && ValidRun(start, before) && IsDrained(After(start, before), e)
    ensures var s := After(start, before);
      Settled(s, e) <==> forall run :: ValidRun(s, run) ==> StaysDrained(s, After(s, run), e)
  {
    var s := After(start, before);
    RunIsTimely(start, before);
    if Settled(s, e) {
      forall run | ValidRun(s, run) ensures StaysDrained(s, After(s, run), e) {
        SettledStaysDrained(s, run, e);
      }
    } else {
      var p :| p in s.procs && Stale(e, s.procs[p]);
      var run := StaleEscapes(s, p, e);
    }
  }

  /**
   The drain bound: if an election is drained and settled at some moment of a run, then more than fifteen
   minutes later a cast that presents any session of that election is refused, whatever ran in between.
   */
  lemma DrainBound(start: State, before: seq<Action>, later: seq<Action>, e: Id, p: Id, drawn: Id)
    requires Initial(start) && ValidRun(start, before) && ValidRun(After(start, before), later)
    requires var s := After(start, before); var s' := After(s, later);
      && IsDrained(s, e) && Settled(s, e) && s'.clock > s.clock + SESSION_TTL
      && p in s'.procs && s'.procs[p].CastNew?
      && s'.procs[p].req.token in s'.db.sessions && s'.db.sessions[s'.procs[p].req.token].election == e
    ensures var s' := After(After(start, before), later);
      Ready(s', p, drawn) && Step(s', p, drawn) == Fail(s', p, InvalidSession)
  {
    var s := After(start, before);
    RunIsTimely(start, before);
    SettledStaysDrained(s, later, e);
  }

  /**
   A reachable drained election that is not settled: a PAUSE that was checked while the election was LIVE
   commits after the CLOSE, and the election can be LIVE again.
   */
  lemma PauseReopensClosedElection() returns (closing: seq<Action>, reopening: seq<Action>)
    ensures Initial(Sequential.Scene()) && ValidRun(Sequential.Scene(), closing)
    ensures var s := After(Sequential.Scene(), closing);
      && s.db.elections == map[1 := Closed]
      && ValidRun(s, reopening) && After(s, reopening).db.elections == map[1 := Live]
  {
    Sequential.SceneIsInitial();
    var s0 := Sequential.Scene();
    var r1 := Deciding(s0, 20, 1, Paused);
    var s1 := After(s0, r1);
    var r2 := Moving(s1, 21, 1, Closed);
    var s2 := After(s1, r2);
    closing := Sequential.Then(s0, r1, r2);
    reopening := Reopening(s2);
  }

  lemma Reopening(s: State) returns (run: seq<Action>)
    requires 20 in s.procs && s.procs[20] == MoveChecked(1, Paused) && 22 !in s.procs
    requires s.db.elections == map[1 := Closed] && 1 in s.db.slates
    ensures ValidRun(s, run) && After(s, run).db.elections == map[1 := Live]
  {
    Sequential.OneStep(s, Advance(20, 0));
    var s1 := After(s, [Advance(20, 0)]);
    assert s1 == MoveStep(s, 20);
    var rest := Moving(s1, 22, 1, Live);
    run := Sequential.Then(s, [Advance(20, 0)], rest);
  }

  lemma Deciding(s: State, p: Id, e: Id, target: ElectionStatus) returns (run: seq<Action>)
    requires p !in s.procs && e in s.db.elections && target in Allowed(s.db.elections[e]) && e in s.db.slates
    ensures ValidRun(s, run) && After(s, run) == s.(procs := s.procs[p := MoveChecked(e, target)])
  {
    Sequential.OneStep(s, Begin(p, MoveNew(e, target)));
    Sequential.Extend(s, [Begin(p, MoveNew(e, target))], Advance(p, 0));
    run := [Begin(p, MoveNew(e, target))] + [Advance(p, 0)];
    assert s.procs[p := MoveNew(e, target)][p := MoveChecked(e, target)] == s.procs[p := MoveChecked(e, target)];
  }

  lemma Moving(s: State, p: Id, e: Id, target: ElectionStatus) returns (run: seq<Action>)
    requires p !in s.procs && e in s.db.elections && target in Allowed(s.db.elections[e]) && e in s.db.slates
    ensures ValidRun(s, run)
    ensures After(s, run) == s.(procs := s.procs[p := Done], db := s.db.(elections := s.db.elections[e := target]))
  {
    var r1 := Deciding(s, p, e, target);
    var s1 := After(s, r1);
    Sequential.OneStep(s1, Advance(p, 0));
    run := Sequential.Then(s, r1, [Advance(p, 0)]);
    assert s.procs[p := MoveChecked(e, target)][p := Done] == s.procs[p := Done];
  }
}
