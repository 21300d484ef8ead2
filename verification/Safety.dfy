/**
 What every interleaving of requests keeps: a voter never accounts for two ballots, the committed ballots
 are as many as the voters marked `has_voted`, and a USED session backs at least one ballot.
 */
module Safety {
  import opened Types
  import opened Protocol
  import opened Steps
  import opened Cardinality

  predicate HasVoted(s: State, v: Id) {
    v in s.db.voters && s.db.voters[v].hasVoted
  }

  predicate IsUsed(s: State, t: Id) {
    t in s.db.sessions && s.db.sessions[t].status.Used?
  }

  /** The request behind ballot b was sent for voter v. */
  predicate ByVoter(s: State, b: Id, v: Id) {
    b in s.origin && s.origin[b].voter == v
  }

  /** The request behind ballot b presented session t. */
  predicate ByToken(s: State, b: Id, t: Id) {
    b in s.origin && s.origin[b].token == t
  }

  ghost predicate OnePerVoter(s: State) {
    && s.origin.Keys == s.db.ballots.Keys
    && forall b, c, v :: ByVoter(s, b, v) && ByVoter(s, c, v) ==> b == c
  }

  ghost predicate VotedIffBallot(s: State) {
    forall v :: HasVoted(s, v) <==> exists b :: ByVoter(s, b, v)
  }

  /** The lock makes the row that a cast has loaded, and the guard it has passed, stay true until it commits. */
  ghost predicate LockedRow(s: State, p: Id)
    requires p in s.procs && HoldsLock(s.procs[p])
  {
    var v := s.procs[p].req.voter;
    && v in s.locks && s.locks[v] == p
    && v in s.db.voters
    && (if s.procs[p].CastLocked? then s.procs[p].row.hasVoted == s.db.voters[v].hasVoted else !s.db.voters[v].hasVoted)
  }

  ghost predicate LocksSound(s: State) {
    forall p :: p in s.procs && HoldsLock(s.procs[p]) ==> LockedRow(s, p)
  }

  ghost predicate UsedIffBallot(s: State) {
    && (forall t :: IsUsed(s, t) <==> exists b :: ByToken(s, b, t))
    && (forall p :: p in s.procs && PastSession(s.procs[p]) ==> s.procs[p].req.token in s.db.sessions)
  }

  ghost predicate Inv(s: State) {
    OnePerVoter(s) && VotedIffBallot(s) && LocksSound(s) && UsedIffBallot(s)
  }

  lemma InitialInv(s: State)
    requires Initial(s)
    ensures Inv(s)
  {}

  // ---------- preservation ----------

  /** Steps that change neither the ballots, nor `has_voted`, nor which sessions are USED, nor another process. */
  ghost predicate Quiet(s: State, s': State) {
    && s'.origin == s.origin && s'.db.ballots == s.db.ballots
    && (forall v :: HasVoted(s', v) <==> HasVoted(s, v))
    && (forall v :: v in s.db.voters ==> v in s'.db.voters)
    && (forall t :: IsUsed(s', t) <==> IsUsed(s, t))
    && (forall t :: t in s.db.sessions ==> t in s'.db.sessions)
  }

  lemma QuietKeepsCounts(s: State, s': State)
    requires Inv(s) && Quiet(s, s')
    ensures OnePerVoter(s') && VotedIffBallot(s')
    ensures forall t :: IsUsed(s', t) <==> exists b :: ByToken(s', b, t)
  {
    assert forall b, v :: ByVoter(s', b, v) <==> ByVoter(s, b, v);
    assert forall b, t :: ByToken(s', b, t) <==> ByToken(s, b, t);
  }

  /** A process that fails gives up its lock; nobody else held that one. */
  lemma FailKeepsInv(s: State, p: Id, why: Failure)
    requires Inv(s) && p in s.procs
    ensures Inv(Fail(s, p, why))
  {
    var s' := Fail(s, p, why);
    QuietKeepsCounts(s, s');
    forall q | q in s'.procs && HoldsLock(s'.procs[q]) ensures LockedRow(s', q) {
      assert LockedRow(s, q);
      if HoldsLock(s.procs[p]) {
        assert LockedRow(s, p);
      }
    }
  }

  /** A step that only moves p on, to a state that needs no lock and no session. */
  lemma QuietMoveKeepsInv(s: State, s': State, p: Id)
    requires Inv(s) && Quiet(s, s') && s'.locks == s.locks
    requires s'.procs == s.procs || (p in s'.procs && s'.procs == s.procs[p := s'.procs[p]] && !PastSession(s'.procs[p]))
    ensures Inv(s')
  {
    QuietKeepsCounts(s, s');
    forall q | q in s'.procs && HoldsLock(s'.procs[q]) ensures LockedRow(s', q) {
      assert LockedRow(s, q);
      assert HasVoted(s', s.procs[q].req.voter) <==> HasVoted(s, s.procs[q].req.voter);
    }
  }

  /** Taking the row lock: it was free, so no process of this voter is past its guard. */
  lemma LockKeepsInv(s: State, p: Id, drawn: Id)
    requires Inv(s) && p in s.procs && s.procs[p].CastSession? && Ready(s, p, drawn)
    ensures Inv(CastStep(s, p, drawn))
  {
    var req := s.procs[p].req;
    if req.voter !in s.db.voters {
      FailKeepsInv(s, p, VoterNotFound);
    } else {
      var s' := CastStep(s, p, drawn);
      QuietKeepsCounts(s, s');
      forall q | q in s'.procs && HoldsLock(s'.procs[q]) ensures LockedRow(s', q) {
        if q != p {
          assert LockedRow(s, q);
        }
      }
    }
  }

  /** The guard and the selection checks run under the lock. */
  lemma CheckKeepsInv(s: State, p: Id, drawn: Id)
    requires Inv(s) && p in s.procs && (s.procs[p].CastLocked? || s.procs[p].CastChecking?)
    ensures Inv(CastStep(s, p, drawn))
  {
    var s' := CastStep(s, p, drawn);
    if s'.procs[p].Failed? {
      FailKeepsInv(s, p, s'.procs[p].why);
      assert s' == Fail(s, p, s'.procs[p].why);
    } else {
      QuietKeepsCounts(s, s');
      assert LockedRow(s, p);
      forall q | q in s'.procs && HoldsLock(s'.procs[q]) ensures LockedRow(s', q) {
        assert LockedRow(s, q);
      }
    }
  }

  /** The commit: the voter had no ballot before it, and has this one after it. */
  lemma CommitKeepsInv(s: State, p: Id, drawn: Id)
    requires Inv(s) && p in s.procs && s.procs[p].CastStaged? && Ready(s, p, drawn)
    requires !SerialTaken(s.db.ballots, s.procs[p].ballot.serial)
    ensures Inv(CastStep(s, p, drawn))
  {
    var req := s.procs[p].req;
    var v, t := req.voter, req.token;
    var s' := CastStep(s, p, drawn);
    assert LockedRow(s, p);
    assert !HasVoted(s, v) && drawn !in s.origin;
    assert ByVoter(s', drawn, v) && ByToken(s', drawn, t);
    assert forall b, w :: b != drawn ==> (ByVoter(s', b, w) <==> ByVoter(s, b, w));
    assert forall b, u :: b != drawn ==> (ByToken(s', b, u) <==> ByToken(s, b, u));
    forall w ensures HasVoted(s', w) <==> exists b :: ByVoter(s', b, w) {
      if w != v {
        assert HasVoted(s', w) <==> HasVoted(s, w);
      }
    }
    forall u ensures IsUsed(s', u) <==> exists b :: ByToken(s', b, u) {
      if u != t {
        assert IsUsed(s', u) <==> IsUsed(s, u);
      }
    }
    forall q | q in s'.procs && HoldsLock(s'.procs[q]) ensures LockedRow(s', q) {
      assert q != p && LockedRow(s, q);
    }
  }

  lemma CastKeepsInv(s: State, p: Id, drawn: Id)
    requires Inv(s) && p in s.procs && IsCast(s.procs[p]) && Ready(s, p, drawn)
    ensures Inv(CastStep(s, p, drawn))
  {
    match s.procs[p]
    case CastNew(req) =>
      if SessionOpen(s.db, req.token, s.clock) {
        var s' := CastStep(s, p, drawn);
        QuietKeepsCounts(s, s');
        forall q | q in s'.procs && HoldsLock(s'.procs[q]) ensures LockedRow(s', q) {
          assert LockedRow(s, q);
        }
      } else {
        FailKeepsInv(s, p, InvalidSession);
      }
    case CastSession(_) => LockKeepsInv(s, p, drawn);
    case CastLocked(_, _) => CheckKeepsInv(s, p, drawn);
    case CastChecking(_, _, _) => CheckKeepsInv(s, p, drawn);
    case CastStaged(req, ballot) =>
      if SerialTaken(s.db.ballots, ballot.serial) {
        FailKeepsInv(s, p, IntegrityError);
      } else {
        CommitKeepsInv(s, p, drawn);
      }
  }

  /** The other requests never touch `has_voted`, ballots or locks, and add sessions that are not USED. */
  lemma OtherKeepsInv(s: State, p: Id, drawn: Id)
    requires Inv(s) && p in s.procs && !IsCast(s.procs[p]) && Ready(s, p, drawn)
    ensures Inv(Step(s, p, drawn))
  {
    var s' := Step(s, p, drawn);
    OtherFrame(s, p, drawn);
    assert forall w :: HasVoted(s', w) <==> HasVoted(s, w);
    assert forall t :: IsUsed(s', t) <==> IsUsed(s, t);
    QuietMoveKeepsInv(s, s', p);
  }

  lemma StepKeepsInv(s: State, a: Action)
    requires Inv(s) && Enabled(s, a)
    ensures Inv(Apply(s, a))
  {
    match a
    case Advance(p, drawn) =>
      var x := s.procs[p];
      if IsCast(x) {
        CastKeepsInv(s, p, drawn);
      } else {
        OtherKeepsInv(s, p, drawn);
      }
    case Crash(p) => FailKeepsInv(s, p, Interrupted);
    case Begin(p, _) => QuietMoveKeepsInv(s, Apply(s, a), p);
    case AddVoter(_, _) =>
      assert forall w :: HasVoted(Apply(s, a), w) <==> HasVoted(s, w);
      QuietMoveKeepsInv(s, Apply(s, a), 0);
    case EditVoter(_, _, _) =>
      assert forall w :: HasVoted(Apply(s, a), w) <==> HasVoted(s, w);
      QuietMoveKeepsInv(s, Apply(s, a), 0);
    case _ => QuietMoveKeepsInv(s, Apply(s, a), 0);
  }

  lemma {:induction false} RunKeepsInv(s: State, run: seq<Action>)
    requires Inv(s) && ValidRun(s, run)
    ensures Inv(After(s, run))
    decreases |run|
  {
    if run != [] {
      StepKeepsInv(s, run[0]);
      RunKeepsInv(Apply(s, run[0]), run[1..]);
    }
  }

  // ---------- what runs guarantee ----------

  function Voters(s: State): (m: map<Id, Id>) {
    map b | b in s.origin :: s.origin[b].voter
  }

  function Tokens(s: State): (m: map<Id, Id>) {
    map b | b in s.origin :: s.origin[b].token
  }

  function VotedSet(s: State): set<Id> {
    set v | v in s.db.voters && s.db.voters[v].hasVoted
  }

  function UsedSet(s: State): set<Id> {
    set t | t in s.db.sessions && s.db.sessions[t].status.Used?
  }

  /** In every interleaving no voter accounts for two committed ballots, and a voter has one exactly when marked. */
  lemma NoDoubleVote(start: State, run: seq<Action>)
    requires Initial(start) && ValidRun(start, run)
    ensures var s := After(start, run);
      && s.origin.Keys == s.db.ballots.Keys
      && (forall b, c, v :: ByVoter(s, b, v) && ByVoter(s, c, v) ==> b == c)
      && (forall v :: HasVoted(s, v) <==> exists b :: ByVoter(s, b, v))
  {
    InitialInv(start);
    RunKeepsInv(start, run);
  }

  lemma InvCounts(s: State)
    requires Inv(s)
    ensures |s.db.ballots| == |VotedSet(s)|
    ensures |UsedSet(s)| <= |s.db.ballots|
    ensures |UsedSet(s)| == |s.db.ballots| <==> Injective(Tokens(s))
  {
    var vs, ts := Voters(s), Tokens(s);
    assert vs.Keys == s.db.ballots.Keys && ts.Keys == s.db.ballots.Keys;
    assert forall b, v :: ByVoter(s, b, v) <==> b in vs && vs[b] == v;
    assert forall b, t :: ByToken(s, b, t) <==> b in ts && ts[b] == t;
    forall b, c | b in vs && c in vs && vs[b] == vs[c] ensures b == c {
      assert ByVoter(s, b, vs[b]) && ByVoter(s, c, vs[b]);
    }
    forall v ensures v in vs.Values <==> HasVoted(s, v) {
      if v in vs.Values {
        var b :| b in vs && vs[b] == v;
        assert ByVoter(s, b, v);
      }
      if HasVoted(s, v) {
        var b :| ByVoter(s, b, v);
        assert vs[b] == v;
      }
    }
    assert vs.Values == VotedSet(s);
    forall t ensures t in ts.Values <==> IsUsed(s, t) {
      if t in ts.Values {
        var b :| b in ts && ts[b] == t;
        assert ByToken(s, b, t);
      }
      if IsUsed(s, t) {
        var b :| ByToken(s, b, t);
        assert ts[b] == t;
      }
    }
    assert ts.Values == UsedSet(s);
    ValuesVersusKeys(vs);
    ValuesVersusKeys(ts);
    assert |vs| == |vs.Keys| && |ts| == |ts.Keys| && |s.db.ballots| == |s.db.ballots.Keys|;
  }

  /**
   In every interleaving the committed ballots are exactly as many as the voters with `has_voted`, and at
   least as many as the USED sessions: as many precisely when no session backed two ballots.
   */
  lemma CommittedBallotsEqualVoters(start: State, run: seq<Action>)
    requires Initial(start) && ValidRun(start, run)
    ensures var s := After(start, run);
      && |s.db.ballots| == |VotedSet(s)|
      && |UsedSet(s)| <= |s.db.ballots|
      && (|UsedSet(s)| == |s.db.ballots| <==> Injective(Tokens(s)))
  {
    InitialInv(start);
    RunKeepsInv(start, run);
    InvCounts(After(start, run));
  }

  /** The ballot box only grows, `has_voted` never reverts, USED never reverts, and nobody disappears. */
  ghost predicate Grown(s: State, s': State) {
    && (forall b :: b in s.db.ballots ==> b in s'.db.ballots && s'.db.ballots[b] == s.db.ballots[b])
    && (forall b :: b in s.origin ==> b in s'.origin && s'.origin[b] == s.origin[b])
    && (forall v :: HasVoted(s, v) ==> HasVoted(s', v))
    && (forall t :: IsUsed(s, t) ==> IsUsed(s', t))
    && s.db.votes <= s'.db.votes
  }

  lemma CastGrows(s: State, p: Id, drawn: Id)
    requires Inv(s) && p in s.procs && IsCast(s.procs[p]) && Ready(s, p, drawn)
    ensures Grown(s, CastStep(s, p, drawn))
  {
    if Commits(s, p) {
      CommitWrites(s, p, drawn);
    } else {
      CastWritesOnlyAtCommit(s, p, drawn);
    }
  }

  lemma OtherGrows(s: State, p: Id, drawn: Id)
    requires p in s.procs && !IsCast(s.procs[p]) && Ready(s, p, drawn)
    ensures Grown(s, Step(s, p, drawn))
  {
    OtherFrame(s, p, drawn);
  }

  lemma StepGrows(s: State, a: Action)
    requires Inv(s) && Enabled(s, a)
    ensures Grown(s, Apply(s, a))
  {
    if a.Advance? {
      if IsCast(s.procs[a.p]) {
        CastGrows(s, a.p, a.drawn);
      } else {
        OtherGrows(s, a.p, a.drawn);
      }
    } else {
      BackgroundFrame(s, a);
    }
  }

  lemma {:induction false} RunGrows(s: State, run: seq<Action>)
    requires Inv(s) && ValidRun(s, run)
    ensures Grown(s, After(s, run))
    decreases |run|
  {
    if run != [] {
      StepKeepsInv(s, run[0]);
      StepGrows(s, run[0]);
      RunGrows(Apply(s, run[0]), run[1..]);
    }
  }

  /** Once a voter's ballot is in, it stays the only one whatever runs afterwards, late check-ins included. */
  lemma BallotIsFinal(start: State, before: seq<Action>, later: seq<Action>, v: Id)
    requires Initial(start) && ValidRun(start, before) && ValidRun(After(start, before), later)
    requires HasVoted(After(start, before), v)
    ensures var s := After(start, before); var s' := After(s, later);
      && HasVoted(s', v)
      && forall b :: ByVoter(s', b, v) <==> ByVoter(s, b, v)
  {
    var s := After(start, before);
    InitialInv(start);
    RunKeepsInv(start, before);
    RunKeepsInv(s, later);
    RunGrows(s, later);
    var s' := After(s, later);
    var b0 :| ByVoter(s, b0, v);
    assert ByVoter(s', b0, v);
  }
}
