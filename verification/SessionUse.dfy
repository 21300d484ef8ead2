/**
 When USED sessions are as many as ballots. A cast tests that its session is ACTIVE when it starts, but not again
 when it commits, and takes no lock on it in between. The missing test is exactly what the counts need.
 */
module SessionUse {
  import opened Types
  import opened Protocol
  import opened Steps
  import opened Cardinality
  import opened Safety

  /** The session that p presented is still ACTIVE. */
  predicate StillActive(s: State, p: Id)
    requires p in s.procs && IsCast(s.procs[p])
  {
    var t := s.procs[p].req.token;
    t in s.db.sessions && s.db.sessions[t].status.Active?
  }

  /** Every commit of the run finds its session still ACTIVE. */
  predicate CommitsOnActive(s: State, run: seq<Action>)
    requires ValidRun(s, run)
    decreases |run|
  {
    run == [] ||
    ((run[0].Advance? && Commits(s, run[0].p) ==> StillActive(s, run[0].p)) && CommitsOnActive(Apply(s, run[0]), run[1..]))
  }

  /** A session that a cast has found open can only have become USED since. */
  ghost predicate OpenedInv(s: State) {
    forall p :: p in s.procs && PastSession(s.procs[p]) ==>
      var t := s.procs[p].req.token; t in s.db.sessions && (StillActive(s, p) || IsUsed(s, t))
  }

  lemma CastKeepsOpened(s: State, p: Id, drawn: Id)
    requires OpenedInv(s) && p in s.procs && IsCast(s.procs[p]) && Ready(s, p, drawn)
    ensures OpenedInv(CastStep(s, p, drawn))
  {
    if Commits(s, p) {
      CommitWrites(s, p, drawn);
    } else {
      CastWritesOnlyAtCommit(s, p, drawn);
      assert PastSession(CastStep(s, p, drawn).procs[p]) && !s.procs[p].CastNew? ==> PastSession(s.procs[p]);
    }
  }

  lemma StepKeepsOpened(s: State, a: Action)
    requires OpenedInv(s) && Enabled(s, a)
    ensures OpenedInv(Apply(s, a))
  {
    if !a.Advance? {
      BackgroundFrame(s, a);
    } else if IsCast(s.procs[a.p]) {
      CastKeepsOpened(s, a.p, a.drawn);
    } else {
      OtherFrame(s, a.p, a.drawn);
    }
  }

  lemma OneMoreKey<K, V>(m: map<K, V>, k: K, v: V)
    requires k !in m
    ensures Injective(m[k := v]) <==> Injective(m) && v !in m.Values
  {
    var n := m[k := v];
    assert forall j :: j in m ==> n[j] == m[j];
    if Injective(n) {
      forall i, j | i in m && j in m && m[i] == m[j] ensures i == j {
        assert n[i] == n[j];
      }
      assert n[k] == v;
    }
  }

  /** One commit: the sessions stay one to a ballot exactly if the one presented is still ACTIVE. */
  lemma CommitDecides(s: State, p: Id, drawn: Id)
    requires Inv(s) && OpenedInv(s) && p in s.procs && Commits(s, p) && Ready(s, p, drawn)
    ensures Injective(Tokens(CastStep(s, p, drawn))) <==> Injective(Tokens(s)) && StillActive(s, p)
  {
    CommitWrites(s, p, drawn);
    var t := s.procs[p].req.token;
    assert drawn !in s.origin;
    assert Tokens(CastStep(s, p, drawn)) == Tokens(s)[drawn := t];
    OneMoreKey(Tokens(s), drawn, t);
    if IsUsed(s, t) {
      var b :| ByToken(s, b, t);
      assert Tokens(s)[b] == t;
    }
    if t in Tokens(s).Values {
      var b :| b in Tokens(s) && Tokens(s)[b] == t;
      assert ByToken(s, b, t);
    }
    assert StillActive(s, p) <==> !IsUsed(s, t);
  }

  lemma OtherActionsDecideNothing(s: State, a: Action)
    requires Enabled(s, a) && !(a.Advance? && Commits(s, a.p))
    ensures Tokens(Apply(s, a)) == Tokens(s)
  {
    if !a.Advance? {
      BackgroundFrame(s, a);
    } else if IsCast(s.procs[a.p]) {
      CastWritesOnlyAtCommit(s, a.p, a.drawn);
    } else {
      OtherFrame(s, a.p, a.drawn);
    }
  }

  lemma {:induction false} RunDecides(s: State, run: seq<Action>)
    requires Inv(s) && OpenedInv(s) && ValidRun(s, run)
    ensures Injective(Tokens(After(s, run))) <==> Injective(Tokens(s)) && CommitsOnActive(s, run)
    decreases |run|
  {
    if run != [] {
      var a := run[0];
      StepKeepsInv(s, a);
      StepKeepsOpened(s, a);
      if a.Advance? && Commits(s, a.p) {
        CommitDecides(s, a.p, a.drawn);
      } else {
        OtherActionsDecideNothing(s, a);
      }
      RunDecides(Apply(s, a), run[1..]);
    }
  }

  /** USED sessions are as many as ballots if and only if every commit found its session still ACTIVE. */
  lemma CountsAgreeIffCommitsOnActive(start: State, run: seq<Action>)
    requires Initial(start) && ValidRun(start, run)
    ensures var s := After(start, run); |UsedSet(s)| == |s.db.ballots| <==> CommitsOnActive(start, run)
  {
    InitialInv(start);
    RunKeepsInv(start, run);
    InvCounts(After(start, run));
    RunDecides(start, run);
  }
}
