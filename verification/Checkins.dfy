/** How the check-ins of an election grow along a run: by those of its own that commit, and by nothing else. */
module Checkins {
  import opened Types
  import opened Protocol
  import opened Steps
  import opened ResultService

  /** The action commits a check-in for e. */
  predicate ChecksInto(s: State, a: Action, e: Id) {
    && a.Advance? && a.p in s.procs && s.procs[a.p].CheckinSeen?
    && s.procs[a.p].election == e && (e, s.procs[a.p].voter) !in s.db.checkins
  }

  /** How many check-ins for e commit along the run. */
  function CheckinsFor(s: State, run: seq<Action>, e: Id): nat
    requires ValidRun(s, run)
    decreases |run|
  {
    if run == [] then 0
    else (if ChecksInto(s, run[0], e) then 1 else 0) + CheckinsFor(Apply(s, run[0]), run[1..], e)
  }

  lemma CastKeepsCheckins(s: State, p: Id, drawn: Id)
    requires p in s.procs && IsCast(s.procs[p])
    ensures CastStep(s, p, drawn).db.checkins == s.db.checkins
  {
    if Commits(s, p) {
      CommitWrites(s, p, drawn);
    } else {
      CastWritesOnlyAtCommit(s, p, drawn);
    }
  }

  lemma CheckinWrites(s: State, p: Id)
    requires p in s.procs && s.procs[p].CheckinSeen?
    ensures var x := s.procs[p]; CheckinStep(s, p).db.checkins == s.db.checkins + {(x.election, x.voter)}
  {}

  lemma OtherKeepsCheckins(s: State, p: Id, drawn: Id)
    requires p in s.procs && !IsCast(s.procs[p]) && !s.procs[p].CheckinSeen? && Ready(s, p, drawn)
    ensures Step(s, p, drawn).db.checkins == s.db.checkins
  {
    OtherFrame(s, p, drawn);
  }

  lemma StepKeepsCheckins(s: State, a: Action)
    requires Enabled(s, a) && !(a.Advance? && s.procs[a.p].CheckinSeen?)
    ensures Apply(s, a).db.checkins == s.db.checkins
  {
    if !a.Advance? {
      BackgroundFrame(s, a);
    } else if IsCast(s.procs[a.p]) {
      CastKeepsCheckins(s, a.p, a.drawn);
    } else {
      OtherKeepsCheckins(s, a.p, a.drawn);
    }
  }

  lemma OneMorePresent(checkins: set<(Id, Id)>, c: (Id, Id), e: Id)
    ensures |CheckedInVoters(checkins + {c}, e)| == |CheckedInVoters(checkins, e)| + if c.0 == e && c !in checkins then 1 else 0
  {
    if c.0 == e && c !in checkins {
      assert CheckedInVoters(checkins + {c}, e) == CheckedInVoters(checkins, e) + {c};
    } else {
      assert CheckedInVoters(checkins + {c}, e) == CheckedInVoters(checkins, e);
    }
  }

  lemma StepGrowsCheckins(s: State, a: Action, e: Id)
    requires Enabled(s, a)
    ensures |CheckedInVoters(Apply(s, a).db.checkins, e)| == |CheckedInVoters(s.db.checkins, e)| + if ChecksInto(s, a, e) then 1 else 0
  {
    if a.Advance? && s.procs[a.p].CheckinSeen? {
      CheckinWrites(s, a.p);
      OneMorePresent(s.db.checkins, (s.procs[a.p].election, s.procs[a.p].voter), e);
    } else {
      StepKeepsCheckins(s, a);
    }
  }

  /** In every run the voters checked in for e grow by exactly the check-ins for e that commit. */
  lemma {:induction false} CheckinsGrowByCommits(s: State, run: seq<Action>, e: Id)
    requires ValidRun(s, run)
    ensures |CheckedInVoters(After(s, run).db.checkins, e)| == |CheckedInVoters(s.db.checkins, e)| + CheckinsFor(s, run, e)
    decreases |run|
  {
    if run != [] {
      StepGrowsCheckins(s, run[0], e);
      CheckinsGrowByCommits(Apply(s, run[0]), run[1..], e);
    }
  }
}
