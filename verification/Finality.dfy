/**
 When VOTED is final. The check-in reads the voter without a lock and writes its status later, so a check-in in
 flight can put CHECKED_IN over VOTED; nothing else can.
 */
module Finality {
  import opened Types
  import opened Protocol
  import opened Steps

  predicate ReadsVoted(s: State, v: Id) {
    v in s.db.voters && s.db.voters[v].hasVoted && s.db.voters[v].votingStatus.Voted?
  }

  /** A check-in of v that is past its guards and will write CHECKED_IN. */
  predicate WillOverwrite(s: State, v: Id, x: Process) {
    x.CheckinSeen? && x.voter == v && !x.seen.votingStatus.CheckedIn? && (x.election, v) !in s.db.checkins
  }

  predicate NoneWillOverwrite(s: State, v: Id) {
    forall p :: p in s.procs ==> !WillOverwrite(s, v, s.procs[p])
  }

  lemma OtherKeepsVoted(s: State, v: Id, p: Id, drawn: Id)
    requires ReadsVoted(s, v) && NoneWillOverwrite(s, v) && p in s.procs && !IsCast(s.procs[p]) && Ready(s, p, drawn)
    ensures ReadsVoted(Step(s, p, drawn), v) && NoneWillOverwrite(Step(s, p, drawn), v)
  {
    var s' := Step(s, p, drawn);
    OtherFrame(s, p, drawn);
    if s.procs[p].CheckinNew? || s.procs[p].CheckinSeen? {
      CheckinFrame(s, p, drawn);
    }
    assert !WillOverwrite(s, v, s.procs[p]);
    forall q | q in s'.procs ensures !WillOverwrite(s', v, s'.procs[q]) {
      assert q != p ==> !WillOverwrite(s, v, s.procs[q]);
    }
  }

  lemma CastKeepsVoted(s: State, v: Id, p: Id, drawn: Id)
    requires ReadsVoted(s, v) && NoneWillOverwrite(s, v) && p in s.procs && IsCast(s.procs[p]) && Ready(s, p, drawn)
    ensures ReadsVoted(CastStep(s, p, drawn), v) && NoneWillOverwrite(CastStep(s, p, drawn), v)
  {
    var s' := CastStep(s, p, drawn);
    if Commits(s, p) {
      CommitWrites(s, p, drawn);
    } else {
      CastWritesOnlyAtCommit(s, p, drawn);
    }
    forall q | q in s'.procs ensures !WillOverwrite(s', v, s'.procs[q]) {
      assert q != p ==> !WillOverwrite(s, v, s.procs[q]);
    }
  }

  lemma ActionKeepsVoted(s: State, v: Id, a: Action)
    requires ReadsVoted(s, v) && NoneWillOverwrite(s, v) && Enabled(s, a)
    ensures ReadsVoted(Apply(s, a), v) && NoneWillOverwrite(Apply(s, a), v)
  {
    if !a.Advance? {
      var s' := Apply(s, a);
      BackgroundFrame(s, a);
      forall q | q in s'.procs ensures !WillOverwrite(s', v, s'.procs[q]) {
        assert q in s.procs ==> !WillOverwrite(s, v, s.procs[q]);
      }
    } else if IsCast(s.procs[a.p]) {
      CastKeepsVoted(s, v, a.p, a.drawn);
    } else {
      OtherKeepsVoted(s, v, a.p, a.drawn);
    }
  }

  lemma {:induction false} RunKeepsVoted(s: State, v: Id, run: seq<Action>)
    requires ReadsVoted(s, v) && NoneWillOverwrite(s, v) && ValidRun(s, run)
    ensures ReadsVoted(After(s, run), v)
    decreases |run|
  {
    if run != [] {
      ActionKeepsVoted(s, v, run[0]);
      RunKeepsVoted(Apply(s, run[0]), v, run[1..]);
    }
  }

  lemma OverwriterOverwrites(s: State, v: Id, p: Id)
    requires ReadsVoted(s, v) && p in s.procs && WillOverwrite(s, v, s.procs[p])
    ensures ValidRun(s, [Advance(p, 0)]) && !ReadsVoted(After(s, [Advance(p, 0)]), v)
  {
    var run := [Advance(p, 0)];
    assert Apply(s, run[0]) == CheckinStep(s, p);
    assert run[1..] == [] && After(s, run) == CheckinStep(s, p);
  }

  /** A voter keeps reading VOTED in every continuation if and only if no check-in of theirs in flight will write. */
  lemma VotedIsFinalIff(s: State, v: Id)
    requires ReadsVoted(s, v)
    ensures NoneWillOverwrite(s, v) <==> forall run :: ValidRun(s, run) ==> ReadsVoted(After(s, run), v)
  {
    if NoneWillOverwrite(s, v) {
      forall run | ValidRun(s, run) ensures ReadsVoted(After(s, run), v) {
        RunKeepsVoted(s, v, run);
      }
    } else {
      var p :| p in s.procs && WillOverwrite(s, v, s.procs[p]);
      OverwriterOverwrites(s, v, p);
    }
  }
}
