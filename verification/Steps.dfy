/** What each kind of step of the voting requests can change, stated once for every proof about runs. */
module Steps {
  import opened Types
  import opened Protocol

  /** The next step of p commits a ballot. */
  predicate Commits(s: State, p: Id)
    requires p in s.procs
  {
    s.procs[p].CastStaged? && !SerialTaken(s.db.ballots, s.procs[p].ballot.serial)
  }

  predicate PastSession(x: Process) {
    x.CastSession? || HoldsLock(x)
  }

  predicate IsIssue(x: Process) {
    x.IssueNew? || x.IssueLive? || x.IssueCleared? || x.IssueStamped?
  }

  /** Only process p moves, and the tables stay as they are. */
  predicate OnlyMoves(s: State, s': State, p: Id) {
    && s'.db == s.db && s'.origin == s.origin && s'.clock == s.clock
    && p in s'.procs && s'.procs == s.procs[p := s'.procs[p]]
  }

  lemma CastWritesOnlyAtCommit(s: State, p: Id, drawn: Id)
    requires p in s.procs && IsCast(s.procs[p]) && !Commits(s, p)
    ensures var s' := CastStep(s, p, drawn);
      && OnlyMoves(s, s', p)
      && (s.procs[p].CastNew? && PastSession(s'.procs[p]) ==> SessionOpen(s.db, s'.procs[p].req.token, s.clock))
      && (PastSession(s'.procs[p]) ==> s'.procs[p].req == s.procs[p].req)
  {}

  lemma CommitWrites(s: State, p: Id, drawn: Id)
    requires p in s.procs && Commits(s, p)
    ensures var req := s.procs[p].req;
      CastStep(s, p, drawn) == s.(
        db := CommitBallot(s.db, req, s.procs[p].ballot, drawn),
        procs := s.procs[p := Done], locks := s.locks - {req.voter}, origin := s.origin[drawn := req])
  {}

  /** What a step of a request other than a cast leaves alone. */
  predicate Framed(s: State, s': State, p: Id) {
    && s'.clock == s.clock && s'.locks == s.locks && s'.origin == s.origin
    && p in s'.procs && s'.procs == s.procs[p := s'.procs[p]] && !IsCast(s'.procs[p])
    && s'.db.ballots == s.db.ballots && s'.db.votes == s.db.votes && s'.db.positions == s.db.positions
  }

  /** Voters change only when a check-in commits, sessions only when an issue does. */
  predicate Arrives(s: State, s': State, x: Process) {
    || (s'.db.voters == s.db.voters && s'.db.checkins == s.db.checkins)
    || (x.CheckinSeen? && (x.election, x.voter) !in s.db.checkins
        && s'.db.voters == MarkArrived(s.db.voters, x.voter, x.seen)
        && s'.db.checkins == s.db.checkins + {(x.election, x.voter)})
  }

  predicate Issues(s: State, s': State, x: Process, drawn: Id) {
    || s'.db.sessions == s.db.sessions
    || (x.IssueStamped? && drawn !in s.db.sessions
        && s'.db.sessions == s.db.sessions[drawn := Session(x.election, Active, x.expiresAt)])
  }

  predicate OtherStep(s: State, s': State, p: Id, drawn: Id)
    requires p in s.procs
  {
    Framed(s, s', p) && Arrives(s, s', s.procs[p]) && Issues(s, s', s.procs[p], drawn)
  }

  /** A check-in that has just read a voter who may be checked in. */
  predicate Looked(s: State, x: Process)
    requires x.CheckinSeen?
  {
    x.voter in s.db.voters && x.seen == s.db.voters[x.voter] && IssueGuard(x.seen, x.election)
  }

  lemma CheckinFrame(s: State, p: Id, drawn: Id)
    requires p in s.procs && (s.procs[p].CheckinNew? || s.procs[p].CheckinSeen?)
    ensures OtherStep(s, CheckinStep(s, p), p, drawn)
    ensures CheckinStep(s, p).db.elections == s.db.elections
    ensures CheckinStep(s, p).procs[p].CheckinSeen? ==> Looked(s, CheckinStep(s, p).procs[p])
  {}

  lemma IssueFrame(s: State, p: Id, drawn: Id)
    requires p in s.procs && IsIssue(s.procs[p]) && Ready(s, p, drawn)
    ensures OtherStep(s, IssueStep(s, p, drawn), p, drawn)
    ensures IssueStep(s, p, drawn).db.elections == s.db.elections
  {}

  lemma MoveFrame(s: State, p: Id, drawn: Id)
    requires p in s.procs && (s.procs[p].MoveNew? || s.procs[p].MoveChecked?)
    ensures OtherStep(s, MoveStep(s, p), p, drawn)
  {}

  lemma PublishFrame(s: State, p: Id, drawn: Id)
    requires p in s.procs && (s.procs[p].PublishNew? || s.procs[p].PublishRead?)
    ensures OtherStep(s, PublishStep(s, p), p, drawn)
  {}

  lemma OtherFrame(s: State, p: Id, drawn: Id)
    requires p in s.procs && !IsCast(s.procs[p]) && Ready(s, p, drawn)
    ensures OtherStep(s, Step(s, p, drawn), p, drawn)
  {
    var x := s.procs[p];
    if x.CheckinNew? || x.CheckinSeen? {
      CheckinFrame(s, p, drawn);
    } else if x.MoveNew? || x.MoveChecked? {
      MoveFrame(s, p, drawn);
    } else if x.PublishNew? || x.PublishRead? {
      PublishFrame(s, p, drawn);
    } else {
      IssueFrame(s, p, drawn);
    }
  }

  /** A voter row in the background: created, or edited in its roll status and constituency. */
  predicate VotersEdited(s: State, s': State) {
    forall v :: v in s'.db.voters ==>
      if v in s.db.voters then
        s'.db.voters[v] == s.db.voters[v].(rollStatus := s'.db.voters[v].rollStatus, constituency := s'.db.voters[v].constituency)
      else !AlreadyVoted(s'.db.voters[v]) && s'.db.voters[v].votedAt.None?
  }

  /** What an action that is not a step of a request leaves alone. */
  predicate Background(s: State, s': State) {
    && s'.db.ballots == s.db.ballots && s'.db.votes == s.db.votes && s'.origin == s.origin
    && s'.db.sessions == s.db.sessions && s'.db.checkins == s.db.checkins
    && s.db.voters.Keys <= s'.db.voters.Keys && VotersEdited(s, s')
    && s.clock <= s'.clock
  }

  lemma BackgroundFrame(s: State, a: Action)
    requires Enabled(s, a) && !a.Advance?
    ensures Background(s, Apply(s, a))
    ensures !a.AddElection? ==> Apply(s, a).db.elections == s.db.elections
    ensures !a.EditPosition? ==> Apply(s, a).db.positions == s.db.positions
    ensures !a.AddVoter? && !a.EditVoter? ==> Apply(s, a).db.voters == s.db.voters
    ensures Apply(s, a).procs == match a
      case Begin(p, x) => s.procs[p := x]
      case Crash(p) => s.procs[p := Failed(Interrupted)]
      case _ => s.procs
  {}

  /** What the services around the voting requests write: a new election is a DRAFT, and an edit sets what it names. */
  lemma OutsideWrites(s: State, id: Id, rollStatus: Option<RollStatus>, constituency: Option<Id>)
    ensures id !in s.db.elections ==> Apply(s, AddElection(id)).db == s.db.(elections := s.db.elections[id := Draft])
    ensures id in s.db.voters ==>
      var row := s.db.voters[id]; var row' := Apply(s, EditVoter(id, rollStatus, constituency)).db.voters[id];
      && (rollStatus.Some? ==> row'.rollStatus == rollStatus.value) && (rollStatus.None? ==> row'.rollStatus == row.rollStatus)
      && (constituency.Some? ==> row'.constituency == constituency) && (constituency.None? ==> row'.constituency == row.constituency)
      && row' == row.(rollStatus := row'.rollStatus, constituency := row'.constituency)
  {}

  /** What else comes from outside: limits, slates, new voters, the summary of a tally, a lost connection, and time. */
  lemma OutsideComes(s: State, id: Id, voter: Voter, max: int, seconds: nat)
    ensures Apply(s, EditPosition(id, max)).db == s.db.(positions := s.db.positions[id := max])
    ensures Apply(s, EditSlate(id, true)).db.slates == s.db.slates + {id}
    ensures Apply(s, EditSlate(id, false)).db.slates == s.db.slates - {id}
    ensures id !in s.db.voters && !voter.hasVoted && voter.votingStatus.NotVoted? && voter.votedAt.None? ==>
      Apply(s, AddVoter(id, voter)).db == s.db.(voters := s.db.voters[id := voter])
    ensures id in s.db.elections ==> Apply(s, Tally(id)).db == s.db.(tallied := s.db.tallied + {id})
    ensures id in s.procs && !Ended(s.procs[id]) ==> Apply(s, Crash(id)).db == s.db
    ensures Apply(s, Tick(seconds)) == s.(clock := s.clock + seconds)
  {}

  lemma ClockAdvances(s: State, a: Action)
    requires Enabled(s, a)
    ensures s.clock <= Apply(s, a).clock
  {
    if !a.Advance? {
      BackgroundFrame(s, a);
    } else if !IsCast(s.procs[a.p]) {
      OtherFrame(s, a.p, a.drawn);
    } else if Commits(s, a.p) {
      CommitWrites(s, a.p, a.drawn);
    } else {
      CastWritesOnlyAtCommit(s, a.p, a.drawn);
    }
  }
}
