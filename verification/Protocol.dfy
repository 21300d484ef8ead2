/**
 The voting requests as an interleaved state machine. Every request is a process; each of its steps reads
 or writes the committed tables once, under PostgreSQL's read-committed rules:
   - a cast holds the voter's row lock (SELECT ... FOR UPDATE) from its second step to its end;
   - writes become visible only at the commit step, all at once (get_db);
   - an exception ends the process and leaves the tables as they were.
 A check-in, a ballot issue, a lifecycle transition and a publication take no lock before they commit.
 */
module Protocol {
  import opened Types
  import opened Lifecycle

  /** timedelta(minutes=15), in seconds. */
  const SESSION_TTL: nat := 900

  datatype Tables = Tables(
    elections: map<Id, ElectionStatus>,
    slates: set<Id>,             // elections with an active position and an approved candidate
    tallied: set<Id>,            // elections with a result summary
    positions: map<Id, int>,     // max_selections by position
    voters: map<Id, Voter>,
    checkins: set<(Id, Id)>,     // (election, voter), unique
    sessions: map<Id, Session>,  // by token hash, unique
    ballots: map<Id, Ballot>,
    votes: seq<Vote>)

  /** Where a request stands. */
  datatype Process =
    // cast_ballot
    | CastNew(req: CastRequest)
    | CastSession(req: CastRequest)                            // session found, active, in time
    | CastLocked(req: CastRequest, row: Voter)                 // voter row locked and loaded
    | CastChecking(req: CastRequest, row: Voter, done: nat)    // not voted; `done` selections accepted
    | CastStaged(req: CastRequest, ballot: Ballot)
    // checkin_voter
    | CheckinNew(election: Id, voter: Id)
    | CheckinSeen(election: Id, voter: Id, seen: Voter)        // guards passed on an unlocked read
    // authenticate_and_generate_ballot
    | IssueNew(election: Id, number: Id)
    | IssueLive(election: Id, number: Id)                      // election was LIVE when read
    | IssueCleared(election: Id)                               // voter was eligible when read
    | IssueStamped(election: Id, expiresAt: nat)
    // transition_lifecycle
    | MoveNew(election: Id, target: ElectionStatus)
    | MoveChecked(election: Id, target: ElectionStatus)        // allowed from the status that was read
    // publish_results
    | PublishNew(election: Id)
    | PublishRead(election: Id, seenStatus: ElectionStatus)
    | Done
    | Failed(why: Failure)

  /** `origin` is history, not a table: which request committed each ballot. */
  datatype State = State(
    db: Tables,
    clock: nat,
    locks: map<Id, Id>,          // voter row -> the process that holds it
    procs: map<Id, Process>,
    origin: map<Id, CastRequest>)

  datatype Action =
    | Begin(p: Id, start: Process)
    | Advance(p: Id, drawn: Id)  // `drawn` is the nonce, key or token that this step draws, or the row that it finds
    | Crash(p: Id)               // any exception the steps do not raise themselves
    | Tick(seconds: nat)
    | AddElection(id: Id)
    | AddVoter(id: Id, voter: Voter)
    | EditVoter(id: Id, rollStatus: Option<RollStatus>, constituency: Option<Id>)
    | EditPosition(id: Id, maxSelections: int)
    | EditSlate(id: Id, present: bool)
    | Tally(id: Id)

  predicate IsCast(x: Process) {
    x.CastNew? || x.CastSession? || x.CastLocked? || x.CastChecking? || x.CastStaged?
  }

  predicate HoldsLock(x: Process) {
    x.CastLocked? || x.CastChecking? || x.CastStaged?
  }

  predicate IsNew(x: Process) {
    x.CastNew? || x.CheckinNew? || x.IssueNew? || x.MoveNew? || x.PublishNew?
  }

  predicate Ended(x: Process) {
    x.Done? || x.Failed?
  }

  // ---------- building blocks ----------

  predicate SessionOpen(db: Tables, token: Id, now: nat) {
    token in db.sessions && db.sessions[token].status.Active? && now <= db.sessions[token].expiresAt
  }

  /** The vote rows of one ballot, in the order of the nested loops. */
  function CandidateRows(ballot: Id, position: Id, candidates: seq<Id>): seq<Vote> {
    if candidates == [] then []
    else [Vote(ballot, position, candidates[0])] + CandidateRows(ballot, position, candidates[1..])
  }

  function VoteRows(ballot: Id, selections: seq<Selection>): seq<Vote> {
    if selections == [] then []
    else CandidateRows(ballot, selections[0].position, selections[0].candidates) + VoteRows(ballot, selections[1..])
  }

  /** UPDATE voters SET has_voted, voting_status, voted_at WHERE id = v. */
  function MarkVoted(voters: map<Id, Voter>, v: Id, at: nat): map<Id, Voter> {
    if v in voters then voters[v := voters[v].(hasVoted := true, votingStatus := Voted, votedAt := Some(at))] else voters
  }

  /** update_voter and verify_voter set at most these two of the columns modelled; None leaves one as it is. */
  function Edited(row: Voter, rollStatus: Option<RollStatus>, constituency: Option<Id>): Voter {
    row.(rollStatus := if rollStatus.Some? then rollStatus.value else row.rollStatus,
         constituency := if constituency.Some? then constituency else row.constituency)
  }

  /** The check-in's UPDATE names only the columns whose loaded value it changed. */
  function MarkArrived(voters: map<Id, Voter>, v: Id, seen: Voter): map<Id, Voter> {
    if v in voters then
      var row := if seen.votingStatus.CheckedIn? then voters[v] else voters[v].(votingStatus := CheckedIn);
      voters[v := if seen.rollStatus.Arrived? then row else row.(rollStatus := Arrived)]
    else voters
  }

  function MarkUsed(sessions: map<Id, Session>, token: Id): map<Id, Session> {
    if token in sessions then sessions[token := sessions[token].(status := Used)] else sessions
  }

  predicate SerialTaken(ballots: map<Id, Ballot>, serial: (Id, Id)) {
    exists b :: b in ballots && ballots[b].serial == serial
  }

  function CommitBallot(db: Tables, req: CastRequest, ballot: Ballot, id: Id): Tables {
    db.(ballots := db.ballots[id := ballot],
        votes := db.votes + VoteRows(id, req.selections),
        voters := MarkVoted(db.voters, req.voter, ballot.castAt),
        sessions := MarkUsed(db.sessions, req.token))
  }

  predicate IssueGuard(row: Voter, election: Id) {
    row.election == Some(election) && !AlreadyVoted(row) && !Barred(row.rollStatus)
  }

  /** get_by_voter_id_number finds v for this election and number; if there are several such rows, it may be any. */
  predicate Enrolled(voters: map<Id, Voter>, v: Id, election: Id, number: Id) {
    v in voters && voters[v].election == Some(election) && voters[v].number == Some(number)
  }

  /** The first selection that the position rules refuse, if any. */
  function FirstRefusal(sels: seq<Selection>, positions: map<Id, int>): Option<Failure> {
    if sels == [] then None
    else if sels[0].position !in positions then Some(InvalidPosition)
    else if |sels[0].candidates| > positions[sels[0].position] then Some(MaxSelectionsExceeded)
    else FirstRefusal(sels[1..], positions)
  }

  // ---------- steps ----------

  function Become(s: State, p: Id, x: Process): State {
    s.(procs := s.procs[p := x])
  }

  /** An exception: roll back, which also releases the row lock if the process holds it. */
  function Fail(s: State, p: Id, why: Failure): State
    requires p in s.procs
  {
    var x := s.procs[p];
    s.(procs := s.procs[p := Failed(why)],
       locks := if HoldsLock(x) then s.locks - {x.req.voter} else s.locks)
  }

  /** When the process can take its next step: locks wait, drawn keys are new, and a lookup finds what is there. */
  predicate Ready(s: State, p: Id, drawn: Id)
    requires p in s.procs
  {
    match s.procs[p]
    case CastSession(req) => req.voter !in s.locks
    case CastStaged(_, _) => drawn !in s.db.ballots
    case IssueLive(e, n) => (exists v :: v in s.db.voters && Enrolled(s.db.voters, v, e, n)) ==> Enrolled(s.db.voters, drawn, e, n)
    case IssueStamped(_, _) => drawn !in s.db.sessions
    case Done => false
    case Failed(_) => false
    case _ => true
  }

  function CastStep(s: State, p: Id, drawn: Id): State
    requires p in s.procs && IsCast(s.procs[p])
  {
    match s.procs[p]
    case CastNew(req) =>
      if SessionOpen(s.db, req.token, s.clock) then Become(s, p, CastSession(req)) else Fail(s, p, InvalidSession)
    case CastSession(req) =>
      if req.voter !in s.db.voters then Fail(s, p, VoterNotFound)
      else Become(s, p, CastLocked(req, s.db.voters[req.voter])).(locks := s.locks[req.voter := p])
    case CastLocked(req, row) =>
      if AlreadyVoted(row) then Fail(s, p, DoubleVoting) else Become(s, p, CastChecking(req, row, 0))
    case CastChecking(req, row, k) =>
      if k < |req.selections| then
        var sel := req.selections[k];
        if sel.position !in s.db.positions then Fail(s, p, InvalidPosition)
        else if |sel.candidates| > s.db.positions[sel.position] then Fail(s, p, MaxSelectionsExceeded)
        else Become(s, p, CastChecking(req, row, k + 1))
      else
        Become(s, p, CastStaged(req, Ballot(req.election, row.constituency, (req.election, drawn), s.clock, true)))
    case CastStaged(req, ballot) =>
      if SerialTaken(s.db.ballots, ballot.serial) then Fail(s, p, IntegrityError)
      else Become(s, p, Done).(
        db := CommitBallot(s.db, req, ballot, drawn),
        locks := s.locks - {req.voter},
        origin := s.origin[drawn := req])
  }

  function CheckinStep(s: State, p: Id): State
    requires p in s.procs && (s.procs[p].CheckinNew? || s.procs[p].CheckinSeen?)
  {
    match s.procs[p]
    case CheckinNew(e, v) =>
      if v !in s.db.voters then Fail(s, p, VoterNotFound)
      else if s.db.voters[v].election != Some(e) then Fail(s, p, ElectionMismatch)
      else if AlreadyVoted(s.db.voters[v]) then Fail(s, p, DoubleVoting)
      else if Barred(s.db.voters[v].rollStatus) then Fail(s, p, VoterIneligible)
      else Become(s, p, CheckinSeen(e, v, s.db.voters[v]))
    case CheckinSeen(e, v, seen) =>
      // the query for an earlier check-in and the unique constraint refuse the same inserts
      if (e, v) in s.db.checkins then Fail(s, p, AlreadyCheckedIn)
      else Become(s, p, Done).(
        db := s.db.(checkins := s.db.checkins + {(e, v)}, voters := MarkArrived(s.db.voters, v, seen)))
  }

  function IssueStep(s: State, p: Id, drawn: Id): State
    requires p in s.procs
    requires s.procs[p].IssueNew? || s.procs[p].IssueLive? || s.procs[p].IssueCleared? || s.procs[p].IssueStamped?
  {
    match s.procs[p]
    case IssueNew(e, n) =>
      if e !in s.db.elections then Fail(s, p, ElectionNotFound)
      else if !s.db.elections[e].Live? then Fail(s, p, ElectionNotActive)
      else Become(s, p, IssueLive(e, n))
    case IssueLive(e, n) =>
      if !Enrolled(s.db.voters, drawn, e, n) then Fail(s, p, VoterIneligible)
      else if AlreadyVoted(s.db.voters[drawn]) then Fail(s, p, DoubleVoting)
      else if Barred(s.db.voters[drawn].rollStatus) then Fail(s, p, VoterIneligible)
      else Become(s, p, IssueCleared(e))
    case IssueCleared(e) => Become(s, p, IssueStamped(e, s.clock + SESSION_TTL))
    case IssueStamped(e, expiresAt) =>
      Become(s, p, Done).(db := s.db.(sessions := s.db.sessions[drawn := Session(e, Active, expiresAt)]))
  }

  function MoveStep(s: State, p: Id): State
    requires p in s.procs && (s.procs[p].MoveNew? || s.procs[p].MoveChecked?)
  {
    match s.procs[p]
    case MoveNew(e, target) =>
      if e !in s.db.elections then Fail(s, p, ElectionNotFound)
      else if target !in Allowed(s.db.elections[e]) then Fail(s, p, InvalidTransition)
      else if target.Live? && e !in s.db.slates then Fail(s, p, ValidationFailed)
      else Become(s, p, MoveChecked(e, target))
    case MoveChecked(e, target) =>
      Become(s, p, Done).(db := s.db.(elections := s.db.elections[e := target]))
  }

  function PublishStep(s: State, p: Id): State
    requires p in s.procs && (s.procs[p].PublishNew? || s.procs[p].PublishRead?)
  {
    match s.procs[p]
    case PublishNew(e) =>
      if e !in s.db.tallied then Fail(s, p, ResultsNotCounted)
      else if e !in s.db.elections then Fail(s, p, ElectionNotFound)
      else Become(s, p, PublishRead(e, s.db.elections[e]))
    case PublishRead(e, seen) =>
      var s' := Become(s, p, Done);
      if seen.ResultPublished? then s'   // the column did not change, so no UPDATE is sent
      else s'.(db := s.db.(elections := s.db.elections[e := ResultPublished]))
  }

  function Step(s: State, p: Id, drawn: Id): State
    requires p in s.procs && Ready(s, p, drawn)
  {
    var x := s.procs[p];
    if IsCast(x) then CastStep(s, p, drawn)
    else if x.CheckinNew? || x.CheckinSeen? then CheckinStep(s, p)
    else if x.MoveNew? || x.MoveChecked? then MoveStep(s, p)
    else if x.PublishNew? || x.PublishRead? then PublishStep(s, p)
    else IssueStep(s, p, drawn)
  }

  predicate Enabled(s: State, a: Action) {
    match a
    case Begin(p, start) => p !in s.procs && IsNew(start)
    case Advance(p, drawn) => p in s.procs && Ready(s, p, drawn)
    case Crash(p) => p in s.procs && !Ended(s.procs[p])
    case Tick(_) => true
    case AddElection(id) => id !in s.db.elections
    case AddVoter(id, voter) => id !in s.db.voters && !AlreadyVoted(voter) && voter.votedAt.None?
    case EditVoter(id, _, _) => id in s.db.voters
    case EditPosition(_, _) => true
    case EditSlate(_, _) => true
    case Tally(id) => id in s.db.elections
  }

  function Apply(s: State, a: Action): State
    requires Enabled(s, a)
  {
    match a
    case Begin(p, start) => Become(s, p, start)
    case Advance(p, drawn) => Step(s, p, drawn)
    case Crash(p) => Fail(s, p, Interrupted)
    case Tick(seconds) => s.(clock := s.clock + seconds)
    case AddElection(id) => s.(db := s.db.(elections := s.db.elections[id := Draft]))
    case AddVoter(id, voter) => s.(db := s.db.(voters := s.db.voters[id := voter]))
    case EditVoter(id, r, c) => s.(db := s.db.(voters := s.db.voters[id := Edited(s.db.voters[id], r, c)]))
    case EditPosition(id, m) => s.(db := s.db.(positions := s.db.positions[id := m]))
    case EditSlate(id, present) => s.(db := s.db.(slates := if present then s.db.slates + {id} else s.db.slates - {id}))
    case Tally(id) => s.(db := s.db.(tallied := s.db.tallied + {id}))
  }

  // ---------- runs ----------

  predicate ValidRun(s: State, run: seq<Action>)
    decreases |run|
  {
    run == [] || (Enabled(s, run[0]) && ValidRun(Apply(s, run[0]), run[1..]))
  }

  function After(s: State, run: seq<Action>): State
    requires ValidRun(s, run)
    decreases |run|
  {
    if run == [] then s else After(Apply(s, run[0]), run[1..])
  }

  /** No ballots, no requests, nobody marked as having voted; anything else may already be in the tables. */
  predicate Initial(s: State) {
    && s.db.ballots == map[] && s.db.votes == [] && s.origin == map[] && s.locks == map[] && s.procs == map[]
    && (forall v :: v in s.db.voters ==> !s.db.voters[v].hasVoted && s.db.voters[v].votedAt.None?)
    && (forall t :: t in s.db.sessions ==> !s.db.sessions[t].status.Used? && s.db.sessions[t].expiresAt <= s.clock + SESSION_TTL)
  }

  /** What "no trace" means: only the process itself and the lock it held differ. */
  predicate RolledBack(s: State, s': State, p: Id)
    requires p in s.procs
  {
    && s'.db == s.db && s'.origin == s.origin && s'.clock == s.clock
    && s'.procs.Keys == s.procs.Keys && (forall q :: q in s.procs && q != p ==> s'.procs[q] == s.procs[q])
    && s'.locks == if HoldsLock(s.procs[p]) then s.locks - {s.procs[p].req.voter} else s.locks
  }

  lemma FailRollsBack(s: State, p: Id, why: Failure)
    requires p in s.procs
    ensures RolledBack(s, Fail(s, p, why), p)
  {}

  lemma EarlyCastFailure(s: State, p: Id, drawn: Id)
    requires p in s.procs && (s.procs[p].CastNew? || s.procs[p].CastSession? || s.procs[p].CastLocked?)
    requires CastStep(s, p, drawn).procs[p].Failed?
    ensures CastStep(s, p, drawn) == Fail(s, p, CastStep(s, p, drawn).procs[p].why)
  {}

  lemma LateCastFailure(s: State, p: Id, drawn: Id)
    requires p in s.procs && (s.procs[p].CastChecking? || s.procs[p].CastStaged?)
    requires CastStep(s, p, drawn).procs[p].Failed?
    ensures CastStep(s, p, drawn) == Fail(s, p, CastStep(s, p, drawn).procs[p].why)
  {}

  lemma CastFailure(s: State, p: Id, drawn: Id)
    requires p in s.procs && IsCast(s.procs[p]) && CastStep(s, p, drawn).procs[p].Failed?
    ensures CastStep(s, p, drawn) == Fail(s, p, CastStep(s, p, drawn).procs[p].why)
  {
    if s.procs[p].CastChecking? || s.procs[p].CastStaged? {
      LateCastFailure(s, p, drawn);
    } else {
      EarlyCastFailure(s, p, drawn);
    }
  }

  lemma CheckinFailure(s: State, p: Id)
    requires p in s.procs && (s.procs[p].CheckinNew? || s.procs[p].CheckinSeen?) && CheckinStep(s, p).procs[p].Failed?
    ensures CheckinStep(s, p) == Fail(s, p, CheckinStep(s, p).procs[p].why)
  {}

  lemma MoveFailure(s: State, p: Id)
    requires p in s.procs && (s.procs[p].MoveNew? || s.procs[p].MoveChecked?) && MoveStep(s, p).procs[p].Failed?
    ensures MoveStep(s, p) == Fail(s, p, MoveStep(s, p).procs[p].why)
  {}

  lemma PublishFailure(s: State, p: Id)
    requires p in s.procs && (s.procs[p].PublishNew? || s.procs[p].PublishRead?) && PublishStep(s, p).procs[p].Failed?
    ensures PublishStep(s, p) == Fail(s, p, PublishStep(s, p).procs[p].why)
  {}

  lemma IssueFailure(s: State, p: Id, drawn: Id)
    requires p in s.procs
    requires s.procs[p].IssueNew? || s.procs[p].IssueLive? || s.procs[p].IssueCleared? || s.procs[p].IssueStamped?
    requires IssueStep(s, p, drawn).procs[p].Failed?
    ensures IssueStep(s, p, drawn) == Fail(s, p, IssueStep(s, p, drawn).procs[p].why)
  {}

  lemma StepFailure(s: State, p: Id, drawn: Id)
    requires p in s.procs && Ready(s, p, drawn) && Step(s, p, drawn).procs[p].Failed?
    ensures Step(s, p, drawn) == Fail(s, p, Step(s, p, drawn).procs[p].why)
  {
    var x := s.procs[p];
    if IsCast(x) {
      CastFailure(s, p, drawn);
    } else if x.CheckinNew? || x.CheckinSeen? {
      CheckinFailure(s, p);
    } else if x.MoveNew? || x.MoveChecked? {
      MoveFailure(s, p);
    } else if x.PublishNew? || x.PublishRead? {
      PublishFailure(s, p);
    } else {
      IssueFailure(s, p, drawn);
    }
  }

  /** A refused or crashed request leaves every table as it was, and its row lock is free again. */
  lemma FailureLeavesNoTrace(s: State, a: Action)
    requires Enabled(s, a)
    requires a.Advance? || a.Crash?
    requires Apply(s, a).procs[a.p].Failed?
    ensures RolledBack(s, Apply(s, a), a.p)
  {
    if a.Advance? {
      StepFailure(s, a.p, a.drawn);
      FailRollsBack(s, a.p, Step(s, a.p, a.drawn).procs[a.p].why);
    } else {
      FailRollsBack(s, a.p, Interrupted);
    }
  }

  /** Runs compose. */
  lemma {:induction false} RunsCompose(s: State, first: seq<Action>, second: seq<Action>)
    requires ValidRun(s, first) && ValidRun(After(s, first), second)
    ensures ValidRun(s, first + second) && After(s, first + second) == After(After(s, first), second)
    decreases |first|
  {
    if first == [] {
      assert first + second == second;
    } else {
      RunsCompose(Apply(s, first[0]), first[1..], second);
      assert (first + second)[1..] == first[1..] + second;
    }
  }
}
