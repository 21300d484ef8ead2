/**
 app/services/voting_service.py, app/services/checkin_service.py and app/repositories/voting_repo.py as
 one request at a time sees them: an object whose methods change the tables. Each method is proved against
 the step functions of the interleaved machine, of which it is one uninterrupted process.
 */
module VotingEngine {
  import opened Types
  import opened Lifecycle
  import opened Protocol
  import Sequences
  import opened Sequential

  /** What an uninterrupted cast decides on. */
  function CastDecision(db: Tables, req: CastRequest, now: nat, nonce: Id): Result<Ballot> {
    if !SessionOpen(db, req.token, now) then Err(InvalidSession)
    else if req.voter !in db.voters then Err(VoterNotFound)
    else if AlreadyVoted(db.voters[req.voter]) then Err(DoubleVoting)
    else if FirstRefusal(req.selections, db.positions).Some? then Err(FirstRefusal(req.selections, db.positions).value)
    else if SerialTaken(db.ballots, (req.election, nonce)) then Err(IntegrityError)
    else Ok(Ballot(req.election, db.voters[req.voter].constituency, (req.election, nonce), now, true))
  }

  /** What an uninterrupted issue decides on, given the row that the lookup finds: the session it stores. */
  function IssueDecision(db: Tables, election: Id, found: Option<Id>, now: nat): Result<Session> {
    if election !in db.elections then Err(ElectionNotFound)
    else if !db.elections[election].Live? then Err(ElectionNotActive)
    else if found.None? || found.value !in db.voters then Err(VoterIneligible)
    else if AlreadyVoted(db.voters[found.value]) then Err(DoubleVoting)
    else if Barred(db.voters[found.value].rollStatus) then Err(VoterIneligible)
    else Ok(Session(election, Active, now + SESSION_TTL))
  }

  /** What a lookup by election and number can find. */
  ghost predicate LooksUp(voters: map<Id, Voter>, election: Id, number: Id, found: Option<Id>) {
    match found
    case Some(v) => Enrolled(voters, v, election, number)
    case None => forall v :: !Enrolled(voters, v, election, number)
  }

  /** What an uninterrupted check-in decides on: the row the voter has afterwards. */
  function CheckinDecision(db: Tables, election: Id, voter: Id): Result<Voter> {
    if voter !in db.voters then Err(VoterNotFound)
    else if db.voters[voter].election != Some(election) then Err(ElectionMismatch)
    else if AlreadyVoted(db.voters[voter]) then Err(DoubleVoting)
    else if Barred(db.voters[voter].rollStatus) then Err(VoterIneligible)
    else if (election, voter) in db.checkins then Err(AlreadyCheckedIn)
    else Ok(db.voters[voter].(votingStatus := CheckedIn, rollStatus := Arrived))
  }

  /** The (position, candidate) choices in the order of the nested loops, before they get a ballot. */
  function Pairs(sels: seq<Selection>): seq<(Id, Id)> {
    if sels == [] then [] else PairsOf(sels[0].position, sels[0].candidates) + Pairs(sels[1..])
  }

  function PairsOf(position: Id, candidates: seq<Id>): seq<(Id, Id)> {
    if candidates == [] then [] else [(position, candidates[0])] + PairsOf(position, candidates[1..])
  }

  lemma {:induction false} OneMorePair(position: Id, candidates: seq<Id>, j: nat)
    requires j < |candidates|
    ensures PairsOf(position, candidates[..j + 1]) == PairsOf(position, candidates[..j]) + [(position, candidates[j])]
    decreases j
  {
    assert candidates[..j + 1][1..] == candidates[1..][..j];
    if j > 0 {
      OneMorePair(position, candidates[1..], j - 1);
      assert candidates[..j][1..] == candidates[1..][..j - 1];
    }
  }

  lemma {:induction false} OneMoreSelection(sels: seq<Selection>, i: nat)
    requires i < |sels|
    ensures Pairs(sels[..i + 1]) == Pairs(sels[..i]) + PairsOf(sels[i].position, sels[i].candidates)
    decreases i
  {
    assert sels[..i + 1][1..] == sels[1..][..i];
    if i > 0 {
      OneMoreSelection(sels[1..], i - 1);
      assert sels[..i][1..] == sels[1..][..i - 1];
      Sequences.Regroup(PairsOf(sels[0].position, sels[0].candidates), Pairs(sels[1..][..i - 1]),
        PairsOf(sels[i].position, sels[i].candidates));
    }
  }

  function Stamp(b: Id, pairs: seq<(Id, Id)>): seq<Vote> {
    if pairs == [] then [] else [Vote(b, pairs[0].0, pairs[0].1)] + Stamp(b, pairs[1..])
  }

  lemma {:induction false} StampConcat(b: Id, x: seq<(Id, Id)>, y: seq<(Id, Id)>)
    ensures Stamp(b, x + y) == Stamp(b, x) + Stamp(b, y)
  {
    if x == [] {
      assert x + y == y;
    } else {
      StampConcat(b, x[1..], y);
      assert (x + y)[0] == x[0] && (x + y)[1..] == x[1..] + y;
    }
  }

  lemma {:induction false} StampOnePosition(b: Id, position: Id, candidates: seq<Id>)
    ensures Stamp(b, PairsOf(position, candidates)) == CandidateRows(b, position, candidates)
  {
    if candidates != [] {
      StampOnePosition(b, position, candidates[1..]);
      assert PairsOf(position, candidates)[1..] == PairsOf(position, candidates[1..]);
    }
  }

  /** Building the choices first and setting the ballot id later gives the rows of the ballot. */
  lemma {:induction false} StampedPairsAreRows(b: Id, sels: seq<Selection>)
    ensures Stamp(b, Pairs(sels)) == VoteRows(b, sels)
  {
    if sels != [] {
      StampConcat(b, PairsOf(sels[0].position, sels[0].candidates), Pairs(sels[1..]));
      StampOnePosition(b, sels[0].position, sels[0].candidates);
      StampedPairsAreRows(b, sels[1..]);
    }
  }

  class Engine {
    var elections: map<Id, ElectionStatus>
    var slates: set<Id>
    var tallied: set<Id>
    var positions: map<Id, int>
    var voters: map<Id, Voter>
    var checkins: set<(Id, Id)>
    var sessions: map<Id, Session>
    var ballots: map<Id, Ballot>
    var votes: seq<Vote>

    ghost function Snapshot(): (db: Tables)
      reads this
    {
      Tables(elections, slates, tallied, positions, voters, checkins, sessions, ballots, votes)
    }

    /** get_by_voter_id_number */
    method FindVoter(election: Id, number: Id) returns (found: Option<Id>)
      ensures LooksUp(voters, election, number, found)
      ensures found.Some? ==>
        found.value in voters && voters[found.value].election == Some(election) && voters[found.value].number == Some(number)
      ensures found.None? ==>
        forall v :: v in voters ==> voters[v].election != Some(election) || voters[v].number != Some(number)
    {
      found := None;
      if exists v :: v in voters && Enrolled(voters, v, election, number) {
        var v :| v in voters && Enrolled(voters, v, election, number);
        found := Some(v);
      }
    }

    /** authenticate_and_generate_ballot, up to the session it stores; `token` is the drawn one. */
    method AuthenticateAndGenerateBallot(election: Id, number: Id, now: nat, token: Id)
        returns (r: Result<Session>, ghost found: Option<Id>)
      requires token !in sessions
      modifies this`sessions
      ensures LooksUp(voters, election, number, found)
      ensures found.Some? ==>
        found.value in voters && voters[found.value].election == Some(election) && voters[found.value].number == Some(number)
      ensures found.None? ==>
        forall v :: v in voters ==> voters[v].election != Some(election) || voters[v].number != Some(number)
      ensures r == IssueDecision(old(Snapshot()), election, found, now)
      ensures r.Ok? <==>
        && election in elections && elections[election] == Live
        && found.Some? && !voters[found.value].hasVoted && voters[found.value].votingStatus != Voted
        && voters[found.value].rollStatus !in {Blocked, Suspended, Ineligible}
      ensures r.Err? ==>
        r.why == if election !in elections then ElectionNotFound
        else if elections[election] != Live then ElectionNotActive
        else if found.Some? && (voters[found.value].hasVoted || voters[found.value].votingStatus == Voted) then DoubleVoting
        else VoterIneligible
      ensures r.Ok? ==> r.value == Session(election, Active, now + 900)
      ensures sessions == if r.Ok? then old(sessions)[token := r.value] else old(sessions)
    {
      var row := FindVoter(election, number);
      found := row;
      if election !in elections {
        return Err(ElectionNotFound), found;
      }
      if !elections[election].Live? {
        return Err(ElectionNotActive), found;
      }
      if row.None? {
        return Err(VoterIneligible), found;
      }
      if AlreadyVoted(voters[row.value]) {
        return Err(DoubleVoting), found;
      }
      if Barred(voters[row.value].rollStatus) {
        return Err(VoterIneligible), found;
      }
      var session := Session(election, Active, now + SESSION_TTL);
      sessions := sessions[token := session];
      r := Ok(session);
    }

    /** record_anonymous_ballot: the ballot first, then each choice with the ballot's id. */
    method RecordAnonymousBallot(ballot: Ballot, key: Id, pairs: seq<(Id, Id)>)
      modifies this`ballots, this`votes
      ensures ballots == old(ballots)[key := ballot]
      ensures votes == old(votes) + Stamp(key, pairs)
    {
      ballots := ballots[key := ballot];
      for i := 0 to |pairs|
        invariant ballots == old(ballots)[key := ballot]
        invariant votes + Stamp(key, pairs[i..]) == old(votes) + Stamp(key, pairs)
      {
        votes := votes + [Vote(key, pairs[i].0, pairs[i].1)];
        assert pairs[i..][1..] == pairs[i+1..];
      }
    }

    /** The first loop of cast_ballot: each selection against its position's limit. */
    method CheckSelections(sels: seq<Selection>) returns (refusal: Option<Failure>)
      ensures refusal == FirstRefusal(sels, positions)
      ensures refusal.None? <==>
        forall i :: 0 <= i < |sels| ==> sels[i].position in positions && |sels[i].candidates| <= positions[sels[i].position]
      ensures refusal.Some? ==> exists i ::
        && 0 <= i < |sels|
        && (forall j :: 0 <= j < i ==> sels[j].position in positions && |sels[j].candidates| <= positions[sels[j].position])
        && refusal.value == (if sels[i].position !in positions then InvalidPosition else MaxSelectionsExceeded)
        && (sels[i].position in positions ==> |sels[i].candidates| > positions[sels[i].position])
    {
      for i := 0 to |sels|
        invariant FirstRefusal(sels, positions) == FirstRefusal(sels[i..], positions)
        invariant forall j :: 0 <= j < i ==> sels[j].position in positions && |sels[j].candidates| <= positions[sels[j].position]
      {
        var sel := sels[i];
        if sel.position !in positions {
          return Some(InvalidPosition);
        }
        if |sel.candidates| > positions[sel.position] {
          return Some(MaxSelectionsExceeded);
        }
        assert sels[i..][1..] == sels[i+1..];
      }
      refusal := None;
    }

    /** The nested loops of cast_ballot: one choice per selected candidate. */
    static method CollectVotes(sels: seq<Selection>) returns (pairs: seq<(Id, Id)>)
      ensures pairs == Pairs(sels)
    {
      pairs := [];
      for i := 0 to |sels|
        invariant pairs == Pairs(sels[..i])
      {
        var sel := sels[i];
        for j := 0 to |sel.candidates|
          invariant pairs == Pairs(sels[..i]) + PairsOf(sel.position, sel.candidates[..j])
        {
          OneMorePair(sel.position, sel.candidates, j);
          pairs := pairs + [(sel.position, sel.candidates[j])];
        }
        assert sel.candidates[..|sel.candidates|] == sel.candidates;
        OneMoreSelection(sels, i);
      }
      assert sels[..|sels|] == sels;
    }

    /** cast_ballot; `nonce` and `key` are the drawn ones. */
    method CastBallot(req: CastRequest, now: nat, nonce: Id, key: Id) returns (r: Result<Ballot>)
      requires key !in ballots
      modifies this
      ensures r == CastDecision(old(Snapshot()), req, now, nonce)
      ensures r.Ok? <==>
        && req.token in old(sessions) && old(sessions)[req.token].status == Active && now <= old(sessions)[req.token].expiresAt
        && req.voter in old(voters) && !old(voters)[req.voter].hasVoted && old(voters)[req.voter].votingStatus != Voted
        && (forall i :: 0 <= i < |req.selections| ==>
              req.selections[i].position in positions && |req.selections[i].candidates| <= positions[req.selections[i].position])
        && (forall b :: b in old(ballots) ==> old(ballots)[b].serial != (req.election, nonce))
      ensures r.Err? ==> Snapshot() == old(Snapshot())
      ensures r.Err? ==>
        r.why == if req.token !in sessions || sessions[req.token].status != Active || sessions[req.token].expiresAt < now then InvalidSession
          else if req.voter !in voters then VoterNotFound
          else if voters[req.voter].hasVoted || voters[req.voter].votingStatus == Voted then DoubleVoting
          else if FirstRefusal(req.selections, positions).Some? then FirstRefusal(req.selections, positions).value
          else IntegrityError
      ensures r.Ok? ==> Snapshot() == CommitBallot(old(Snapshot()), req, r.value, key)
      ensures r.Ok? ==>
        && var row := old(voters)[req.voter];
        && ballots == old(ballots)[key := Ballot(req.election, row.constituency, (req.election, nonce), now, true)]
        && voters == old(voters)[req.voter := row.(hasVoted := true, votingStatus := Voted, votedAt := Some(now))]
        && sessions == old(sessions)[req.token := old(sessions)[req.token].(status := Used)]
        && votes == old(votes) + VoteRows(key, req.selections)
        && elections == old(elections) && positions == old(positions) && checkins == old(checkins)
    {
      if req.token !in sessions || !sessions[req.token].status.Active? || sessions[req.token].expiresAt < now {
        return Err(InvalidSession);
      }
      if req.voter !in voters {
        return Err(VoterNotFound);
      }
      var voter := voters[req.voter];
      if voter.hasVoted || voter.votingStatus.Voted? {
        return Err(DoubleVoting);
      }
      var refusal := CheckSelections(req.selections);
      if refusal.Some? {
        return Err(refusal.value);
      }
      var ballot := Ballot(req.election, voter.constituency, (req.election, nonce), now, true);
      var pairs := CollectVotes(req.selections);
      if exists b :: b in ballots && ballots[b].serial == ballot.serial {
        return Err(IntegrityError);   // the unique constraint on ballot_serial_hash
      }
      RecordAnonymousBallot(ballot, key, pairs);
      StampedPairsAreRows(key, req.selections);
      voters := voters[req.voter := voter.(hasVoted := true, votingStatus := Voted, votedAt := Some(now))];
      sessions := sessions[req.token := sessions[req.token].(status := Used)];
      r := Ok(ballot);
    }

    /** checkin_voter. */
    method CheckinVoter(election: Id, voter: Id) returns (r: Result<Voter>)
      modifies this`checkins, this`voters
      ensures r == CheckinDecision(old(Snapshot()), election, voter)
      ensures r.Ok? <==>
        && voter in old(voters) && old(voters)[voter].election == Some(election)
        && !old(voters)[voter].hasVoted && old(voters)[voter].votingStatus != Voted
        && old(voters)[voter].rollStatus !in {Blocked, Suspended, Ineligible} && (election, voter) !in old(checkins)
      ensures r.Err? ==> Snapshot() == old(Snapshot())
      ensures r.Err? ==>
        r.why == if voter !in voters then VoterNotFound
        else if voters[voter].election != Some(election) then ElectionMismatch
        else if voters[voter].hasVoted || voters[voter].votingStatus == Voted then DoubleVoting
        else if voters[voter].rollStatus in {Blocked, Suspended, Ineligible} then VoterIneligible
        else AlreadyCheckedIn
      ensures r.Ok? ==> r.value == old(voters)[voter].(votingStatus := CheckedIn, rollStatus := Arrived)
      ensures r.Ok? ==> Snapshot() == old(Snapshot()).(
        checkins := old(checkins) + {(election, voter)},
        voters := old(voters)[voter := r.value])
    {
      if voter !in voters {
        return Err(VoterNotFound);
      }
      var row := voters[voter];
      if row.election != Some(election) {
        return Err(ElectionMismatch);
      }
      if row.hasVoted || row.votingStatus.Voted? {
        return Err(DoubleVoting);
      }
      if Barred(row.rollStatus) {
        return Err(VoterIneligible);
      }
      if (election, voter) in checkins {
        return Err(AlreadyCheckedIn);
      }
      checkins := checkins + {(election, voter)};
      row := row.(votingStatus := CheckedIn);
      row := row.(rollStatus := Arrived);
      voters := voters[voter := row];
      r := Ok(row);
    }
  }

  /**
   The way of an admissible voter through one election day: checked in, given a session, and within a quarter of an
   hour let to vote. Afterwards all three refuse the voter.
   */
  method Attend(d: Engine, election: Id, voter: Id, number: Id, sels: seq<Selection>, at: nat, now: nat, token: Id, nonce: Id, key: Id)
      returns (checkin: Result<Voter>, session: Result<Session>, cast: Result<Ballot>)
    requires election in d.elections && d.elections[election] == Live && (election, voter) !in d.checkins
    requires voter in d.voters && d.voters[voter].election == Some(election) && d.voters[voter].number == Some(number)
    requires !d.voters[voter].hasVoted && d.voters[voter].votingStatus != Voted
    requires d.voters[voter].rollStatus !in {Blocked, Suspended, Ineligible}
    requires forall v :: v in d.voters && v != voter ==>
      d.voters[v].election != Some(election) || d.voters[v].number != Some(number)
    requires forall i :: 0 <= i < |sels| ==> sels[i].position in d.positions && |sels[i].candidates| <= d.positions[sels[i].position]
    requires forall b :: b in d.ballots ==> d.ballots[b].serial != (election, nonce)
    requires token !in d.sessions && key !in d.ballots && at <= now <= at + 900
    modifies d
    ensures checkin.Ok? && session.Ok? && cast.Ok?
    ensures d.ballots.Keys == old(d.ballots.Keys) + {key} && d.ballots[key].election == election && d.ballots[key].isValid
    ensures voter in d.voters && d.voters[voter].hasVoted && (election, voter) in d.checkins
    ensures token in d.sessions && d.sessions[token].status == Used
    ensures d.votes == old(d.votes) + VoteRows(key, sels)
  {
    checkin := d.CheckinVoter(election, voter);
    ghost var found;
    session, found := d.AuthenticateAndGenerateBallot(election, number, at, token);
    cast := d.CastBallot(CastRequest(token, election, sels, voter), now, nonce, key);
  }

  /** How many choices the first i selections hold. */
  function ChoicesBefore(sels: seq<Selection>, i: nat): nat
    requires i <= |sels|
  {
    if i == 0 then 0 else |sels[0].candidates| + ChoicesBefore(sels[1..], i - 1)
  }

  lemma {:induction false} CandidateRowAt(b: Id, position: Id, candidates: seq<Id>)
    ensures |CandidateRows(b, position, candidates)| == |candidates|
    ensures forall j :: 0 <= j < |candidates| ==> CandidateRows(b, position, candidates)[j] == Vote(b, position, candidates[j])
  {
    if candidates != [] {
      CandidateRowAt(b, position, candidates[1..]);
    }
  }

  /** The rows of a ballot are one for each choice, selection after selection and candidate after candidate. */
  lemma {:induction false} VoteRowAt(b: Id, sels: seq<Selection>, i: nat, j: nat)
    requires i < |sels| && j < |sels[i].candidates|
    ensures |VoteRows(b, sels)| == ChoicesBefore(sels, |sels|) && ChoicesBefore(sels, i) + j < |VoteRows(b, sels)|
    ensures VoteRows(b, sels)[ChoicesBefore(sels, i) + j] == Vote(b, sels[i].position, sels[i].candidates[j])
    decreases i
  {
    CandidateRowAt(b, sels[0].position, sels[0].candidates);
    VoteRowsSize(b, sels[1..]);
    if i > 0 {
      VoteRowAt(b, sels[1..], i - 1, j);
    }
  }

  lemma {:induction false} VoteRowsSize(b: Id, sels: seq<Selection>)
    ensures |VoteRows(b, sels)| == ChoicesBefore(sels, |sels|)
  {
    if sels != [] {
      CandidateRowAt(b, sels[0].position, sels[0].candidates);
      VoteRowsSize(b, sels[1..]);
    }
  }

  // ---------- the method is one uninterrupted process of the machine ----------

  /** A run in which only process p moves. */
  predicate Solo(run: seq<Action>, p: Id) {
    forall i :: 0 <= i < |run| ==> (run[i].Begin? || run[i].Advance?) && run[i].p == p
  }

  lemma SoloThen(s: State, p: Id, r1: seq<Action>, r2: seq<Action>)
    requires ValidRun(s, r1) && ValidRun(After(s, r1), r2) && Solo(r1, p) && Solo(r2, p)
    ensures ValidRun(s, r1 + r2) && After(s, r1 + r2) == After(After(s, r1), r2) && Solo(r1 + r2, p)
  {
    RunsCompose(s, r1, r2);
  }

  /** The selection checks, one step each, end where `FirstRefusal` says. */
  lemma {:induction false} ChecksRun(s: State, p: Id, nonce: Id) returns (run: seq<Action>)
    requires p in s.procs && s.procs[p].CastChecking? && s.procs[p].done <= |s.procs[p].req.selections|
    ensures ValidRun(s, run) && Solo(run, p)
    ensures var x := s.procs[p];
      var refusal := FirstRefusal(x.req.selections[x.done..], s.db.positions);
      After(s, run) == match refusal
        case Some(why) => Fail(s, p, why)
        case None => Become(s, p, CastStaged(x.req, Ballot(x.req.election, x.row.constituency, (x.req.election, nonce), s.clock, true)))
    decreases |s.procs[p].req.selections| - s.procs[p].done
  {
    var x := s.procs[p];
    var rest := x.req.selections[x.done..];
    var step := [Advance(p, nonce)];
    OneStep(s, step[0]);
    var s1 := After(s, step);
    assert s1 == CastStep(s, p, nonce);
    run := step;
    if rest != [] && rest[0].position in s.db.positions && |rest[0].candidates| <= s.db.positions[rest[0].position] {
      assert rest[1..] == x.req.selections[x.done + 1..];
      var tail := ChecksRun(s1, p, nonce);
      SoloThen(s, p, step, tail);
      run := step + tail;
      MovedTwice(s, p, CastChecking(x.req, x.row, x.done + 1));
    }
  }

  lemma MovedTwice(s: State, p: Id, x: Process)
    requires p in s.procs && s.procs[p].CastChecking? && x.CastChecking? && x.req == s.procs[p].req
    ensures forall y :: Become(Become(s, p, x), p, y) == Become(s, p, y)
    ensures forall why :: Fail(Become(s, p, x), p, why) == Fail(s, p, why)
  {
    forall y ensures Become(Become(s, p, x), p, y) == Become(s, p, y) {
      assert s.procs[p := x][p := y] == s.procs[p := y];
    }
    forall why ensures Fail(Become(s, p, x), p, why) == Fail(s, p, why) {
      assert s.procs[p := x][p := Failed(why)] == s.procs[p := Failed(why)];
    }
  }

  /** From s to s', process p did what the decision says. */
  predicate CastEnds(s: State, s': State, p: Id, req: CastRequest, nonce: Id, key: Id) {
    p in s'.procs &&
    match CastDecision(s.db, req, s.clock, nonce)
    case Err(why) => s'.procs[p] == Failed(why) && s'.db == s.db
    case Ok(ballot) => s'.procs[p] == Done && s'.db == CommitBallot(s.db, req, ballot, key)
  }

  predicate IssueEnds(s: State, s': State, p: Id, election: Id, found: Option<Id>, token: Id) {
    p in s'.procs &&
    match IssueDecision(s.db, election, found, s.clock)
    case Err(why) => s'.procs[p] == Failed(why) && s'.db == s.db
    case Ok(session) => s'.procs[p] == Done && s'.db == s.db.(sessions := s.db.sessions[token := session])
  }

  predicate CheckinEnds(s: State, s': State, p: Id, election: Id, voter: Id) {
    p in s'.procs &&
    match CheckinDecision(s.db, election, voter)
    case Err(why) => s'.procs[p] == Failed(why) && s'.db == s.db
    case Ok(row) => s'.procs[p] == Done && s'.db == WithCheckin(s.db, election, voter, row)
  }

  function WithCheckin(db: Tables, election: Id, voter: Id, row: Voter): Tables {
    db.(checkins := db.checkins + {(election, voter)}, voters := db.voters[voter := row])
  }

  /**
   The sequential method refines the interleaved protocol: from any state in which the voter's row is free,
   the cast process run without interruption commits exactly what `CastBallot` computes, or fails as it does.
   */
  lemma CastRefinesProtocol(s: State, p: Id, req: CastRequest, nonce: Id, key: Id) returns (run: seq<Action>)
    requires p !in s.procs && req.voter !in s.locks && key !in s.db.ballots
    ensures ValidRun(s, run) && Solo(run, p)
    ensures CastEnds(s, After(s, run), p, req, nonce, key) && After(s, run).locks == s.locks
  {
    var r1 := [Begin(p, CastNew(req))];
    OneStep(s, r1[0]);
    var s1 := After(s, r1);
    run := r1;
    OneStep(s1, Advance(p, nonce));
    SoloThen(s, p, run, [Advance(p, nonce)]);
    run := run + [Advance(p, nonce)];
    if SessionOpen(s.db, req.token, s.clock) {
      var rest := OpenedCastFinishes(After(s, run), p, nonce, key);
      SoloThen(s, p, run, rest);
      run := run + rest;
    }
  }

  lemma OpenedCastFinishes(s: State, p: Id, nonce: Id, key: Id) returns (run: seq<Action>)
    requires p in s.procs && s.procs[p].CastSession? && s.procs[p].req.voter !in s.locks && key !in s.db.ballots
    requires SessionOpen(s.db, s.procs[p].req.token, s.clock)
    ensures ValidRun(s, run) && Solo(run, p)
    ensures CastEnds(s, After(s, run), p, s.procs[p].req, nonce, key) && After(s, run).locks == s.locks
  {
    var req := s.procs[p].req;
    run := [Advance(p, nonce)];
    OneStep(s, run[0]);
    if req.voter in s.db.voters {
      var rest := LockedCastFinishes(After(s, run), p, nonce, key);
      SoloThen(s, p, run, rest);
      run := run + rest;
      assert s.locks[req.voter := p] - {req.voter} == s.locks;
    }
  }

  lemma LockedCastFinishes(s: State, p: Id, nonce: Id, key: Id) returns (run: seq<Action>)
    requires p in s.procs && s.procs[p].CastLocked? && key !in s.db.ballots
    requires s.procs[p].req.voter in s.db.voters && s.procs[p].row == s.db.voters[s.procs[p].req.voter]
    requires SessionOpen(s.db, s.procs[p].req.token, s.clock)
    ensures ValidRun(s, run) && Solo(run, p)
    ensures CastEnds(s, After(s, run), p, s.procs[p].req, nonce, key)
    ensures After(s, run).locks == s.locks - {s.procs[p].req.voter}
  {
    var req := s.procs[p].req;
    run := [Advance(p, nonce)];
    OneStep(s, run[0]);
    var s1 := After(s, run);
    assert s1 == CastStep(s, p, nonce);
    if !AlreadyVoted(s.procs[p].row) {
      assert req.selections[0..] == req.selections;
      var checks := ChecksRun(s1, p, nonce);
      SoloThen(s, p, run, checks);
      run := run + checks;
      if FirstRefusal(req.selections, s.db.positions).None? {
        StagedCastFinishes(After(s, run), p, nonce, key);
        SoloThen(s, p, run, [Advance(p, key)]);
        run := run + [Advance(p, key)];
      }
    }
  }

  lemma StagedCastFinishes(s: State, p: Id, nonce: Id, key: Id)
    requires p in s.procs && s.procs[p].CastStaged? && key !in s.db.ballots
    ensures ValidRun(s, [Advance(p, key)]) && Solo([Advance(p, key)], p)
    ensures var req, ballot, s' := s.procs[p].req, s.procs[p].ballot, After(s, [Advance(p, key)]);
      && p in s'.procs && s'.locks == s.locks - {req.voter}
      && (if SerialTaken(s.db.ballots, ballot.serial) then s'.procs[p] == Failed(IntegrityError) && s'.db == s.db
          else s'.procs[p] == Done && s'.db == CommitBallot(s.db, req, ballot, key))
  {
    OneStep(s, Advance(p, key));
  }

  /** Likewise the issue of a ballot, whichever row the lookup finds. */
  lemma IssueRefinesProtocol(s: State, p: Id, election: Id, number: Id, found: Option<Id>, token: Id) returns (run: seq<Action>)
    requires p !in s.procs && token !in s.db.sessions && LooksUp(s.db.voters, election, number, found)
    ensures ValidRun(s, run) && Solo(run, p)
    ensures IssueEnds(s, After(s, run), p, election, found, token)
  {
    run := [Begin(p, IssueNew(election, number))];
    OneStep(s, run[0]);
    var s1 := After(s, run);
    OneStep(s1, Advance(p, token));
    SoloThen(s, p, run, [Advance(p, token)]);
    run := run + [Advance(p, token)];
    var s2 := After(s, run);
    assert s2 == IssueStep(s1, p, token);
    if s2.procs[p].IssueLive? {
      var rest := LiveIssueFinishes(s2, p, found, token);
      SoloThen(s, p, run, rest);
      run := run + rest;
    }
  }

  lemma LiveIssueFinishes(s: State, p: Id, found: Option<Id>, token: Id) returns (run: seq<Action>)
    requires p in s.procs && s.procs[p].IssueLive? && token !in s.db.sessions
    requires LooksUp(s.db.voters, s.procs[p].election, s.procs[p].number, found)
    requires s.procs[p].election in s.db.elections && s.db.elections[s.procs[p].election].Live?
    ensures ValidRun(s, run) && Solo(run, p)
    ensures IssueEnds(s, After(s, run), p, s.procs[p].election, found, token)
  {
    var row := if found.Some? then found.value else 0;
    run := [Advance(p, row)];
    OneStep(s, run[0]);
    var s1 := After(s, run);
    LiveIssueDecides(s, p, found, row, token);
    if s1.procs[p].IssueCleared? {
      var rest := ClearedIssueFinishes(s1, p, token);
      SoloThen(s, p, run, rest);
      run := run + rest;
      AcceptedIssueEnds(s, s1, After(s, run), p, s.procs[p].election, found, token);
    }
  }

  lemma AcceptedIssueEnds(s: State, s1: State, s': State, p: Id, e: Id, found: Option<Id>, token: Id)
    requires s1.db == s.db && s1.clock == s.clock && p in s'.procs && s'.procs[p] == Done
    requires IssueDecision(s.db, e, found, s.clock).Ok?
    requires s'.db == s1.db.(sessions := s1.db.sessions[token := Session(e, Active, s1.clock + SESSION_TTL)])
    ensures IssueEnds(s, s', p, e, found, token)
  {}

  lemma LiveIssueDecides(s: State, p: Id, found: Option<Id>, row: Id, token: Id)
    requires p in s.procs && s.procs[p].IssueLive? && Ready(s, p, row)
    requires LooksUp(s.db.voters, s.procs[p].election, s.procs[p].number, found) && row == if found.Some? then found.value else 0
    requires s.procs[p].election in s.db.elections && s.db.elections[s.procs[p].election].Live?
    ensures var s1, e := Step(s, p, row), s.procs[p].election; s1.db == s.db && s1.clock == s.clock && p in s1.procs
    ensures var s1, e := Step(s, p, row), s.procs[p].election;
      if IssueDecision(s.db, e, found, s.clock).Ok? then s1.procs[p] == IssueCleared(e) else IssueEnds(s, s1, p, e, found, token)
  {}

  lemma ClearedIssueFinishes(s: State, p: Id, token: Id) returns (run: seq<Action>)
    requires p in s.procs && s.procs[p].IssueCleared? && token !in s.db.sessions
    ensures ValidRun(s, run) && Solo(run, p)
    ensures var s' := After(s, run); var session := Session(s.procs[p].election, Active, s.clock + SESSION_TTL);
      p in s'.procs && s'.procs[p] == Done && s'.db == s.db.(sessions := s.db.sessions[token := session])
  {
    run := [Advance(p, token)];
    OneStep(s, run[0]);
    var s1 := After(s, run);
    assert s1 == IssueStep(s, p, token);
    OneStep(s1, Advance(p, token));
    SoloThen(s, p, run, [Advance(p, token)]);
    run := run + [Advance(p, token)];
    assert After(s, run) == IssueStep(s1, p, token);
  }

  /** Likewise the check-in: uninterrupted, its column-wise update gives the row it loaded and changed. */
  lemma CheckinRefinesProtocol(s: State, p: Id, election: Id, voter: Id) returns (run: seq<Action>)
    requires p !in s.procs
    ensures ValidRun(s, run) && Solo(run, p)
    ensures CheckinEnds(s, After(s, run), p, election, voter)
  {
    run := [Begin(p, CheckinNew(election, voter))];
    OneStep(s, run[0]);
    var s1 := After(s, run);
    OneStep(s1, Advance(p, 0));
    SoloThen(s, p, run, [Advance(p, 0)]);
    run := run + [Advance(p, 0)];
    var s2 := After(s, run);
    assert s2 == CheckinStep(s1, p);
    if s2.procs[p].CheckinSeen? {
      OneStep(s2, Advance(p, 0));
      SoloThen(s, p, run, [Advance(p, 0)]);
      run := run + [Advance(p, 0)];
      SeenCheckinFinishes(s2, p);
    }
  }

  lemma SeenCheckinFinishes(s: State, p: Id)
    requires p in s.procs && s.procs[p].CheckinSeen? && s.procs[p].voter in s.db.voters
    requires s.procs[p].seen == s.db.voters[s.procs[p].voter] && IssueGuard(s.procs[p].seen, s.procs[p].election)
    ensures CheckinEnds(s, Apply(s, Advance(p, 0)), p, s.procs[p].election, s.procs[p].voter)
  {
    assert Apply(s, Advance(p, 0)) == CheckinStep(s, p);
  }

  /** What an undisturbed transition does to the status column. */
  predicate MoveEnds(s: State, s': State, p: Id, e: Id, target: ElectionStatus) {
    && p in s'.procs
    && (if e in s.db.elections && s.db.elections[e] in EnteredFrom(target) && (target == Live ==> e in s.db.slates)
        then s'.procs[p] == Done && s'.db == s.db.(elections := s.db.elections[e := target])
        else s'.procs[p].Failed? && s'.db == s.db)
  }

  /** Likewise the transition of an election. */
  lemma MoveRefinesProtocol(s: State, p: Id, e: Id, target: ElectionStatus) returns (run: seq<Action>)
    requires p !in s.procs
    ensures ValidRun(s, run) && Solo(run, p) && MoveEnds(s, After(s, run), p, e, target)
  {
    run := [Begin(p, MoveNew(e, target))];
    OneStep(s, run[0]);
    var s1 := After(s, run);
    OneStep(s1, Advance(p, 0));
    SoloThen(s, p, run, [Advance(p, 0)]);
    run := run + [Advance(p, 0)];
    var s2 := After(s, run);
    assert s2 == MoveStep(s1, p);
    EnteredFromIsAllowed(if e in s.db.elections then s.db.elections[e] else Draft, target);
    if s2.procs[p].MoveChecked? {
      OneStep(s2, Advance(p, 0));
      SoloThen(s, p, run, [Advance(p, 0)]);
      run := run + [Advance(p, 0)];
      assert After(s, run) == MoveStep(s2, p);
    }
  }

  /** What an undisturbed publication does: it needs a summary and the election, in whatever status. */
  predicate PublishEnds(s: State, s': State, p: Id, e: Id) {
    && p in s'.procs
    && (if e in s.db.tallied && e in s.db.elections
        then s'.procs[p] == Done && s'.db == s.db.(elections := s.db.elections[e := ResultPublished])
        else s'.procs[p].Failed? && s'.db == s.db)
  }

  /** Likewise the publication. */
  lemma PublishRefinesProtocol(s: State, p: Id, e: Id) returns (run: seq<Action>)
    requires p !in s.procs
    ensures ValidRun(s, run) && Solo(run, p) && PublishEnds(s, After(s, run), p, e)
  {
    run := [Begin(p, PublishNew(e))];
    OneStep(s, run[0]);
    var s1 := After(s, run);
    OneStep(s1, Advance(p, 0));
    SoloThen(s, p, run, [Advance(p, 0)]);
    run := run + [Advance(p, 0)];
    var s2 := After(s, run);
    assert s2 == PublishStep(s1, p);
    if s2.procs[p].PublishRead? {
      OneStep(s2, Advance(p, 0));
      SoloThen(s, p, run, [Advance(p, 0)]);
      run := run + [Advance(p, 0)];
      assert After(s, run) == PublishStep(s2, p);
      assert s.db.elections[e].ResultPublished? ==> s.db.elections[e := ResultPublished] == s.db.elections;
    }
  }
}
