/** The rows and enumerations that several services share. */
module Types {

  /** A primary key or an unguessable token. The program draws both at random; here they are numbers. */
  type Id = nat

  datatype Option<+T> = None | Some(value: T)

  datatype ElectionStatus =
    | Draft | Scheduled | Upcoming | Live | Paused
    | Closed | Counting | ResultPublished | Archived | Cancelled

  datatype VotingStatus = NotVoted | CheckedIn | Voted

  /** The `status` column of a voter. Only the last three bar a voter. */
  datatype RollStatus =
    | Valid | Registered | Verified | Eligible | Arrived | MarkedVoted
    | Ineligible | Blocked | Suspended

  predicate Barred(r: RollStatus) {
    r.Blocked? || r.Suspended? || r.Ineligible?
  }

  datatype Voter = Voter(
    election: Option<Id>,
    number: Option<Id>,   // voter_id_number, unique nowhere
    constituency: Option<Id>,
    rollStatus: RollStatus,
    votingStatus: VotingStatus,
    hasVoted: bool,
    votedAt: Option<nat>)

  /** The guard that the ballot issue, the check-in and the cast all test. */
  predicate AlreadyVoted(v: Voter) {
    v.hasVoted || v.votingStatus.Voted?
  }

  /** The last is CANCELLED in the program. */
  datatype SessionStatus = Active | Used | Expired | CancelledSession

  datatype Session = Session(election: Id, status: SessionStatus, expiresAt: nat)

  datatype Ballot = Ballot(
    election: Id,
    constituency: Option<Id>,
    serial: (Id, Id),   // the keyed hash of (election, nonce), taken to be injective
    castAt: nat,
    isValid: bool)

  /** One choice on a ballot. Neither this row nor `Ballot` has a voter column. */
  datatype Vote = Vote(ballot: Id, position: Id, candidate: Id)

  datatype Selection = Selection(position: Id, candidates: seq<Id>)

  datatype CastRequest = CastRequest(token: Id, election: Id, selections: seq<Selection>, voter: Id)

  /** Why a request was refused. Every refusal is raised and so rolls the request back. */
  datatype Failure =
    | InvalidSession
    | ElectionNotFound
    | ElectionNotActive
    | VoterNotFound
    | ElectionMismatch
    | DoubleVoting
    | VoterIneligible
    | AlreadyCheckedIn
    | InvalidPosition
    | MaxSelectionsExceeded
    | IntegrityError
    | InvalidTransition
    | ValidationFailed
    | ResultsNotCounted
    | ElectionLocked
    | Interrupted

  datatype Result<+T> = Ok(value: T) | Err(why: Failure)
}
