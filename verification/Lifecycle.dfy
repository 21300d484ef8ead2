/** app/services/election_service.py: the lifecycle table and the operations that move an election. */
module Lifecycle {
  import opened Types
  import Text

  /** ALLOWED_TRANSITIONS. */
  function Allowed(from: ElectionStatus): set<ElectionStatus> {
    match from
    case Draft => {Scheduled, Cancelled}
    case Scheduled => {Upcoming, Live, Cancelled, Draft}
    case Upcoming => {Live, Cancelled, Paused}
    case Live => {Paused, Closed, Cancelled}
    case Paused => {Live, Closed, Cancelled}
    case Closed => {Counting, Archived}
    case Counting => {ResultPublished, Closed}
    case ResultPublished => {Archived}
    case Archived => {}
    case Cancelled => {Draft}
  }

  /** The same table read backwards: the statuses from which one may be entered. */
  function EnteredFrom(target: ElectionStatus): set<ElectionStatus> {
    match target
    case Draft => {Scheduled, Cancelled}
    case Scheduled => {Draft}
    case Upcoming => {Scheduled}
    case Live => {Scheduled, Upcoming, Paused}
    case Paused => {Upcoming, Live}
    case Closed => {Live, Paused, Counting}
    case Counting => {Closed}
    case ResultPublished => {Counting}
    case Archived => {Closed, ResultPublished}
    case Cancelled => {Draft, Scheduled, Upcoming, Live, Paused}
  }

  lemma EnteredFromIsAllowed(from: ElectionStatus, target: ElectionStatus)
    ensures target in Allowed(from) <==> from in EnteredFrom(target)
  {}

  /** The statuses in which no ballot is meant to be issued any more. */
  predicate Drained(s: ElectionStatus) {
    s.Closed? || s.Counting? || s.ResultPublished? || s.Archived?
  }

  /** A chain of statuses, each allowed after the one before it. */
  predicate Chain(path: seq<ElectionStatus>) {
    forall i :: 0 < i < |path| ==> path[i] in Allowed(path[i-1])
  }

  /** Nothing leads out of the drained statuses: transitions preserve them along any chain. */
  lemma {:induction false} DrainedIsAbsorbing(path: seq<ElectionStatus>, i: nat, j: nat)
    requires Chain(path) && i <= j < |path| && Drained(path[i])
    ensures Drained(path[j])
    decreases j
  {
    if i < j {
      DrainedIsAbsorbing(path, i, j - 1);
      assert path[j] in Allowed(path[j-1]);
    }
  }

  /** The other statuses can all still reach LIVE, so the drained ones are exactly the statuses with no way back. */
  lemma DrainedIffNoWayToLive(s: ElectionStatus)
    ensures Drained(s) <==> !exists path: seq<ElectionStatus> :: Chain(path) && |path| > 0 && path[0] == s && path[|path|-1].Live?
  {
    if Drained(s) {
      forall path: seq<ElectionStatus> | Chain(path) && |path| > 0 && path[0] == s ensures !path[|path|-1].Live? {
        DrainedIsAbsorbing(path, 0, |path| - 1);
      }
    } else {
      var path := match s
        case Draft => [Draft, Scheduled, Live]
        case Scheduled => [Scheduled, Live]
        case Upcoming => [Upcoming, Live]
        case Live => [Live]
        case Paused => [Paused, Live]
        case _ => [Cancelled, Draft, Scheduled, Live];
      assert Chain(path) && path[0] == s && path[|path|-1].Live?;
    }
  }

  /** CLOSED does not mean that the election was ever LIVE. */
  lemma ClosedWithoutEverLive()
    ensures exists path: seq<ElectionStatus> :: Chain(path) && |path| > 0 && path[0].Draft? && path[|path|-1].Closed? && Live !in path
  {
    var path := [Draft, Scheduled, Upcoming, Paused, Closed];
    assert Chain(path) && path[|path|-1].Closed? && Live !in path;
  }

  /** path goes from UPCOMING straight to PAUSED at i. */
  predicate PausesEarly(path: seq<ElectionStatus>, i: nat) {
    i + 1 < |path| && path[i].Upcoming? && path[i + 1].Paused?
  }

  predicate NotYetOpen(s: ElectionStatus) {
    s.Draft? || s.Scheduled? || s.Upcoming? || s.Cancelled?
  }

  lemma {:induction false} StaysUnopened(path: seq<ElectionStatus>, k: nat)
    requires Chain(path) && k < |path| && path[0].Draft? && Live !in path && forall i :: !PausesEarly(path, i)
    ensures NotYetOpen(path[k])
  {
    if k > 0 {
      StaysUnopened(path, k - 1);
      assert path[k] in Allowed(path[k - 1]) && path[k] in path && !PausesEarly(path, k - 1);
    }
  }

  /** The one way to CLOSED around LIVE is a pause of an election that is UPCOMING. */
  lemma ClosedAroundLivePausesEarly(path: seq<ElectionStatus>)
    requires Chain(path) && |path| > 0 && path[0].Draft? && path[|path| - 1].Closed? && Live !in path
    ensures exists i :: PausesEarly(path, i)
  {
    if forall i :: !PausesEarly(path, i) {
      StaysUnopened(path, |path| - 1);
    }
  }

  /** The editable details of an election row; the status is moved by `TransitionLifecycle` only. */
  datatype Details = Details(
    title: string, description: string, kind: Id, timezone: string, starts: nat, ends: nat, visibility: Id)

  /** What an update gives; None leaves a column as it is. */
  datatype Update = Update(
    title: Option<string>, description: Option<string>, kind: Option<Id>, timezone: Option<string>,
    starts: Option<nat>, ends: Option<nat>, visibility: Option<Id>)

  function Given<T>(value: Option<T>, former: T): T {
    if value.Some? then value.value else former
  }

  class ElectionService {
    var status: map<Id, ElectionStatus>
    var details: map<Id, Details>
    var activePositions: multiset<Id>      // the election of every active position
    var approvedCandidates: multiset<Id>   // the election of every approved candidate

    method TransitionLifecycle(election: Id, target: ElectionStatus) returns (r: Result<ElectionStatus>)
      modifies this`status
      ensures r.Ok? <==>
        && election in old(status)
        && old(status)[election] in EnteredFrom(target)
        && (target.Live? ==> election in activePositions && election in approvedCandidates)
      ensures r.Ok? ==> r.value == target && status == old(status)[election := target]
      ensures r.Err? ==> status == old(status)
      ensures r.Err? && election !in status ==> r.why == ElectionNotFound
      ensures r.Ok? && target == Live ==> old(status)[election] in {Scheduled, Upcoming, Paused}
      ensures r.Err? && election in status ==> r.why == if status[election] in EnteredFrom(target) then ValidationFailed else InvalidTransition
      ensures forall e :: e in old(status) ==> e in status && (Drained(old(status)[e]) ==> Drained(status[e]))
    {
      if election !in status {
        return Err(ElectionNotFound);
      }
      EnteredFromIsAllowed(status[election], target);
      var allowed := Allowed(status[election]);
      if target !in allowed {
        return Err(InvalidTransition);
      }
      if target.Live? {
        if election !in activePositions {
          return Err(ValidationFailed);
        }
        if election !in approvedCandidates {
          return Err(ValidationFailed);
        }
      }
      status := status[election := target];
      r := Ok(target);
    }

    method UpdateElection(election: Id, given: Update) returns (r: Result<Details>)
      requires details.Keys == status.Keys
      modifies this`details
      ensures details.Keys == status.Keys
      ensures r.Ok? <==> election in status && status[election] !in {Live, Counting, ResultPublished, Archived}
      ensures r.Err? ==> details == old(details) && r.why == if election in status then ElectionLocked else ElectionNotFound
      ensures r.Ok? ==> details == old(details)[election := r.value]
      ensures r.Ok? ==> var d := old(details)[election];
        r.value == Details(
          if given.title.Some? then Text.Strip(given.title.value) else d.title, Given(given.description, d.description),
          Given(given.kind, d.kind), Given(given.timezone, d.timezone),
          Given(given.starts, d.starts), Given(given.ends, d.ends), Given(given.visibility, d.visibility))
    {
      if election !in status {
        return Err(ElectionNotFound);
      }
      if status[election] in {Live, Counting, ResultPublished, Archived} {
        return Err(ElectionLocked);
      }
      var d := details[election];
      if given.title.Some? {
        d := d.(title := Text.Strip(given.title.value));
      }
      if given.description.Some? {
        d := d.(description := given.description.value);
      }
      if given.kind.Some? {
        d := d.(kind := given.kind.value);
      }
      if given.timezone.Some? {
        d := d.(timezone := given.timezone.value);
      }
      if given.starts.Some? {
        d := d.(starts := given.starts.value);
      }
      if given.ends.Some? {
        d := d.(ends := given.ends.value);
      }
      if given.visibility.Some? {
        d := d.(visibility := given.visibility.value);
      }
      details := details[election := d];
      r := Ok(d);
    }
  }
}
