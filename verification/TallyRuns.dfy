/**
 tally_results as a process that runs beside the voting requests and beside other tallies. Each of its SELECTs shows
 what is committed by then; its DELETE removes the rows that are committed by then; its own rows appear at its end, unless
 the unique constraint on the summary's election refuses them.
 */
module TallyRuns {
  import opened Types
  import opened Protocol
  import opened Counting
  import opened Tally
  import opened TallyFacts
  import Bounds
  import Checkins
  import Overlap
  import Turnout
  import ResultService
  import Safety
  import Sequences
  import Sequential

  datatype Stage =
    | AtElection | AtVoters | AtCheckins | AtBallots | AtResults | AtPositions | AtVotes | AtCommit
    | Stored | NoElection | Clashed

  /**
   A tally under way: the figures read so far, the rows its DELETE has found, the positions still to count, whether
   it has found no summary and so inserts one, and, which is history, how many steps of the voting requests had been
   taken at each reading and how many tallies had committed at its DELETE and at its SELECT of the summary.
   */
  datatype Tallying = Tallying(
    election: Id, stage: Stage,
    eligible: nat, eligibleAt: nat, checkedIn: nat, checkedInAt: nat, cast: nat, castAt: nat,
    doomed: set<Id>, deletedAt: nat, todo: seq<Position>, shown: seq<PositionResult>, shownAt: seq<nat>,
    inserts: bool, summaryAt: nat)

  function Begun(e: Id): Tallying {
    Tallying(e, AtElection, 0, 0, 0, 0, 0, 0, {}, 0, [], [], [], false, 0)
  }

  /** A tally that has committed: when it had sent its DELETE, and the keys of the rows it stored. */
  datatype Commit = Commit(election: Id, deletedAt: nat, keys: seq<Id>)

  /** History: `log`, the actions of the voting requests; `stores`, the tallies that committed; `used`, the keys drawn. */
  datatype World = World(
    s: State, positions: seq<Position>, candidates: seq<Candidate>,
    results: map<Id, Row>, tallies: map<Id, Tallying>, log: seq<Action>,
    stores: seq<Commit>, used: set<Id>)

  datatype Event =
    | Vote(a: Action)
    | Redraw(positions: seq<Position>, candidates: seq<Candidate>)
    | Start(t: Id, election: Id)
    | Read(t: Id)
    | Store(t: Id, keys: seq<Id>, now: nat)

  /** The primary keys of the rows of an election. */
  function RowKeys(results: map<Id, Row>, e: Id): set<Id> {
    set k | k in results && results[k].election == e
  }

  function NextReading(w: World, x: Tallying): Tallying {
    var db := w.s.db;
    var e := x.election;
    match x.stage
    case AtElection => if e in db.elections then x.(stage := AtVoters) else x.(stage := NoElection)
    case AtVoters => x.(stage := AtCheckins, eligible := |ResultService.EligibleVoters(db.voters, e)|, eligibleAt := |w.log|)
    case AtCheckins => x.(stage := AtBallots, checkedIn := |ResultService.CheckedInVoters(db.checkins, e)|, checkedInAt := |w.log|)
    case AtBallots => x.(stage := AtResults, cast := |BallotsOf(db.ballots, e)|, castAt := |w.log|)
    case AtResults => x.(stage := AtPositions, doomed := RowKeys(w.results, e), deletedAt := |w.stores|)
    case AtPositions => x.(stage := AtVotes, todo := PositionsOf(w.positions, e))
    case AtVotes =>
      if x.todo == [] then x.(stage := AtCommit, inserts := e !in db.tallied, summaryAt := |w.stores|)
      else x.(todo := x.todo[1..], shownAt := x.shownAt + [|w.log|],
              shown := x.shown + [TallyPosition(db.votes, db.ballots, w.candidates, e, x.todo[0])])
    case _ => x
  }

  function NewRows(keys: seq<Id>, rows: seq<Row>): (m: map<Id, Row>)
    requires |keys| == |rows|
  {
    map k | k in keys :: rows[IndexOf(keys, k)]
  }

  function IndexOf(keys: seq<Id>, k: Id): (i: nat)
    requires k in keys
    ensures i < |keys| && keys[i] == k
  {
    if keys[0] == k then 0 else 1 + IndexOf(keys[1..], k)
  }

  /** The rows that a tally stores. */
  function OwnRows(x: Tallying, now: nat): seq<Row> {
    AllRows(x.election, x.shown, now)
  }

  predicate Ended(x: Tallying) {
    x.stage.Stored? || x.stage.NoElection? || x.stage.Clashed?
  }

  /** The keys of the rows to store are new. The rows and the summary refer to the election. */
  predicate CanStore(w: World, x: Tallying, keys: seq<Id>, now: nat) {
    && x.stage.AtCommit? && x.election in w.s.db.elections
    && Sequences.Distinct(keys) && |keys| == |OwnRows(x, now)| && Sequences.Elements(keys) !! w.used
  }

  /** A summary is unique for its election, so a tally that would insert a second one is rolled back. */
  predicate Clashes(w: World, x: Tallying) {
    x.inserts && x.election in w.s.db.tallied
  }

  predicate Can(w: World, ev: Event) {
    match ev
    case Vote(a) => Enabled(w.s, a) && !a.Tally?
    case Redraw(_, _) => true
    case Start(t, _) => t !in w.tallies
    case Read(t) => t in w.tallies && !w.tallies[t].stage.AtCommit? && !Ended(w.tallies[t])
    case Store(t, keys, now) => t in w.tallies && CanStore(w, w.tallies[t], keys, now)
  }

  function Happen(w: World, ev: Event): World
    requires Can(w, ev)
  {
    match ev
    case Vote(a) => w.(s := Apply(w.s, a), log := w.log + [a])
    case Redraw(ps, cs) => w.(positions := ps, candidates := cs)
    case Start(t, e) => w.(tallies := w.tallies[t := Begun(e)])
    case Read(t) => w.(tallies := w.tallies[t := NextReading(w, w.tallies[t])])
    case Store(t, keys, now) =>
      var x := w.tallies[t];
      if Clashes(w, x) then w.(tallies := w.tallies[t := x.(stage := Clashed)])
      else
        w.(s := Apply(w.s, Tally(x.election)), log := w.log + [Tally(x.election)],
           results := (w.results - x.doomed) + NewRows(keys, OwnRows(x, now)),
           tallies := w.tallies[t := x.(stage := Stored)],
           stores := w.stores + [Commit(x.election, x.deletedAt, keys)], used := w.used + Sequences.Elements(keys))
  }

  predicate ValidEvents(w: World, events: seq<Event>)
    decreases |events|
  {
    events == [] || (Can(w, events[0]) && ValidEvents(Happen(w, events[0]), events[1..]))
  }

  function WorldAfter(w: World, events: seq<Event>): World
    requires ValidEvents(w, events)
    decreases |events|
  {
    if events == [] then w else WorldAfter(Happen(w, events[0]), events[1..])
  }

  // ---------- every figure is that of a moment ----------

  /** The state of the voting requests after i steps of the log. */
  function StateAt(start: State, log: seq<Action>, i: nat): State
    requires ValidRun(start, log) && i <= |log|
    decreases |log|
  {
    if i == 0 then start else StateAt(Apply(start, log[0]), log[1..], i - 1)
  }

  lemma {:induction false} StateAtEnd(start: State, log: seq<Action>)
    requires ValidRun(start, log)
    ensures StateAt(start, log, |log|) == After(start, log)
    decreases |log|
  {
    if log != [] {
      StateAtEnd(Apply(start, log[0]), log[1..]);
    }
  }

  lemma {:induction false} StateAtStays(start: State, log: seq<Action>, a: Action, i: nat)
    requires ValidRun(start, log) && ValidRun(start, log + [a]) && i <= |log|
    ensures StateAt(start, log + [a], i) == StateAt(start, log, i)
    decreases |log|
  {
    if i > 0 {
      assert (log + [a])[0] == log[0] && (log + [a])[1..] == log[1..] + [a];
      StateAtStays(Apply(start, log[0]), log[1..], a, i - 1);
    }
  }

  lemma {:induction false} Upto(start: State, log: seq<Action>, j: nat)
    requires ValidRun(start, log) && j <= |log|
    ensures ValidRun(start, log[..j]) && After(start, log[..j]) == StateAt(start, log, j)
    decreases |log|
  {
    if j > 0 {
      Upto(Apply(start, log[0]), log[1..], j - 1);
      assert log[..j][0] == log[0];
      assert log[..j][1..] == log[1..][..j - 1];
    }
  }

  lemma {:induction false} RunSplits(s: State, first: seq<Action>, second: seq<Action>)
    requires ValidRun(s, first + second)
    ensures ValidRun(s, first) && ValidRun(After(s, first), second)
    ensures After(After(s, first), second) == After(s, first + second)
    decreases |first|
  {
    if first == [] {
      assert first + second == second;
    } else {
      assert (first + second)[0] == first[0] && (first + second)[1..] == first[1..] + second;
      RunSplits(Apply(s, first[0]), first[1..], second);
    }
  }

  /** The log between two moments leads from the one state to the other. */
  lemma Between(start: State, log: seq<Action>, i: nat, j: nat)
    requires ValidRun(start, log) && i <= j <= |log|
    ensures ValidRun(start, log[..i]) && After(start, log[..i]) == StateAt(start, log, i)
    ensures ValidRun(StateAt(start, log, i), log[i..j])
    ensures After(StateAt(start, log, i), log[i..j]) == StateAt(start, log, j)
  {
    Upto(start, log, i);
    Upto(start, log, j);
    assert log[..j] == log[..i] + log[i..j];
    RunSplits(start, log[..i], log[i..j]);
  }

  predicate Past(stage: Stage, mark: Stage)
    requires mark.AtVoters? || mark.AtCheckins? || mark.AtBallots?
  {
    match stage
    case AtElection => false
    case AtVoters => false
    case NoElection => false
    case AtCheckins => mark.AtVoters?
    case AtBallots => !mark.AtBallots?
    case _ => true
  }

  predicate IsTallyOf(r: PositionResult, db: Tables, candidates: seq<Candidate>, e: Id, pos: Position) {
    r == TallyPosition(db.votes, db.ballots, candidates, e, pos)
  }

  /** Result r is the count of a position of e at the moment `at`. */
  ghost predicate CountedAt(start: State, log: seq<Action>, e: Id, r: PositionResult, at: nat)
    requires ValidRun(start, log) && at <= |log|
  {
    exists candidates, pos :: IsTallyOf(r, StateAt(start, log, at).db, candidates, e, pos)
  }

  ghost predicate TrueCounts(start: State, log: seq<Action>, x: Tallying)
    requires ValidRun(start, log)
  {
    && |x.shown| == |x.shownAt|
    && forall k :: 0 <= k < |x.shown| ==>
         x.castAt <= x.shownAt[k] <= |log| && CountedAt(start, log, x.election, x.shown[k], x.shownAt[k])
  }

  ghost predicate TrueReadings(start: State, log: seq<Action>, x: Tallying)
    requires ValidRun(start, log)
  {
    && x.eligibleAt <= |log| && x.checkedInAt <= |log| && x.castAt <= |log|
    && (Past(x.stage, AtVoters) ==>
          x.eligible == |ResultService.EligibleVoters(StateAt(start, log, x.eligibleAt).db.voters, x.election)|)
    && (Past(x.stage, AtCheckins) ==>
          x.checkedIn == |ResultService.CheckedInVoters(StateAt(start, log, x.checkedInAt).db.checkins, x.election)|)
    && (Past(x.stage, AtBallots) ==>
          x.eligibleAt <= x.castAt && x.checkedInAt <= x.castAt
          && x.cast == |BallotsOf(StateAt(start, log, x.castAt).db.ballots, x.election)|)
    && (!Past(x.stage, AtBallots) ==> x.shown == [])
    && TrueCounts(start, log, x)
  }

  ghost predicate WorldSound(start: State, w: World) {
    && ValidRun(start, w.log) && w.s == After(start, w.log)
    && forall t :: t in w.tallies ==> TrueReadings(start, w.log, w.tallies[t])
  }

  lemma LogGrows(start: State, w: World, a: Action)
    requires ValidRun(start, w.log) && w.s == After(start, w.log) && Enabled(w.s, a)
    ensures ValidRun(start, w.log + [a]) && After(start, w.log + [a]) == Apply(w.s, a)
  {
    Sequential.Extend(start, w.log, a);
  }

  lemma CountedAtStays(start: State, log: seq<Action>, a: Action, e: Id, r: PositionResult, at: nat)
    requires ValidRun(start, log) && ValidRun(start, log + [a]) && at <= |log| && CountedAt(start, log, e, r, at)
    ensures CountedAt(start, log + [a], e, r, at)
  {
    StateAtStays(start, log, a, at);
  }

  lemma ReadingsStay(start: State, log: seq<Action>, a: Action, x: Tallying)
    requires ValidRun(start, log) && ValidRun(start, log + [a]) && TrueReadings(start, log, x)
    ensures TrueReadings(start, log + [a], x)
  {
    StateAtStays(start, log, a, x.eligibleAt);
    StateAtStays(start, log, a, x.checkedInAt);
    StateAtStays(start, log, a, x.castAt);
    forall k | 0 <= k < |x.shown| ensures CountedAt(start, log + [a], x.election, x.shown[k], x.shownAt[k]) {
      CountedAtStays(start, log, a, x.election, x.shown[k], x.shownAt[k]);
    }
  }

  lemma NextCountIsTrue(start: State, w: World, x: Tallying)
    requires ValidRun(start, w.log) && w.s == After(start, w.log) && TrueReadings(start, w.log, x)
    requires x.stage.AtVotes? && x.todo != []
    ensures TrueReadings(start, w.log, NextReading(w, x))
  {
    StateAtEnd(start, w.log);
    var y := NextReading(w, x);
    var r := y.shown[|x.shown|];
    assert IsTallyOf(r, w.s.db, w.candidates, x.election, x.todo[0]);
    assert CountedAt(start, w.log, x.election, r, |w.log|);
    assert TrueCounts(start, w.log, y);
  }

  lemma CountsStayTrue(start: State, log: seq<Action>, x: Tallying, y: Tallying)
    requires ValidRun(start, log) && TrueCounts(start, log, x)
    requires y.election == x.election && y.shown == x.shown && y.shownAt == x.shownAt
    requires y.castAt == x.castAt || x.shown == []
    ensures TrueCounts(start, log, y)
  {}

  lemma NextFigureIsTrue(start: State, w: World, x: Tallying)
    requires ValidRun(start, w.log) && w.s == After(start, w.log) && TrueReadings(start, w.log, x)
    requires !Past(x.stage, AtBallots)
    ensures TrueReadings(start, w.log, NextReading(w, x))
  {
    StateAtEnd(start, w.log);
    CountsStayTrue(start, w.log, x, NextReading(w, x));
  }

  lemma NextPlanIsTrue(start: State, w: World, x: Tallying)
    requires ValidRun(start, w.log) && w.s == After(start, w.log) && TrueReadings(start, w.log, x)
    requires Past(x.stage, AtBallots) && !(x.stage.AtVotes? && x.todo != [])
    ensures TrueReadings(start, w.log, NextReading(w, x))
  {
    CountsStayTrue(start, w.log, x, NextReading(w, x));
  }

  lemma NextReadingIsTrue(start: State, w: World, x: Tallying)
    requires ValidRun(start, w.log) && w.s == After(start, w.log) && TrueReadings(start, w.log, x)
    ensures TrueReadings(start, w.log, NextReading(w, x))
  {
    if x.stage.AtVotes? && x.todo != [] {
      NextCountIsTrue(start, w, x);
    } else if Past(x.stage, AtBallots) {
      NextPlanIsTrue(start, w, x);
    } else {
      NextFigureIsTrue(start, w, x);
    }
  }

  lemma EndingKeepsReadings(start: State, log: seq<Action>, x: Tallying)
    requires ValidRun(start, log) && TrueReadings(start, log, x) && x.stage.AtCommit?
    ensures TrueReadings(start, log, x.(stage := Stored)) && TrueReadings(start, log, x.(stage := Clashed))
  {}

  lemma AllStaySound(start: State, w: World, a: Action)
    requires WorldSound(start, w) && Enabled(w.s, a)
    ensures WorldSound(start, w.(s := Apply(w.s, a), log := w.log + [a]))
  {
    LogGrows(start, w, a);
    forall t | t in w.tallies ensures TrueReadings(start, w.log + [a], w.tallies[t]) {
      ReadingsStay(start, w.log, a, w.tallies[t]);
    }
  }

  lemma OneTallyMoves(start: State, w: World, w': World, t: Id, y: Tallying)
    requires WorldSound(start, w) && TrueReadings(start, w.log, y)
    requires w'.s == w.s && w'.log == w.log && w'.tallies == w.tallies[t := y]
    ensures WorldSound(start, w')
  {}

  lemma StoreKeepsSound(start: State, w: World, t: Id, keys: seq<Id>, now: nat)
    requires WorldSound(start, w) && Can(w, Store(t, keys, now))
    ensures WorldSound(start, Happen(w, Store(t, keys, now)))
  {
    var x := w.tallies[t];
    var w' := Happen(w, Store(t, keys, now));
    if Clashes(w, x) {
      EndingKeepsReadings(start, w.log, x);
      OneTallyMoves(start, w, w', t, x.(stage := Clashed));
    } else {
      var a := Tally(x.election);
      var w1 := w.(s := Apply(w.s, a), log := w.log + [a]);
      AllStaySound(start, w, a);
      EndingKeepsReadings(start, w1.log, x);
      OneTallyMoves(start, w1, w', t, x.(stage := Stored));
    }
  }

  lemma EventKeepsSound(start: State, w: World, ev: Event)
    requires WorldSound(start, w) && Can(w, ev)
    ensures WorldSound(start, Happen(w, ev))
  {
    match ev
    case Vote(a) => AllStaySound(start, w, a);
    case Read(t) => NextReadingIsTrue(start, w, w.tallies[t]);
    case Store(t, keys, now) => StoreKeepsSound(start, w, t, keys, now);
    case _ =>
  }

  lemma {:induction false} EventsKeepSound(start: State, w: World, events: seq<Event>)
    requires WorldSound(start, w) && ValidEvents(w, events)
    ensures WorldSound(start, WorldAfter(w, events))
    decreases |events|
  {
    if events != [] {
      EventKeepsSound(start, w, events[0]);
      EventsKeepSound(start, Happen(w, events[0]), events[1..]);
    }
  }

  /** No tally has begun. */
  predicate Fresh(w: World) {
    w.tallies == map[] && w.log == [] && w.stores == [] && w.used == w.results.Keys && Initial(w.s)
  }

  /** How many casts for the tally's election committed between its counting the ballots and its counting position k. */
  function Interposed(start: State, log: seq<Action>, x: Tallying, k: nat): nat
    requires ValidRun(start, log) && k < |x.shown| == |x.shownAt| && x.castAt <= x.shownAt[k] <= |log|
  {
    Between(start, log, x.castAt, x.shownAt[k]);
    Overlap.CommitsFor(StateAt(start, log, x.castAt), log[x.castAt..x.shownAt[k]], x.election)
  }

  lemma ReachableIsSound(w: World, events: seq<Event>)
    requires Fresh(w) && ValidEvents(w, events)
    ensures WorldSound(w.s, WorldAfter(w, events))
  {
    EventsKeepSound(w.s, w, events);
  }

  /** The conditions of the limit: it never exceeds m, and the committed requests name the position at most once. */
  predicate LimitApplies(start: State, w: World, x: Tallying, k: nat, m: nat)
    requires k < |x.shown|
  {
    Bounds.CapHolds(start, w.log, x.shown[k].position, m) && Bounds.NamesOnce(w.s, x.election, x.shown[k].position)
  }

  /** At most m votes per ballot shown and per cast for the election that committed between the two statements. */
  ghost predicate WithinLimit(start: State, log: seq<Action>, x: Tallying, k: nat, m: nat) {
    && ValidRun(start, log) && TrueReadings(start, log, x) && k < |x.shown|
    && x.shown[k].totalVotes <= m * (x.cast + Interposed(start, log, x, k))
  }

  /**
   In every run of voting requests, tallies and edits: if the limit of a position never exceeds m and the committed
   requests for e name it at most once, a tally of e shows at most m votes per ballot shown, counting one ballot more
   for each cast for e that committed between the two statements.
   */
  lemma OverlappedTallyWithinLimits(w: World, events: seq<Event>, w': World, t: Id, k: nat, m: nat)
    requires Fresh(w) && ValidEvents(w, events) && w' == WorldAfter(w, events)
    requires t in w'.tallies && k < |w'.tallies[t].shown| && LimitApplies(w.s, w', w'.tallies[t], k, m)
    ensures WithinLimit(w.s, w'.log, w'.tallies[t], k, m)
  {
    ReachableIsSound(w, events);
    CountedWithinLimit(w.s, w'.log, w'.tallies[t], k, m);
  }

  /** The ballots behind position k are those that the tally counted exactly if no such cast committed. */
  lemma FiguresOfOneMomentIff(w: World, events: seq<Event>, w': World, t: Id, k: nat)
    requires Fresh(w) && ValidEvents(w, events) && w' == WorldAfter(w, events)
    requires t in w'.tallies && k < |w'.tallies[t].shown|
    ensures WorldSound(w.s, w')
    ensures var x := w'.tallies[t];
      x.cast == |BallotsOf(StateAt(w.s, w'.log, x.shownAt[k]).db.ballots, x.election)| <==> Interposed(w.s, w'.log, x, k) == 0
  {
    ReachableIsSound(w, events);
    var x := w'.tallies[t];
    var i, j := x.castAt, x.shownAt[k];
    Between(w.s, w'.log, i, j);
    Bounds.RunRecords(w.s, w'.log[..i]);
    Overlap.BallotsGrowByCommits(StateAt(w.s, w'.log, i), w'.log[i..j], x.election);
  }

  /** The check-ins shown are those of the moment of the ballots exactly if no check-in for e committed in between. */
  lemma CheckinsOfOneMomentIff(w: World, events: seq<Event>, w': World, t: Id)
    requires Fresh(w) && ValidEvents(w, events) && w' == WorldAfter(w, events)
    requires t in w'.tallies && Past(w'.tallies[t].stage, AtBallots)
    ensures WorldSound(w.s, w')
    ensures ValidRun(StateAt(w.s, w'.log, w'.tallies[t].checkedInAt), w'.log[w'.tallies[t].checkedInAt..w'.tallies[t].castAt])
    ensures var x := w'.tallies[t];
      (x.checkedIn == |set c | c in StateAt(w.s, w'.log, x.castAt).db.checkins && c.0 == x.election|) <==>
      Checkins.CheckinsFor(StateAt(w.s, w'.log, x.checkedInAt), w'.log[x.checkedInAt..x.castAt], x.election) == 0
  {
    ReachableIsSound(w, events);
    var x := w'.tallies[t];
    var s1, s2 := StateAt(w.s, w'.log, x.checkedInAt), StateAt(w.s, w'.log, x.castAt);
    Between(w.s, w'.log, x.checkedInAt, x.castAt);
    Checkins.CheckinsGrowByCommits(s1, w'.log[x.checkedInAt..x.castAt], x.election);
    assert ResultService.CheckedInVoters(s2.db.checkins, x.election) == set c | c in s2.db.checkins && c.0 == x.election;
    assert Past(x.stage, AtCheckins);
  }

  lemma RollIsEligible(s: State, e: Id)
    ensures Bounds.Roll(s, e) == ResultService.EligibleVoters(s.db.voters, e)
  {}

  /** When the tally counted the ballots, all requests committed for its election had come from its own roll. */
  predicate OwnWhenCounted(start: State, log: seq<Action>, x: Tallying) {
    ValidRun(start, log) && x.castAt <= |log| && Bounds.OwnElection(StateAt(start, log, x.castAt), x.election)
  }

  /**
   A tally counts the voters before the ballots. If the committed requests for e come from its own roll, the ballots
   shown exceed the voters shown at most by the voters registered in between; so turnout is at most 100 without those.
   */
  lemma OverlappedTurnout(w: World, events: seq<Event>, w': World, t: Id)
    requires Fresh(w) && ValidEvents(w, events) && w' == WorldAfter(w, events)
    requires t in w'.tallies && Past(w'.tallies[t].stage, AtBallots)
    requires OwnWhenCounted(w.s, w'.log, w'.tallies[t])
    ensures WorldSound(w.s, w')
    ensures var x := w'.tallies[t]; x.cast <= x.eligible + Turnout.Registered(w'.log[x.eligibleAt..x.castAt], x.election)
  {
    ReachableIsSound(w, events);
    var x := w'.tallies[t];
    var i, j := x.eligibleAt, x.castAt;
    Between(w.s, w'.log, i, j);
    Between(w.s, w'.log, j, j);
    Bounds.TurnoutAtMostHundred(w.s, w'.log[..j], x.election);
    Turnout.RollGrows(StateAt(w.s, w'.log, i), w'.log[i..j], x.election);
    RollIsEligible(StateAt(w.s, w'.log, i), x.election);
  }

  lemma CountedWithinLimit(start: State, log: seq<Action>, x: Tallying, k: nat, m: nat)
    requires Initial(start) && ValidRun(start, log) && TrueReadings(start, log, x) && k < |x.shown|
    requires Bounds.CapHolds(start, log, x.shown[k].position, m)
    requires Bounds.NamesOnce(After(start, log), x.election, x.shown[k].position)
    ensures WithinLimit(start, log, x, k, m)
  {
    ShownAreChoices(start, log, x, k);
    ChoicesWithinLimit(start, log, x.election, x.shown[k].position, x.castAt, x.shownAt[k], m);
  }

  /** The votes shown for a position are those of its moment, and the ballots shown those of an earlier one. */
  lemma ShownAreChoices(start: State, log: seq<Action>, x: Tallying, k: nat)
    requires ValidRun(start, log) && TrueReadings(start, log, x) && k < |x.shown|
    ensures k < |x.shownAt| && x.castAt <= x.shownAt[k] <= |log|
    ensures var db := StateAt(start, log, x.shownAt[k]).db;
      x.shown[k].totalVotes == |Choices(db.votes, db.ballots, x.election, x.shown[k].position)|
    ensures x.cast == |BallotsOf(StateAt(start, log, x.castAt).db.ballots, x.election)|
  {
    assert CountedAt(start, log, x.election, x.shown[k], x.shownAt[k]);
    assert Past(x.stage, AtBallots);
  }

  lemma {:induction false} ChoicesWithinLimit(start: State, log: seq<Action>, e: Id, pos: Id, i: nat, j: nat, m: nat)
    requires Initial(start) && ValidRun(start, log) && i <= j <= |log|
    requires Bounds.CapHolds(start, log, pos, m) && Bounds.NamesOnce(After(start, log), e, pos)
    ensures ValidRun(StateAt(start, log, i), log[i..j])
    ensures var s1, s2 := StateAt(start, log, i), StateAt(start, log, j);
      |Choices(s2.db.votes, s2.db.ballots, e, pos)|
        <= m * (|BallotsOf(s1.db.ballots, e)| + Overlap.CommitsFor(s1, log[i..j], e))
  {
    Between(start, log, i, j);
    NamesOnceEarlier(start, log, j, e, pos);
    CapHoldsBefore(start, log, i, j, pos, m);
    BoundedBetween(start, log[..i], log[i..j], StateAt(start, log, i), StateAt(start, log, j), e, pos, m);
  }

  lemma {:induction false} BoundedBetween(
    start: State, before: seq<Action>, between: seq<Action>, s1: State, s2: State, e: Id, pos: Id, m: nat)
    requires Initial(start) && ValidRun(start, before) && s1 == After(start, before)
    requires ValidRun(s1, between) && s2 == After(s1, between)
    requires Bounds.CapHolds(start, before + between, pos, m) && Bounds.NamesOnce(s2, e, pos)
    ensures |Choices(s2.db.votes, s2.db.ballots, e, pos)|
      <= m * (|BallotsOf(s1.db.ballots, e)| + Overlap.CommitsFor(s1, between, e))
  {
    Overlap.VotesBoundedByFigure(start, before, between, e, pos, m);
  }

  lemma CapHoldsBefore(start: State, log: seq<Action>, i: nat, j: nat, pos: Id, m: nat)
    requires i <= j <= |log| && Bounds.CapHolds(start, log, pos, m)
    ensures Bounds.CapHolds(start, log[..i] + log[i..j], pos, m)
  {
    assert log[..i] + log[i..j] == log[..j];
  }

  /** Fewer ballots were in the box at an earlier moment. */
  lemma NamesOnceEarlier(start: State, log: seq<Action>, j: nat, e: Id, pos: Id)
    requires Initial(start) && ValidRun(start, log) && j <= |log| && Bounds.NamesOnce(After(start, log), e, pos)
    ensures Bounds.NamesOnce(StateAt(start, log, j), e, pos)
  {
    Between(start, log, j, |log|);
    StateAtEnd(start, log);
    var s := StateAt(start, log, j);
    Safety.InitialInv(start);
    Safety.RunKeepsInv(start, log[..j]);
    Safety.RunGrows(s, log[j..|log|]);
    forall b | b in s.origin && s.origin[b].election == e ensures Bounds.Occurrences(s.origin[b].selections, pos) <= 1 {
      assert After(start, log).origin[b] == s.origin[b];
    }
  }

  // ---------- undisturbed, a tally is a snapshot ----------

  /** Only tally t moves. */
  predicate Alone(w: World, w': World, t: Id) {
    t in w.tallies && t in w'.tallies && w' == w.(tallies := w.tallies[t := w'.tallies[t]])
  }

  lemma ReadsOnce(w: World, t: Id, rest: seq<Event>)
    requires Can(w, Read(t)) && ValidEvents(Happen(w, Read(t)), rest)
    ensures ValidEvents(w, [Read(t)] + rest) && WorldAfter(w, [Read(t)] + rest) == WorldAfter(Happen(w, Read(t)), rest)
  {
    assert ([Read(t)] + rest)[1..] == rest;
  }

  /** The counts of the positions that are left, all of the one state, and the SELECT of the summary. */
  predicate Counted(w: World, x: Tallying, y: Tallying) {
    && y.shown == x.shown + TallyAll(w.s.db.votes, w.s.db.ballots, w.candidates, x.election, x.todo)
    && y == x.(stage := AtCommit, todo := [], shown := y.shown, shownAt := y.shownAt,
               inserts := x.election !in w.s.db.tallied, summaryAt := |w.stores|)
  }

  lemma {:induction false} CountsAlone(w: World, t: Id) returns (events: seq<Event>)
    requires t in w.tallies && w.tallies[t].stage.AtVotes?
    ensures ValidEvents(w, events) && Alone(w, WorldAfter(w, events), t)
    ensures Counted(w, w.tallies[t], WorldAfter(w, events).tallies[t])
    decreases |w.tallies[t].todo|
  {
    var x := w.tallies[t];
    var w1 := Happen(w, Read(t));
    if x.todo == [] {
      events := [Read(t)] + [];
      ReadsOnce(w, t, []);
      assert x.shown + [] == x.shown;
    } else {
      var rest := CountsAlone(w1, t);
      events := [Read(t)] + rest;
      ReadsOnce(w, t, rest);
      Sequences.Regroup(x.shown, [TallyPosition(w.s.db.votes, w.s.db.ballots, w.candidates, x.election, x.todo[0])],
        TallyAll(w.s.db.votes, w.s.db.ballots, w.candidates, x.election, x.todo[1..]));
    }
  }

  /** The rows of the snapshot. */
  function Snapshot(w: World, e: Id): seq<PositionResult> {
    TallyAll(w.s.db.votes, w.s.db.ballots, w.candidates, e, PositionsOf(w.positions, e))
  }

  /** A tally that has sent its DELETE reads the rest undisturbed. */
  lemma PositionsAlone(w: World, t: Id) returns (events: seq<Event>)
    requires t in w.tallies && w.tallies[t].stage.AtPositions? && w.tallies[t].shown == []
    ensures ValidEvents(w, events) && Alone(w, WorldAfter(w, events), t)
    ensures Counted(w, w.tallies[t].(todo := PositionsOf(w.positions, w.tallies[t].election)), WorldAfter(w, events).tallies[t])
    ensures WorldAfter(w, events).tallies[t].shown == Snapshot(w, w.tallies[t].election)
  {
    var tail := CountsAlone(Happen(w, Read(t)), t);
    ReadsOnce(w, t, tail);
    events := [Read(t)] + tail;
  }

  /** What a tally has read when it has just sent its DELETE, undisturbed until then. */
  function Cleared(w: World, e: Id): Tallying {
    Begun(e).(stage := AtPositions,
              eligible := |ResultService.EligibleVoters(w.s.db.voters, e)|, eligibleAt := |w.log|,
              checkedIn := |ResultService.CheckedInVoters(w.s.db.checkins, e)|, checkedInAt := |w.log|,
              cast := |BallotsOf(w.s.db.ballots, e)|, castAt := |w.log|,
              doomed := RowKeys(w.results, e), deletedAt := |w.stores|)
  }

  lemma VotersAlone(w: World, t: Id) returns (events: seq<Event>)
    requires t in w.tallies && w.tallies[t] == Begun(w.tallies[t].election) && w.tallies[t].election in w.s.db.elections
    ensures ValidEvents(w, events)
    ensures var e := w.tallies[t].election;
      WorldAfter(w, events) == w.(tallies := w.tallies[t :=
        Begun(e).(stage := AtCheckins, eligible := |ResultService.EligibleVoters(w.s.db.voters, e)|, eligibleAt := |w.log|)])
  {
    var w1 := Happen(w, Read(t));
    ReadsOnce(w1, t, []);
    ReadsOnce(w, t, [Read(t)] + []);
    events := [Read(t)] + ([Read(t)] + []);
  }

  lemma TwoFiguresAlone(w: World, t: Id) returns (events: seq<Event>)
    requires t in w.tallies && w.tallies[t].stage.AtCheckins?
    ensures ValidEvents(w, events)
    ensures var x := w.tallies[t];
      WorldAfter(w, events) == w.(tallies := w.tallies[t := x.(stage := AtResults,
        checkedIn := |ResultService.CheckedInVoters(w.s.db.checkins, x.election)|, checkedInAt := |w.log|,
        cast := |BallotsOf(w.s.db.ballots, x.election)|, castAt := |w.log|)])
  {
    var w1 := Happen(w, Read(t));
    ReadsOnce(w1, t, []);
    ReadsOnce(w, t, [Read(t)] + []);
    events := [Read(t)] + ([Read(t)] + []);
  }

  lemma FiguresAlone(w: World, t: Id) returns (events: seq<Event>)
    requires t in w.tallies && w.tallies[t] == Begun(w.tallies[t].election) && w.tallies[t].election in w.s.db.elections
    ensures ValidEvents(w, events)
    ensures WorldAfter(w, events) == w.(tallies := w.tallies[t :=
      Cleared(w, w.tallies[t].election).(stage := AtResults, doomed := {}, deletedAt := 0)])
  {
    var first := VotersAlone(w, t);
    var second := TwoFiguresAlone(WorldAfter(w, first), t);
    EventsCompose(w, first, second);
    events := first + second;
  }

  lemma DeleteAlone(w: World, t: Id) returns (events: seq<Event>)
    requires t in w.tallies && w.tallies[t] == Begun(w.tallies[t].election) && w.tallies[t].election in w.s.db.elections
    ensures ValidEvents(w, events)
    ensures WorldAfter(w, events) == w.(tallies := w.tallies[t := Cleared(w, w.tallies[t].election)])
  {
    var first := FiguresAlone(w, t);
    var w1 := WorldAfter(w, first);
    ReadsOnce(w1, t, []);
    EventsCompose(w, first, [Read(t)] + []);
    events := first + ([Read(t)] + []);
  }

  lemma {:induction false} EventsCompose(w: World, first: seq<Event>, second: seq<Event>)
    requires ValidEvents(w, first) && ValidEvents(WorldAfter(w, first), second)
    ensures ValidEvents(w, first + second) && WorldAfter(w, first + second) == WorldAfter(WorldAfter(w, first), second)
    decreases |first|
  {
    if first == [] {
      assert first + second == second;
    } else {
      EventsCompose(Happen(w, first[0]), first[1..], second);
      assert (first + second)[1..] == first[1..] + second;
    }
  }

  /** The figures of an undisturbed tally are those of the one state: what `TallyResults` returns. */
  lemma AloneIsSnapshot(w: World, t: Id, e: Id) returns (events: seq<Event>)
    requires t in w.tallies && e in w.s.db.elections && w.tallies[t] == Begun(e)
    ensures ValidEvents(w, events) && Alone(w, WorldAfter(w, events), t)
    ensures var x := WorldAfter(w, events).tallies[t]; var db := w.s.db;
      && x.stage.AtCommit? && x.doomed == RowKeys(w.results, e)
      && x.eligible == |ResultService.EligibleVoters(db.voters, e)|
      && x.checkedIn == |ResultService.CheckedInVoters(db.checkins, e)|
      && x.cast == |BallotsOf(db.ballots, e)|
      && x.shown == TallyAll(db.votes, db.ballots, w.candidates, e, PositionsOf(w.positions, e))
  {
    var first := DeleteAlone(w, t);
    var second := PositionsAlone(WorldAfter(w, first), t);
    EventsCompose(w, first, second);
    events := first + second;
  }

  function VoteEvents(run: seq<Action>): seq<Event> {
    seq(|run|, i requires 0 <= i < |run| => Event.Vote(run[i]))
  }

  /** Between any two statements of a tally any run of voting requests can commit. */
  lemma {:induction false} VotesComeBetween(w: World, run: seq<Action>)
    requires ValidRun(w.s, run) && forall i :: 0 <= i < |run| ==> !run[i].Tally?
    ensures ValidEvents(w, VoteEvents(run))
    ensures WorldAfter(w, VoteEvents(run)) == w.(s := After(w.s, run), log := w.log + run)
    decreases |run|
  {
    if run != [] {
      var w1 := Happen(w, Event.Vote(run[0]));
      VotesComeBetween(w1, run[1..]);
      assert VoteEvents(run)[0] == Event.Vote(run[0]) && VoteEvents(run)[1..] == VoteEvents(run[1..]);
      assert w.log + [run[0]] + run[1..] == w.log + run;
    } else {
      assert w.log + run == w.log;
    }
  }

  /** A tally of an unknown election ends at its first reading, having stored nothing. */
  lemma UnknownElectionEnds(w: World, t: Id, e: Id, keys: seq<Id>, now: nat)
    requires t in w.tallies && e !in w.s.db.elections && w.tallies[t] == Begun(e)
    ensures var w' := Happen(w, Read(t));
      && w' == w.(tallies := w'.tallies) && w'.tallies == w.tallies[t := Begun(e).(stage := NoElection)]
      && !Can(w', Read(t)) && !Can(w', Store(t, keys, now))
  {}

  /** Positions or candidates changed under a tally are those that its next reading shows. */
  lemma NextReadingIsFresh(w: World, t: Id, ps: seq<Position>, cs: seq<Candidate>)
    requires t in w.tallies && (w.tallies[t].stage.AtPositions? || (w.tallies[t].stage.AtVotes? && w.tallies[t].todo != []))
    ensures Can(Happen(w, Redraw(ps, cs)), Read(t))
    ensures var x := w.tallies[t]; var x' := Happen(Happen(w, Redraw(ps, cs)), Read(t)).tallies[t];
      if x.stage.AtPositions? then x'.todo == PositionsOf(ps, x.election)
      else x'.shown == x.shown + [TallyPosition(w.s.db.votes, w.s.db.ballots, cs, x.election, x.todo[0])]
  {}
}
