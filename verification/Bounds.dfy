/**
 What the ballot box contains after any interleaving: exactly the choices of the committed requests. From
 that follow the bound on a position's votes and the bound on turnout, with the conditions they need.
 */
module Bounds {
  import opened Types
  import opened Protocol
  import opened Steps
  import opened Counting
  import opened Cardinality
  import Safety
  import Sequential

  // ---------- the vote table is what was asked for ----------

  lemma {:induction false} RowsBelong(b: Id, sels: seq<Selection>)
    ensures forall i :: 0 <= i < |VoteRows(b, sels)| ==> VoteRows(b, sels)[i].ballot == b
  {
    if sels != [] {
      CandidateRowsShape(b, sels[0].position, sels[0].candidates);
      RowsBelong(b, sels[1..]);
    }
  }

  lemma {:induction false} CandidateRowsShape(b: Id, pos: Id, cands: seq<Id>)
    ensures |CandidateRows(b, pos, cands)| == |cands|
    ensures forall i :: 0 <= i < |cands| ==> CandidateRows(b, pos, cands)[i] == Vote(b, pos, cands[i])
  {
    if cands != [] {
      CandidateRowsShape(b, pos, cands[1..]);
    }
  }

  predicate BallotMatches(req: CastRequest, ballot: Ballot) {
    ballot.election == req.election && ballot.isValid
  }

  ghost predicate Recorded(s: State) {
    && s.origin.Keys == s.db.ballots.Keys
    && (forall b :: b in s.origin ==>
          BallotMatches(s.origin[b], s.db.ballots[b]) && RowsOf(s.db.votes, b) == VoteRows(b, s.origin[b].selections))
    && (forall i :: 0 <= i < |s.db.votes| ==> s.db.votes[i].ballot in s.origin)
    && (forall p :: p in s.procs && s.procs[p].CastStaged? ==> BallotMatches(s.procs[p].req, s.procs[p].ballot))
  }

  lemma CommitRecords(s: State, p: Id, drawn: Id)
    requires Recorded(s) && p in s.procs && Commits(s, p) && Ready(s, p, drawn)
    ensures Recorded(CastStep(s, p, drawn))
  {
    var s' := CastStep(s, p, drawn);
    var req := s.procs[p].req;
    var rows := VoteRows(drawn, req.selections);
    RowsBelong(drawn, req.selections);
    forall b | b in s'.origin
      ensures BallotMatches(s'.origin[b], s'.db.ballots[b]) && RowsOf(s'.db.votes, b) == VoteRows(b, s'.origin[b].selections)
    {
      RowsOfConcat(s.db.votes, rows, b);
      if b == drawn {
        RowsOfNone(s.db.votes, b);
        RowsOfSame(rows, b);
      } else {
        RowsOfNone(rows, b);
      }
    }
  }

  lemma CastRecords(s: State, p: Id, drawn: Id)
    requires Recorded(s) && p in s.procs && IsCast(s.procs[p]) && Ready(s, p, drawn)
    ensures Recorded(CastStep(s, p, drawn))
  {
    if Commits(s, p) {
      CommitRecords(s, p, drawn);
    } else {
      CastWritesOnlyAtCommit(s, p, drawn);
    }
  }

  lemma StepRecords(s: State, a: Action)
    requires Recorded(s) && Enabled(s, a)
    ensures Recorded(Apply(s, a))
  {
    if a.Advance? {
      if IsCast(s.procs[a.p]) {
        CastRecords(s, a.p, a.drawn);
      } else {
        OtherFrame(s, a.p, a.drawn);
      }
    } else {
      BackgroundFrame(s, a);
    }
  }

  lemma {:induction false} RunRecords(s: State, run: seq<Action>)
    requires Recorded(s) && ValidRun(s, run)
    ensures Recorded(After(s, run))
    decreases |run|
  {
    if run != [] {
      StepRecords(s, run[0]);
      RunRecords(Apply(s, run[0]), run[1..]);
    }
  }

  /** Each committed ballot's rows are its request's choices in order, and there are no other rows. */
  lemma VotesAreTheChoices(start: State, run: seq<Action>)
    requires Initial(start) && ValidRun(start, run)
    ensures var s := After(start, run);
      && s.origin.Keys == s.db.ballots.Keys
      && (forall b :: b in s.origin ==> RowsOf(s.db.votes, b) == VoteRows(b, s.origin[b].selections))
      && (forall i :: 0 <= i < |s.db.votes| ==> s.db.votes[i].ballot in s.db.ballots)
  {
    RunRecords(start, run);
  }

  // ---------- votes per position ----------

  /** How many selections of a request name the position. */
  function Occurrences(sels: seq<Selection>, pos: Id): nat {
    if sels == [] then 0 else (if sels[0].position == pos then 1 else 0) + Occurrences(sels[1..], pos)
  }

  /** Every selection for the position lists at most m candidates. */
  predicate Capped(sels: seq<Selection>, pos: Id, m: nat) {
    forall i :: 0 <= i < |sels| && sels[i].position == pos ==> |sels[i].candidates| <= m
  }

  /** `max_selections` of the position is at most m, now and after every later edit. */
  predicate CapHolds(s: State, run: seq<Action>, pos: Id, m: nat) {
    && (pos in s.db.positions ==> s.db.positions[pos] <= m)
    && forall i :: 0 <= i < |run| && run[i].EditPosition? && run[i].id == pos ==> run[i].maxSelections <= m
  }

  ghost predicate CapInv(s: State, pos: Id, m: nat) {
    && (pos in s.db.positions ==> s.db.positions[pos] <= m)
    && (forall b :: b in s.origin ==> Capped(s.origin[b].selections, pos, m))
    && (forall p :: p in s.procs && s.procs[p].CastChecking? ==>
          s.procs[p].done <= |s.procs[p].req.selections| && Capped(s.procs[p].req.selections[..s.procs[p].done], pos, m))
    && (forall p :: p in s.procs && s.procs[p].CastStaged? ==> Capped(s.procs[p].req.selections, pos, m))
  }

  lemma CastKeepsCap(s: State, p: Id, drawn: Id, pos: Id, m: nat)
    requires CapInv(s, pos, m) && p in s.procs && IsCast(s.procs[p]) && Ready(s, p, drawn)
    ensures CapInv(CastStep(s, p, drawn), pos, m)
  {
    var s' := CastStep(s, p, drawn);
    if !Commits(s, p) {
      CastWritesOnlyAtCommit(s, p, drawn);
      if s.procs[p].CastChecking? && !s'.procs[p].Failed? {
        var sels, k := s.procs[p].req.selections, s.procs[p].done;
        if k < |sels| {
          assert sels[..k + 1] == sels[..k] + [sels[k]];
        } else {
          assert sels[..k] == sels;
        }
      }
    }
  }

  lemma StepKeepsCap(s: State, a: Action, pos: Id, m: nat)
    requires CapInv(s, pos, m) && Enabled(s, a) && (a.EditPosition? && a.id == pos ==> a.maxSelections <= m)
    ensures CapInv(Apply(s, a), pos, m)
  {
    if a.Advance? {
      if IsCast(s.procs[a.p]) {
        CastKeepsCap(s, a.p, a.drawn, pos, m);
      } else {
        OtherFrame(s, a.p, a.drawn);
      }
    } else {
      BackgroundFrame(s, a);
    }
  }

  lemma {:induction false} RunKeepsCap(s: State, run: seq<Action>, pos: Id, m: nat)
    requires CapInv(s, pos, m) && ValidRun(s, run) && CapHolds(s, run, pos, m)
    ensures CapInv(After(s, run), pos, m)
    decreases |run|
  {
    if run != [] {
      StepKeepsCap(s, run[0], pos, m);
      RunKeepsCap(Apply(s, run[0]), run[1..], pos, m);
    }
  }

  /** One ballot's rows for the position: at most m for each selection that names it. */
  lemma {:induction false} RowsForPosition(b: Id, sels: seq<Selection>, pos: Id, m: nat)
    requires Capped(sels, pos, m)
    ensures NamedIn(VoteRows(b, sels), {b}, pos) <= m * Occurrences(sels, pos)
  {
    if sels != [] {
      var sel := sels[0];
      assert Capped(sels[1..], pos, m);
      RowsForPosition(b, sels[1..], pos, m);
      NamedInConcat(CandidateRows(b, sel.position, sel.candidates), VoteRows(b, sels[1..]), {b}, pos);
      CandidateRowsNamed(b, sel.position, sel.candidates, pos);
      OneMoreTimes(m, Occurrences(sels[1..], pos));
    }
  }

  lemma AtMostOnce(m: nat, k: nat)
    requires k <= 1
    ensures m * k <= m
  {}

  lemma OneMoreTimes(m: nat, k: nat)
    ensures m * (1 + k) == m + m * k
  {}

  lemma {:induction false} CandidateRowsNamed(b: Id, p: Id, cands: seq<Id>, pos: Id)
    ensures NamedIn(CandidateRows(b, p, cands), {b}, pos) == if p == pos then |cands| else 0
  {
    if cands != [] {
      CandidateRowsNamed(b, p, cands[1..], pos);
      assert CandidateRows(b, p, cands)[1..] == CandidateRows(b, p, cands[1..]);
    }
  }

  lemma BallotForPosition(s: State, b: Id, pos: Id, m: nat)
    requires Recorded(s) && CapInv(s, pos, m) && b in s.origin && Occurrences(s.origin[b].selections, pos) <= 1
    ensures NamedIn(RowsOf(s.db.votes, b), {b}, pos) <= m
  {
    var sels := s.origin[b].selections;
    assert RowsOf(s.db.votes, b) == VoteRows(b, sels) && Capped(sels, pos, m);
    RowsForPosition(b, sels, pos, m);
    AtMostOnce(m, Occurrences(sels, pos));
  }

  lemma OneBallotMore(m: nat, bs: set<Id>, b: Id)
    requires b in bs
    ensures m * |bs| == m + m * |bs - {b}|
  {
    OneMoreTimes(m, |bs - {b}|);
    assert |bs| == 1 + |bs - {b}|;
  }

  /** Add up over a set of ballots that each name the position at most once. */
  lemma {:induction false} BallotsForPosition(s: State, bs: set<Id>, pos: Id, m: nat)
    requires Recorded(s) && CapInv(s, pos, m) && bs <= s.origin.Keys
    requires forall b :: b in bs ==> Occurrences(s.origin[b].selections, pos) <= 1
    ensures NamedIn(s.db.votes, bs, pos) <= m * |bs|
    decreases |bs|
  {
    if bs == {} {
      NamedInNothing(s.db.votes, pos);
    } else {
      var b :| b in bs;
      BallotsForPosition(s, bs - {b}, pos, m);
      NamedInSplits(s.db.votes, bs, b, pos);
      BallotForPosition(s, b, pos, m);
      OneBallotMore(m, bs, b);
    }
  }

  /** The committed requests for election e name the position at most once each. */
  predicate NamesOnce(s: State, e: Id, pos: Id) {
    forall b :: b in s.origin && s.origin[b].election == e ==> Occurrences(s.origin[b].selections, pos) <= 1
  }

  /** The committed requests for election e came from voters on its roll. */
  predicate OwnElection(s: State, e: Id) {
    forall b :: b in s.origin && s.origin[b].election == e ==> s.origin[b].voter in Roll(s, e)
  }

  /**
   In any interleaving in which `max_selections` of a position never exceeds m and the accepted requests
   for election e name the position at most once each, the position gets at most m votes per valid ballot.
   */
  lemma VotesBoundedByBallots(start: State, run: seq<Action>, e: Id, pos: Id, m: nat)
    requires Initial(start) && ValidRun(start, run) && CapHolds(start, run, pos, m)
    requires NamesOnce(After(start, run), e, pos)
    ensures var s := After(start, run);
      |Choices(s.db.votes, s.db.ballots, e, pos)| <= m * |BallotsOf(s.db.ballots, e)|
  {
    var s := After(start, run);
    RunRecords(start, run);
    RunKeepsCap(start, run, pos, m);
    ChoicesAreNamed(s.db.votes, s.db.ballots, e, pos);
    forall b | b in BallotsOf(s.db.ballots, e) ensures Occurrences(s.origin[b].selections, pos) <= 1 {
      assert BallotMatches(s.origin[b], s.db.ballots[b]);
      assert s.origin[b].election == e;
    }
    BallotsForPosition(s, BallotsOf(s.db.ballots, e), pos, m);
  }

  function Repeat<T>(x: T, n: nat): (s: seq<T>)
    ensures |s| == n && forall i :: 0 <= i < n ==> s[i] == x
  {
    if n == 0 then [] else [x] + Repeat(x, n - 1)
  }

  lemma {:induction false} RepeatedRows(b: Id, sel: Selection, n: nat)
    ensures NamedIn(VoteRows(b, Repeat(sel, n)), {b}, sel.position) == n * |sel.candidates|
    ensures Occurrences(Repeat(sel, n), sel.position) == n
  {
    if n > 0 {
      RepeatedRows(b, sel, n - 1);
      assert Repeat(sel, n)[1..] == Repeat(sel, n - 1);
      NamedInConcat(CandidateRows(b, sel.position, sel.candidates), VoteRows(b, Repeat(sel, n - 1)), {b}, sel.position);
      CandidateRowsNamed(b, sel.position, sel.candidates, sel.position);
      assert n * |sel.candidates| == (n - 1) * |sel.candidates| + |sel.candidates|;
    }
  }

  /** What the checks of a cast let pass is within the limit, selection by selection. */
  lemma {:induction false} PassedIsCapped(sels: seq<Selection>, positions: map<Id, int>, pos: Id, m: nat)
    requires FirstRefusal(sels, positions).None? && pos in positions && positions[pos] == m
    ensures Capped(sels, pos, m)
  {
    if sels != [] {
      PassedIsCapped(sels[1..], positions, pos, m);
      assert forall i :: 1 <= i < |sels| ==> sels[i] == sels[1..][i - 1];
    }
  }

  lemma {:induction false} RepeatedPasses(sel: Selection, n: nat, positions: map<Id, int>)
    requires sel.position in positions && |sel.candidates| <= positions[sel.position]
    ensures FirstRefusal(Repeat(sel, n), positions).None?
  {
    if n > 0 {
      RepeatedPasses(sel, n - 1, positions);
      assert Repeat(sel, n)[1..] == Repeat(sel, n - 1);
    }
  }

  /** The selections pass the checks of a cast and name the position n times. */
  predicate PassesNaming(sels: seq<Selection>, positions: map<Id, int>, pos: Id, n: nat) {
    FirstRefusal(sels, positions).None? && Occurrences(sels, pos) == n
  }

  lemma NamedOnceFits(b: Id, sels: seq<Selection>, positions: map<Id, int>, pos: Id, n: nat)
    requires pos in positions && positions[pos] > 0 && n <= 1 && PassesNaming(sels, positions, pos, n)
    ensures NamedIn(VoteRows(b, sels), {b}, pos) <= positions[pos]
  {
    var m := positions[pos];
    PassedIsCapped(sels, positions, pos, m);
    RowsForPosition(b, sels, pos, m);
    AtMostOnce(m, n);
  }

  lemma NamedOftenExceeds(b: Id, positions: map<Id, int>, pos: Id, n: nat) returns (sels: seq<Selection>)
    requires pos in positions && positions[pos] > 0 && n > 1
    ensures PassesNaming(sels, positions, pos, n) && NamedIn(VoteRows(b, sels), {b}, pos) > positions[pos]
  {
    var sel := Selection(pos, Repeat(0, positions[pos]));
    sels := Repeat(sel, n);
    RepeatedRows(b, sel, n);
    RepeatedPasses(sel, n, positions);
    assert n * positions[pos] > positions[pos];
  }

  /**
   The check is per selection, so "each position at most once" is exactly what the limit needs: among the requests
   that pass the checks of a cast and name a position of positive limit n times, all stay within the limit iff n <= 1.
   */
  lemma LimitHoldsIffNamedOnce(b: Id, positions: map<Id, int>, pos: Id, n: nat)
    requires pos in positions && positions[pos] > 0
    ensures n <= 1 <==> forall sels :: PassesNaming(sels, positions, pos, n) ==> NamedIn(VoteRows(b, sels), {b}, pos) <= positions[pos]
  {
    if n <= 1 {
      forall sels | PassesNaming(sels, positions, pos, n) ensures NamedIn(VoteRows(b, sels), {b}, pos) <= positions[pos] {
        NamedOnceFits(b, sels, positions, pos, n);
      }
    } else {
      var sels := NamedOftenExceeds(b, positions, pos, n);
    }
  }

  // ---------- turnout ----------

  /** The voters on an election's roll. */
  function Roll(s: State, e: Id): set<Id> {
    set v | v in s.db.voters && s.db.voters[v].election == Some(e)
  }

  /** The valid ballots of e whose voter is on e's roll. */
  function OwnBallots(s: State, e: Id): set<Id> {
    set b | b in BallotsOf(s.db.ballots, e) && b in s.origin && s.origin[b].voter in Roll(s, e)
  }

  /** In every interleaving, the voters of an election account for at most one of its ballots each. */
  lemma OwnBallotsBoundedByRoll(start: State, run: seq<Action>, e: Id)
    requires Initial(start) && ValidRun(start, run)
    ensures var s := After(start, run); |OwnBallots(s, e)| <= |Roll(s, e)|
  {
    Safety.InitialInv(start);
    Safety.RunKeepsInv(start, run);
    var s := After(start, run);
    var m := map b | b in OwnBallots(s, e) :: s.origin[b].voter;
    forall b, c | b in m && c in m && m[b] == m[c] ensures b == c {
      assert Safety.ByVoter(s, b, m[b]) && Safety.ByVoter(s, c, m[b]);
    }
    ValuesVersusKeys(m);
    assert m.Keys == OwnBallots(s, e);
    ProperSubsetIsSmaller(m.Values, Roll(s, e));
  }

  /** So turnout never exceeds 100 per cent if every accepted request named its voter's own election. */
  lemma TurnoutAtMostHundred(start: State, run: seq<Action>, e: Id)
    requires Initial(start) && ValidRun(start, run)
    requires OwnElection(After(start, run), e)
    ensures var s := After(start, run); |BallotsOf(s.db.ballots, e)| <= |Roll(s, e)|
  {
    OwnBallotsBoundedByRoll(start, run, e);
    RunRecords(start, run);
    var s := After(start, run);
    forall b | b in BallotsOf(s.db.ballots, e) ensures b in OwnBallots(s, e) {
      assert BallotMatches(s.origin[b], s.db.ballots[b]);
    }
    assert OwnBallots(s, e) == BallotsOf(s.db.ballots, e);
  }

  /** The election of the request is compared with nothing: a voter of another election adds to the turnout. */
  lemma ForeignBallotRaisesTurnout() returns (start: State, run: seq<Action>)
    ensures Initial(start) && ValidRun(start, run)
    ensures var s := After(start, run); |BallotsOf(s.db.ballots, 2)| == 1 && |Roll(s, 2)| == 0
  {
    Sequential.SceneIsInitial();
    start := Sequential.Scene();
    var req := CastRequest(7, 2, [], 1);
    var r1 := Sequential.Opening(start, 10, req);
    var s1 := After(start, r1);
    var r2 := Sequential.CastAlone(s1, 10, req, 5, 6);
    run := Sequential.Then(start, r1, r2);
    var s := After(start, run);
    assert BallotsOf(s.db.ballots, 2) == {6};
    assert Roll(s, 2) == {};
  }
}
