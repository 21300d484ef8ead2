/**
 Submissions that overlap. Each asks its four queries one after the other and commits its row and its link later,
 without a lock, so it misses what commits after the query that would have found it.
 */
module DuplicateRaces {
  import opened Types
  import opened Duplicates

  /** A submission under way: its row, the signal to ask for next, and what it has found. */
  datatype Scan = Scan(row: Submission, next: nat, found: Option<(nat, Signal)>)

  /** The committed tables, and the scans under way. */
  datatype Desk = Desk(subs: seq<Submission>, links: seq<Link>, kept: set<nat>, scans: map<Id, Scan>)

  datatype Action =
    | Begin(p: Id, row: Submission)
    | Ask(p: Id, answer: Option<nat>)
    | Commit(p: Id)
    | Review(id: nat, approve: bool)
    | Resolve(d: nat, action: Resolution, primary: nat)

  function Asked(n: nat): Signal
    requires n < 4
  {
    if n == 0 then Mobile else if n == 1 then VoterCard else if n == 2 then Email else NameArea
  }

  predicate NoLongerAsks(x: Scan) {
    x.next >= 4 || x.found.Some?
  }

  /** Any committed match, if there is one. */
  predicate Answers(subs: seq<Submission>, y: Submission, signal: Signal, answer: Option<nat>, like: Like) {
    && (answer.Some? <==> Hit(subs, y, signal, like))
    && (answer.Some? ==> answer.value < |subs| && Matches(subs[answer.value], y, signal, like))
  }

  predicate Can(d: Desk, a: Action, like: Like) {
    match a
    case Begin(p, row) => p !in d.scans && row.status.Submitted? && !row.flagged
    case Ask(p, answer) =>
      p in d.scans && !NoLongerAsks(d.scans[p]) && Answers(d.subs, d.scans[p].row, Asked(d.scans[p].next), answer, like)
    case Commit(p) => p in d.scans && NoLongerAsks(d.scans[p])
    case Review(id, _) => id < |d.subs|
    case Resolve(i, _, _) => i < |d.links| && d.links[i].a < d.links[i].b < |d.subs|
  }

  /** The row as it is committed. */
  function Marked(x: Scan): Submission {
    if x.found.Some? then x.row.(status := Status.Duplicate, flagged := true) else x.row
  }

  function NewLinks(x: Scan, id: nat): seq<Link> {
    if x.found.Some? then [Link(x.found.value.0, id, x.found.value.1, PossibleDuplicate)] else []
  }

  function Next(x: Scan, answer: Option<nat>): Scan
    requires x.next < 4
  {
    x.(next := x.next + 1, found := if answer.Some? then Some((answer.value, Asked(x.next))) else None)
  }

  function Do(d: Desk, a: Action, like: Like): Desk
    requires Can(d, a, like)
  {
    match a
    case Begin(p, row) => d.(scans := d.scans[p := Scan(row, 0, None)])
    case Ask(p, answer) => d.(scans := d.scans[p := Next(d.scans[p], answer)])
    case Commit(p) =>
      var x := d.scans[p];
      d.(subs := d.subs + [Marked(x)], links := d.links + NewLinks(x, |d.subs|), scans := d.scans - {p})
    case Review(id, approve) => d.(subs := d.subs[id := d.subs[id].(status := if approve then Approved else Rejected)])
    case Resolve(i, action, primary) =>
      var l := d.links[i];
      d.(subs := AfterAction(d.subs, l, action, primary), links := d.links[i := l.(resolution := action)],
         kept := KeptAfter(d.subs, d.kept, l, action))
  }

  predicate ValidRun(d: Desk, run: seq<Action>, like: Like)
    decreases |run|
  {
    run == [] || (Can(d, run[0], like) && ValidRun(Do(d, run[0], like), run[1..], like))
  }

  function After(d: Desk, run: seq<Action>, like: Like): Desk
    requires ValidRun(d, run, like)
    decreases |run|
  {
    if run == [] then d else After(Do(d, run[0], like), run[1..], like)
  }

  // ---------- what every interleaving keeps ----------

  /** The link leads from a submission to one that committed earlier and that it matches. */
  predicate LeadsBack(subs: seq<Submission>, l: Link, like: Like) {
    l.a < l.b < |subs| && Matches(subs[l.a], subs[l.b], l.signal, like)
  }

  ghost predicate AllLeadBack(subs: seq<Submission>, links: seq<Link>, like: Like) {
    forall i :: 0 <= i < |links| ==> LeadsBack(subs, links[i], like)
  }

  /** All of `Sound` but what a scan can miss. */
  ghost predicate Paired(d: Desk, like: Like) {
    AllLeadBack(d.subs, d.links, like) && Flagged(d.subs, d.links, d.kept)
  }

  ghost predicate CoveredIn(d: Desk, like: Like) {
    Covered(d.subs, d.links, like)
  }

  ghost predicate FirstSignalsIn(d: Desk, like: Like) {
    FirstSignals(d.subs, d.links, like)
  }

  /** What a scan has found is there for good. */
  predicate ScanHolds(subs: seq<Submission>, x: Scan, like: Like) {
    && x.row.status.Submitted? && !x.row.flagged
    && (x.found.Some? ==> x.found.value.0 < |subs| && Matches(subs[x.found.value.0], x.row, x.found.value.1, like))
  }

  ghost predicate Inv(d: Desk, like: Like) {
    Paired(d, like) && forall p :: p in d.scans ==> ScanHolds(d.subs, d.scans[p], like)
  }

  // ---------- edits ----------

  lemma EditKeepsLeading(subs: seq<Submission>, subs': seq<Submission>, links: seq<Link>, links': seq<Link>, like: Like)
    requires SameTables(subs, subs', links, links') && AllLeadBack(subs, links, like)
    ensures AllLeadBack(subs', links', like)
  {
    forall i | 0 <= i < |links'| ensures LeadsBack(subs', links'[i], like) {
      assert LeadsBack(subs, links[i], like) && SameEnds(links[i], links'[i]);
      assert SameData(subs[links[i].a], subs'[links[i].a]) && SameData(subs[links[i].b], subs'[links[i].b]);
    }
  }

  /** A review or a resolution. */
  ghost predicate Edits(d: Desk, d': Desk) {
    d'.scans == d.scans && SameTables(d.subs, d'.subs, d.links, d'.links) && FlagsFollow(d.subs, d'.subs, d.kept, d'.kept)
  }

  lemma EditKeepsScans(d: Desk, d': Desk, like: Like)
    requires Edits(d, d') && Inv(d, like)
    ensures forall p :: p in d'.scans ==> ScanHolds(d'.subs, d'.scans[p], like)
  {
    forall p | p in d'.scans ensures ScanHolds(d'.subs, d'.scans[p], like) {
      var x := d.scans[p];
      assert ScanHolds(d.subs, x, like);
      if x.found.Some? {
        assert SameData(d.subs[x.found.value.0], d'.subs[x.found.value.0]);
      }
    }
  }

  lemma EditKeepsInv(d: Desk, d': Desk, like: Like)
    requires Edits(d, d') && Inv(d, like)
    ensures Inv(d', like)
  {
    EditKeepsLeading(d.subs, d'.subs, d.links, d'.links, like);
    EditKeepsFlagged(d.subs, d'.subs, d.links, d'.links, d.kept, d'.kept);
    EditKeepsScans(d, d', like);
  }

  lemma EditDecides(subs: seq<Submission>, subs': seq<Submission>, links: seq<Link>, links': seq<Link>, like: Like)
    requires SameTables(subs, subs', links, links')
    ensures Covered(subs', links', like) <==> Covered(subs, links, like)
    ensures FirstSignals(subs', links', like) <==> FirstSignals(subs, links, like)
  {
    SameTablesBack(subs, subs', links, links');
    if Covered(subs, links, like) {
      EditKeepsCovered(subs, subs', links, links', like);
    }
    if Covered(subs', links', like) {
      EditKeepsCovered(subs', subs, links', links, like);
    }
    if FirstSignals(subs, links, like) {
      EditKeepsFirstSignals(subs, subs', links, links', like);
    }
    if FirstSignals(subs', links', like) {
      EditKeepsFirstSignals(subs', subs, links', links, like);
    }
  }

  /** A review and a resolution are one step each, and do what the methods of the registry do. */
  lemma EditsAsRegistry(d: Desk, id: nat, i: nat, action: Resolution, primary: nat, like: Like)
    requires id < |d.subs| && i < |d.links| && d.links[i].a < d.links[i].b < |d.subs|
    ensures Do(d, Review(id, true), like).subs == d.subs[id := d.subs[id].(status := Approved)]
    ensures Do(d, Review(id, false), like).subs == d.subs[id := d.subs[id].(status := Rejected)]
    ensures Do(d, Resolve(i, action, primary), like).subs == AfterAction(d.subs, d.links[i], action, primary)
    ensures Do(d, Resolve(i, action, primary), like).links == d.links[i := d.links[i].(resolution := action)]
  {}

  lemma EditStepDecides(d: Desk, d': Desk, like: Like)
    requires Edits(d, d') && Inv(d, like)
    ensures Inv(d', like) && (CoveredIn(d', like) <==> CoveredIn(d, like)) && (FirstSignalsIn(d', like) <==> FirstSignalsIn(d, like))
  {
    EditKeepsInv(d, d', like);
    EditDecides(d.subs, d'.subs, d.links, d'.links, like);
  }

  lemma ResolveIsEdit(d: Desk, i: nat, action: Resolution, primary: nat, like: Like)
    requires Inv(d, like) && Can(d, Resolve(i, action, primary), like)
    ensures Edits(d, Do(d, Resolve(i, action, primary), like))
  {
    ActionKeepsTables(d.subs, d.links, i, action, primary);
    ActionKeepsFlags(d.subs, d.links, d.kept, d.links[i], action, primary);
  }

  lemma ReviewIsEdit(d: Desk, id: nat, approve: bool, like: Like)
    requires Inv(d, like) && Can(d, Review(id, approve), like)
    ensures Edits(d, Do(d, Review(id, approve), like))
  {}

  // ---------- commits ----------

  /** The four queries would end the same way at the commit. */
  predicate StillFinds(d: Desk, a: Action, like: Like) {
    a.Commit? && a.p in d.scans ==>
      FirstSignal(d.subs, d.scans[a.p].row, like) == if d.scans[a.p].found.Some? then Some(d.scans[a.p].found.value.1) else None
  }

  /** If the scan had found nothing, it would still find nothing at the commit. */
  predicate StillNothing(d: Desk, a: Action, like: Like) {
    a.Commit? && a.p in d.scans && d.scans[a.p].found.None? ==> FirstSignal(d.subs, d.scans[a.p].row, like).None?
  }

  lemma MarkedSignal(subs: seq<Submission>, x: Scan, like: Like)
    requires x.row.status.Submitted? && !x.row.flagged
    ensures FirstSignal(subs, Marked(x), like) == FirstSignal(subs, x.row, like)
  {
    SameSignal(subs, Marked(x), like);
  }

  lemma LinkedNext(d: Desk, x: Scan, k: nat)
    ensures Linked(d.links + NewLinks(x, |d.subs|), k) <==> Linked(d.links, k) || (x.found.Some? && k == |d.subs|)
  {
    var added := x.found.Some?;
    var links' := d.links + NewLinks(x, |d.subs|);
    assert Extends(d.links, links', added, |d.subs|) by {
      assert links'[..|d.links|] == d.links;
    }
    LinkedAfter(d.links, links', added, |d.subs|, k);
  }

  lemma CommitKeepsLeading(d: Desk, p: Id, like: Like)
    requires Inv(d, like) && Can(d, Commit(p), like)
    ensures var d' := Do(d, Commit(p), like); AllLeadBack(d'.subs, d'.links, like)
  {
    var x, d' := d.scans[p], Do(d, Commit(p), like);
    assert ScanHolds(d.subs, x, like);
    forall i | 0 <= i < |d'.links| ensures LeadsBack(d'.subs, d'.links[i], like) {
      if i < |d.links| {
        assert d'.links[i] == d.links[i] && LeadsBack(d.subs, d.links[i], like);
      }
    }
  }

  lemma CommitKeepsFlagged(d: Desk, p: Id, like: Like)
    requires Inv(d, like) && Can(d, Commit(p), like)
    ensures var d' := Do(d, Commit(p), like); Flagged(d'.subs, d'.links, d'.kept)
  {
    var x, d' := d.scans[p], Do(d, Commit(p), like);
    NewIsUnlinked(d, like);
    assert ScanHolds(d.subs, x, like);
    forall i, j | 0 <= i < j < |d'.links| ensures d'.links[i].b != d'.links[j].b {
      OldLinkEndsBefore(d, i, like);
    }
    forall k | 0 <= k < |d'.subs| ensures Linked(d'.links, k) <==> d'.subs[k].flagged || k in d'.kept {
      LinkedNext(d, x, k);
    }
  }

  lemma OldLinkEndsBefore(d: Desk, i: nat, like: Like)
    requires Paired(d, like) && i < |d.links|
    ensures d.links[i].b < |d.subs|
  {
    assert LeadsBack(d.subs, d.links[i], like);
  }

  lemma NewIsUnlinked(d: Desk, like: Like)
    requires Paired(d, like)
    ensures !Linked(d.links, |d.subs|)
  {}

  lemma CommitKeepsScans(d: Desk, p: Id, like: Like)
    requires Inv(d, like) && Can(d, Commit(p), like)
    ensures var d' := Do(d, Commit(p), like); forall q :: q in d'.scans ==> ScanHolds(d'.subs, d'.scans[q], like)
  {
    var d' := Do(d, Commit(p), like);
    forall q | q in d'.scans ensures ScanHolds(d'.subs, d'.scans[q], like) {
      assert ScanHolds(d.subs, d.scans[q], like);
    }
  }

  /** The new row is covered unless the scan has missed a match. */
  lemma NewRowCovered(d: Desk, p: Id, like: Like)
    requires Inv(d, like) && Can(d, Commit(p), like)
    ensures var y := d.scans[p].row;
      (d.scans[p].found.Some? || forall j :: 0 <= j < |d.subs| ==> !MatchesAny(d.subs[j], y, like)) <==> StillNothing(d, Commit(p), like)
  {
    FirstSignalIsAny(d.subs, d.scans[p].row, like);
  }

  lemma CommitDecidesCovered(d: Desk, p: Id, like: Like)
    requires Inv(d, like) && Can(d, Commit(p), like)
    ensures CoveredIn(Do(d, Commit(p), like), like) <==> CoveredIn(d, like) && StillNothing(d, Commit(p), like)
  {
    var x, d' := d.scans[p], Do(d, Commit(p), like);
    var n := |d.subs|;
    NewRowCovered(d, p, like);
    NewIsUnlinked(d, like);
    forall k ensures Linked(d'.links, k) <==> Linked(d.links, k) || (x.found.Some? && k == n) {
      LinkedNext(d, x, k);
    }
    forall j | 0 <= j < n ensures MatchesAny(d'.subs[j], d'.subs[n], like) <==> MatchesAny(d.subs[j], x.row, like) {
      assert ScanHolds(d.subs, x, like);
    }
    if CoveredIn(d', like) {
      forall j, k | 0 <= j < k < n && MatchesAny(d.subs[j], d.subs[k], like) ensures Linked(d.links, k) {
        assert d'.subs[j] == d.subs[j] && d'.subs[k] == d.subs[k];
      }
    }
  }

  lemma OldLinkJoins(d: Desk, y: Submission, l: Link, like: Like)
    requires LeadsBack(d.subs, l, like)
    ensures JoinsMatch(d.subs + [y], l, like) <==> JoinsMatch(d.subs, l, like)
  {
    var s1 := d.subs + [y];
    assert forall j :: 0 <= j <= l.b ==> s1[j] == d.subs[j];
  }

  lemma NewLinkJoins(d: Desk, x: Scan, like: Like)
    requires ScanHolds(d.subs, x, like) && x.found.Some?
    ensures JoinsMatch(d.subs + [Marked(x)], NewLinks(x, |d.subs|)[0], like) <==> FirstSignal(d.subs, x.row, like) == Some(x.found.value.1)
  {
    var y, l := Marked(x), NewLinks(x, |d.subs|)[0];
    MarkedSignal(d.subs, x, like);
    if FirstSignal(d.subs, y, like) == Some(l.signal) {
      FirstSignalJoins(d.subs, y, l, like);
    }
    if JoinsMatch(d.subs + [y], l, like) {
      JoinIsFirst(d.subs, y, l, like);
    }
  }

  lemma JoinIsFirst(subs: seq<Submission>, y: Submission, l: Link, like: Like)
    requires l.b == |subs| && JoinsMatch(subs + [y], l, like)
    ensures FirstSignal(subs, y, like) == Some(l.signal)
  {
    assert Matches(subs[l.a], y, l.signal, like);
    assert Hit(subs, y, l.signal, like);
    forall signal | Turn(signal) < Turn(l.signal) ensures !Hit(subs, y, signal, like) {
      forall j | 0 <= j < |subs| ensures !Matches(subs[j], y, signal, like) {
        assert !Matches((subs + [y])[j], (subs + [y])[l.b], signal, like);
      }
    }
  }

  lemma CommitDecidesFirstSignals(d: Desk, p: Id, like: Like)
    requires Inv(d, like) && Can(d, Commit(p), like)
    ensures FirstSignalsIn(Do(d, Commit(p), like), like) <==>
      FirstSignalsIn(d, like) && (d.scans[p].found.Some? ==> StillFinds(d, Commit(p), like))
  {
    var x, d' := d.scans[p], Do(d, Commit(p), like);
    forall i | 0 <= i < |d.links|
      ensures d'.links[i] == d.links[i] && (JoinsMatch(d'.subs, d'.links[i], like) <==> JoinsMatch(d.subs, d.links[i], like))
    {
      OldLinkJoins(d, Marked(x), d.links[i], like);
    }
    if x.found.Some? {
      assert d'.links[|d.links|] == NewLinks(x, |d.subs|)[0];
      NewLinkJoins(d, x, like);
    }
  }

  // ---------- runs ----------

  lemma ScanKeepsInv(d: Desk, a: Action, like: Like)
    requires Inv(d, like) && Can(d, a, like) && (a.Begin? || a.Ask?)
    ensures Inv(Do(d, a, like), like)
  {
    var d' := Do(d, a, like);
    assert Paired(d', like);
    forall p | p in d'.scans ensures ScanHolds(d'.subs, d'.scans[p], like) {
      assert p in d.scans ==> ScanHolds(d.subs, d.scans[p], like);
    }
  }

  lemma StepDecides(d: Desk, a: Action, like: Like)
    requires Inv(d, like) && Can(d, a, like)
    ensures Inv(Do(d, a, like), like)
    ensures CoveredIn(Do(d, a, like), like) <==> CoveredIn(d, like) && StillNothing(d, a, like)
    ensures FirstSignalsIn(Do(d, a, like), like) && CoveredIn(Do(d, a, like), like)
      <==> FirstSignalsIn(d, like) && CoveredIn(d, like) && StillFinds(d, a, like)
  {
    match a
    case Begin(_, _) => ScanKeepsInv(d, a, like);
    case Ask(_, _) => ScanKeepsInv(d, a, like);
    case Commit(p) =>
      CommitKeepsLeading(d, p, like);
      CommitKeepsFlagged(d, p, like);
      CommitKeepsScans(d, p, like);
      CommitDecidesCovered(d, p, like);
      CommitDecidesFirstSignals(d, p, like);
    case Review(id, approve) =>
      ReviewIsEdit(d, id, approve, like);
      EditStepDecides(d, Do(d, a, like), like);
    case Resolve(i, action, primary) =>
      ResolveIsEdit(d, i, action, primary, like);
      EditStepDecides(d, Do(d, a, like), like);
  }

  predicate AllStillFind(d: Desk, run: seq<Action>, like: Like)
    requires ValidRun(d, run, like)
    decreases |run|
  {
    run == [] || (StillFinds(d, run[0], like) && AllStillFind(Do(d, run[0], like), run[1..], like))
  }

  predicate AllStillNothing(d: Desk, run: seq<Action>, like: Like)
    requires ValidRun(d, run, like)
    decreases |run|
  {
    run == [] || (StillNothing(d, run[0], like) && AllStillNothing(Do(d, run[0], like), run[1..], like))
  }

  lemma {:induction false} RunDecides(d: Desk, run: seq<Action>, like: Like)
    requires Inv(d, like) && ValidRun(d, run, like)
    ensures Inv(After(d, run, like), like)
    ensures CoveredIn(After(d, run, like), like) <==> CoveredIn(d, like) && AllStillNothing(d, run, like)
    ensures FirstSignalsIn(After(d, run, like), like) && CoveredIn(After(d, run, like), like)
      <==> FirstSignalsIn(d, like) && CoveredIn(d, like) && AllStillFind(d, run, like)
    decreases |run|
  {
    if run != [] {
      StepDecides(d, run[0], like);
      RunDecides(Do(d, run[0], like), run[1..], like);
    }
  }

  const Empty: Desk := Desk([], [], {}, map[])

  /** Each submission is linked exactly if one that committed earlier matches it. */
  ghost predicate LinkedIfMatched(d: Desk, like: Like) {
    forall k :: 0 <= k < |d.subs| ==> (Linked(d.links, k) <==> MatchedBefore(d.subs, k, like))
  }

  predicate MatchedBefore(subs: seq<Submission>, k: nat, like: Like)
    requires k < |subs|
  {
    exists j :: 0 <= j < k && MatchesAny(subs[j], subs[k], like)
  }

  lemma PairedIsMatched(d: Desk, like: Like, k: nat)
    requires Paired(d, like) && k < |d.subs| && Linked(d.links, k)
    ensures MatchedBefore(d.subs, k, like)
  {
    var i :| 0 <= i < |d.links| && d.links[i].b == k;
    assert LeadsBack(d.subs, d.links[i], like);
    assert MatchesAny(d.subs[d.links[i].a], d.subs[k], like);
  }

  /** In every interleaving a link is a match with an earlier commit. */
  lemma LinkedWasMatched(run: seq<Action>, like: Like, k: nat)
    requires ValidRun(Empty, run, like)
    requires var d := After(Empty, run, like); k < |d.subs| && Linked(d.links, k)
    ensures MatchedBefore(After(Empty, run, like).subs, k, like)
  {
    RunDecides(Empty, run, like);
    PairedIsMatched(After(Empty, run, like), like, k);
  }

  /**
   Every submission that matches an earlier one is linked if and only if each scan that had found nothing would still
   find nothing when it commits.
   */
  lemma LinkedIfMatchedIff(run: seq<Action>, like: Like)
    requires ValidRun(Empty, run, like)
    ensures LinkedIfMatched(After(Empty, run, like), like) <==> AllStillNothing(Empty, run, like)
  {
    RunDecides(Empty, run, like);
    var d := After(Empty, run, like);
    forall k | 0 <= k < |d.subs| && Linked(d.links, k) ensures MatchedBefore(d.subs, k, like) {
      LinkedWasMatched(run, like, k);
    }
    if LinkedIfMatched(d, like) {
      forall j, k | 0 <= j < k < |d.subs| && MatchesAny(d.subs[j], d.subs[k], like) ensures Linked(d.links, k) {
        assert MatchedBefore(d.subs, k, like);
      }
    }
  }

  /**
   The invariant that one submission at a time keeps, and with it every chain of links described beside it, holds if
   and only if each scan would end with the same signal when it commits.
   */
  lemma SoundIff(run: seq<Action>, like: Like)
    requires ValidRun(Empty, run, like)
    ensures var d := After(Empty, run, like); Sound(d.subs, d.links, d.kept, like) <==> AllStillFind(Empty, run, like)
  {
    RunDecides(Empty, run, like);
  }

  // ---------- two submissions that miss each other ----------

  lemma {:induction false} RunsCompose(d: Desk, first: seq<Action>, second: seq<Action>, like: Like)
    requires ValidRun(d, first, like) && ValidRun(After(d, first, like), second, like)
    ensures ValidRun(d, first + second, like)
    ensures After(d, first + second, like) == After(After(d, first, like), second, like)
    decreases |first|
  {
    if first == [] {
      assert first + second == second;
    } else {
      RunsCompose(Do(d, first[0], like), first[1..], second, like);
      assert (first + second)[1..] == first[1..] + second;
    }
  }

  lemma OneStep(d: Desk, a: Action, like: Like)
    requires Can(d, a, like)
    ensures ValidRun(d, [a], like) && After(d, [a], like) == Do(d, a, like)
  {
    assert [a][1..] == [];
  }

  /** All queries of a submission on an empty table. */
  lemma {:induction false} ScanEmpty(d: Desk, p: Id, like: Like) returns (run: seq<Action>)
    requires d.subs == [] && p in d.scans && d.scans[p].found.None? && d.scans[p].next <= 4
    ensures ValidRun(d, run, like)
    ensures After(d, run, like) == d.(scans := d.scans[p := d.scans[p].(next := 4)])
    decreases 4 - d.scans[p].next
  {
    if d.scans[p].next == 4 {
      run := [];
      assert d.scans == d.scans[p := d.scans[p].(next := 4)];
    } else {
      var a := Ask(p, None);
      OneStep(d, a, like);
      var rest := ScanEmpty(Do(d, a, like), p, like);
      RunsCompose(d, [a], rest, like);
      run := [a] + rest;
    }
  }

  /** The queries of a submission that nothing disturbs. */
  lemma {:induction false} ScanAlone(d: Desk, p: Id, like: Like) returns (run: seq<Action>, x: Scan)
    requires p in d.scans && d.scans[p].next <= 4 && (d.scans[p].found.None? || d.scans[p].found.value.0 < |d.subs|)
    requires AskedInVain(d.subs, d.scans[p], like)
    ensures ValidRun(d, run, like) && After(d, run, like) == d.(scans := d.scans[p := x])
    ensures x.row == d.scans[p].row && NoLongerAsks(x) && (x.found.Some? ==> x.found.value.0 < |d.subs|)
    ensures AskedInVain(d.subs, x, like)
    decreases 4 - d.scans[p].next
  {
    x := d.scans[p];
    if NoLongerAsks(x) {
      run := [];
      assert d.scans == d.scans[p := x];
    } else {
      var answer: Option<nat> := None;
      if Hit(d.subs, x.row, Asked(x.next), like) {
        var j :| 0 <= j < |d.subs| && Matches(d.subs[j], x.row, Asked(x.next), like);
        answer := Some(j);
      }
      OneStep(d, Ask(p, answer), like);
      var d1 := Do(d, Ask(p, answer), like);
      var rest;
      rest, x := ScanAlone(d1, p, like);
      RunsCompose(d, [Ask(p, answer)], rest, like);
      run := [Ask(p, answer)] + rest;
      assert d1.scans[p := x] == d.scans[p := x];
    }
  }

  /** No signal before the next one, or before the one found, has a match. */
  predicate AskedInVain(subs: seq<Submission>, x: Scan, like: Like) {
    && x.next <= 4
    && (x.found.None? ==> forall n :: 0 <= n < x.next ==> !Hit(subs, x.row, Asked(n), like))
    && (x.found.Some? ==> x.next > 0 && x.found.value.1 == Asked(x.next - 1) && Hit(subs, x.row, Asked(x.next - 1), like))
    && (x.found.Some? ==> forall n :: 0 <= n < x.next - 1 ==> !Hit(subs, x.row, Asked(n), like))
  }

  lemma VainIsFirst(subs: seq<Submission>, x: Scan, like: Like)
    requires AskedInVain(subs, x, like) && NoLongerAsks(x)
    ensures FirstSignal(subs, x.row, like) == if x.found.Some? then Some(x.found.value.1) else None
  {
    assert x.found.None? ==> !Hit(subs, x.row, Asked(0), like) && !Hit(subs, x.row, Asked(1), like);
    assert x.found.None? ==> !Hit(subs, x.row, Asked(2), like) && !Hit(subs, x.row, Asked(3), like);
    if x.found.Some? {
      assert x.next > 1 ==> !Hit(subs, x.row, Asked(0), like);
      assert x.next > 2 ==> !Hit(subs, x.row, Asked(1), like);
      assert x.next > 3 ==> !Hit(subs, x.row, Asked(2), like);
    }
  }

  /** What a submission that nothing disturbs leaves behind, which is what `Registry.Submit` promises. */
  predicate Submitted(d: Desk, d': Desk, row: Submission, signal: Option<Signal>) {
    && d'.kept == d.kept && d'.scans == d.scans && |d'.subs| == |d.subs| + 1
    && (if signal.None? then d'.subs == d.subs + [row] && d'.links == d.links
        else
          && d'.subs == d.subs + [row.(status := Status.Duplicate, flagged := true)]
          && |d'.links| == |d.links| + 1 && d'.links[..|d.links|] == d.links && d'.links[|d.links|].b == |d.subs|
          && d'.links[|d.links|].signal == signal.value && d'.links[|d.links|].resolution == PossibleDuplicate)
  }

  lemma CommitsAs(d: Desk, d': Desk, p: Id, x: Scan, like: Like)
    requires p !in d.scans && d' == d.(scans := d.scans[p := x]) && NoLongerAsks(x)
    ensures Submitted(d, Do(d', Commit(p), like), x.row, if x.found.Some? then Some(x.found.value.1) else None)
  {
    assert d'.scans - {p} == d.scans;
    assert x.found.None? ==> d.links + [] == d.links;
  }

  lemma SubmitAlone(d: Desk, p: Id, row: Submission, like: Like) returns (run: seq<Action>)
    requires p !in d.scans && row.status.Submitted? && !row.flagged
    ensures ValidRun(d, run, like) && Submitted(d, After(d, run, like), row, FirstSignal(d.subs, row, like))
  {
    var begin := Begin(p, row);
    OneStep(d, begin, like);
    var d1 := Do(d, begin, like);
    var asks, x := ScanAlone(d1, p, like);
    var d2 := After(d1, asks, like);
    assert d2 == d.(scans := d.scans[p := x]);
    VainIsFirst(d.subs, x, like);
    CommitsAs(d, d2, p, x, like);
    OneStep(d2, Commit(p), like);
    RunsCompose(d1, asks, [Commit(p)], like);
    RunsCompose(d, [begin], asks + [Commit(p)], like);
    run := [begin] + (asks + [Commit(p)]);
  }

  lemma ScannedEmpty(d: Desk, p: Id, y: Submission, like: Like) returns (run: seq<Action>)
    requires d.subs == [] && p !in d.scans && y.status.Submitted? && !y.flagged
    ensures ValidRun(d, run, like) && After(d, run, like) == d.(scans := d.scans[p := Scan(y, 4, None)])
  {
    OneStep(d, Begin(p, y), like);
    var rest := ScanEmpty(Do(d, Begin(p, y), like), p, like);
    RunsCompose(d, [Begin(p, y)], rest, like);
    run := [Begin(p, y)] + rest;
  }

  lemma BothCommit(d: Desk, y: Submission, like: Like) returns (run: seq<Action>)
    requires d == Desk([], [], {}, map[0 := Scan(y, 4, None), 1 := Scan(y, 4, None)])
    ensures ValidRun(d, run, like) && After(d, run, like) == Desk([y, y], [], {}, map[])
  {
    var d1 := Do(d, Commit(0), like);
    OneStep(d, Commit(0), like);
    OneStep(d1, Commit(1), like);
    RunsCompose(d, [Commit(0)], [Commit(1)], like);
    run := [Commit(0)] + [Commit(1)];
    assert Do(d1, Commit(1), like).scans == map[];
  }

  /** The same form sent twice at once: both copies stay unflagged and unlinked, though they match. */
  lemma TwoCopiesUnflagged(y: Submission, like: Like) returns (run: seq<Action>)
    requires y.status.Submitted? && !y.flagged && y.mobile != ""
    ensures ValidRun(Empty, run, like)
    ensures var d := After(Empty, run, like);
      && d.subs == [y, y] && d.links == [] && MatchesAny(d.subs[0], d.subs[1], like) && !Linked(d.links, 1)
  {
    var first := ScannedEmpty(Empty, 0, y, like);
    var d1 := After(Empty, first, like);
    var second := ScannedEmpty(d1, 1, y, like);
    var d2 := After(d1, second, like);
    var third := BothCommit(d2, y, like);
    RunsCompose(d1, second, third, like);
    RunsCompose(Empty, first, second + third, like);
    run := first + (second + third);
  }
}
