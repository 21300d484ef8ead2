/**
 The results table under overlapping tallies. A tally removes the rows that are committed at its DELETE and adds its
 own when it commits, so the rows of a tally that commits in between stay beside them.
 */
module TallyTables {
  import opened Types
  import opened Protocol
  import opened Tally
  import opened TallyFacts
  import opened TallyRuns
  import opened Steps
  import Sequences

  // ---------- which rows the table holds ----------

  /** A later commit of the same election whose DELETE saw commit k. */
  predicate Superseded(stores: seq<Commit>, k: nat)
    requires k < |stores|
  {
    exists j :: k < j < |stores| && stores[j].election == stores[k].election && stores[j].deletedAt > k
  }

  predicate NoneOf(stores: seq<Commit>, e: Id) {
    forall k :: 0 <= k < |stores| ==> stores[k].election != e
  }

  /** Commit k of e is not superseded and has stored `key`. */
  predicate Lasting(stores: seq<Commit>, e: Id, k: nat, key: Id) {
    k < |stores| && stores[k].election == e && !Superseded(stores, k) && key in stores[k].keys
  }

  predicate Stays(stores: seq<Commit>, e: Id, key: Id) {
    exists k :: 0 <= k < |stores| && Lasting(stores, e, k, key)
  }

  /** The table after these commits, if e had the rows `was` before them. */
  predicate InTable(was: set<Id>, stores: seq<Commit>, e: Id, key: Id) {
    (key in was && NoneOf(stores, e)) || Stays(stores, e, key)
  }

  /** Every key is drawn once. */
  predicate Keyed(was: set<Id>, stores: seq<Commit>) {
    && (forall i :: 0 <= i < |stores| ==> Sequences.Elements(stores[i].keys) !! was && stores[i].deletedAt <= i)
    && forall i, j :: 0 <= i < j < |stores| ==> Sequences.Elements(stores[i].keys) !! Sequences.Elements(stores[j].keys)
  }

  lemma OneOwner(was: set<Id>, stores: seq<Commit>, i: nat, j: nat, key: Id)
    requires Keyed(was, stores) && i < |stores| && j < |stores| && key in stores[i].keys && key in stores[j].keys
    ensures i == j && key !in was
  {
    assert key in Sequences.Elements(stores[i].keys) && key in Sequences.Elements(stores[j].keys);
  }

  lemma SupersededByNext(stores: seq<Commit>, c: Commit, k: nat)
    requires k < |stores|
    ensures Superseded(stores + [c], k) <==> Superseded(stores, k) || (c.election == stores[k].election && c.deletedAt > k)
  {
    var s1 := stores + [c];
    if Superseded(stores, k) {
      var j :| k < j < |stores| && stores[j].election == stores[k].election && stores[j].deletedAt > k;
      assert s1[j] == stores[j];
    }
    if c.election == stores[k].election && c.deletedAt > k {
      assert s1[|stores|] == c;
    }
  }

  lemma SupersededEarlier(stores: seq<Commit>, d: nat, k: nat)
    requires k < d <= |stores| && Superseded(stores[..d], k)
    ensures Superseded(stores, k)
  {
    var j :| k < j < d && stores[..d][j].election == stores[..d][k].election && stores[..d][j].deletedAt > k;
    assert stores[j].election == stores[k].election && stores[j].deletedAt > k;
  }

  /** The rows of a commit stay unless the next one's DELETE saw them. */
  lemma StaysAfter(was: set<Id>, stores: seq<Commit>, c: Commit, k: nat, key: Id)
    requires Keyed(was, stores) && c.deletedAt <= |stores| && Lasting(stores, c.election, k, key)
    ensures Lasting(stores + [c], c.election, k, key) <==> !InTable(was, stores[..c.deletedAt], c.election, key)
  {
    var d := c.deletedAt;
    SupersededByNext(stores, c, k);
    if k < d {
      if Superseded(stores[..d], k) {
        SupersededEarlier(stores, d, k);
      }
      assert Lasting(stores[..d], c.election, k, key);
    } else {
      OneOwner(was, stores, k, k, key);
      if Stays(stores[..d], c.election, key) {
        var i :| 0 <= i < d && Lasting(stores[..d], c.election, i, key);
        OneOwner(was, stores, i, k, key);
        assert false;
      }
    }
  }

  lemma OldRowGoes(was: set<Id>, stores: seq<Commit>, d: nat, e: Id, key: Id)
    requires d <= |stores| && key in was && NoneOf(stores, e)
    ensures InTable(was, stores[..d], e, key)
  {}

  lemma LastStays(stores: seq<Commit>, c: Commit, key: Id)
    requires key in c.keys
    ensures Stays(stores + [c], c.election, key)
  {
    assert Lasting(stores + [c], c.election, |stores|, key);
  }

  lemma NotNoneAfter(stores: seq<Commit>, c: Commit)
    ensures !NoneOf(stores + [c], c.election)
  {
    assert (stores + [c])[|stores|] == c;
  }

  lemma WasLasting(stores: seq<Commit>, c: Commit, e: Id, k: nat, key: Id)
    requires k < |stores| && Lasting(stores + [c], e, k, key)
    ensures Lasting(stores, e, k, key)
  {
    SupersededByNext(stores, c, k);
  }

  /** One commit: what its DELETE saw goes, its own rows come, the rest of its election's rows stays. */
  lemma TableAfter(was: set<Id>, stores: seq<Commit>, c: Commit, key: Id)
    requires Keyed(was, stores) && c.deletedAt <= |stores|
    ensures InTable(was, stores + [c], c.election, key)
      <==> (InTable(was, stores, c.election, key) && !InTable(was, stores[..c.deletedAt], c.election, key)) || key in c.keys
  {
    var e, s1 := c.election, stores + [c];
    NotNoneAfter(stores, c);
    if key in c.keys {
      LastStays(stores, c, key);
    } else {
      if Stays(s1, e, key) {
        var k :| 0 <= k < |s1| && Lasting(s1, e, k, key);
        WasLasting(stores, c, e, k, key);
        StaysAfter(was, stores, c, k, key);
      }
      if InTable(was, stores, e, key) && !InTable(was, stores[..c.deletedAt], e, key) {
        if key in was && NoneOf(stores, e) {
          OldRowGoes(was, stores, c.deletedAt, e, key);
        }
        var k :| 0 <= k < |stores| && Lasting(stores, e, k, key);
        StaysAfter(was, stores, c, k, key);
      }
    }
  }

  /** It leaves the other elections alone. */
  lemma OtherTable(was: set<Id>, stores: seq<Commit>, c: Commit, e: Id, key: Id)
    requires e != c.election
    ensures InTable(was, stores + [c], e, key) <==> InTable(was, stores, e, key)
  {
    var s1 := stores + [c];
    forall k | 0 <= k < |stores| ensures Lasting(s1, e, k, key) <==> Lasting(stores, e, k, key) {
      SupersededByNext(stores, c, k);
    }
    assert !Lasting(s1, e, |stores|, key);
    assert NoneOf(s1, e) <==> NoneOf(stores, e) by {
      assert forall k :: 0 <= k < |stores| ==> s1[k] == stores[k];
    }
  }

  // ---------- the table in every reachable world ----------

  /** The rows of e are those of the commits. */
  ghost predicate Holds(rows: set<Id>, was: set<Id>, stores: seq<Commit>, e: Id) {
    forall key :: key in rows <==> InTable(was, stores, e, key)
  }

  predicate Cleaned(x: Tallying) {
    x.stage.AtPositions? || x.stage.AtVotes? || x.stage.AtCommit?
  }

  ghost predicate TableInv(first: map<Id, Row>, w: World) {
    && first.Keys <= w.used && w.results.Keys <= w.used
    && (forall k :: 0 <= k < |w.stores| ==> Sequences.Elements(w.stores[k].keys) <= w.used)
    && Keyed(first.Keys, w.stores)
    && (forall e :: Holds(RowKeys(w.results, e), RowKeys(first, e), w.stores, e))
    && forall t :: t in w.tallies && Cleaned(w.tallies[t]) ==> DeleteSaw(first, w.stores, w.tallies[t])
  }

  /** A DELETE has found the rows that the table held at that moment. */
  ghost predicate DeleteSaw(first: map<Id, Row>, stores: seq<Commit>, x: Tallying) {
    x.deletedAt <= |stores| && Holds(x.doomed, RowKeys(first, x.election), stores[..x.deletedAt], x.election)
  }

  lemma KeyedFor(first: map<Id, Row>, stores: seq<Commit>, e: Id)
    requires Keyed(first.Keys, stores)
    ensures Keyed(RowKeys(first, e), stores)
  {}

  lemma FreshTable(w: World)
    requires Fresh(w)
    ensures TableInv(w.results, w)
  {
    forall e ensures Holds(RowKeys(w.results, e), RowKeys(w.results, e), w.stores, e) {
      forall key ensures InTable(RowKeys(w.results, e), [], e, key) <==> key in RowKeys(w.results, e) {}
    }
  }

  lemma ReadKeepsTable(first: map<Id, Row>, w: World, t: Id)
    requires TableInv(first, w) && Can(w, Read(t))
    ensures TableInv(first, Happen(w, Read(t)))
  {
    var x := w.tallies[t];
    var y := NextReading(w, x);
    if x.stage.AtResults? {
      assert w.stores[..|w.stores|] == w.stores;
    }
    assert Cleaned(y) ==> DeleteSaw(first, w.stores, y);
  }

  lemma NewRowsOfElection(x: Tallying, keys: seq<Id>, now: nat)
    requires Sequences.Distinct(keys) && |keys| == |OwnRows(x, now)|
    ensures RowKeys(NewRows(keys, OwnRows(x, now)), x.election) == Sequences.Elements(keys)
    ensures forall e :: e != x.election ==> RowKeys(NewRows(keys, OwnRows(x, now)), e) == {}
  {
    AllRowsOfElection(x.election, x.shown, now);
  }

  lemma MergedRows(results: map<Id, Row>, gone: set<Id>, own: map<Id, Row>, e: Id)
    requires own.Keys !! results.Keys
    ensures RowKeys((results - gone) + own, e) == (RowKeys(results, e) - gone) + RowKeys(own, e)
  {}

  /** A tally's rows come, those that its DELETE had found go, and every other row stays. */
  lemma StoreReplaces(w: World, t: Id, keys: seq<Id>, now: nat, e: Id)
    requires Can(w, Store(t, keys, now)) && !Clashes(w, w.tallies[t]) && w.results.Keys <= w.used
    ensures var x, w' := w.tallies[t], Happen(w, Store(t, keys, now));
      && (e == x.election ==> RowKeys(w'.results, e) == (RowKeys(w.results, e) - x.doomed) + Sequences.Elements(keys))
      && (e != x.election ==> RowKeys(w'.results, e) == RowKeys(w.results, e) - x.doomed)
      && w'.results.Keys <= w'.used
  {
    var x := w.tallies[t];
    var own := NewRows(keys, OwnRows(x, now));
    NewRowsOfElection(x, keys, now);
    assert own.Keys == Sequences.Elements(keys);
    MergedRows(w.results, x.doomed, own, e);
  }

  /** What a DELETE has found is of its own election for good. */
  lemma FoundIsOwn(first: map<Id, Row>, w: World, t: Id, e: Id)
    requires TableInv(first, w) && t in w.tallies && Cleaned(w.tallies[t]) && e != w.tallies[t].election
    ensures RowKeys(w.results, e) - w.tallies[t].doomed == RowKeys(w.results, e)
  {
    var x := w.tallies[t];
    forall key | key in RowKeys(w.results, e) ensures key !in x.doomed {
      assert InTable(RowKeys(first, e), w.stores, e, key);
      if InTable(RowKeys(first, x.election), w.stores[..x.deletedAt], x.election, key) {
        NotOfTwo(first, w.stores, x.deletedAt, x.election, e, key);
      }
    }
  }

  lemma NotOfTwo(first: map<Id, Row>, stores: seq<Commit>, d: nat, e: Id, f: Id, key: Id)
    requires Keyed(first.Keys, stores) && d <= |stores| && InTable(RowKeys(first, e), stores[..d], e, key)
    requires InTable(RowKeys(first, f), stores, f, key)
    ensures e == f
  {
    if Stays(stores[..d], e, key) {
      var i :| 0 <= i < d && Lasting(stores[..d], e, i, key);
      OneOwner(first.Keys, stores, i, i, key);
      var j :| 0 <= j < |stores| && Lasting(stores, f, j, key);
      OneOwner(first.Keys, stores, i, j, key);
    }
  }

  lemma StoreKeepsRows(first: map<Id, Row>, w: World, t: Id, keys: seq<Id>, now: nat, e: Id)
    requires TableInv(first, w) && Can(w, Store(t, keys, now)) && !Clashes(w, w.tallies[t])
    ensures var w' := Happen(w, Store(t, keys, now)); Holds(RowKeys(w'.results, e), RowKeys(first, e), w'.stores, e)
  {
    var x := w.tallies[t];
    var c := Commit(x.election, x.deletedAt, keys);
    var w' := Happen(w, Store(t, keys, now));
    StoreReplaces(w, t, keys, now, e);
    KeyedFor(first, w.stores, e);
    assert DeleteSaw(first, w.stores, x) && Holds(RowKeys(w.results, e), RowKeys(first, e), w.stores, e);
    if e != x.election {
      FoundIsOwn(first, w, t, e);
    }
    forall key ensures key in RowKeys(w'.results, e) <==> InTable(RowKeys(first, e), w'.stores, e, key) {
      if e == x.election {
        TableAfter(RowKeys(first, e), w.stores, c, key);
      } else {
        OtherTable(RowKeys(first, e), w.stores, c, e, key);
      }
    }
  }

  lemma StoreKeepsKeyed(first: map<Id, Row>, w: World, t: Id, keys: seq<Id>, now: nat)
    requires TableInv(first, w) && Can(w, Store(t, keys, now)) && !Clashes(w, w.tallies[t])
    ensures Keyed(first.Keys, Happen(w, Store(t, keys, now)).stores)
  {
    var x := w.tallies[t];
    assert DeleteSaw(first, w.stores, x);
    var n, c := |w.stores|, Commit(x.election, x.deletedAt, keys);
    var s1 := w.stores + [c];
    forall i, j | 0 <= i < j < |s1| ensures Sequences.Elements(s1[i].keys) !! Sequences.Elements(s1[j].keys) {
      if j == n {
        assert s1[i] == w.stores[i];
      }
    }
  }

  lemma DeleteStillSaw(first: map<Id, Row>, stores: seq<Commit>, c: Commit, x: Tallying)
    requires DeleteSaw(first, stores, x)
    ensures DeleteSaw(first, stores + [c], x)
  {
    assert (stores + [c])[..x.deletedAt] == stores[..x.deletedAt];
  }

  lemma StoreKeepsDeletes(first: map<Id, Row>, w: World, t: Id, keys: seq<Id>, now: nat)
    requires TableInv(first, w) && Can(w, Store(t, keys, now)) && !Clashes(w, w.tallies[t])
    ensures var w' := Happen(w, Store(t, keys, now));
      forall u :: u in w'.tallies && Cleaned(w'.tallies[u]) ==> DeleteSaw(first, w'.stores, w'.tallies[u])
  {
    var w' := Happen(w, Store(t, keys, now));
    forall u | u in w'.tallies && Cleaned(w'.tallies[u]) ensures DeleteSaw(first, w'.stores, w'.tallies[u]) {
      DeleteStillSaw(first, w.stores, Commit(w.tallies[t].election, w.tallies[t].deletedAt, keys), w.tallies[u]);
    }
  }

  lemma StoreKeepsTable(first: map<Id, Row>, w: World, t: Id, keys: seq<Id>, now: nat)
    requires TableInv(first, w) && Can(w, Store(t, keys, now))
    ensures TableInv(first, Happen(w, Store(t, keys, now)))
  {
    var x := w.tallies[t];
    if !Clashes(w, x) {
      var w' := Happen(w, Store(t, keys, now));
      StoreKeepsKeyed(first, w, t, keys, now);
      forall e ensures Holds(RowKeys(w'.results, e), RowKeys(first, e), w'.stores, e) {
        StoreKeepsRows(first, w, t, keys, now, e);
      }
      StoreKeepsDeletes(first, w, t, keys, now);
      StoreReplaces(w, t, keys, now, x.election);
    }
  }

  lemma {:induction false} EventsKeepTable(first: map<Id, Row>, w: World, events: seq<Event>)
    requires TableInv(first, w) && ValidEvents(w, events)
    ensures TableInv(first, WorldAfter(w, events))
    decreases |events|
  {
    if events != [] {
      match events[0] {
        case Read(t) => ReadKeepsTable(first, w, t);
        case Store(t, keys, now) => StoreKeepsTable(first, w, t, keys, now);
        case _ =>
      }
      EventsKeepTable(first, Happen(w, events[0]), events[1..]);
    }
  }

  /**
   In every run the results of e are the rows of the tallies that committed and whose commit no later tally's DELETE
   saw, and, until the first commit, the rows that were there.
   */
  lemma RowsAreUnsuperseded(w: World, events: seq<Event>, w': World, e: Id, key: Id)
    requires Fresh(w) && ValidEvents(w, events) && w' == WorldAfter(w, events)
    ensures key in RowKeys(w'.results, e) <==> InTable(RowKeys(w.results, e), w'.stores, e, key)
  {
    FreshTable(w);
    EventsKeepTable(w.results, w, events);
    assert Holds(RowKeys(w'.results, e), RowKeys(w.results, e), w'.stores, e);
  }

  // ---------- when a tally's rows are the only ones ----------

  /** Commit n is the last of its election. */
  predicate LastOf(stores: seq<Commit>, n: nat)
    requires n < |stores|
  {
    forall k :: n < k < |stores| ==> stores[k].election != stores[n].election
  }

  /** Every earlier commit of the election that has stored rows is superseded. */
  predicate OthersGone(stores: seq<Commit>, n: nat)
    requires n < |stores|
  {
    forall k :: 0 <= k < n && stores[k].election == stores[n].election && stores[k].keys != [] ==> Superseded(stores, k)
  }

  /** No tally of the election committed between the DELETE and the commit of tally n. */
  predicate NoneBetween(stores: seq<Commit>, n: nat)
    requires n < |stores|
  {
    forall k :: stores[n].deletedAt <= k < n ==> stores[k].election != stores[n].election
  }

  predicate OnlyOwnRows(w: World, n: nat)
    requires n < |w.stores|
  {
    RowKeys(w.results, w.stores[n].election) == Sequences.Elements(w.stores[n].keys)
  }

  /** Of an election, the rows of the last tally are the only ones if and only if every other commit is superseded. */
  lemma OnlyOwnRowsIff(w: World, events: seq<Event>, w': World, n: nat)
    requires Fresh(w) && ValidEvents(w, events) && w' == WorldAfter(w, events)
    requires n < |w'.stores| && LastOf(w'.stores, n)
    ensures OnlyOwnRows(w', n) <==> OthersGone(w'.stores, n)
  {
    var stores, e := w'.stores, w'.stores[n].election;
    FreshTable(w);
    EventsKeepTable(w.results, w, events);
    assert Holds(RowKeys(w'.results, e), RowKeys(w.results, e), stores, e);
    assert !NoneOf(stores, e) && !Superseded(stores, n);
    if OthersGone(stores, n) {
      forall key ensures key in RowKeys(w'.results, e) <==> key in stores[n].keys {
        OwnAlone(stores, n, key);
      }
    }
    if OnlyOwnRows(w', n) && !OthersGone(stores, n) {
      var k :| 0 <= k < n && stores[k].election == e && stores[k].keys != [] && !Superseded(stores, k);
      var key := stores[k].keys[0];
      assert Lasting(stores, e, k, key);
      assert key in RowKeys(w'.results, e) && key in Sequences.Elements(stores[n].keys);
      OneOwner(w.results.Keys, stores, k, n, key);
    }
  }

  lemma OwnAlone(stores: seq<Commit>, n: nat, key: Id)
    requires n < |stores| && LastOf(stores, n) && OthersGone(stores, n)
    ensures Stays(stores, stores[n].election, key) <==> key in stores[n].keys
  {
    var e := stores[n].election;
    if key in stores[n].keys {
      assert Lasting(stores, e, n, key);
    }
    if Stays(stores, e, key) {
      var k :| 0 <= k < |stores| && Lasting(stores, e, k, key);
      assert stores[k].keys != [];
    }
  }

  /** If the tallies of e store rows at all, that is: if and only if none of e committed between its DELETE and its commit. */
  lemma OnlyOwnRowsIffNoneBetween(w: World, events: seq<Event>, w': World, n: nat)
    requires Fresh(w) && ValidEvents(w, events) && w' == WorldAfter(w, events)
    requires n < |w'.stores| && LastOf(w'.stores, n)
    requires forall k :: 0 <= k < n && w'.stores[k].election == w'.stores[n].election ==> w'.stores[k].keys != []
    ensures OnlyOwnRows(w', n) <==> NoneBetween(w'.stores, n)
  {
    OnlyOwnRowsIff(w, events, w', n);
    var stores, e := w'.stores, w'.stores[n].election;
    if NoneBetween(stores, n) {
      forall k | 0 <= k < n && stores[k].election == e ensures Superseded(stores, k) {
        assert stores[n].deletedAt > k;
      }
    } else {
      var k := LastBetween(stores, n, n);
      assert !Superseded(stores, k);
    }
  }

  lemma {:induction false} LastBetween(stores: seq<Commit>, n: nat, b: nat) returns (k: nat)
    requires b <= n < |stores| && !NoneBetween(stores, n)
    requires forall i :: b <= i < n ==> stores[i].election != stores[n].election
    ensures stores[n].deletedAt <= k < n && stores[k].election == stores[n].election
    ensures forall i :: k < i < n ==> stores[i].election != stores[n].election
    decreases b
  {
    var i :| stores[n].deletedAt <= i < n && stores[i].election == stores[n].election;
    if stores[b - 1].election == stores[n].election {
      k := b - 1;
    } else {
      k := LastBetween(stores, n, b - 1);
    }
  }

  // ---------- when the summary refuses a tally ----------

  lemma TalliedStays(s: State, a: Action)
    requires Enabled(s, a) && !a.Tally?
    ensures Apply(s, a).db.tallied == s.db.tallied
  {
    if a.Advance? && IsCast(s.procs[a.p]) {
      if Commits(s, a.p) {
        CommitWrites(s, a.p, a.drawn);
      } else {
        CastWritesOnlyAtCommit(s, a.p, a.drawn);
      }
    }
  }

  predicate HadSummary(first: set<Id>, stores: seq<Commit>, e: Id) {
    e in first || !NoneOf(stores, e)
  }

  /** What a tally's SELECT of the summary has seen. */
  predicate SummarySaw(first: set<Id>, stores: seq<Commit>, x: Tallying) {
    x.summaryAt <= |stores| && (x.inserts <==> !HadSummary(first, stores[..x.summaryAt], x.election))
  }

  ghost predicate SummaryInv(first: set<Id>, w: World) {
    && (forall e :: e in w.s.db.tallied <==> HadSummary(first, w.stores, e))
    && forall t :: t in w.tallies && w.tallies[t].stage.AtCommit? ==> SummarySaw(first, w.stores, w.tallies[t])
  }

  lemma StoreKeepsSummary(first: set<Id>, w: World, t: Id, keys: seq<Id>, now: nat)
    requires SummaryInv(first, w) && Can(w, Store(t, keys, now))
    ensures SummaryInv(first, Happen(w, Store(t, keys, now)))
  {
    var x := w.tallies[t];
    var w' := Happen(w, Store(t, keys, now));
    if !Clashes(w, x) {
      var c := Commit(x.election, x.deletedAt, keys);
      forall e ensures NoneOf(w'.stores, e) <==> NoneOf(w.stores, e) && e != x.election {
        assert w'.stores[|w.stores|] == c;
        assert forall k :: 0 <= k < |w.stores| ==> w'.stores[k] == w.stores[k];
      }
      forall u | u in w'.tallies && w'.tallies[u].stage.AtCommit? ensures SummarySaw(first, w'.stores, w'.tallies[u]) {
        assert w'.stores[..w.tallies[u].summaryAt] == w.stores[..w.tallies[u].summaryAt];
      }
    }
  }

  lemma EventKeepsSummary(first: set<Id>, w: World, ev: Event)
    requires SummaryInv(first, w) && Can(w, ev)
    ensures SummaryInv(first, Happen(w, ev))
  {
    match ev
    case Vote(a) => TalliedStays(w.s, a);
    case Read(t) => assert w.stores[..|w.stores|] == w.stores;
    case Store(t, keys, now) => StoreKeepsSummary(first, w, t, keys, now);
    case _ =>
  }

  lemma {:induction false} EventsKeepSummary(first: set<Id>, w: World, events: seq<Event>)
    requires SummaryInv(first, w) && ValidEvents(w, events)
    ensures SummaryInv(first, WorldAfter(w, events))
    decreases |events|
  {
    if events != [] {
      EventKeepsSummary(first, w, events[0]);
      EventsKeepSummary(first, Happen(w, events[0]), events[1..]);
    }
  }

  /**
   In every run a tally is refused at its end if and only if there was no summary when it looked and another tally of
   the election has committed since.
   */
  lemma RefusedIff(w: World, events: seq<Event>, w': World, t: Id, keys: seq<Id>, now: nat)
    requires Fresh(w) && ValidEvents(w, events) && w' == WorldAfter(w, events) && Can(w', Store(t, keys, now))
    ensures var x := w'.tallies[t];
      && x.summaryAt <= |w'.stores|
      && (Happen(w', Store(t, keys, now)).tallies[t].stage.Clashed? <==>
            x.election !in w.s.db.tallied && NoneOf(w'.stores[..x.summaryAt], x.election) && !NoneOf(w'.stores, x.election))
  {
    EventsKeepSummary(w.s.db.tallied, w, events);
    assert SummarySaw(w.s.db.tallied, w'.stores, w'.tallies[t]);
  }

  // ---------- runs that show both ----------

  lemma {:induction false} Bound(used: set<Id>) returns (b: Id)
    ensures forall k :: k in used ==> k < b
    decreases |used|
  {
    if used == {} {
      b := 0;
    } else {
      var k :| k in used;
      var rest := used - {k};
      var c := Bound(rest);
      b := if k < c then c else k + 1;
      forall x | x in used ensures x < b {
        assert x == k || x in rest;
      }
    }
  }

  lemma NewKeys(used: set<Id>, n: nat) returns (keys: seq<Id>)
    ensures |keys| == n && Sequences.Distinct(keys) && Sequences.Elements(keys) !! used
  {
    var b := Bound(used);
    keys := seq(n, i => b + i);
  }

  /** Two tallies of e have sent their DELETE, one right after the other. */
  function BothCleared(w: World, t: Id, u: Id, e: Id): World {
    w.(tallies := w.tallies[t := Cleared(w, e)][u := Cleared(w, e)])
  }

  lemma OneEvent(w: World, ev: Event)
    requires Can(w, ev)
    ensures ValidEvents(w, [ev]) && WorldAfter(w, [ev]) == Happen(w, ev)
  {
    assert [ev][1..] == [];
  }

  lemma StartAndDelete(w: World, t: Id, e: Id) returns (events: seq<Event>)
    requires t !in w.tallies && e in w.s.db.elections
    ensures ValidEvents(w, events) && WorldAfter(w, events) == w.(tallies := w.tallies[t := Cleared(w, e)])
  {
    OneEvent(w, Start(t, e));
    var w1 := Happen(w, Start(t, e));
    var rest := DeleteAlone(w1, t);
    EventsCompose(w, [Start(t, e)], rest);
    events := [Start(t, e)] + rest;
  }

  lemma BothDelete(w: World, t: Id, u: Id, e: Id) returns (events: seq<Event>)
    requires t != u && t !in w.tallies && u !in w.tallies && e in w.s.db.elections
    ensures ValidEvents(w, events) && WorldAfter(w, events) == BothCleared(w, t, u, e)
  {
    var first := StartAndDelete(w, t, e);
    var w1 := WorldAfter(w, first);
    var second := StartAndDelete(w1, u, e);
    EventsCompose(w, first, second);
    events := first + second;
    assert Cleared(w1, e) == Cleared(w, e);
  }

  /** The rest of a tally that has sent its DELETE: it commits. */
  lemma Finish(w: World, t: Id, now: nat) returns (events: seq<Event>, keys: seq<Id>)
    requires t in w.tallies && w.tallies[t].stage.AtPositions? && w.tallies[t].shown == []
    requires w.tallies[t].election in w.s.db.elections && w.results.Keys <= w.used
    ensures ValidEvents(w, events) && Sequences.Distinct(keys) && Sequences.Elements(keys) !! w.used
    ensures Finished(w, WorldAfter(w, events), t, keys, now)
  {
    var first := PositionsAlone(w, t);
    var w1 := WorldAfter(w, first);
    keys := NewKeys(w.used, |OwnRows(w1.tallies[t], now)|);
    StoreFinishes(w, w1, t, keys, now);
    OneEvent(w1, Store(t, keys, now));
    EventsCompose(w, first, [Store(t, keys, now)]);
    events := first + [Store(t, keys, now)];
  }

  /** The tally has read the rest. */
  predicate HasRead(w: World, w1: World, t: Id) {
    && Alone(w, w1, t) && w1.tallies[t].stage.AtCommit? && w1.tallies[t].election == w.tallies[t].election
    && w1.tallies[t].doomed == w.tallies[t].doomed && w1.tallies[t].shown == Snapshot(w, w.tallies[t].election)
    && (w1.tallies[t].inserts <==> w.tallies[t].election !in w.s.db.tallied)
  }

  lemma StoreFinishes(w: World, w1: World, t: Id, keys: seq<Id>, now: nat)
    requires HasRead(w, w1, t) && Can(w1, Store(t, keys, now)) && w.results.Keys <= w.used
    ensures Finished(w, Happen(w1, Store(t, keys, now)), t, keys, now)
  {
    StoreReplaces(w1, t, keys, now, w.tallies[t].election);
  }

  /** It has committed: its own rows are there, and what its DELETE had found is not. */
  predicate Finished(w: World, w': World, t: Id, keys: seq<Id>, now: nat)
    requires t in w.tallies
  {
    var x := w.tallies[t];
    && w'.s == Summarised(w.s, x.election) && w'.positions == w.positions && w'.candidates == w.candidates
    && w'.used == w.used + Sequences.Elements(keys) && |keys| == |AllRows(x.election, Snapshot(w, x.election), now)|
    && RowKeys(w'.results, x.election) == (RowKeys(w.results, x.election) - x.doomed) + Sequences.Elements(keys)
    && t in w'.tallies && w'.tallies == w.tallies[t := w'.tallies[t]] && w'.tallies[t].stage.Stored?
    && w'.results.Keys <= w'.used
  }

  function Summarised(s: State, e: Id): State {
    s.(db := s.db.(tallied := s.db.tallied + {e}))
  }

  /**
   Two tallies of an election that have both sent their DELETE before either commits, where the second looks for the
   summary when the first has committed: both succeed, and every row is there twice.
   */
  lemma OverlappingTalliesDoubleRows(w: World, t: Id, u: Id, e: Id, now: nat) returns (events: seq<Event>)
    requires Fresh(w) && t != u && e in w.s.db.elections
    ensures ValidEvents(w, events)
    ensures var w' := WorldAfter(w, events);
      && t in w'.tallies && u in w'.tallies && w'.tallies[t].stage.Stored? && w'.tallies[u].stage.Stored?
      && |RowKeys(w'.results, e)| == 2 * |AllRows(e, Snapshot(w, e), now)|
  {
    var first := BothDelete(w, t, u, e);
    var w1 := WorldAfter(w, first);
    var rest := BothFinish(w1, t, u, e, now);
    EventsCompose(w, first, rest);
    events := first + rest;
    assert Snapshot(w1, e) == Snapshot(w, e);
  }

  lemma BothFinish(w: World, t: Id, u: Id, e: Id, now: nat) returns (events: seq<Event>)
    requires t != u && t in w.tallies && u in w.tallies && w.tallies[t] == w.tallies[u] == Cleared(w, e)
    requires e in w.s.db.elections && w.results.Keys <= w.used
    ensures ValidEvents(w, events)
    ensures var w' := WorldAfter(w, events);
      && t in w'.tallies && u in w'.tallies && w'.tallies[t].stage.Stored? && w'.tallies[u].stage.Stored?
      && |RowKeys(w'.results, e)| == 2 * |AllRows(e, Snapshot(w, e), now)|
  {
    var first, keys1 := Finish(w, t, now);
    var w1 := WorldAfter(w, first);
    var second, keys2 := Finish(w1, u, now);
    EventsCompose(w, first, second);
    events := first + second;
    assert Snapshot(w1, e) == Snapshot(w, e);
    TwoStores(w.used, RowKeys(w.results, e), keys1, keys2);
  }

  lemma TwoStores(used: set<Id>, rows: set<Id>, keys1: seq<Id>, keys2: seq<Id>)
    requires rows <= used && Sequences.Distinct(keys1) && Sequences.Distinct(keys2)
    requires Sequences.Elements(keys1) !! used && Sequences.Elements(keys2) !! used + Sequences.Elements(keys1)
    ensures |((((rows - rows) + Sequences.Elements(keys1)) - rows) + Sequences.Elements(keys2))| == |keys1| + |keys2|
  {
    Sequences.SizeOfDistinct(keys1);
    Sequences.SizeOfDistinct(keys2);
    assert ((rows - rows) + Sequences.Elements(keys1)) - rows == Sequences.Elements(keys1);
  }

  /** If instead both have looked for the summary before either commits, and there was none, the second is refused. */
  lemma SecondSummaryIsRefused(w: World, t: Id, u: Id, e: Id, now: nat) returns (events: seq<Event>)
    requires Fresh(w) && t != u && e in w.s.db.elections && e !in w.s.db.tallied
    ensures ValidEvents(w, events)
    ensures var w' := WorldAfter(w, events);
      t in w'.tallies && u in w'.tallies && w'.tallies[t].stage.Stored? && w'.tallies[u].stage.Clashed?
  {
    var first := BothDelete(w, t, u, e);
    var w1 := WorldAfter(w, first);
    var second := PositionsAlone(w1, t);
    var w2 := WorldAfter(w1, second);
    var third := PositionsAlone(w2, u);
    var fourth := BothStore(WorldAfter(w2, third), t, u, now);
    EventsCompose(w2, third, fourth);
    EventsCompose(w1, second, third + fourth);
    EventsCompose(w, first, second + (third + fourth));
    events := first + (second + (third + fourth));
  }

  lemma BothStore(w: World, t: Id, u: Id, now: nat) returns (events: seq<Event>)
    requires t != u && t in w.tallies && u in w.tallies && w.tallies[t].stage.AtCommit? && w.tallies[u].stage.AtCommit?
    requires w.tallies[t].inserts && w.tallies[u].inserts && w.tallies[t].election == w.tallies[u].election
    requires w.tallies[t].election in w.s.db.elections && w.tallies[t].election !in w.s.db.tallied
    ensures ValidEvents(w, events)
    ensures var w' := WorldAfter(w, events);
      t in w'.tallies && u in w'.tallies && w'.tallies[t].stage.Stored? && w'.tallies[u].stage.Clashed?
  {
    var keys1 := NewKeys(w.used, |OwnRows(w.tallies[t], now)|);
    OneEvent(w, Store(t, keys1, now));
    var w1 := Happen(w, Store(t, keys1, now));
    var keys2 := NewKeys(w1.used, |OwnRows(w1.tallies[u], now)|);
    OneEvent(w1, Store(u, keys2, now));
    EventsCompose(w, [Store(t, keys1, now)], [Store(u, keys2, now)]);
    events := [Store(t, keys1, now)] + [Store(u, keys2, now)];
  }
}
