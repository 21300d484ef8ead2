/**
 app/services/duplicate_detection_service.py with the submission and review operations of
 app/services/data_collection_service.py around it. Submissions are numbered in order of arrival.
 */
module Duplicates {
  import opened Types
  import Text

  datatype Status = Submitted | UnderReview | Approved | Rejected | Duplicate

  datatype Signal = Mobile | VoterCard | Email | NameArea

  datatype Resolution = PossibleDuplicate | Merged | KeptSeparate | RejectedAsDuplicate

  /** An empty string stands for a missing value, which the scan treats alike. */
  datatype Submission = Submission(
    org: Id, mobile: string, card: string, email: string, name: string, booth: Option<string>,
    status: Status, flagged: bool)

  /** The row that a submission's form becomes, before the scan. */
  function Normalised(org: Id, mobile: string, card: string, email: string, name: string, booth: Option<string>): Submission {
    Submission(org, Text.Strip(mobile), Text.Upper(Text.Strip(card)), Text.Strip(email), Text.Strip(name), booth, Submitted, false)
  }

  /** record_a_id, record_b_id, match_signal, resolution_status. */
  datatype Link = Link(a: nat, b: nat, signal: Signal, resolution: Resolution)

  /** SQL ILIKE with the stored value first; its pattern rules are left open. */
  type Like = (string, string) -> bool

  /** What the scan of y asks of a stored submission x, one signal at a time. */
  predicate Matches(x: Submission, y: Submission, signal: Signal, like: Like) {
    x.org == y.org &&
    match signal
    case Mobile => y.mobile != "" && x.mobile == y.mobile
    case VoterCard => y.card != "" && x.card == y.card
    case Email => y.email != "" && like(x.email, y.email)
    case NameArea => y.name != "" && like(x.name, y.name) && x.booth == y.booth
  }

  predicate MatchesAny(x: Submission, y: Submission, like: Like) {
    Matches(x, y, Mobile, like) || Matches(x, y, VoterCard, like) || Matches(x, y, Email, like) || Matches(x, y, NameArea, like)
  }

  /** Some stored submission matches y by this signal. */
  predicate Hit(subs: seq<Submission>, y: Submission, signal: Signal, like: Like) {
    exists j :: 0 <= j < |subs| && Matches(subs[j], y, signal, like)
  }

  /** The signal that the chain of checks stops at. */
  function FirstSignal(subs: seq<Submission>, y: Submission, like: Like): Option<Signal> {
    if Hit(subs, y, Mobile, like) then Some(Mobile)
    else if Hit(subs, y, VoterCard, like) then Some(VoterCard)
    else if Hit(subs, y, Email, like) then Some(Email)
    else if Hit(subs, y, NameArea, like) then Some(NameArea)
    else None
  }

  predicate Linked(links: seq<Link>, k: nat) {
    exists i :: 0 <= i < |links| && links[i].b == k
  }

  /** The order in which the signals are tried. */
  function Turn(signal: Signal): nat {
    match signal
    case Mobile => 0
    case VoterCard => 1
    case Email => 2
    case NameArea => 3
  }

  /** The link leads from a submission to an earlier one that it matched, by the first signal that any earlier one matches. */
  predicate JoinsMatch(subs: seq<Submission>, l: Link, like: Like) {
    && l.a < l.b < |subs| && Matches(subs[l.a], subs[l.b], l.signal, like)
    && forall j, signal :: 0 <= j < l.b && Turn(signal) < Turn(l.signal) ==> !Matches(subs[j], subs[l.b], signal, like)
  }

  /** Each link has the first signal by which any earlier submission matches. */
  ghost predicate FirstSignals(subs: seq<Submission>, links: seq<Link>, like: Like) {
    forall i :: 0 <= i < |links| ==> JoinsMatch(subs, links[i], like)
  }

  /** Whatever matches an earlier submission is linked. */
  ghost predicate Covered(subs: seq<Submission>, links: seq<Link>, like: Like) {
    forall j, k :: 0 <= j < k < |subs| && MatchesAny(subs[j], subs[k], like) ==> Linked(links, k)
  }

  /** No submission has two links, and those with a link are flagged, unless kept separate. */
  ghost predicate Flagged(subs: seq<Submission>, links: seq<Link>, kept: set<nat>) {
    && (forall k :: k in kept ==> k < |subs|)
    && (forall i, j :: 0 <= i < j < |links| ==> links[i].b != links[j].b)
    && (forall k :: 0 <= k < |subs| && subs[k].status.Duplicate? ==> subs[k].flagged)
    && (forall k :: 0 <= k < |subs| ==> (Linked(links, k) <==> subs[k].flagged || k in kept))
  }

  /**
   What every run keeps. `kept` is history: the submissions whose flag a KEPT_SEPARATE resolution cleared.
   */
  ghost predicate Sound(subs: seq<Submission>, links: seq<Link>, kept: set<nat>, like: Like) {
    FirstSignals(subs, links, like) && Covered(subs, links, like) && Flagged(subs, links, kept)
  }

  /** The scan on the columns: which signal it stops at. */
  lemma SignalOnColumns(subs: seq<Submission>, y: Submission, like: Like)
    ensures var mobile := y.mobile != "" && exists j :: 0 <= j < |subs| && subs[j].org == y.org && subs[j].mobile == y.mobile;
      var card := y.card != "" && exists j :: 0 <= j < |subs| && subs[j].org == y.org && subs[j].card == y.card;
      var email := y.email != "" && exists j :: 0 <= j < |subs| && subs[j].org == y.org && like(subs[j].email, y.email);
      var name := y.name != "" && exists j :: 0 <= j < |subs| && subs[j].org == y.org && like(subs[j].name, y.name) && subs[j].booth == y.booth;
      FirstSignal(subs, y, like) == (
        if mobile then Some(Mobile) else if card then Some(VoterCard) else if email then Some(Email)
        else if name then Some(NameArea) else None)
  {
    assert Hit(subs, y, Mobile, like) <==>
      y.mobile != "" && exists j :: 0 <= j < |subs| && subs[j].org == y.org && subs[j].mobile == y.mobile;
    assert Hit(subs, y, VoterCard, like) <==>
      y.card != "" && exists j :: 0 <= j < |subs| && subs[j].org == y.org && subs[j].card == y.card;
    assert Hit(subs, y, Email, like) <==>
      y.email != "" && exists j :: 0 <= j < |subs| && subs[j].org == y.org && like(subs[j].email, y.email);
    assert Hit(subs, y, NameArea, like) <==>
      y.name != "" && exists j :: 0 <= j < |subs| && subs[j].org == y.org && like(subs[j].name, y.name) && subs[j].booth == y.booth;
  }

  class Registry {
    var subs: seq<Submission>
    var links: seq<Link>
    ghost var kept: set<nat>
    const like: Like

    ghost predicate Valid()
      reads this
    {
      Sound(subs, links, kept, like)
    }

    constructor (like: Like)
      ensures Valid() && subs == [] && links == [] && kept == {} && this.like == like
    {
      this.like := like;
      subs := [];
      links := [];
      kept := {};
    }

    /** scalars().first() of the query for one signal: any match, if there is one. */
    method Query(y: Submission, signal: Signal) returns (found: Option<nat>)
      ensures found.Some? <==> Hit(subs, y, signal, like)
      ensures found.Some? ==> found.value < |subs| && Matches(subs[found.value], y, signal, like)
    {
      found := None;
      if exists j :: 0 <= j < |subs| && Matches(subs[j], y, signal, like) {
        var j :| 0 <= j < |subs| && Matches(subs[j], y, signal, like);
        found := Some(j);
      }
    }

    /** The chain of four checks in scan_and_flag_duplicates. */
    method Scan(y: Submission) returns (found: Option<(nat, Signal)>)
      ensures found.None? <==> FirstSignal(subs, y, like).None?
      ensures found.Some? ==> FirstSignal(subs, y, like) == Some(found.value.1)
      ensures found.Some? ==> found.value.0 < |subs| && Matches(subs[found.value.0], y, found.value.1, like)
    {
      found := None;
      if y.mobile != "" {
        var matched := Query(y, Mobile);
        if matched.Some? {
          found := Some((matched.value, Mobile));
        }
      }
      if found.None? && y.card != "" {
        var matched := Query(y, VoterCard);
        if matched.Some? {
          found := Some((matched.value, VoterCard));
        }
      }
      if found.None? && y.email != "" {
        var matched := Query(y, Email);
        if matched.Some? {
          found := Some((matched.value, Email));
        }
      }
      if found.None? && y.name != "" {
        var matched := Query(y, NameArea);
        if matched.Some? {
          found := Some((matched.value, NameArea));
        }
      }
    }

    /** submit_field_data: store, scan the others, flag and link if one matches. */
    method Submit(org: Id, mobile: string, card: string, email: string, name: string, booth: Option<string>) returns (id: nat)
      requires Valid()
      modifies this`subs, this`links
      ensures Valid() && id == |old(subs)| && |subs| == id + 1
      ensures subs[id].org == org && subs[id].booth == booth && subs[id].mobile == Text.Strip(mobile)
        && subs[id].card == Text.Upper(Text.Strip(card)) && subs[id].email == Text.Strip(email) && subs[id].name == Text.Strip(name)
      ensures var y := Normalised(org, mobile, card, email, name, booth);
        var signal := FirstSignal(old(subs), y, like);
        if signal.None? then subs == old(subs) + [y] && links == old(links)
        else
          && subs == old(subs) + [y.(status := Duplicate, flagged := true)]
          && |links| == |old(links)| + 1 && links[..|old(links)|] == old(links)
          && links[|old(links)|].b == id && links[|old(links)|].signal == signal.value
          && links[|old(links)|].resolution == PossibleDuplicate
    {
      var y := Normalised(org, mobile, card, email, name, booth);
      id := |subs|;
      var found := Scan(y);
      NotYetLinked(subs, links, kept, like);
      if found.Some? {
        var link := Link(found.value.0, id, found.value.1, PossibleDuplicate);
        links := links + [link];
        y := y.(flagged := true);
        y := y.(status := Duplicate);
        SameSignal(subs, y, like);
        FirstSignalJoins(subs, y, link, like);
      }
      subs := subs + [y];
      SubmitKeepsSound(old(subs), old(links), kept, like, y, links);
    }

    /** review_submission. */
    method Review(id: nat, approve: bool) returns (ok: bool)
      requires Valid()
      modifies this`subs
      ensures Valid() && ok == (id < |subs|) && |subs| == |old(subs)|
      ensures subs == if ok then old(subs)[id := old(subs)[id].(status := if approve then Approved else Rejected)] else old(subs)
    {
      if id >= |subs| {
        return false;
      }
      var newStatus := if approve then Approved else Rejected;
      subs := subs[id := subs[id].(status := newStatus)];
      EditKeepsSound(old(subs), subs, links, links, kept, kept, like);
      ok := true;
    }

    /** bulk_review_submissions; None stands for a user without an organization. */
    method BulkReview(ids: set<nat>, org: Option<Id>, approve: bool) returns (processed: nat)
      requires Valid()
      modifies this`subs
      ensures Valid() && |subs| == |old(subs)|
      ensures forall k :: 0 <= k < |subs| ==>
        subs[k] == if k in ids && (org.None? || old(subs)[k].org == org.value)
          then old(subs)[k].(status := if approve then Approved else Rejected) else old(subs)[k]
      ensures processed == |set k | k in ids && k < |subs| && (org.None? || subs[k].org == org.value)|
    {
      var target := if approve then Approved else Rejected;
      var chosen := set k | k in ids && k < |subs| && (org.None? || subs[k].org == org.value);
      processed := SetStatuses(chosen, target);
      EditKeepsSound(old(subs), subs, links, links, kept, kept, like);
      assert chosen == set k | k in ids && k < |subs| && (org.None? || subs[k].org == org.value);
    }

    /** The loop of the bulk review. */
    method SetStatuses(all: set<nat>, target: Status) returns (processed: nat)
      requires forall k :: k in all ==> k < |subs|
      modifies this`subs
      ensures |subs| == |old(subs)| && processed == |all|
      ensures forall k :: 0 <= k < |subs| ==> subs[k] == if k in all then old(subs)[k].(status := target) else old(subs)[k]
    {
      var chosen := all;
      processed := 0;
      while chosen != {}
        invariant chosen <= all && processed + |chosen| == |all| && |subs| == |old(subs)|
        invariant forall k :: k in all ==> k < |subs|
        invariant forall k :: 0 <= k < |subs| ==>
          subs[k] == if k in all && k !in chosen then old(subs)[k].(status := target) else old(subs)[k]
        decreases |chosen|
      {
        var k :| k in chosen;
        subs := subs[k := subs[k].(status := target)];
        chosen := chosen - {k};
        processed := processed + 1;
      }
    }

    /** resolve_duplicate on the d-th link. */
    method Resolve(d: nat, action: Resolution, primary: nat) returns (ok: bool)
      requires Valid()
      modifies this`subs, this`links, this`kept
      ensures Valid() && ok == (d < |old(links)|)
      ensures !ok ==> subs == old(subs) && links == old(links) && kept == old(kept)
      ensures ok ==> links == old(links)[d := old(links)[d].(resolution := action)]
      ensures ok ==> subs == AfterAction(old(subs), old(links)[d], action, primary)
      ensures ok ==> kept == old(kept) + if action.KeptSeparate? && old(subs)[old(links)[d].b].status.Duplicate? then {old(links)[d].b} else {}
    {
      if d >= |links| {
        return false;
      }
      var l := links[d];
      ActionKeepsSound(subs, links, kept, like, d, action, primary);
      links := links[d := l.(resolution := action)];
      kept := kept + if action.KeptSeparate? && subs[l.b].status.Duplicate? then {l.b} else {};
      ApplyAction(l, action, primary);
      ok := true;
    }

    /** The branches on the action. */
    method ApplyAction(l: Link, action: Resolution, primary: nat)
      requires l.a < l.b < |subs|
      modifies this`subs
      ensures subs == AfterAction(old(subs), l, action, primary)
    {
      var a, b := l.a, l.b;
      if action.Merged? {
        if primary == a {
          subs := subs[a := subs[a].(status := Approved)];
          subs := subs[b := subs[b].(status := Rejected)];
        } else {
          subs := subs[b := subs[b].(status := Approved)];
          subs := subs[a := subs[a].(status := Rejected)];
        }
      } else if action.KeptSeparate? {
        if subs[b].status.Duplicate? {
          subs := subs[b := subs[b].(status := UnderReview)];
          subs := subs[b := subs[b].(flagged := false)];
        }
      } else if action.RejectedAsDuplicate? {
        subs := subs[b := subs[b].(status := Rejected)];
      }
    }
  }

  /** What a resolution of link l does to the submissions. */
  function AfterAction(subs: seq<Submission>, l: Link, action: Resolution, primary: nat): seq<Submission>
    requires l.a < l.b < |subs|
  {
    var x, y := subs[l.a], subs[l.b];
    match action
    case Merged =>
      if primary == l.a then subs[l.a := x.(status := Approved)][l.b := y.(status := Rejected)]
      else subs[l.b := y.(status := Approved)][l.a := x.(status := Rejected)]
    case KeptSeparate => if y.status.Duplicate? then subs[l.b := y.(status := UnderReview, flagged := false)] else subs
    case RejectedAsDuplicate => subs[l.b := y.(status := Rejected)]
    case PossibleDuplicate => subs
  }

  /** What a resolution sets, and that it sets nothing else. */
  lemma ActionOnColumns(subs: seq<Submission>, l: Link, action: Resolution, primary: nat)
    requires l.a < l.b < |subs|
    ensures var after := AfterAction(subs, l, action, primary);
      && |after| == |subs|
      && (forall k :: 0 <= k < |subs| && k != l.a && k != l.b ==> after[k] == subs[k])
      && after[l.a] == subs[l.a].(status := after[l.a].status)
      && after[l.b] == subs[l.b].(status := after[l.b].status, flagged := after[l.b].flagged)
      && (action == Merged ==> after[l.a].status == if primary == l.a then Approved else Rejected)
      && (action == Merged ==> after[l.b].status == if primary == l.a then Rejected else Approved)
      && (action != Merged ==> after[l.a] == subs[l.a])
      && (action == RejectedAsDuplicate ==> after[l.b].status == Rejected)
      && (action == KeptSeparate && subs[l.b].status == Duplicate ==> after[l.b].status == UnderReview && !after[l.b].flagged)
      && (action == PossibleDuplicate || (action == KeptSeparate && subs[l.b].status != Duplicate) ==> after == subs)
      && (action != KeptSeparate ==> after[l.b].flagged == subs[l.b].flagged)
  {}

  // ---------- preservation ----------

  lemma NotYetLinked(subs: seq<Submission>, links: seq<Link>, kept: set<nat>, like: Like)
    requires Sound(subs, links, kept, like)
    ensures !Linked(links, |subs|)
  {}

  /** A flag or a status makes no difference to the scan. */
  lemma SameSignal(subs: seq<Submission>, y: Submission, like: Like)
    ensures FirstSignal(subs, y, like) == FirstSignal(subs, y.(flagged := false, status := Submitted), like)
  {
    var x := y.(flagged := false, status := Submitted);
    forall signal ensures Hit(subs, y, signal, like) <==> Hit(subs, x, signal, like) {
      assert forall j :: 0 <= j < |subs| ==> (Matches(subs[j], y, signal, like) <==> Matches(subs[j], x, signal, like));
    }
  }

  lemma FirstSignalIsAny(subs: seq<Submission>, y: Submission, like: Like)
    ensures FirstSignal(subs, y, like).Some? <==> exists j :: 0 <= j < |subs| && MatchesAny(subs[j], y, like)
  {
    if FirstSignal(subs, y, like).Some? {
      var signal := FirstSignal(subs, y, like).value;
      assert Hit(subs, y, signal, like);
      var j :| 0 <= j < |subs| && Matches(subs[j], y, signal, like);
      assert MatchesAny(subs[j], y, like);
    }
    if j :| 0 <= j < |subs| && MatchesAny(subs[j], y, like) {
      assert Hit(subs, y, Mobile, like) || Hit(subs, y, VoterCard, like) || Hit(subs, y, Email, like) || Hit(subs, y, NameArea, like);
    }
  }

  predicate SameData(x: Submission, y: Submission) {
    x.org == y.org && x.mobile == y.mobile && x.card == y.card && x.email == y.email && x.name == y.name && x.booth == y.booth
  }

  predicate SameEnds(l: Link, m: Link) {
    l.a == m.a && l.b == m.b && l.signal == m.signal
  }

  lemma JoinsMatchSameData(subs: seq<Submission>, subs': seq<Submission>, l: Link, l': Link, like: Like)
    requires |subs'| == |subs| && (forall k :: 0 <= k < |subs| ==> SameData(subs[k], subs'[k]))
    requires SameEnds(l, l') && JoinsMatch(subs, l, like)
    ensures JoinsMatch(subs', l', like)
  {
    assert SameData(subs[l.a], subs'[l.a]) && SameData(subs[l.b], subs'[l.b]);
    forall j, signal | 0 <= j < l.b && Turn(signal) < Turn(l.signal) ensures !Matches(subs'[j], subs'[l.b], signal, like) {
      assert SameData(subs[j], subs'[j]) && !Matches(subs[j], subs[l.b], signal, like);
    }
  }

  /** Statuses, flags and resolutions apart, the tables are the same. */
  predicate SameTables(subs: seq<Submission>, subs': seq<Submission>, links: seq<Link>, links': seq<Link>) {
    && |subs'| == |subs| && |links'| == |links|
    && (forall k :: 0 <= k < |subs| ==> SameData(subs[k], subs'[k]))
    && (forall i :: 0 <= i < |links| ==> SameEnds(links[i], links'[i]))
  }

  lemma SameTablesBack(subs: seq<Submission>, subs': seq<Submission>, links: seq<Link>, links': seq<Link>)
    requires SameTables(subs, subs', links, links')
    ensures SameTables(subs', subs, links', links)
  {
    forall k | 0 <= k < |subs| ensures SameData(subs'[k], subs[k]) {
      assert SameData(subs[k], subs'[k]);
    }
    forall i | 0 <= i < |links| ensures SameEnds(links'[i], links[i]) {
      assert SameEnds(links[i], links'[i]);
    }
  }

  lemma SameLinked(subs: seq<Submission>, subs': seq<Submission>, links: seq<Link>, links': seq<Link>, k: nat)
    requires SameTables(subs, subs', links, links')
    ensures Linked(links', k) <==> Linked(links, k)
  {
    if Linked(links, k) {
      var i :| 0 <= i < |links| && links[i].b == k;
      assert SameEnds(links[i], links'[i]);
    }
    if Linked(links', k) {
      var i :| 0 <= i < |links'| && links'[i].b == k;
      assert SameEnds(links[i], links'[i]);
    }
  }

  lemma EditKeepsFirstSignals(subs: seq<Submission>, subs': seq<Submission>, links: seq<Link>, links': seq<Link>, like: Like)
    requires SameTables(subs, subs', links, links') && FirstSignals(subs, links, like)
    ensures FirstSignals(subs', links', like)
  {
    forall i | 0 <= i < |links'| ensures JoinsMatch(subs', links'[i], like) {
      JoinsMatchSameData(subs, subs', links[i], links'[i], like);
    }
  }

  lemma EditKeepsCovered(subs: seq<Submission>, subs': seq<Submission>, links: seq<Link>, links': seq<Link>, like: Like)
    requires SameTables(subs, subs', links, links') && Covered(subs, links, like)
    ensures Covered(subs', links', like)
  {
    forall j, k | 0 <= j < k < |subs'| && MatchesAny(subs'[j], subs'[k], like) ensures Linked(links', k) {
      assert SameData(subs[j], subs'[j]) && SameData(subs[k], subs'[k]);
      assert MatchesAny(subs[j], subs[k], like);
      SameLinked(subs, subs', links, links', k);
    }
  }

  /** Flags are cleared only into `kept`, and no submission becomes a DUPLICATE without one. */
  predicate FlagsFollow(subs: seq<Submission>, subs': seq<Submission>, kept: set<nat>, kept': set<nat>)
    requires |subs'| == |subs|
  {
    && (forall k :: 0 <= k < |subs| ==> (subs'[k].flagged || k in kept' <==> subs[k].flagged || k in kept))
    && (forall k :: 0 <= k < |subs| && subs'[k].status.Duplicate? ==> subs'[k].flagged)
    && (forall k :: k in kept' ==> k < |subs|)
  }

  lemma EditKeepsFlagged(subs: seq<Submission>, subs': seq<Submission>, links: seq<Link>, links': seq<Link>, kept: set<nat>, kept': set<nat>)
    requires SameTables(subs, subs', links, links') && FlagsFollow(subs, subs', kept, kept') && Flagged(subs, links, kept)
    ensures Flagged(subs', links', kept')
  {
    forall i, j | 0 <= i < j < |links'| ensures links'[i].b != links'[j].b {
      assert SameEnds(links[i], links'[i]) && SameEnds(links[j], links'[j]);
    }
    forall k | 0 <= k < |subs'| ensures Linked(links', k) <==> subs'[k].flagged || k in kept' {
      SameLinked(subs, subs', links, links', k);
    }
  }

  /** Reviews and resolutions change statuses, flags and resolutions only, and clear a flag only by keeping separate. */
  lemma EditKeepsSound(subs: seq<Submission>, subs': seq<Submission>, links: seq<Link>, links': seq<Link>,
      kept: set<nat>, kept': set<nat>, like: Like)
    requires Sound(subs, links, kept, like) && SameTables(subs, subs', links, links') && FlagsFollow(subs, subs', kept, kept')
    ensures Sound(subs', links', kept', like)
  {
    EditKeepsFirstSignals(subs, subs', links, links', like);
    EditKeepsCovered(subs, subs', links, links', like);
    EditKeepsFlagged(subs, subs', links, links', kept, kept');
  }

  function KeptAfter(subs: seq<Submission>, kept: set<nat>, l: Link, action: Resolution): set<nat>
    requires l.b < |subs|
  {
    kept + if action.KeptSeparate? && subs[l.b].status.Duplicate? then {l.b} else {}
  }

  lemma ActionKeepsTables(subs: seq<Submission>, links: seq<Link>, d: nat, action: Resolution, primary: nat)
    requires d < |links| && links[d].a < links[d].b < |subs|
    ensures SameTables(subs, AfterAction(subs, links[d], action, primary), links, links[d := links[d].(resolution := action)])
  {}

  lemma ActionKeepsFlags(subs: seq<Submission>, links: seq<Link>, kept: set<nat>, l: Link, action: Resolution, primary: nat)
    requires Flagged(subs, links, kept) && l.a < l.b < |subs|
    ensures FlagsFollow(subs, AfterAction(subs, l, action, primary), kept, KeptAfter(subs, kept, l, action))
  {}

  /** A merge leaves exactly the primary approved; only keeping separate clears a flag, and only of a DUPLICATE. */
  lemma ActionKeepsSound(subs: seq<Submission>, links: seq<Link>, kept: set<nat>, like: Like, d: nat, action: Resolution, primary: nat)
    requires Sound(subs, links, kept, like) && d < |links|
    ensures JoinsMatch(subs, links[d], like)
    ensures var l := links[d];
      Sound(AfterAction(subs, l, action, primary), links[d := l.(resolution := action)], KeptAfter(subs, kept, l, action), like)
  {
    var l := links[d];
    assert JoinsMatch(subs, l, like);
    ActionKeepsTables(subs, links, d, action, primary);
    ActionKeepsFlags(subs, links, kept, l, action, primary);
    EditKeepsSound(subs, AfterAction(subs, l, action, primary), links, links[d := l.(resolution := action)],
      kept, KeptAfter(subs, kept, l, action), like);
  }

  /** links' is links, or links and one more link for the new submission k. */
  predicate Extends(links: seq<Link>, links': seq<Link>, added: bool, k: nat) {
    if added then |links'| == |links| + 1 && links'[..|links|] == links && links'[|links|].b == k
    else links' == links
  }

  lemma OldLinkStays(links: seq<Link>, links': seq<Link>, added: bool, k: nat, i: nat)
    requires Extends(links, links', added, k) && i < |links|
    ensures i < |links'| && links'[i] == links[i]
  {
    if added {
      assert links'[..|links|][i] == links[i];
    }
  }

  lemma LinkedAfter(links: seq<Link>, links': seq<Link>, added: bool, n: nat, k: nat)
    requires Extends(links, links', added, n)
    ensures Linked(links', k) <==> Linked(links, k) || (added && k == n)
  {
    if Linked(links, k) {
      var i :| 0 <= i < |links| && links[i].b == k;
      OldLinkStays(links, links', added, n, i);
    }
    if Linked(links', k) {
      var i :| 0 <= i < |links'| && links'[i].b == k;
      if i < |links| {
        OldLinkStays(links, links', added, n, i);
      }
    }
    if added {
      assert links'[|links|].b == n;
    }
  }

  lemma JoinsAfter(subs: seq<Submission>, links: seq<Link>, links': seq<Link>, like: Like, y: Submission, i: nat)
    requires forall k :: 0 <= k < |links| ==> JoinsMatch(subs, links[k], like)
    requires Extends(links, links', y.flagged, |subs|)
    requires y.flagged ==> JoinsMatch(subs + [y], links'[|links|], like)
    requires i < |links'|
    ensures JoinsMatch(subs + [y], links'[i], like)
  {
    if i < |links| {
      OldLinkStays(links, links', y.flagged, |subs|, i);
      var l := links[i];
      assert JoinsMatch(subs, l, like);
      forall j, signal | 0 <= j < l.b && Turn(signal) < Turn(l.signal)
        ensures !Matches((subs + [y])[j], (subs + [y])[l.b], signal, like)
      {
        assert !Matches(subs[j], subs[l.b], signal, like);
      }
    }
  }

  /** The signal that the scan stops at makes a proper link of the new submission. */
  lemma FirstSignalJoins(subs: seq<Submission>, y: Submission, l: Link, like: Like)
    requires l.a < |subs| == l.b && Matches(subs[l.a], y, l.signal, like) && FirstSignal(subs, y, like) == Some(l.signal)
    ensures JoinsMatch(subs + [y], l, like)
  {
    forall j, signal | 0 <= j < l.b && Turn(signal) < Turn(l.signal) ensures !Matches((subs + [y])[j], (subs + [y])[l.b], signal, like) {
      assert !Hit(subs, y, signal, like);
    }
  }

  lemma EndsStayDistinct(subs: seq<Submission>, links: seq<Link>, kept: set<nat>, like: Like, links': seq<Link>, added: bool,
      i: nat, j: nat)
    requires Sound(subs, links, kept, like) && Extends(links, links', added, |subs|) && i < j < |links'|
    ensures links'[i].b != links'[j].b
  {
    OldLinkStays(links, links', added, |subs|, i);
    assert JoinsMatch(subs, links[i], like);
    if j < |links| {
      OldLinkStays(links, links', added, |subs|, j);
    }
  }

  lemma CoveredAfter(subs: seq<Submission>, links: seq<Link>, kept: set<nat>, like: Like, y: Submission, links': seq<Link>,
      j: nat, k: nat)
    requires Sound(subs, links, kept, like) && Extends(links, links', y.flagged, |subs|)
    requires !y.flagged ==> FirstSignal(subs, y, like).None?
    requires j < k < |subs| + 1 && MatchesAny((subs + [y])[j], (subs + [y])[k], like)
    ensures Linked(links', k)
  {
    LinkedAfter(links, links', y.flagged, |subs|, k);
    FirstSignalIsAny(subs, y, like);
    if k < |subs| {
      assert MatchesAny(subs[j], subs[k], like);
    } else {
      assert MatchesAny(subs[j], y, like);
    }
  }

  /** A new submission is linked and flagged together, exactly when something stored matches it. */
  lemma SubmitKeepsSound(subs: seq<Submission>, links: seq<Link>, kept: set<nat>, like: Like, y: Submission, links': seq<Link>)
    requires Sound(subs, links, kept, like) && Extends(links, links', y.flagged, |subs|)
    requires y.status.Duplicate? ==> y.flagged
    requires y.flagged ==> JoinsMatch(subs + [y], links'[|links|], like)
    requires !y.flagged ==> FirstSignal(subs, y, like).None?
    ensures Sound(subs + [y], links', kept, like)
  {
    NotYetLinked(subs, links, kept, like);
    forall i | 0 <= i < |links'| ensures JoinsMatch(subs + [y], links'[i], like) {
      JoinsAfter(subs, links, links', like, y, i);
    }
    forall i, j | 0 <= i < j < |links'| ensures links'[i].b != links'[j].b {
      EndsStayDistinct(subs, links, kept, like, links', y.flagged, i, j);
    }
    forall k | 0 <= k < |subs + [y]| ensures Linked(links', k) <==> (subs + [y])[k].flagged || k in kept {
      LinkedAfter(links, links', y.flagged, |subs|, k);
    }
    forall j, k | 0 <= j < k < |subs + [y]| && MatchesAny((subs + [y])[j], (subs + [y])[k], like) ensures Linked(links', k) {
      CoveredAfter(subs, links, kept, like, y, links', j, k);
    }
  }

  // ---------- what the links look like ----------

  /** A submission is linked exactly when an earlier one of its organization matches it. */
  lemma LinkedIffMatchedEarlier(subs: seq<Submission>, links: seq<Link>, kept: set<nat>, like: Like, k: nat)
    requires Sound(subs, links, kept, like) && k < |subs|
    ensures Linked(links, k) <==> exists j :: 0 <= j < k && MatchesAny(subs[j], subs[k], like)
  {
    if Linked(links, k) {
      var i :| 0 <= i < |links| && links[i].b == k;
      assert JoinsMatch(subs, links[i], like);
      assert MatchesAny(subs[links[i].a], subs[k], like);
    }
  }

  predicate SamePerson(x: Submission, y: Submission) {
    x.org == y.org && ((x.mobile != "" && x.mobile == y.mobile) || (x.card != "" && x.card == y.card))
  }

  /** Of the submissions with one mobile number or voter card, only the earliest is unflagged, unless kept separate. */
  lemma OnlyEarliestUnflagged(subs: seq<Submission>, links: seq<Link>, kept: set<nat>, like: Like, j: nat, k: nat)
    requires Sound(subs, links, kept, like) && j < k < |subs| && SamePerson(subs[j], subs[k])
    ensures subs[k].flagged || k in kept
  {
    assert MatchesAny(subs[j], subs[k], like);
  }

  /** The end of the chain of links from k; each submission has at most one link, so there is one chain. */
  ghost function Root(subs: seq<Submission>, links: seq<Link>, like: Like, k: nat): nat
    requires FirstSignals(subs, links, like)
    decreases k
  {
    if i :| 0 <= i < |links| && links[i].b == k then
      assert JoinsMatch(subs, links[i], like);
      Root(subs, links, like, links[i].a)
    else k
  }

  lemma LinkIsUnique(subs: seq<Submission>, links: seq<Link>, kept: set<nat>, like: Like, i: nat, j: nat)
    requires Sound(subs, links, kept, like) && i < |links| && j < |links| && links[i].b == links[j].b
    ensures i == j
  {}

  /** The links form a forest: every chain ends, at an earlier unlinked submission of the same organization. */
  lemma {:induction false} ChainsEnd(subs: seq<Submission>, links: seq<Link>, kept: set<nat>, like: Like, k: nat)
    requires Sound(subs, links, kept, like) && k < |subs|
    ensures var r := Root(subs, links, like, k);
      r <= k && !Linked(links, r) && subs[r].org == subs[k].org && (r == k <==> !Linked(links, k))
    ensures forall i :: 0 <= i < |links| && links[i].b == k ==> Root(subs, links, like, k) == Root(subs, links, like, links[i].a)
    decreases k
  {
    if Linked(links, k) {
      var i :| 0 <= i < |links| && links[i].b == k;
      assert JoinsMatch(subs, links[i], like);
      forall j | 0 <= j < |links| && links[j].b == k ensures j == i {
        LinkIsUnique(subs, links, kept, like, i, j);
      }
      ChainsEnd(subs, links, kept, like, links[i].a);
    }
  }

  lemma MobileComesFirst(subs: seq<Submission>, l: Link, like: Like, j: nat)
    requires JoinsMatch(subs, l, like) && j < l.b && Matches(subs[j], subs[l.b], Mobile, like)
    ensures l.signal == Mobile
  {
    assert Turn(Mobile) < Turn(l.signal) || l.signal == Mobile;
  }

  lemma MobileLink(subs: seq<Submission>, links: seq<Link>, kept: set<nat>, like: Like, j: nat, k: nat) returns (i: nat)
    requires Sound(subs, links, kept, like) && j < k < |subs| && Matches(subs[j], subs[k], Mobile, like)
    ensures i < |links| && links[i].b == k && links[i].a < k && Matches(subs[links[i].a], subs[k], Mobile, like)
  {
    assert MatchesAny(subs[j], subs[k], like);
    assert Linked(links, k);
    i :| 0 <= i < |links| && links[i].b == k;
    assert JoinsMatch(subs, links[i], like);
    MobileComesFirst(subs, links[i], like, j);
  }

  /** Submissions of one organization with one mobile number all lead back to the same original. */
  lemma {:induction false} SameMobileSameOriginal(subs: seq<Submission>, links: seq<Link>, kept: set<nat>, like: Like, j: nat, k: nat)
    requires Sound(subs, links, kept, like) && j < k < |subs|
    requires subs[j].org == subs[k].org && subs[k].mobile != "" && subs[j].mobile == subs[k].mobile
    ensures Root(subs, links, like, j) == Root(subs, links, like, k)
    decreases k
  {
    var i := MobileLink(subs, links, kept, like, j, k);
    var l := links[i];
    ChainsEnd(subs, links, kept, like, k);
    if l.a < j {
      SameMobileSameOriginal(subs, links, kept, like, l.a, j);
    } else if j < l.a {
      SameMobileSameOriginal(subs, links, kept, like, j, l.a);
    }
  }

  predicate SameCard(x: Submission, y: Submission) {
    x.org == y.org && y.card != "" && x.card == y.card
  }

  /** No earlier submission has the mobile number of submission i. */
  predicate NewMobile(subs: seq<Submission>, i: nat, like: Like)
    requires i < |subs|
  {
    forall h :: 0 <= h < i ==> !Matches(subs[h], subs[i], Mobile, like)
  }

  lemma CardLink(subs: seq<Submission>, links: seq<Link>, kept: set<nat>, like: Like, j: nat, k: nat) returns (i: nat)
    requires Sound(subs, links, kept, like) && j < k < |subs| && SameCard(subs[j], subs[k]) && NewMobile(subs, k, like)
    ensures i < |links| && links[i].b == k && links[i].a < k && SameCard(subs[links[i].a], subs[k])
  {
    assert Matches(subs[j], subs[k], VoterCard, like) && MatchesAny(subs[j], subs[k], like);
    assert Linked(links, k);
    i :| 0 <= i < |links| && links[i].b == k;
    var l := links[i];
    assert JoinsMatch(subs, l, like);
    assert !Matches(subs[l.a], subs[k], Mobile, like);
    assert Turn(VoterCard) < Turn(l.signal) || l.signal == VoterCard;
  }

  /**
   Submissions with one voter card lead back to the same original if none of them but the earliest has a mobile
   number that was submitted before.
   */
  lemma {:induction false} SameCardSameOriginal(subs: seq<Submission>, links: seq<Link>, kept: set<nat>, like: Like, j: nat, k: nat)
    requires Sound(subs, links, kept, like) && j < k < |subs| && SameCard(subs[j], subs[k])
    requires forall h, i :: 0 <= h < i <= k && SameCard(subs[h], subs[i]) && SameCard(subs[i], subs[k]) ==> NewMobile(subs, i, like)
    ensures Root(subs, links, like, j) == Root(subs, links, like, k)
    decreases k
  {
    assert NewMobile(subs, k, like);
    var i := CardLink(subs, links, kept, like, j, k);
    var a := links[i].a;
    ChainsEnd(subs, links, kept, like, k);
    if a < j {
      SameCardSameOriginal(subs, links, kept, like, a, j);
    } else if j < a {
      SameCardSameOriginal(subs, links, kept, like, j, a);
    }
  }

  /** The earlier submissions with the card of k lead back to original r. */
  ghost predicate CardLeadsTo(subs: seq<Submission>, links: seq<Link>, like: Like, k: nat, r: nat)
    requires k < |subs| && FirstSignals(subs, links, like)
  {
    forall h :: 0 <= h < k && SameCard(subs[h], subs[k]) ==> Root(subs, links, like, h) == r
  }

  /** Those with its mobile number do. */
  ghost predicate MobileLeadsTo(subs: seq<Submission>, links: seq<Link>, like: Like, k: nat, r: nat)
    requires k < |subs| && FirstSignals(subs, links, like)
  {
    forall h :: 0 <= h < k && Matches(subs[h], subs[k], Mobile, like) ==> Root(subs, links, like, h) == r
  }

  /** If earlier submissions with a card share an original, the next one shares it if and only if its mobile number does. */
  lemma NextCardSharesIff(subs: seq<Submission>, links: seq<Link>, kept: set<nat>, like: Like, j: nat, k: nat)
    requires Sound(subs, links, kept, like) && j < k < |subs| && SameCard(subs[j], subs[k])
    requires CardLeadsTo(subs, links, like, k, Root(subs, links, like, j))
    ensures Root(subs, links, like, k) == Root(subs, links, like, j)
      <==> MobileLeadsTo(subs, links, like, k, Root(subs, links, like, j))
  {
    ChainsEnd(subs, links, kept, like, k);
    if NewMobile(subs, k, like) {
      var i := CardLink(subs, links, kept, like, j, k);
      assert Root(subs, links, like, k) == Root(subs, links, like, links[i].a);
    } else {
      var h :| 0 <= h < k && Matches(subs[h], subs[k], Mobile, like);
      forall g | 0 <= g < k && Matches(subs[g], subs[k], Mobile, like) ensures Root(subs, links, like, g) == Root(subs, links, like, k) {
        SameMobileSameOriginal(subs, links, kept, like, g, k);
      }
    }
  }

  /** Submission f is the first with its card. */
  predicate FirstOfCard(subs: seq<Submission>, f: nat)
    requires f < |subs|
  {
    subs[f].card != "" && forall h :: 0 <= h < f ==> !SameCard(subs[h], subs[f])
  }

  /** Submission k, if it is a later one with the card of f, leads back to where f does. */
  ghost predicate Shares(subs: seq<Submission>, links: seq<Link>, like: Like, f: nat, k: nat)
    requires f < |subs| && k < |subs| && FirstSignals(subs, links, like)
  {
    f < k && SameCard(subs[f], subs[k]) ==> Root(subs, links, like, k) == Root(subs, links, like, f)
  }

  /** Its mobile number does. */
  ghost predicate MobileShares(subs: seq<Submission>, links: seq<Link>, like: Like, f: nat, k: nat)
    requires f < |subs| && k < |subs| && FirstSignals(subs, links, like)
  {
    f < k && SameCard(subs[f], subs[k]) ==> MobileLeadsTo(subs, links, like, k, Root(subs, links, like, f))
  }

  lemma NextSharesIff(subs: seq<Submission>, links: seq<Link>, kept: set<nat>, like: Like, f: nat, k: nat)
    requires Sound(subs, links, kept, like) && f < |subs| && k < |subs| && FirstOfCard(subs, f)
    requires forall h :: 0 <= h < k ==> Shares(subs, links, like, f, h)
    ensures Shares(subs, links, like, f, k) <==> MobileShares(subs, links, like, f, k)
  {
    if f < k && SameCard(subs[f], subs[k]) {
      forall h | 0 <= h < k && SameCard(subs[h], subs[k]) ensures Root(subs, links, like, h) == Root(subs, links, like, f) {
        assert Shares(subs, links, like, f, h);
      }
      NextCardSharesIff(subs, links, kept, like, f, k);
    }
  }

  lemma {:induction false} ByInduction(p: seq<bool>, q: seq<bool>, n: nat)
    requires |p| == |q| && n <= |p|
    requires forall k :: 0 <= k < n && (forall h :: 0 <= h < k ==> p[h]) ==> p[k] == q[k]
    ensures (forall k :: 0 <= k < n ==> p[k]) <==> (forall k :: 0 <= k < n ==> q[k])
    decreases n
  {
    if n > 0 {
      ByInduction(p, q, n - 1);
    }
  }

  /** One card has one original if and only if no mobile number of a later submission with it leads to another original. */
  lemma OneCardOneOriginalIff(subs: seq<Submission>, links: seq<Link>, kept: set<nat>, like: Like, f: nat)
    requires Sound(subs, links, kept, like) && f < |subs| && FirstOfCard(subs, f)
    ensures (forall k :: 0 <= k < |subs| ==> Shares(subs, links, like, f, k)) <==>
      (forall k :: 0 <= k < |subs| ==> MobileShares(subs, links, like, f, k))
  {
    var p := seq(|subs|, k requires 0 <= k < |subs| => Shares(subs, links, like, f, k));
    var q := seq(|subs|, k requires 0 <= k < |subs| => MobileShares(subs, links, like, f, k));
    forall k | 0 <= k < |subs| && (forall h :: 0 <= h < k ==> p[h]) ensures p[k] == q[k] {
      forall h | 0 <= h < k ensures Shares(subs, links, like, f, h) {
        assert p[h];
      }
      NextSharesIff(subs, links, kept, like, f, k);
    }
    ByInduction(p, q, |subs|);
    assert forall k :: 0 <= k < |subs| ==> p[k] == Shares(subs, links, like, f, k) && q[k] == MobileShares(subs, links, like, f, k);
  }

  lemma ShortTexts()
    ensures Text.Strip("1") == "1" && Text.Strip("2") == "2" && Text.Strip("") == "" && Text.Upper(Text.Strip("C")) == "C" && Text.Upper("") == ""
    ensures "1" != "2"
  {
    assert "1"[0] != "2"[0];
    assert Text.StripLeft("C") == "C" && Text.StripRight("C") == "C";
  }

  /**
   Otherwise they need not, because a mobile match comes first: the third submission has the card of the second, but
   is linked to the first, whose mobile it has; the second is an original of its own.
   */
  method SubmitCardTwice(like: Like) returns (r: Registry)
    ensures fresh(r) && r.Valid() && r.like == like && |r.subs| == 3 && SameCard(r.subs[1], r.subs[2])
    ensures Root(r.subs, r.links, like, 2) == 0 && Root(r.subs, r.links, like, 1) == 1
  {
    ShortTexts();
    r := new Registry(like);
    var first := r.Submit(0, "1", "", "", "", None);
    assert r.links == [] && r.subs[0].mobile == "1";
    var second := r.Submit(0, "2", "C", "", "", None);
    assert !MatchesAny(r.subs[0], r.subs[1], like);
    assert r.links == [] && r.subs[1].mobile == "2" && r.subs[0].mobile == "1";
    ghost var before := r.subs;
    var third := r.Submit(0, "1", "C", "", "", None);
    assert r.subs[0] == before[0] && r.subs[1] == before[1];
    LinkedByMobile(r.subs, r.links, r.kept, like);
  }

  lemma UnlinkedIsRoot(subs: seq<Submission>, links: seq<Link>, kept: set<nat>, like: Like, k: nat)
    requires Sound(subs, links, kept, like) && k < |subs| && !Linked(links, k)
    ensures Root(subs, links, like, k) == k
  {
    ChainsEnd(subs, links, kept, like, k);
  }

  lemma RootOfFirst(subs: seq<Submission>, links: seq<Link>, kept: set<nat>, like: Like)
    requires Sound(subs, links, kept, like) && subs != []
    ensures Root(subs, links, like, 0) == 0
  {
    ChainsEnd(subs, links, kept, like, 0);
  }

  lemma MobileRoot(subs: seq<Submission>, links: seq<Link>, kept: set<nat>, like: Like)
    requires Sound(subs, links, kept, like) && |subs| == 3
    requires Matches(subs[0], subs[2], Mobile, like) && subs[1].mobile != subs[2].mobile
    ensures Root(subs, links, like, 2) == 0 && Linked(links, 2)
  {
    var i := MobileLink(subs, links, kept, like, 0, 2);
    ChainsEnd(subs, links, kept, like, 2);
    assert links[i].a == 0;
    RootOfFirst(subs, links, kept, like);
  }

  lemma OnlyLink(links: seq<Link>)
    requires |links| <= 1 && Linked(links, 2)
    ensures !Linked(links, 1)
  {}

  lemma LinkedByMobile(subs: seq<Submission>, links: seq<Link>, kept: set<nat>, like: Like)
    requires Sound(subs, links, kept, like) && |subs| == 3 && |links| <= 1
    requires Matches(subs[0], subs[2], Mobile, like) && subs[1].mobile != subs[2].mobile
    ensures Root(subs, links, like, 2) == 0 && Root(subs, links, like, 1) == 1
  {
    MobileRoot(subs, links, kept, like);
    OnlyLink(links);
    UnlinkedIsRoot(subs, links, kept, like, 1);
  }
}
