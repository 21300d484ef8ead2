/** The broadcast groups of app/services/broadcast_service.py. */
module Broadcast {
  import opened Types
  import opened Text
  import Cardinality
  import Sequences

  datatype Channel = WhatsApp | Sms

  /** The columns of a voter row that a group is made from; an empty string stands for a missing value too. */
  datatype Contact = Contact(id: Id, org: Id, name: string, ward: string, phone: string, mobile: string, channel: string)

  datatype Member = Member(voter: Id, mobile: string, route: Channel, name: string, ward: string)

  /** (voter.phone_number or voter.mobile or "").strip() */
  function MobileOf(v: Contact): string {
    Strip(if v.phone != "" then v.phone else v.mobile)
  }

  predicate Reachable(v: Contact) {
    MobileOf(v) != ""
  }

  function MemberOf(v: Contact): Member {
    Member(v.id, MobileOf(v), if Lower(Strip(v.channel)) == "whatsapp" then WhatsApp else Sms, v.name, v.ward)
  }

  /** What a voter row becomes: the phone number counts before the mobile one, and WhatsApp has to be asked for. */
  lemma MemberOnColumns(v: Contact)
    ensures var m := MemberOf(v); m.voter == v.id && m.name == v.name && m.ward == v.ward
    ensures v.phone != "" ==> MemberOf(v).mobile == Strip(v.phone) && (Reachable(v) <==> Strip(v.phone) != "")
    ensures v.phone == "" ==> MemberOf(v).mobile == Strip(v.mobile) && (Reachable(v) <==> Strip(v.mobile) != "")
    ensures MemberOf(v).route == WhatsApp <==> Lower(Strip(v.channel)) == "whatsapp"
  {}

  // ---------- who is in a group ----------

  function Wanted(voters: seq<Contact>, org: Id, ids: seq<Id>): seq<Contact> {
    if voters == [] then []
    else
      var rest := Wanted(voters[..|voters| - 1], org, ids);
      var v := voters[|voters| - 1];
      if v.org == org && (ids == [] || v.id in ids) then rest + [v] else rest
  }

  function MembersFrom(chosen: seq<Contact>): seq<Member> {
    if chosen == [] then []
    else
      var rest := MembersFrom(chosen[..|chosen| - 1]);
      var v := chosen[|chosen| - 1];
      if Reachable(v) then rest + [MemberOf(v)] else rest
  }

  /** The members are the reachable ones of the chosen voters. */
  lemma {:induction false} MembersAreReachable(chosen: seq<Contact>)
    ensures forall m :: m in MembersFrom(chosen) <==> exists v :: v in chosen && Reachable(v) && MemberOf(v) == m
    ensures MembersFrom(chosen) != [] <==> exists v :: v in chosen && Reachable(v)
  {
    if chosen != [] {
      var front := chosen[..|chosen| - 1];
      MembersAreReachable(front);
      assert chosen == front + [chosen[|chosen| - 1]];
    }
  }

  predicate DistinctContacts(voters: seq<Contact>) {
    forall i, j :: 0 <= i < j < |voters| ==> voters[i].id != voters[j].id
  }

  function IdsOf(voters: seq<Contact>): set<Id> {
    set v | v in voters :: v.id
  }

  predicate Belongs(voters: seq<Contact>, org: Id, id: Id) {
    exists v :: v in voters && v.id == id && v.org == org
  }

  lemma {:induction false} WantedContacts(voters: seq<Contact>, org: Id, ids: seq<Id>)
    requires DistinctContacts(voters)
    ensures forall v :: v in Wanted(voters, org, ids) <==> v in voters && v.org == org && (ids == [] || v.id in ids)
    ensures DistinctContacts(Wanted(voters, org, ids))
  {
    if voters != [] {
      var front := voters[..|voters| - 1];
      var last := voters[|voters| - 1];
      WantedContacts(front, org, ids);
      assert voters == front + [last];
      forall v | v in Wanted(front, org, ids) ensures v.id != last.id {
        assert v in front;
      }
    }
  }

  lemma {:induction false} CountOfIds(voters: seq<Contact>)
    requires DistinctContacts(voters)
    ensures |IdsOf(voters)| == |voters|
  {
    if voters != [] {
      var front := voters[..|voters| - 1];
      var last := voters[|voters| - 1];
      CountOfIds(front);
      assert voters == front + [last];
      assert IdsOf(voters) == IdsOf(front) + {last.id};
    }
  }

  /** set(payload.voter_ids) */
  function Asked(ids: seq<Id>): set<Id> {
    set id | id in ids
  }

  /** Comparing the two counts finds out exactly whether every id asked for is a voter of the organization. */
  lemma CountTestIsMembership(voters: seq<Contact>, org: Id, ids: seq<Id>)
    requires DistinctContacts(voters) && ids != []
    ensures |Wanted(voters, org, ids)| == |Asked(ids)| <==> forall id :: id in ids ==> Belongs(voters, org, id)
  {
    var found := Wanted(voters, org, ids);
    var asked := Asked(ids);
    WantedContacts(voters, org, ids);
    CountOfIds(found);
    Cardinality.ProperSubsetIsSmaller(IdsOf(found), asked);
    if IdsOf(found) == asked {
      forall id | id in ids ensures Belongs(voters, org, id) {
        assert id in asked;
        var v :| v in found && v.id == id;
      }
    }
    if forall id :: id in ids ==> Belongs(voters, org, id) {
      forall id | id in asked ensures id in IdsOf(found) {
        assert Belongs(voters, org, id);
        var v :| v in voters && v.id == id && v.org == org;
        assert v in found;
      }
      assert IdsOf(found) == asked;
    }
  }

  // ---------- one group ----------

  datatype GroupStatus = Draft | Ready | Sent

  datatype Outcome = Success | Failed

  datatype Log = Log(voter: Id, mobile: string, channel: Channel, outcome: Outcome)

  datatype Results = Results(success: bool, total: nat, whatsappSent: nat, smsSent: nat, failed: nat)

  function SentBy(logs: seq<Log>, channel: Channel): (n: nat)
    ensures n <= |logs|
  {
    if logs == [] then 0
    else SentBy(logs[1..], channel) + if logs[0].outcome.Success? && logs[0].channel == channel then 1 else 0
  }

  function FailedIn(logs: seq<Log>): (n: nat)
    ensures n <= |logs|
  {
    if logs == [] then 0 else FailedIn(logs[1..]) + if logs[0].outcome.Failed? then 1 else 0
  }

  /** group_results */
  function ResultsOf(logs: seq<Log>): Results {
    Results(forall log :: log in logs ==> log.outcome.Success?,
      |logs|, SentBy(logs, WhatsApp), SentBy(logs, Sms), FailedIn(logs))
  }

  /** Every attempt is in one of the three counts, and the group is a success exactly if none failed. */
  lemma {:induction false} ResultsAddUp(logs: seq<Log>)
    ensures ResultsOf(logs).total == ResultsOf(logs).whatsappSent + ResultsOf(logs).smsSent + ResultsOf(logs).failed
    ensures ResultsOf(logs).success <==> ResultsOf(logs).failed == 0
  {
    if logs != [] {
      ResultsAddUp(logs[1..]);
      assert logs == [logs[0]] + logs[1..];
    }
  }

  lemma {:induction false} SentOnTheLogs(logs: seq<Log>, channel: Channel)
    ensures SentBy(logs, channel) == |set i | 0 <= i < |logs| && logs[i].outcome == Success && logs[i].channel == channel|
  {
    var all: set<nat> := set i | 0 <= i < |logs| && logs[i].outcome == Success && logs[i].channel == channel;
    if logs != [] {
      SentOnTheLogs(logs[1..], channel);
      Sequences.SizeOfLater(all);
      assert Sequences.Later(all) == set i | 0 <= i < |logs[1..]| && logs[1..][i].outcome == Success && logs[1..][i].channel == channel;
    }
  }

  /** The counts of the results, on the log rows. */
  lemma ResultsOnTheLogs(logs: seq<Log>)
    ensures var r := ResultsOf(logs);
      && r.total == |logs|
      && r.whatsappSent == |set i | 0 <= i < |logs| && logs[i].outcome == Success && logs[i].channel == WhatsApp|
      && r.smsSent == |set i | 0 <= i < |logs| && logs[i].outcome == Success && logs[i].channel == Sms|
      && (r.success <==> forall i :: 0 <= i < |logs| ==> logs[i].outcome == Success)
  {
    SentOnTheLogs(logs, WhatsApp);
    SentOnTheLogs(logs, Sms);
  }

  /** One send: what the provider answers to each call, and whether the commit goes through. */
  datatype Attempt = Attempt(answers: seq<Outcome>, commits: bool)

  /** Whether Jinja renders the text for a member; it depends on nothing else. */
  type Renderer = (string, Member) -> bool

  predicate RendersAll(renders: Renderer, text: string, members: seq<Member>) {
    forall k :: 0 <= k < |members| ==> renders(text, members[k])
  }

  /** A send of a group that was not sent yet: the text it rendered and whether its commit went through. */
  datatype Try = Try(text: string, commits: bool)

  /** The first member that the text does not render for, or how many members there are. */
  function Reached(renders: Renderer, text: string, members: seq<Member>): (n: nat)
    ensures n <= |members| && (n < |members| ==> !renders(text, members[n]))
    ensures forall k :: 0 <= k < n ==> renders(text, members[k])
  {
    if members == [] || !renders(text, members[0]) then 0 else 1 + Reached(renders, text, members[1..])
  }

  predicate Succeeds(renders: Renderer, members: seq<Member>, t: Try) {
    t.commits && RendersAll(renders, t.text, members)
  }

  /** The provider calls for member k: one by each try that got past the members before and rendered for k. */
  function CallsOf(renders: Renderer, members: seq<Member>, tries: seq<Try>, k: nat): nat {
    if tries == [] then 0
    else
      var last := if k < Reached(renders, tries[|tries| - 1].text, members) then 1 else 0;
      CallsOf(renders, members, tries[..|tries| - 1], k) + last
  }

  predicate CallsExplained(calls: seq<nat>, renders: Renderer, members: seq<Member>, tries: seq<Try>) {
    |calls| == |members| && forall k :: 0 <= k < |calls| ==> calls[k] == CallsOf(renders, members, tries, k)
  }

  /** Only the last try of a sent group succeeded, and none of another. */
  predicate TriesEnd(renders: Renderer, members: seq<Member>, tries: seq<Try>, sent: bool) {
    && (forall i :: 0 <= i < |tries| - 1 ==> !Succeeds(renders, members, tries[i]))
    && (sent ==> tries != [])
    && (tries != [] ==> (Succeeds(renders, members, tries[|tries| - 1]) <==> sent))
  }

  predicate LogsOf(logs: seq<Log>, members: seq<Member>) {
    |logs| == |members| && forall k :: 0 <= k < |logs| ==>
      logs[k].voter == members[k].voter && logs[k].mobile == members[k].mobile && logs[k].channel == members[k].route
  }

  class Group {
    const members: seq<Member>
    const excluded: nat
    const renders: Renderer
    var text: string
    var status: GroupStatus
    var logs: seq<Log>
    ghost var calls: seq<nat>      // history: provider calls made for each member
    ghost var tries: seq<Try>      // history: the sends begun until one succeeded

    ghost predicate Valid()
      reads this
    {
      && members != []
      && (status.Draft? <==> text == "") && (text != "" ==> Strip(text) != "")
      && (if status.Sent? then LogsOf(logs, members) && RendersAll(renders, text, members) else logs == [])
      && CallsExplained(calls, renders, members, tries) && TriesEnd(renders, members, tries, status.Sent?)
    }

    /** The rows that create_group stores for the chosen voters. */
    constructor (chosen: seq<Contact>, renders: Renderer)
      requires MembersFrom(chosen) != []
      ensures Valid() && members == MembersFrom(chosen) && excluded + |members| == |chosen|
      ensures status.Draft? && tries == [] && this.renders == renders
    {
      var included: seq<Member>, none: nat := [], 0;
      for i := 0 to |chosen|
        invariant included == MembersFrom(chosen[..i]) && none + |included| == i
      {
        assert chosen[..i + 1][..i] == chosen[..i];
        if MobileOf(chosen[i]) == "" {
          none := none + 1;
        } else {
          included := included + [MemberOf(chosen[i])];
        }
      }
      assert chosen[..|chosen|] == chosen;
      members := included;
      excluded := none;
      this.renders := renders;
      text := "";
      status := GroupStatus.Draft;
      logs := [];
      calls := seq(|included|, _ => 0);
      tries := [];
    }

    /** save_group_draft; a sent message is frozen. */
    method SaveDraft(message: string) returns (ok: bool)
      requires Valid()
      modifies this`text, this`status
      ensures Valid() && ok == (Strip(message) != "" && !old(status).Sent?)
      ensures if ok then text == message && status == Ready else text == old(text) && status == old(status)
    {
      if Strip(message) == "" {
        return false;
      }
      if status == Sent {
        return false;
      }
      text := message;
      status := Ready;
      StripOfEmpty();
      ok := true;
    }

    /**
     send_group. A render that raises, or a commit that fails, rolls the logs and the status back; the provider
     calls made by then cannot be. A try makes one call for each member before the first that does not render.
     */
    method Send(attempt: Attempt) returns (r: Option<Results>)
      requires Valid() && |attempt.answers| == |members|
      modifies this`status, this`logs, this`calls, this`tries
      ensures Valid()
      ensures r.Some? <==> old(status).Sent? || (old(status).Ready? && Succeeds(renders, members, Try(text, attempt.commits)))
      ensures tries == if old(status).Ready? then old(tries) + [Try(text, attempt.commits)] else old(tries)
      ensures !old(status).Ready? ==> calls == old(calls) && status == old(status) && logs == old(logs)
      ensures r.Some? ==> status.Sent? && r.value == ResultsOf(logs)
      ensures old(status).Ready? ==>
        (r.Some? <==> attempt.commits && forall k :: 0 <= k < |members| ==> renders(text, members[k]))
      ensures r.Some? && old(status).Ready? ==> forall k :: 0 <= k < |members| ==> logs[k].outcome == attempt.answers[k]
      ensures r.None? ==> status == old(status) && logs == old(logs)
    {
      if text == "" || Strip(text) == "" {
        return None;
      }
      if status == Sent {
        return Some(ResultsOf(logs));
      }
      ghost var attempted := Try(text, attempt.commits);
      ghost var before := calls;
      var pending, raised := CallMembers(attempt);
      TryExplained(before, calls, renders, members, tries, attempted);
      TriesEndAfter(renders, members, tries, attempted);
      tries := tries + [attempted];
      if raised || !attempt.commits {
        return None;
      }
      logs := pending;
      status := Sent;
      r := Some(ResultsOf(logs));
    }

    /** The loop over the members, up to the first one that the text does not render for. */
    method CallMembers(attempt: Attempt) returns (pending: seq<Log>, raised: bool)
      requires |attempt.answers| == |members| == |calls|
      modifies this`calls
      ensures raised <==> Reached(renders, text, members) < |members|
      ensures raised <==> !RendersAll(renders, text, members)
      ensures |calls| == |members|
      ensures forall k :: 0 <= k < |members| ==> calls[k] == old(calls)[k] + if k < Reached(renders, text, members) then 1 else 0
      ensures !raised ==> LogsOf(pending, members) && forall k :: 0 <= k < |members| ==> pending[k].outcome == attempt.answers[k]
    {
      pending := [];
      for k := 0 to |members|
        invariant |calls| == |members| && |pending| == k && LogsOf(pending, members[..k])
        invariant forall j :: 0 <= j < k ==> pending[j].outcome == attempt.answers[j] && renders(text, members[j])
        invariant forall j :: 0 <= j < |members| ==> calls[j] == old(calls)[j] + if j < k then 1 else 0
      {
        var member := members[k];
        if !renders(text, member) {
          FirstIsReached(renders, text, members, k);
          return pending, true;
        }
        calls := calls[k := calls[k] + 1];
        pending := pending + [Log(member.voter, member.mobile, member.route, attempt.answers[k])];
      }
      assert members[..|members|] == members;
      FirstIsReached(renders, text, members, |members|);
      raised := false;
    }

    /** group_results */
    method ReadResults() returns (r: Results)
      requires Valid()
      ensures r == ResultsOf(logs)
      ensures r.total == r.whatsappSent + r.smsSent + r.failed && (r.success <==> r.failed == 0)
      ensures r.total == if status.Sent? then |members| else 0
    {
      ResultsAddUp(logs);
      r := ResultsOf(logs);
    }
  }

  lemma StripOfEmpty()
    ensures Strip("") == ""
  {}

  lemma {:induction false} FirstIsReached(renders: Renderer, text: string, members: seq<Member>, k: nat)
    requires k <= |members| && (k < |members| ==> !renders(text, members[k]))
    requires forall j :: 0 <= j < k ==> renders(text, members[j])
    ensures Reached(renders, text, members) == k
  {}

  lemma TryExplained(before: seq<nat>, calls: seq<nat>, renders: Renderer, members: seq<Member>, tries: seq<Try>, t: Try)
    requires CallsExplained(before, renders, members, tries) && |calls| == |before|
    requires forall j :: 0 <= j < |calls| ==> calls[j] == before[j] + if j < Reached(renders, t.text, members) then 1 else 0
    ensures CallsExplained(calls, renders, members, tries + [t])
  {
    assert (tries + [t])[..|tries|] == tries;
  }

  lemma TriesEndAfter(renders: Renderer, members: seq<Member>, tries: seq<Try>, t: Try)
    requires TriesEnd(renders, members, tries, false)
    ensures TriesEnd(renders, members, tries + [t], Succeeds(renders, members, t))
  {
    forall i | 0 <= i < |tries| ensures !Succeeds(renders, members, (tries + [t])[i]) {
      assert (tries + [t])[i] == tries[i];
    }
  }

  /** An earlier member is called at least as often as a later one. */
  lemma {:induction false} EarlierCalledMore(renders: Renderer, members: seq<Member>, tries: seq<Try>, j: nat, k: nat)
    requires j <= k
    ensures CallsOf(renders, members, tries, k) <= CallsOf(renders, members, tries, j)
  {
    if tries != [] {
      EarlierCalledMore(renders, members, tries[..|tries| - 1], j, k);
    }
  }

  lemma {:induction false} FirstUncalledIff(renders: Renderer, members: seq<Member>, tries: seq<Try>)
    requires members != []
    ensures CallsOf(renders, members, tries, 0) == 0 <==> forall i :: 0 <= i < |tries| ==> !renders(tries[i].text, members[0])
  {
    if tries != [] {
      var front := tries[..|tries| - 1];
      FirstUncalledIff(renders, members, front);
      assert forall i :: 0 <= i < |front| ==> tries[i] == front[i];
    }
  }

  predicate EachOnce(renders: Renderer, members: seq<Member>, tries: seq<Try>) {
    forall k :: 0 <= k < |members| ==> CallsOf(renders, members, tries, k) == 1
  }

  /**
   Of a sent group every member was called exactly once if and only if none of the earlier texts rendered for the
   first member; each was called at least once.
   */
  lemma ExactlyOnceIff(renders: Renderer, members: seq<Member>, tries: seq<Try>)
    requires members != [] && TriesEnd(renders, members, tries, true)
    ensures EachOnce(renders, members, tries) <==> forall i :: 0 <= i < |tries| - 1 ==> !renders(tries[i].text, members[0])
    ensures forall k :: 0 <= k < |members| ==> CallsOf(renders, members, tries, k) >= 1
  {
    var earlier := tries[..|tries| - 1];
    forall k | 0 <= k < |members| ensures CallsOf(renders, members, tries, k) == CallsOf(renders, members, earlier, k) + 1 {
      LastTryCallsAll(renders, members, tries, k);
    }
    FirstUncalledIff(renders, members, earlier);
    assert forall i :: 0 <= i < |earlier| ==> earlier[i] == tries[i];
    forall k | 0 <= k < |members| ensures CallsOf(renders, members, earlier, k) <= CallsOf(renders, members, earlier, 0) {
      EarlierCalledMore(renders, members, earlier, 0, k);
    }
  }

  lemma LastTryCallsAll(renders: Renderer, members: seq<Member>, tries: seq<Try>, k: nat)
    requires tries != [] && RendersAll(renders, tries[|tries| - 1].text, members) && k < |members|
    ensures CallsOf(renders, members, tries, k) == CallsOf(renders, members, tries[..|tries| - 1], k) + 1
  {
    FirstIsReached(renders, tries[|tries| - 1].text, members, |members|);
  }

  /** create_group: which voters a request selects, and when it is refused. */
  method CreateGroup(voters: seq<Contact>, org: Id, ids: seq<Id>, renders: Renderer) returns (group: Group?)
    requires DistinctContacts(voters)
    ensures var chosen := Wanted(voters, org, ids);
      group != null <==>
        (ids == [] || forall id :: id in ids ==> Belongs(voters, org, id)) && exists v :: v in chosen && Reachable(v)
    ensures group != null ==>
      fresh(group) && group.Valid() && group.status.Draft? && group.members == MembersFrom(Wanted(voters, org, ids))
      && group.excluded + |group.members| == |Wanted(voters, org, ids)|
  {
    var chosen := Wanted(voters, org, ids);
    MembersAreReachable(chosen);
    if ids != [] {
      CountTestIsMembership(voters, org, ids);
    }
    if ids != [] && |chosen| != |Asked(ids)| {
      return null;
    }
    if MembersFrom(chosen) == [] {
      return null;
    }
    group := new Group(chosen, renders);
  }

}
