/**
 Calls of send_group that overlap. Each tests the status when it begins and sets it when it commits, without a lock,
 and calls the provider for one member after another in between.
 */
module SendRaces {
  datatype Phase = Calling | Committed | Broken

  /** A send that has passed the status test: how many members it has called. */
  datatype Send = Send(called: nat, phase: Phase)

  /** One group of m members. `calls` says how often each was called; `sent` whether the status is SENT. */
  datatype Desk = Desk(m: nat, sent: bool, sends: seq<Send>, calls: seq<nat>, logs: nat)

  datatype Action =
    | Look             // a send finds the status other than SENT
    | Call(i: nat)     // it calls its next member
    | Break(i: nat)    // a text that does not render, or any other exception: rolled back
    | Commit(i: nat)   // the logs of all members, and the status
    | Save             // a draft that was read before the send is written after it: the status is READY

  predicate IsCalling(d: Desk, i: nat) {
    i < |d.sends| && d.sends[i].phase.Calling?
  }

  predicate Can(d: Desk, a: Action) {
    match a
    case Look => !d.sent
    case Call(i) => IsCalling(d, i) && d.sends[i].called < d.m && d.m <= |d.calls|
    case Break(i) => IsCalling(d, i)
    case Commit(i) => IsCalling(d, i) && d.sends[i].called == d.m
    case Save => true
  }

  function Do(d: Desk, a: Action): Desk
    requires Can(d, a)
  {
    match a
    case Look => d.(sends := d.sends + [Send(0, Calling)])
    case Call(i) =>
      var k := d.sends[i].called;
      d.(sends := d.sends[i := Send(k + 1, Calling)], calls := d.calls[k := d.calls[k] + 1])
    case Break(i) => d.(sends := d.sends[i := d.sends[i].(phase := Broken)])
    case Commit(i) => d.(sends := d.sends[i := d.sends[i].(phase := Committed)], sent := true, logs := d.logs + d.m)
    case Save => d.(sent := false)
  }

  predicate ValidRun(d: Desk, run: seq<Action>)
    decreases |run|
  {
    run == [] || (Can(d, run[0]) && ValidRun(Do(d, run[0]), run[1..]))
  }

  function After(d: Desk, run: seq<Action>): Desk
    requires ValidRun(d, run)
    decreases |run|
  {
    if run == [] then d else After(Do(d, run[0]), run[1..])
  }

  // ---------- whom the sends have called ----------

  function One(b: bool): nat {
    if b then 1 else 0
  }

  /** How many of the sends have called member k. */
  function Callers(sends: seq<Send>, k: nat): nat {
    if sends == [] then 0 else One(sends[0].called > k) + Callers(sends[1..], k)
  }

  function Commits(sends: seq<Send>): nat {
    if sends == [] then 0 else One(sends[0].phase.Committed?) + Commits(sends[1..])
  }

  /** Sends that broke off after their first call. */
  function Breaks(sends: seq<Send>): nat {
    if sends == [] then 0 else One(sends[0].phase.Broken? && sends[0].called > 0) + Breaks(sends[1..])
  }

  lemma {:induction false} CountsUpdate(sends: seq<Send>, i: nat, x: Send)
    requires i < |sends|
    ensures Commits(sends[i := x]) + One(sends[i].phase.Committed?) == Commits(sends) + One(x.phase.Committed?)
    ensures Breaks(sends[i := x]) + One(sends[i].phase.Broken? && sends[i].called > 0)
      == Breaks(sends) + One(x.phase.Broken? && x.called > 0)
    decreases |sends|
  {
    if i == 0 {
      assert sends[0 := x][1..] == sends[1..];
    } else {
      assert sends[i := x][1..] == sends[1..][i - 1 := x];
      CountsUpdate(sends[1..], i - 1, x);
    }
  }

  lemma {:induction false} CallersUpdate(sends: seq<Send>, i: nat, x: Send, k: nat)
    requires i < |sends|
    ensures Callers(sends[i := x], k) + One(sends[i].called > k) == Callers(sends, k) + One(x.called > k)
    decreases |sends|
  {
    if i == 0 {
      assert sends[0 := x][1..] == sends[1..];
    } else {
      assert sends[i := x][1..] == sends[1..][i - 1 := x];
      CallersUpdate(sends[1..], i - 1, x, k);
    }
  }

  lemma {:induction false} CountsAppend(sends: seq<Send>, k: nat)
    ensures Callers(sends + [Send(0, Calling)], k) == Callers(sends, k)
    ensures Commits(sends + [Send(0, Calling)]) == Commits(sends) && Breaks(sends + [Send(0, Calling)]) == Breaks(sends)
    decreases |sends|
  {
    if sends != [] {
      assert (sends + [Send(0, Calling)])[1..] == sends[1..] + [Send(0, Calling)];
      CountsAppend(sends[1..], k);
    }
  }

  predicate Counted(d: Desk, k: nat)
    requires k < |d.calls|
  {
    d.calls[k] == Callers(d.sends, k)
  }

  /** The calls are those of the sends, and each commit logs every member. */
  predicate Inv(d: Desk) {
    && |d.calls| == d.m && d.logs == d.m * Commits(d.sends)
    && (forall i :: 0 <= i < |d.sends| ==> d.sends[i].called <= d.m && (d.sends[i].phase.Committed? ==> d.sends[i].called == d.m))
    && (forall k :: 0 <= k < d.m ==> Counted(d, k))
  }

  // ---------- one step ----------

  /** A commit is the first one. */
  predicate CommitsFirst(d: Desk, a: Action) {
    a.Commit? ==> Commits(d.sends) == 0
  }

  /** A send that breaks off has called nobody. */
  predicate BreaksEarly(d: Desk, a: Action) {
    a.Break? && a.i < |d.sends| ==> d.sends[a.i].called == 0
  }

  lemma CallsCounted(d: Desk, a: Action, k: nat)
    requires Inv(d) && Can(d, a) && k < d.m
    ensures k < |Do(d, a).calls| && Counted(Do(d, a), k)
  {
    assert Counted(d, k);
    if a.Look? {
      CountsAppend(d.sends, k);
    } else if !a.Save? {
      CallersUpdate(d.sends, a.i, Do(d, a).sends[a.i], k);
    }
  }

  lemma Tallies(d: Desk, a: Action)
    requires Can(d, a)
    ensures Commits(Do(d, a).sends) == Commits(d.sends) + One(a.Commit?)
    ensures Breaks(Do(d, a).sends) == Breaks(d.sends) + One(!BreaksEarly(d, a))
  {
    if a.Look? {
      CountsAppend(d.sends, 0);
    } else if !a.Save? {
      CountsUpdate(d.sends, a.i, Do(d, a).sends[a.i]);
    }
  }

  lemma LogsNext(m: nat, c: nat)
    ensures m * (c + 1) == m * c + m
  {}

  lemma StepKeepsInv(d: Desk, a: Action)
    requires Inv(d) && Can(d, a)
    ensures Inv(Do(d, a))
  {
    Tallies(d, a);
    LogsNext(d.m, Commits(d.sends));
    forall k | 0 <= k < d.m ensures k < |Do(d, a).calls| && Counted(Do(d, a), k) {
      CallsCounted(d, a, k);
    }
  }

  // ---------- runs ----------

  predicate AllCommitFirst(d: Desk, run: seq<Action>)
    requires ValidRun(d, run)
    decreases |run|
  {
    run == [] || (CommitsFirst(d, run[0]) && AllCommitFirst(Do(d, run[0]), run[1..]))
  }

  predicate AllBreakEarly(d: Desk, run: seq<Action>)
    requires ValidRun(d, run)
    decreases |run|
  {
    run == [] || (BreaksEarly(d, run[0]) && AllBreakEarly(Do(d, run[0]), run[1..]))
  }

  lemma {:induction false} RunDecides(d: Desk, run: seq<Action>)
    requires Inv(d) && ValidRun(d, run)
    ensures Inv(After(d, run))
    ensures Commits(After(d, run).sends) <= 1 <==> Commits(d.sends) <= 1 && AllCommitFirst(d, run)
    ensures Breaks(After(d, run).sends) == 0 <==> Breaks(d.sends) == 0 && AllBreakEarly(d, run)
    decreases |run|
  {
    if run != [] {
      StepKeepsInv(d, run[0]);
      Tallies(d, run[0]);
      RunDecides(Do(d, run[0]), run[1..]);
    }
  }

  function Ready(m: nat): Desk {
    Desk(m, false, [], seq(m, _ => 0), 0)
  }

  lemma {:induction false} NoCallers(k: nat)
    ensures Callers([], k) == 0
  {}

  lemma ReadyHolds(m: nat)
    ensures Inv(Ready(m))
  {
    forall k | 0 <= k < m ensures Counted(Ready(m), k) {
      NoCallers(k);
    }
  }

  /** No send is under way, and the group was sent. */
  predicate Settled(d: Desk) {
    Commits(d.sends) > 0 && forall i :: 0 <= i < |d.sends| ==> !d.sends[i].phase.Calling?
  }

  predicate OnceEach(d: Desk) {
    forall k :: 0 <= k < |d.calls| ==> d.calls[k] == 1
  }

  predicate Idle(sends: seq<Send>, m: nat) {
    forall i :: 0 <= i < |sends| ==> !sends[i].phase.Calling? && (sends[i].phase.Committed? ==> sends[i].called == m)
  }

  /** With no send under way, member k was called by each commit and by the breaks that got past it. */
  lemma {:induction false} CallersAre(sends: seq<Send>, m: nat, k: nat)
    requires Idle(sends, m) && k < m
    ensures Commits(sends) <= Callers(sends, k) <= Commits(sends) + Breaks(sends)
    ensures k == 0 ==> Callers(sends, k) == Commits(sends) + Breaks(sends)
    decreases |sends|
  {
    if sends != [] {
      CallersAre(sends[1..], m, k);
    }
  }

  /**
   In every interleaving, once all sends have ended and one has committed, every member was called exactly once if and
   only if each commit was the first and each send that broke off had called nobody.
   */
  lemma CalledOnceIff(m: nat, run: seq<Action>)
    requires m > 0 && ValidRun(Ready(m), run) && Settled(After(Ready(m), run))
    ensures OnceEach(After(Ready(m), run)) <==> AllCommitFirst(Ready(m), run) && AllBreakEarly(Ready(m), run)
  {
    ReadyHolds(m);
    RunDecides(Ready(m), run);
    var d := After(Ready(m), run);
    RunKeepsSize(Ready(m), run);
    forall k | 0 <= k < m ensures Commits(d.sends) <= d.calls[k] <= Commits(d.sends) + Breaks(d.sends) {
      assert Counted(d, k);
      CallersAre(d.sends, m, k);
    }
    assert Counted(d, 0);
    CallersAre(d.sends, m, 0);
  }

  lemma {:induction false} RunKeepsSize(d: Desk, run: seq<Action>)
    requires ValidRun(d, run)
    ensures After(d, run).m == d.m
    decreases |run|
  {
    if run != [] {
      RunKeepsSize(Do(d, run[0]), run[1..]);
    }
  }

  /** The results then count each member once if and only if each commit was the first. */
  lemma TotalIsMembersIff(m: nat, run: seq<Action>)
    requires m > 0 && ValidRun(Ready(m), run) && Commits(After(Ready(m), run).sends) > 0
    ensures After(Ready(m), run).logs == m <==> AllCommitFirst(Ready(m), run)
  {
    ReadyHolds(m);
    RunDecides(Ready(m), run);
    RunKeepsSize(Ready(m), run);
    OneFold(m, Commits(After(Ready(m), run).sends));
  }

  lemma OneFold(m: nat, c: nat)
    requires m > 0 && c > 0
    ensures m * c == m <==> c <= 1
  {
    if c > 1 {
      assert m * c == m * (c - 1) + m && m * (c - 1) >= m;
    }
  }

  // ---------- two sends at once ----------

  lemma {:induction false} RunsCompose(d: Desk, first: seq<Action>, second: seq<Action>)
    requires ValidRun(d, first) && ValidRun(After(d, first), second)
    ensures ValidRun(d, first + second) && After(d, first + second) == After(After(d, first), second)
    decreases |first|
  {
    if first == [] {
      assert first + second == second;
    } else {
      RunsCompose(Do(d, first[0]), first[1..], second);
      assert (first + second)[1..] == first[1..] + second;
    }
  }

  lemma OneStep(d: Desk, a: Action)
    requires Can(d, a)
    ensures ValidRun(d, [a]) && After(d, [a]) == Do(d, a)
  {
    assert [a][1..] == [];
  }

  /** Send i calls the members that it has not called yet, and commits. */
  lemma {:induction false} CallsTheRest(d: Desk, i: nat) returns (run: seq<Action>)
    requires Inv(d) && IsCalling(d, i)
    ensures ValidRun(d, run)
    ensures var d' := After(d, run);
      d' == d.(sends := d.sends[i := Send(d.m, Committed)], sent := true, logs := d.logs + d.m, calls := d'.calls)
    decreases d.m - d.sends[i].called
  {
    var a := if d.sends[i].called == d.m then Commit(i) else Call(i);
    OneStep(d, a);
    var d1 := Do(d, a);
    if a.Commit? {
      run := [a];
      assert d.sends[i] == Send(d.m, Calling);
    } else {
      StepKeepsInv(d, a);
      var rest := CallsTheRest(d1, i);
      RunsCompose(d, [a], rest);
      run := [a] + rest;
      assert d1.sends[i := Send(d.m, Committed)] == d.sends[i := Send(d.m, Committed)];
    }
  }

  /** Undisturbed, a send calls every member once and logs each. */
  lemma SendAlone(m: nat) returns (run: seq<Action>)
    requires m > 0
    ensures ValidRun(Ready(m), run) && After(Ready(m), run).sends == [Send(m, Committed)]
    ensures var d := After(Ready(m), run); d.sent && d.logs == m && |d.calls| == m && forall k :: 0 <= k < m ==> d.calls[k] == 1
  {
    ReadyHolds(m);
    OneStep(Ready(m), Look);
    var d := Do(Ready(m), Look);
    StepKeepsInv(Ready(m), Look);
    assert d.sends == [Send(0, Calling)];
    var rest := CallsTheRest(d, 0);
    RunDecides(d, rest);
    RunsCompose(Ready(m), [Look], rest);
    run := [Look] + rest;
    OnceCounted(After(d, rest));
  }

  lemma OnceCounted(d: Desk)
    requires Inv(d) && d.m > 0 && d.sends == [Send(d.m, Committed)]
    ensures d.logs == d.m && forall k :: 0 <= k < d.m ==> d.calls[k] == 1
  {
    assert d.sends[1..] == [];
    assert Commits(d.sends) == 1 + Commits([]) && Commits([]) == 0;
    forall k | 0 <= k < d.m ensures d.calls[k] == 1 {
      assert Counted(d, k);
      NoCallers(k);
    }
  }

  /**
   Sends need not even overlap: a draft that was read before the send and is written after it makes the group READY
   again, and the next send calls every member a second time.
   */
  lemma LateDraftSendsAgain(m: nat) returns (run: seq<Action>)
    requires m > 0
    ensures ValidRun(Ready(m), run)
    ensures var d := After(Ready(m), run); d.sent && d.logs == 2 * m && |d.calls| == m && forall k :: 0 <= k < m ==> d.calls[k] == 2
  {
    var first := SendAlone(m);
    ReadyHolds(m);
    RunDecides(Ready(m), first);
    RunKeepsSize(Ready(m), first);
    var d := After(Ready(m), first);
    var second := SaveAndSend(d);
    RunsCompose(Ready(m), first, second);
    run := first + second;
    EndsTwice(After(d, second));
  }

  lemma SaveAndSend(d: Desk) returns (run: seq<Action>)
    requires Inv(d) && d.m > 0 && d.sends == [Send(d.m, Committed)]
    ensures ValidRun(d, run) && Inv(After(d, run)) && After(d, run).m == d.m && After(d, run).sent
    ensures After(d, run).sends == [Send(d.m, Committed), Send(d.m, Committed)]
  {
    var d1 := Do(d, Save);
    var d2 := Do(d1, Look);
    OneStep(d, Save);
    OneStep(d1, Look);
    StepKeepsInv(d, Save);
    StepKeepsInv(d1, Look);
    var rest := CallsTheRest(d2, 1);
    RunDecides(d2, rest);
    RunsCompose(d1, [Look], rest);
    RunsCompose(d, [Save], [Look] + rest);
    run := [Save] + ([Look] + rest);
  }

  lemma BothLook(m: nat)
    ensures ValidRun(Ready(m), [Look, Look]) && After(Ready(m), [Look, Look]).sends == [Send(0, Calling), Send(0, Calling)]
    ensures After(Ready(m), [Look, Look]).m == m && Inv(After(Ready(m), [Look, Look]))
  {
    ReadyHolds(m);
    assert [Look, Look][1..] == [Look] && [Look][1..] == [];
    StepKeepsInv(Ready(m), Look);
    StepKeepsInv(Do(Ready(m), Look), Look);
  }

  /** Two sends that have both passed the status test call every member twice and leave two logs for each. */
  lemma TwoSendsCallTwice(m: nat) returns (run: seq<Action>)
    requires m > 0
    ensures ValidRun(Ready(m), run)
    ensures var d := After(Ready(m), run);
      && Settled(d) && |d.calls| == m && d.logs == 2 * m
      && forall k :: 0 <= k < m ==> d.calls[k] == 2
  {
    BothLook(m);
    var d := After(Ready(m), [Look, Look]);
    var first := CallsTheRest(d, 0);
    var d1 := After(d, first);
    RunDecides(d, first);
    var second := CallsTheRest(d1, 1);
    RunDecides(d1, second);
    RunsCompose(d, first, second);
    RunsCompose(Ready(m), [Look, Look], first + second);
    run := [Look, Look] + (first + second);
    EndsTwice(After(d1, second));
  }

  lemma TwoCounted(x: Send, k: nat)
    requires x.phase.Committed? && x.called > k
    ensures Callers([x, x], k) == 2 && Commits([x, x]) == 2
  {
    assert [x, x][1..] == [x] && [x][1..] == [];
    assert Callers([x], k) == 1 && Commits([x]) == 1;
  }

  lemma EndsTwice(d: Desk)
    requires Inv(d) && d.m > 0 && d.sends == [Send(d.m, Committed), Send(d.m, Committed)]
    ensures Commits(d.sends) == 2 && d.logs == 2 * d.m && forall k :: 0 <= k < d.m ==> d.calls[k] == 2
  {
    TwoCounted(Send(d.m, Committed), 0);
    forall k | 0 <= k < d.m ensures d.calls[k] == 2 {
      assert Counted(d, k);
      TwoCounted(Send(d.m, Committed), k);
    }
  }

  /** A send that breaks off after its first call leaves no log and the group READY: the next one calls that member again. */
  lemma BrokenSendCallsAgain(m: nat) returns (run: seq<Action>)
    requires m > 0
    ensures ValidRun(Ready(m), run)
    ensures var d := After(Ready(m), run);
      && d.sent && d.logs == m && |d.calls| == m
      && forall k :: 0 <= k < m ==> d.calls[k] == if k == 0 then 2 else 1
  {
    var d := BreaksOff(m);
    var d1 := Do(d, Look);
    OneStep(d, Look);
    StepKeepsInv(d, Look);
    var rest := CallsTheRest(d1, 1);
    RunDecides(d1, rest);
    RunsCompose(d, [Look], rest);
    RunsCompose(Ready(m), [Look, Call(0), Break(0)], [Look] + rest);
    run := [Look, Call(0), Break(0)] + ([Look] + rest);
    var d' := After(d1, rest);
    assert d'.sends[1..] == [Send(m, Committed)] && [Send(m, Committed)][1..] == [];
    assert Commits(d'.sends) == 1;
    forall k | 0 <= k < m ensures d'.calls[k] == if k == 0 then 2 else 1 {
      assert Counted(d', k);
      assert Callers(d'.sends[1..], k) == 1;
    }
  }

  lemma BreaksOff(m: nat) returns (d: Desk)
    requires m > 0
    ensures ValidRun(Ready(m), [Look, Call(0), Break(0)]) && d == After(Ready(m), [Look, Call(0), Break(0)])
    ensures Inv(d) && d.m == m && d.sends == [Send(1, Broken)] && !d.sent
  {
    ReadyHolds(m);
    var d1 := Do(Ready(m), Look);
    StepKeepsInv(Ready(m), Look);
    var d2 := Do(d1, Call(0));
    StepKeepsInv(d1, Call(0));
    d := Do(d2, Break(0));
    StepKeepsInv(d2, Break(0));
    OneStep(d2, Break(0));
    assert [Look, Call(0), Break(0)][1..] == [Call(0), Break(0)] && [Call(0), Break(0)][1..] == [Break(0)];
  }
}
