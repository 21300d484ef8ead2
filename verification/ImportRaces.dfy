/**
 Confirmations and cancellations of import jobs that overlap. Each reads the job's status without a lock and writes
 later, so a job's voters can come in more than once.
 */
module ImportRaces {
  import opened Types
  import opened Import

  /** `reading` has the confirmations past their status test; `times` is history, how often each job was imported. */
  datatype Desk = Desk(jobs: seq<Option<Job>>, roll: seq<Entry>, reading: map<Id, nat>, times: seq<nat>)

  datatype Action =
    | Hold(job: Job)          // a preview stores a job
    | Look(p: Id, id: nat)    // a confirmation finds its job PREVIEW_READY
    | Write(p: Id)            // and imports it
    | Drop(id: nat)           // a cancellation deletes a job that it had read as PREVIEW_READY
    | Add(entry: Entry)       // a voter from any other service

  predicate IsReady(d: Desk, id: nat) {
    id < |d.jobs| && d.jobs[id].Some? && d.jobs[id].value.status.PreviewReady?
  }

  predicate Can(d: Desk, a: Action) {
    match a
    case Hold(job) => JobHolds(job, 0)
    case Look(p, id) => p !in d.reading && IsReady(d, id)
    case Write(p) => p in d.reading
    case Drop(id) => id < |d.jobs| && d.jobs[id].Some?
    case Add(_) => true
  }

  /** The UPDATE of a job that is gone fails, and the whole request with it. */
  function Do(d: Desk, a: Action): Desk
    requires Can(d, a) && |d.times| == |d.jobs|
  {
    match a
    case Hold(job) => d.(jobs := d.jobs + [Some(job)], times := d.times + [0])
    case Look(p, id) => d.(reading := d.reading[p := id])
    case Write(p) =>
      var id := d.reading[p];
      var d' := d.(reading := d.reading - {p});
      if id < |d.jobs| && d.jobs[id].Some? then
        var job := d.jobs[id].value;
        d'.(jobs := d.jobs[id := Some(job.(status := Completed, imported := job.valid))],
            roll := d.roll + Entries(job.election, job.held), times := d.times[id := d.times[id] + 1])
      else d'
    case Drop(id) => d.(jobs := d.jobs[id := None])
    case Add(entry) => d.(roll := d.roll + [entry])
  }

  predicate ValidRun(d: Desk, run: seq<Action>)
    requires |d.times| == |d.jobs|
    decreases |run|
  {
    run == [] || (Can(d, run[0]) && ValidRun(Do(d, run[0]), run[1..]))
  }

  function After(d: Desk, run: seq<Action>): (d': Desk)
    requires |d.times| == |d.jobs| && ValidRun(d, run)
    ensures |d'.times| == |d'.jobs|
    decreases |run|
  {
    if run == [] then d else After(Do(d, run[0]), run[1..])
  }

  /** A job that is there is COMPLETED exactly if it was imported. */
  predicate Counted(d: Desk) {
    && |d.times| == |d.jobs|
    && forall id :: 0 <= id < |d.jobs| && d.jobs[id].Some? ==> (d.jobs[id].value.status.Completed? <==> d.times[id] > 0)
  }

  predicate OnceEach(d: Desk) {
    forall id :: 0 <= id < |d.times| ==> d.times[id] <= 1
  }

  /** The status test that a confirmation makes when it reads, and not again when it writes. */
  predicate WritesReady(d: Desk, a: Action) {
    a.Write? && a.p in d.reading && d.reading[a.p] < |d.jobs| && d.jobs[d.reading[a.p]].Some? ==> IsReady(d, d.reading[a.p])
  }

  predicate AllWriteReady(d: Desk, run: seq<Action>)
    requires |d.times| == |d.jobs| && ValidRun(d, run)
    decreases |run|
  {
    run == [] || (WritesReady(d, run[0]) && AllWriteReady(Do(d, run[0]), run[1..]))
  }

  lemma StepDecides(d: Desk, a: Action)
    requires Counted(d) && Can(d, a)
    ensures Counted(Do(d, a))
    ensures OnceEach(Do(d, a)) <==> OnceEach(d) && WritesReady(d, a)
  {
    var d' := Do(d, a);
    if a.Write? && d.reading[a.p] < |d.jobs| && d.jobs[d.reading[a.p]].Some? {
      var id := d.reading[a.p];
      assert d'.times[id] == d.times[id] + 1;
      assert forall k :: 0 <= k < |d.times| && k != id ==> d'.times[k] == d.times[k];
    } else {
      assert forall k :: 0 <= k < |d.times| ==> d'.times[k] == d.times[k];
    }
  }

  lemma {:induction false} RunDecides(d: Desk, run: seq<Action>)
    requires Counted(d) && ValidRun(d, run)
    ensures Counted(After(d, run))
    ensures OnceEach(After(d, run)) <==> OnceEach(d) && AllWriteReady(d, run)
    decreases |run|
  {
    if run != [] {
      StepDecides(d, run[0]);
      RunDecides(Do(d, run[0]), run[1..]);
    }
  }

  /** In every interleaving each job is imported at most once if and only if every confirmation writes while its job is still PREVIEW_READY. */
  lemma ImportedOnceIffNoRace(roll: seq<Entry>, run: seq<Action>)
    requires ValidRun(Desk([], roll, map[], []), run)
    ensures OnceEach(After(Desk([], roll, map[], []), run)) <==> AllWriteReady(Desk([], roll, map[], []), run)
  {
    RunDecides(Desk([], roll, map[], []), run);
  }

  /** Undisturbed, the two steps of a confirmation are `BulkImport.Confirm`: every held record comes in, once. */
  lemma ConfirmAlone(d: Desk, p: Id, id: nat)
    requires |d.times| == |d.jobs| && p !in d.reading && IsReady(d, id)
    ensures ValidRun(d, [Look(p, id), Write(p)])
    ensures var job := d.jobs[id].value; var d' := After(d, [Look(p, id), Write(p)]);
      && d'.jobs == d.jobs[id := Some(job.(status := Completed, imported := job.valid))] && d'.reading == d.reading
      && |d'.roll| == |d.roll| + |job.held| && d'.roll[..|d.roll|] == d.roll
      && forall k :: 0 <= k < |job.held| ==> d'.roll[|d.roll| + k] == Entry(Some(job.election), Some(job.held[k].id))
  {
    var d1 := Do(d, Look(p, id));
    FirstStep(d1, Write(p), []);
    FirstStep(d, Look(p, id), [Write(p)] + []);
    assert [Look(p, id), Write(p)] == [Look(p, id)] + ([Write(p)] + []);
    assert d1.reading - {p} == d.reading;
  }

  /** A previewed job gets its own row, and its confirmation brings in what the preview holds. */
  lemma PreviewThenConfirm(d: Desk, p: Id, job: Job)
    requires |d.times| == |d.jobs| && p !in d.reading && JobHolds(job, 0)
    ensures Can(d, Hold(job)) && !IsReady(d, |d.jobs|) && IsReady(Do(d, Hold(job)), |d.jobs|)
    ensures ValidRun(Do(d, Hold(job)), [Look(p, |d.jobs|), Write(p)])
    ensures var d' := After(Do(d, Hold(job)), [Look(p, |d.jobs|), Write(p)]);
      && d'.roll == d.roll + Entries(job.election, job.held) && d'.times == d.times + [1]
      && d'.jobs == d.jobs + [Some(job.(status := Completed, imported := |job.held|))]
  {
    var d1 := Do(d, Hold(job));
    ConfirmAlone(d1, p, |d.jobs|);
    var d2 := Do(d1, Look(p, |d.jobs|));
    FirstStep(d2, Write(p), []);
    FirstStep(d1, Look(p, |d.jobs|), [Write(p)] + []);
    assert [Look(p, |d.jobs|), Write(p)] == [Look(p, |d.jobs|)] + ([Write(p)] + []);
  }

  /** A job cancelled under its confirmation brings in nothing; a voter added meanwhile stays and comes before the rows. */
  lemma ConfirmBesideOthers(d: Desk, p: Id, id: nat, entry: Entry)
    requires |d.times| == |d.jobs| && p !in d.reading && IsReady(d, id)
    ensures ValidRun(d, [Look(p, id), Drop(id), Write(p)]) && ValidRun(d, [Look(p, id), Add(entry), Write(p)])
    ensures After(d, [Look(p, id), Drop(id), Write(p)]) == d.(jobs := d.jobs[id := None])
    ensures After(d, [Look(p, id), Add(entry), Write(p)]).roll
      == d.roll + [entry] + Entries(d.jobs[id].value.election, d.jobs[id].value.held)
  {
    var d1 := Do(d, Look(p, id));
    forall a | a == Drop(id) || a == Add(entry)
      ensures ValidRun(d, [Look(p, id), a, Write(p)])
      ensures After(d, [Look(p, id), a, Write(p)]) == Do(Do(d1, a), Write(p))
    {
      FirstStep(Do(d1, a), Write(p), []);
      FirstStep(d1, a, [Write(p)] + []);
      FirstStep(d, Look(p, id), [a] + ([Write(p)] + []));
      assert [Look(p, id), a, Write(p)] == [Look(p, id)] + ([a] + ([Write(p)] + []));
    }
    assert d1.reading - {p} == d.reading;
  }

  lemma FirstStep(d: Desk, a: Action, rest: seq<Action>)
    requires |d.times| == |d.jobs| && Can(d, a) && ValidRun(Do(d, a), rest)
    ensures ValidRun(d, [a] + rest) && After(d, [a] + rest) == After(Do(d, a), rest)
  {
    assert ([a] + rest)[1..] == rest;
  }
}
