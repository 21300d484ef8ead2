/** The spreadsheet rows and the import jobs of app/services/import_service.py. */
module Import {
  import opened Types
  import opened Text
  import Sequences

  /** What row.get finds: no such column, an empty cell, or text. */
  datatype Cell = Absent | NaN | Holds(text: string)

  datatype Row = Row(id: Cell, name: Cell, last: Cell)

  datatype Record = Record(id: string, first: string, last: string)

  datatype Problem = MissingId | MissingName | DuplicateId

  /** An ImportError row. */
  datatype Report = Report(rowNumber: nat, problem: Problem)

  /** str(row.get(column, "")) */
  function Shown(c: Cell): string {
    match c
    case Absent => ""
    case NaN => "nan"
    case Holds(text) => text
  }

  function IdOf(row: Row): string {
    Upper(Strip(Shown(row.id)))
  }

  /** First and last name, splitting a full name that came without a last name. */
  function NameOf(row: Row): (string, string) {
    var first := Strip(Shown(row.name));
    var given := Strip(Shown(row.last));
    var last := if given == "NAN" then "" else given;
    if first != "" && ' ' in first && last == "" then (Words(first)[0], Join(Words(first)[1..])) else (first, last)
  }

  function RecordOf(row: Row): Record {
    Record(IdOf(row), NameOf(row).0, NameOf(row).1)
  }

  /** What is wrong with a row by itself. */
  function Defect(r: Record): Option<Problem> {
    if r.id == "" || r.id == "NAN" then Some(MissingId)
    else if r.first == "" || r.first == "NAN" then Some(MissingName)
    else None
  }

  function Readings(sheet: seq<Row>): seq<Record> {
    seq(|sheet|, i requires 0 <= i < |sheet| => RecordOf(sheet[i]))
  }

  /** An earlier good row, or the election, has the id of row i. */
  predicate Repeats(rows: seq<Record>, existing: set<string>, i: nat)
    requires i < |rows|
  {
    rows[i].id in existing || exists j :: 0 <= j < i && Defect(rows[j]).None? && rows[j].id == rows[i].id
  }

  function Outcome(rows: seq<Record>, existing: set<string>, i: nat): Option<Problem>
    requires i < |rows|
  {
    if Defect(rows[i]).Some? then Defect(rows[i])
    else if Repeats(rows, existing, i) then Some(DuplicateId)
    else None
  }

  /** Filter, then keep first occurrences: the records of the first n rows that nothing is wrong with. */
  function Chosen(rows: seq<Record>, existing: set<string>, n: nat): seq<Record>
    requires n <= |rows|
  {
    if n == 0 then []
    else Chosen(rows, existing, n - 1) + if Outcome(rows, existing, n - 1).None? then [rows[n - 1]] else []
  }

  /** The reports on the first n rows; the header is row 1 of the sheet. */
  function Reported(rows: seq<Record>, existing: set<string>, n: nat): seq<Report>
    requires n <= |rows|
  {
    if n == 0 then []
    else
      var wrong := Outcome(rows, existing, n - 1);
      Reported(rows, existing, n - 1) + if wrong.Some? then [Report(n + 1, wrong.value)] else []
  }

  /** The records a preview of the sheet holds. */
  function ChosenRecords(sheet: seq<Row>, existing: set<string>): seq<Record> {
    Chosen(Readings(sheet), existing, |sheet|)
  }

  function Reports(sheet: seq<Row>, existing: set<string>): seq<Report> {
    Reported(Readings(sheet), existing, |sheet|)
  }

  function Duplicates(reports: seq<Report>): (n: nat)
    ensures n <= |reports|
  {
    if reports == [] then 0
    else Duplicates(reports[..|reports| - 1]) + if reports[|reports| - 1].problem.DuplicateId? then 1 else 0
  }

  ghost function Ids(records: seq<Record>): set<string> {
    set k | 0 <= k < |records| :: records[k].id
  }

  predicate DistinctIds(records: seq<Record>) {
    forall i, j :: 0 <= i < j < |records| ==> records[i].id != records[j].id
  }

  /** The ids of the rows that have nothing wrong by themselves. */
  ghost function GoodIds(rows: seq<Record>, n: nat): set<string>
    requires n <= |rows|
  {
    set i | 0 <= i < n && Defect(rows[i]).None? :: rows[i].id
  }

  lemma GoodIdsStep(rows: seq<Record>, n: nat)
    requires n < |rows|
    ensures GoodIds(rows, n + 1) == GoodIds(rows, n) + if Defect(rows[n]).None? then {rows[n].id} else {}
  {
    if Defect(rows[n]).None? {
      assert rows[n].id in GoodIds(rows, n + 1);
    }
    forall x | x in GoodIds(rows, n) ensures x in GoodIds(rows, n + 1) {
      var i :| 0 <= i < n && Defect(rows[i]).None? && rows[i].id == x;
      assert i < n + 1;
    }
  }

  lemma RepeatsIffSeen(rows: seq<Record>, existing: set<string>, n: nat)
    requires n < |rows|
    ensures Repeats(rows, existing, n) <==> rows[n].id in existing + GoodIds(rows, n)
  {}

  lemma ChosenIdsNext(rows: seq<Record>, existing: set<string>, n: nat)
    requires n < |rows| && Ids(Chosen(rows, existing, n)) == GoodIds(rows, n) - existing && DistinctIds(Chosen(rows, existing, n))
    ensures Ids(Chosen(rows, existing, n + 1)) == GoodIds(rows, n + 1) - existing && DistinctIds(Chosen(rows, existing, n + 1))
  {
    GoodIdsStep(rows, n);
    RepeatsIffSeen(rows, existing, n);
    if Outcome(rows, existing, n).None? {
      IdsAppend(Chosen(rows, existing, n), rows[n]);
    } else {
      assert Chosen(rows, existing, n + 1) == Chosen(rows, existing, n);
    }
  }

  lemma {:induction false} ChosenIdsUpTo(rows: seq<Record>, existing: set<string>, n: nat)
    requires n <= |rows|
    ensures Ids(Chosen(rows, existing, n)) == GoodIds(rows, n) - existing
    ensures DistinctIds(Chosen(rows, existing, n))
  {
    if n > 0 {
      ChosenIdsUpTo(rows, existing, n - 1);
      ChosenIdsNext(rows, existing, n - 1);
    }
  }

  /** The ids of the rows of a sheet that have nothing wrong by themselves. */
  ghost function GoodIdsOf(sheet: seq<Row>): set<string> {
    set row | row in sheet && Defect(RecordOf(row)).None? :: IdOf(row)
  }

  lemma GoodIdsAreOfRows(sheet: seq<Row>)
    ensures GoodIds(Readings(sheet), |sheet|) == GoodIdsOf(sheet)
  {
    var rows := Readings(sheet);
    forall x | x in GoodIds(rows, |sheet|) ensures x in GoodIdsOf(sheet) {
      var i :| 0 <= i < |sheet| && Defect(rows[i]).None? && rows[i].id == x;
      assert sheet[i] in sheet && rows[i] == RecordOf(sheet[i]);
    }
    forall x | x in GoodIdsOf(sheet) ensures x in GoodIds(rows, |sheet|) {
      var row :| row in sheet && Defect(RecordOf(row)).None? && IdOf(row) == x;
      var i :| 0 <= i < |sheet| && sheet[i] == row;
      assert rows[i] == RecordOf(row);
    }
  }

  /** The import brings in exactly the good ids that the election does not have, so the order of rows does not matter. */
  lemma ChosenIds(sheet: seq<Row>, existing: set<string>)
    ensures Ids(ChosenRecords(sheet, existing)) == GoodIdsOf(sheet) - existing
    ensures DistinctIds(ChosenRecords(sheet, existing))
  {
    GoodIdsAreOfRows(sheet);
    ChosenIdsUpTo(Readings(sheet), existing, |sheet|);
  }

  lemma IdsAppend(records: seq<Record>, r: Record)
    ensures Ids(records + [r]) == Ids(records) + {r.id}
    ensures DistinctIds(records) && r.id !in Ids(records) ==> DistinctIds(records + [r])
  {
    var after := records + [r];
    forall x | x in Ids(records) + {r.id} ensures x in Ids(after) {
      if x in Ids(records) {
        var k :| 0 <= k < |records| && records[k].id == x;
        assert after[k].id == x;
      } else {
        assert after[|records|].id == x;
      }
    }
    if DistinctIds(records) && r.id !in Ids(records) {
      forall i, j | 0 <= i < j < |after| ensures after[i].id != after[j].id {
        assert records[i].id in Ids(records);
      }
    }
  }

  /** The reports of the first n rows and where they point. */
  predicate InOrder(reports: seq<Report>, n: nat) {
    && (forall k :: 0 <= k < |reports| ==> 2 <= reports[k].rowNumber <= n + 1)
    && (forall k, m :: 0 <= k < m < |reports| ==> reports[k].rowNumber < reports[m].rowNumber)
  }

  lemma {:induction false} EveryRowOnceUpTo(rows: seq<Record>, existing: set<string>, n: nat)
    requires n <= |rows|
    ensures |Chosen(rows, existing, n)| + |Reported(rows, existing, n)| == n
    ensures InOrder(Reported(rows, existing, n), n)
  {
    if n > 0 {
      EveryRowOnceUpTo(rows, existing, n - 1);
    }
  }

  /** Each row is either chosen or reported, and reported in the order of the file and once. */
  lemma EveryRowOnce(sheet: seq<Row>, existing: set<string>)
    ensures |ChosenRecords(sheet, existing)| + |Reports(sheet, existing)| == |sheet|
    ensures InOrder(Reports(sheet, existing), |sheet|)
  {
    EveryRowOnceUpTo(Readings(sheet), existing, |sheet|);
  }

  lemma NoIdsNoRecords(records: seq<Record>)
    ensures |records| > 0 ==> Ids(records) != {}
  {
    if |records| > 0 {
      assert records[0].id in Ids(records);
    }
  }

  /** Importing the same file again, after the first import is in, brings in nothing. */
  lemma ReimportAddsNothing(sheet: seq<Row>, existing: set<string>)
    ensures |ChosenRecords(sheet, existing + Ids(ChosenRecords(sheet, existing)))| == 0
  {
    ChosenIds(sheet, existing);
    ChosenIds(sheet, existing + Ids(ChosenRecords(sheet, existing)));
    NoIdsNoRecords(ChosenRecords(sheet, existing + Ids(ChosenRecords(sheet, existing))));
  }

  /** Without a last name, splitting a full name loses no word of it; a given last name stays beside the first. */
  lemma SplitNameKeepsWords(row: Row)
    requires Strip(Shown(row.name)) != ""
    ensures var last := Strip(Shown(row.last));
      if last == "" || last == "NAN" then Words(NameOf(row).0 + " " + NameOf(row).1) == Words(Strip(Shown(row.name)))
      else NameOf(row) == (Strip(Shown(row.name)), last)
    ensures var name, last := Strip(Shown(row.name)), Strip(Shown(row.last));
      && (' ' in name && (last == "" || last == "NAN") ==> NameOf(row).0 == Words(name)[0])
      && (' ' !in name && (last == "" || last == "NAN") ==> NameOf(row) == (name, ""))
  {
    var first := Strip(Shown(row.name));
    var last := Strip(Shown(row.last));
    if last == "" || last == "NAN" {
      if ' ' in first {
        SplitKeepsWords(first);
      } else {
        assert NameOf(row) == (first, "");
        assert first + " " == first + " " + "";
        TrailingBlank(first);
      }
    }
  }

  /**
   The tests for "NAN" come after an upper-casing only for the id. An empty name cell is read as the name "nan"
   and imported, and an empty last name is stored as "nan" and keeps a full name from being split.
   */
  lemma EmptyNamesArriveAsNan(id: string, name: string)
    requires Strip(name) == name && name != "" && name != "NAN"
    requires Upper(Strip(id)) != "" && Upper(Strip(id)) != "NAN"
    ensures Defect(RecordOf(Row(NaN, Holds(name), Absent))) == Some(MissingId)
    ensures RecordOf(Row(Holds(id), NaN, Absent)).first == "nan" && Defect(RecordOf(Row(Holds(id), NaN, Absent))).None?
    ensures RecordOf(Row(Holds(id), Holds(name), NaN)) == Record(Upper(Strip(id)), name, "nan")
  {
    assert StripLeft("nan") == "nan" && StripRight("nan") == "nan";
    assert Upper("nan") == "NAN";
    assert Strip("") == "";
    assert ' ' !in "nan";
  }

  lemma OneMore(reports: seq<Report>, r: Report)
    ensures Duplicates(reports + [r]) == Duplicates(reports) + if r.problem.DuplicateId? then 1 else 0
  {
    assert (reports + [r])[..|reports|] == reports;
  }

  /** What one turn of the loop sees and adds. */
  lemma OneRow(rows: seq<Record>, existing: set<string>, seen: set<string>, i: nat)
    requires i < |rows| && existing + seen == existing + GoodIds(rows, i)
    ensures var r := rows[i];
      var problem := if Defect(r).Some? then Defect(r) else if r.id in seen || r.id in existing then Some(DuplicateId) else None;
      && Chosen(rows, existing, i + 1) == Chosen(rows, existing, i) + (if problem.None? then [r] else [])
      && Reported(rows, existing, i + 1)
        == Reported(rows, existing, i) + (if problem.Some? then [Report(i + 2, problem.value)] else [])
      && existing + (if problem.None? then seen + {r.id} else seen) == existing + GoodIds(rows, i + 1)
      && Duplicates(Reported(rows, existing, i + 1))
        == Duplicates(Reported(rows, existing, i)) + (if problem == Some(DuplicateId) then 1 else 0)
      && |Reported(rows, existing, i + 1)| == |Reported(rows, existing, i)| + (if problem.Some? then 1 else 0)
  {
    if Outcome(rows, existing, i).Some? {
      OneMore(Reported(rows, existing, i), Report(i + 2, Outcome(rows, existing, i).value));
    } else {
      assert Reported(rows, existing, i + 1) == Reported(rows, existing, i);
    }
    var id := rows[i].id;
    GoodIdsStep(rows, i);
    RepeatsIffSeen(rows, existing, i);
    assert id in existing + seen <==> id in seen || id in existing;
    assert id in existing + GoodIds(rows, i) <==> Repeats(rows, existing, i);
  }

  // ---------- the verdicts, on the columns of the rows ----------

  /** The id and the name are there. */
  predicate Sane(r: Record) {
    r.id !in {"", "NAN"} && r.first !in {"", "NAN"}
  }

  predicate SaneBefore(rows: seq<Record>, i: nat, id: string)
    requires i <= |rows|
  {
    exists j :: 0 <= j < i && Sane(rows[j]) && rows[j].id == id
  }

  lemma OutcomeOnColumns(rows: seq<Record>, existing: set<string>, i: nat)
    requires i < |rows|
    ensures Outcome(rows, existing, i) == Some(MissingId) <==> rows[i].id in {"", "NAN"}
    ensures Outcome(rows, existing, i) == Some(MissingName) <==> rows[i].id !in {"", "NAN"} && rows[i].first in {"", "NAN"}
    ensures Outcome(rows, existing, i) == Some(DuplicateId) <==>
      Sane(rows[i]) && (rows[i].id in existing || SaneBefore(rows, i, rows[i].id))
  {
    assert forall j :: 0 <= j < i ==> (Defect(rows[j]).None? <==> Sane(rows[j]));
  }

  lemma {:induction false} ReportedIff(rows: seq<Record>, existing: set<string>, n: nat, r: Report)
    requires n <= |rows|
    ensures r in Reported(rows, existing, n) <==>
      2 <= r.rowNumber < n + 2 && Outcome(rows, existing, r.rowNumber - 2) == Some(r.problem)
  {
    if n > 0 {
      ReportedIff(rows, existing, n - 1, r);
    }
  }

  ghost function Unreported(rows: seq<Record>, existing: set<string>, n: nat): set<nat>
    requires n <= |rows|
  {
    set i | 0 <= i < n && Outcome(rows, existing, i).None?
  }

  lemma UnreportedNext(rows: seq<Record>, existing: set<string>, n: nat)
    requires n < |rows|
    ensures Unreported(rows, existing, n + 1) == Unreported(rows, existing, n) + if Outcome(rows, existing, n).None? then {n} else {}
  {}

  lemma PickedNext(before: seq<Record>, x: Record, keep: set<nat>, chosen: seq<Record>, taken: bool,
      after: seq<Record>, keep': set<nat>, chosen': seq<Record>)
    requires Sequences.Picks(before, keep, chosen) && after == before + [x]
    requires keep' == keep + (if taken then {|before|} else {}) && chosen' == chosen + if taken then [x] else []
    ensures Sequences.Picks(after, keep', chosen')
  {
    Sequences.PicksBack(before, keep, chosen, x);
    assert !taken ==> keep' == keep && chosen' == chosen;
  }

  lemma ChosenNext(rows: seq<Record>, existing: set<string>, n: nat)
    requires n < |rows|
    ensures Chosen(rows, existing, n + 1) == Chosen(rows, existing, n) + if Outcome(rows, existing, n).None? then [rows[n]] else []
    ensures rows[..n + 1] == rows[..n] + [rows[n]]
  {}

  lemma {:induction false} ChosenPicked(rows: seq<Record>, existing: set<string>, n: nat)
    requires n <= |rows|
    ensures Sequences.Picks(rows[..n], Unreported(rows, existing, n), Chosen(rows, existing, n))
  {
    if n == 0 {
      assert Unreported(rows, existing, 0) == {};
    } else {
      ChosenPicked(rows, existing, n - 1);
      UnreportedNext(rows, existing, n - 1);
      ChosenNext(rows, existing, n - 1);
      PickedNext(rows[..n - 1], rows[n - 1], Unreported(rows, existing, n - 1), Chosen(rows, existing, n - 1),
        Outcome(rows, existing, n - 1).None?, rows[..n], Unreported(rows, existing, n), Chosen(rows, existing, n));
    }
  }

  /** Row i of the sheet, the header being the first line, has a report. */
  predicate IsReported(reports: seq<Report>, i: nat) {
    exists r :: r in reports && r.rowNumber == i + 2
  }

  lemma UnreportedIff(rows: seq<Record>, existing: set<string>, i: nat)
    requires i < |rows|
    ensures IsReported(Reported(rows, existing, |rows|), i) <==> Outcome(rows, existing, i).Some?
  {
    var reports := Reported(rows, existing, |rows|);
    if r :| r in reports && r.rowNumber == i + 2 {
      ReportedIff(rows, existing, |rows|, r);
    }
    if Outcome(rows, existing, i).Some? {
      ReportedIff(rows, existing, |rows|, Report(i + 2, Outcome(rows, existing, i).value));
    }
  }

  /** Why row i is reported. */
  lemma VerdictOnTheRow(rows: seq<Record>, existing: set<string>, i: nat)
    requires i < |rows|
    ensures var reports := Reported(rows, existing, |rows|);
      && (Report(i + 2, MissingId) in reports <==> rows[i].id in {"", "NAN"})
      && (Report(i + 2, MissingName) in reports <==> rows[i].id !in {"", "NAN"} && rows[i].first in {"", "NAN"})
      && (Report(i + 2, DuplicateId) in reports <==> Sane(rows[i]) && (rows[i].id in existing || SaneBefore(rows, i, rows[i].id)))
  {
    ReportedIff(rows, existing, |rows|, Report(i + 2, MissingId));
    ReportedIff(rows, existing, |rows|, Report(i + 2, MissingName));
    ReportedIff(rows, existing, |rows|, Report(i + 2, DuplicateId));
    OutcomeOnColumns(rows, existing, i);
  }

  /** What is held: all the rows without a report, in their order. */
  lemma HeldAreUnreported(rows: seq<Record>, existing: set<string>)
    ensures var reports := Reported(rows, existing, |rows|);
      Sequences.Picks(rows, (set i | 0 <= i < |rows| && !IsReported(reports, i)), Chosen(rows, existing, |rows|))
  {
    var reports := Reported(rows, existing, |rows|);
    ChosenPicked(rows, existing, |rows|);
    assert rows[..|rows|] == rows;
    forall i: nat | i < |rows| ensures IsReported(reports, i) <==> i !in Unreported(rows, existing, |rows|) {
      UnreportedIff(rows, existing, i);
    }
    assert Unreported(rows, existing, |rows|) == set i | 0 <= i < |rows| && !IsReported(reports, i);
  }

  /** The reports that are, or are not, about a duplicate. */
  ghost function OfKind(reports: seq<Report>, duplicate: bool): set<nat> {
    set k | 0 <= k < |reports| && (reports[k].problem == DuplicateId <==> duplicate)
  }

  lemma OfKindNext(reports: seq<Report>, r: Report, duplicate: bool)
    ensures OfKind(reports + [r], duplicate) ==
      OfKind(reports, duplicate) + if r.problem == DuplicateId <==> duplicate then {|reports|} else {}
  {}

  lemma {:induction false} KindsCounted(reports: seq<Report>)
    ensures Duplicates(reports) == |OfKind(reports, true)| && |reports| - Duplicates(reports) == |OfKind(reports, false)|
  {
    if reports != [] {
      var before, r := reports[..|reports| - 1], reports[|reports| - 1];
      assert reports == before + [r];
      KindsCounted(before);
      OfKindNext(before, r, true);
      OfKindNext(before, r, false);
    }
  }

  lemma DuplicatesCounted(reports: seq<Report>)
    ensures Duplicates(reports) == |set k | 0 <= k < |reports| && reports[k].problem == DuplicateId|
    ensures |reports| - Duplicates(reports) == |set k | 0 <= k < |reports| && reports[k].problem != DuplicateId|
  {
    KindsCounted(reports);
    assert OfKind(reports, true) == set k | 0 <= k < |reports| && reports[k].problem == DuplicateId;
    assert OfKind(reports, false) == set k | 0 <= k < |reports| && reports[k].problem != DuplicateId;
  }

  // ---------- jobs ----------

  datatype JobStatus = PreviewReady | Completed

  datatype Job = Job(org: Id, election: Id, status: JobStatus, total: nat, valid: nat, duplicates: nat, invalid: nat,
    imported: nat, held: seq<Record>)

  /** A voter row, as far as the import looks at it. */
  datatype Entry = Entry(election: Option<Id>, id: Option<string>)

  /** Voter.voter_id_number where Voter.election_id == election. */
  ghost function RollIds(roll: seq<Entry>, election: Id): set<string> {
    set i | 0 <= i < |roll| && roll[i].election == Some(election) && roll[i].id.Some? :: roll[i].id.value
  }

  predicate UniqueIn(roll: seq<Entry>, election: Id) {
    forall i, j :: 0 <= i < j < |roll| && roll[i].election == Some(election) && roll[j] == roll[i] ==> roll[i].id.None?
  }

  function Entries(election: Id, held: seq<Record>): seq<Entry> {
    seq(|held|, k requires 0 <= k < |held| => Entry(Some(election), Some(held[k].id)))
  }

  lemma ClashIsSeen(roll: seq<Entry>, election: Id, held: seq<Record>, i: nat, k: nat)
    requires i < |roll| && k < |held|
    requires roll[i] == Entry(Some(election), Some(held[k].id))
    ensures !UniqueIn(roll + Entries(election, held), election)
    ensures !(Ids(held) !! RollIds(roll, election))
  {
    var after := roll + Entries(election, held);
    assert after[i] == roll[i] && after[|roll| + k] == Entries(election, held)[k];
    assert held[k].id in Ids(held) && roll[i].id.value in RollIds(roll, election);
  }

  /** A confirmation keeps the ids of the election unique exactly if no held id has come in since the preview. */
  lemma ConfirmKeepsUniqueIff(roll: seq<Entry>, election: Id, held: seq<Record>)
    requires UniqueIn(roll, election) && DistinctIds(held)
    ensures UniqueIn(roll + Entries(election, held), election) <==> Ids(held) !! RollIds(roll, election)
  {
    var after := roll + Entries(election, held);
    if Ids(held) !! RollIds(roll, election) {
      forall i, j | 0 <= i < j < |after| && after[i].election == Some(election) && after[j] == after[i] ensures after[i].id.None? {
        if i < |roll| <= j && roll[i].id.Some? {
          ClashIsSeen(roll, election, held, i, j - |roll|);
        }
      }
    } else {
      var id :| id in Ids(held) && id in RollIds(roll, election);
      var k :| 0 <= k < |held| && held[k].id == id;
      var i :| 0 <= i < |roll| && roll[i].election == Some(election) && roll[i].id == Some(id);
      ClashIsSeen(roll, election, held, i, k);
    }
  }

  /** Entries for other elections in between do no harm. */
  lemma UndisturbedImportKeepsUnique(roll: seq<Entry>, roll': seq<Entry>, election: Id, sheet: seq<Row>)
    requires UniqueIn(roll', election) && RollIds(roll', election) == RollIds(roll, election)
    ensures UniqueIn(roll' + Entries(election, ChosenRecords(sheet, RollIds(roll, election))), election)
  {
    ChosenIds(sheet, RollIds(roll, election));
    ConfirmKeepsUniqueIff(roll', election, ChosenRecords(sheet, RollIds(roll, election)));
  }

  /** Two previews of one file, then both confirmed: whatever the first brought in is there twice. */
  lemma TwoPreviewsClash(roll: seq<Entry>, election: Id, sheet: seq<Row>)
    ensures var held := ChosenRecords(sheet, RollIds(roll, election));
      |held| > 0 ==> !UniqueIn(roll + Entries(election, held) + Entries(election, held), election)
  {
    var held := ChosenRecords(sheet, RollIds(roll, election));
    if |held| > 0 {
      var once := roll + Entries(election, held);
      assert once[|roll|] == Entries(election, held)[0];
      ClashIsSeen(once, election, held, |roll|, 0);
    }
  }

  function ImportedIn(jobs: seq<Option<Job>>): nat {
    if jobs == [] then 0
    else ImportedIn(jobs[..|jobs| - 1]) + (match jobs[|jobs| - 1] case None => 0 case Some(job) => job.imported)
  }

  lemma {:induction false} ImportedAfterUpdate(jobs: seq<Option<Job>>, i: nat, job: Option<Job>)
    requires i < |jobs|
    ensures ImportedIn(jobs[i := job]) + (if jobs[i].Some? then jobs[i].value.imported else 0)
      == ImportedIn(jobs) + (if job.Some? then job.value.imported else 0)
  {
    var changed := jobs[i := job];
    var n := |jobs| - 1;
    if i < n {
      assert changed[..n] == jobs[..n][i := job];
      ImportedAfterUpdate(jobs[..n], i, job);
    } else {
      assert changed[..n] == jobs[..n];
    }
  }

  predicate JobHolds(job: Job, confirmations: nat) {
    && job.total == job.valid + job.duplicates + job.invalid
    && job.valid == |job.held| && DistinctIds(job.held)
    && job.imported == (if job.status.Completed? then job.valid else 0)
    && confirmations == (if job.status.Completed? then 1 else 0)
  }

  /**
   What every run keeps. `confirmations` counts how often each job was confirmed, `others` the voters that came
   in by other ways; both are history.
   */
  ghost predicate Consistent(jobs: seq<Option<Job>>, roll: seq<Entry>, confirmations: seq<nat>, others: nat) {
    && |confirmations| == |jobs|
    && (forall i :: 0 <= i < |jobs| && jobs[i].Some? ==> JobHolds(jobs[i].value, confirmations[i]))
    && (forall i :: 0 <= i < |jobs| && jobs[i].None? ==> confirmations[i] == 0)
    && |roll| == others + ImportedIn(jobs)
  }

  function PreviewJob(org: Id, election: Id, total: nat, held: seq<Record>, reports: seq<Report>): Job {
    Job(org, election, PreviewReady, total, |held|, Duplicates(reports), |reports| - Duplicates(reports), 0, held)
  }

  /** The columns of a new job: what its counters count. */
  ghost predicate JobShows(job: Job, org: Id, election: Id, total: nat, reports: seq<Report>) {
    && job.org == org && job.election == election && job.status == PreviewReady && job.total == total && job.imported == 0
    && job.valid == |job.held|
    && job.duplicates == |set k | 0 <= k < |reports| && reports[k].problem == DuplicateId|
    && job.invalid == |set k | 0 <= k < |reports| && reports[k].problem != DuplicateId|
  }

  lemma JobShowsReports(org: Id, election: Id, total: nat, held: seq<Record>, reports: seq<Report>)
    ensures JobShows(PreviewJob(org, election, total, held, reports), org, election, total, reports)
  {
    DuplicatesCounted(reports);
  }

  lemma PreviewAccounts(org: Id, election: Id, rows: seq<Record>, existing: set<string>)
    ensures var held := Chosen(rows, existing, |rows|);
      JobHolds(PreviewJob(org, election, |rows|, held, Reported(rows, existing, |rows|)), 0)
  {
    ChosenIdsUpTo(rows, existing, |rows|);
    EveryRowOnceUpTo(rows, existing, |rows|);
  }

  lemma NewJobKeepsConsistent(jobs: seq<Option<Job>>, roll: seq<Entry>, confirmations: seq<nat>, others: nat, job: Job)
    requires Consistent(jobs, roll, confirmations, others) && JobHolds(job, 0) && job.imported == 0
    ensures Consistent(jobs + [Some(job)], roll, confirmations + [0], others)
  {
    assert (jobs + [Some(job)])[..|jobs|] == jobs;
  }

  class BulkImport {
    var jobs: seq<Option<Job>>   // by job id; None once cancelled
    var roll: seq<Entry>
    ghost var confirmations: seq<nat>
    ghost var others: nat

    ghost predicate Valid()
      reads this
    {
      Consistent(jobs, roll, confirmations, others)
    }

    constructor ()
      ensures Valid() && jobs == [] && roll == [] && confirmations == []
    {
      jobs, roll, confirmations, others := [], [], [], 0;
    }

    /** process_upload_and_preview, from the job on. */
    method Preview(org: Id, election: Id, sheet: seq<Row>) returns (id: nat, reports: seq<Report>)
      requires Valid()
      modifies this`jobs, this`confirmations
      ensures Valid() && id == |old(jobs)|
      ensures reports == Reports(sheet, RollIds(roll, election))
      ensures jobs == old(jobs) + [Some(PreviewJob(org, election, |sheet|, ChosenRecords(sheet, RollIds(roll, election)), reports))]
      ensures jobs[id].Some? && JobShows(jobs[id].value, org, election, |sheet|, reports)
    {
      var existing := CollectIds(election);
      var job;
      job, reports := MakeJob(org, election, sheet, existing);
      id := StoreJob(job);
      assert jobs[id] == Some(job);
    }

    /** The job that the preview stores. */
    static method MakeJob(org: Id, election: Id, sheet: seq<Row>, existing: set<string>) returns (job: Job, reports: seq<Report>)
      ensures reports == Reports(sheet, existing)
      ensures job == PreviewJob(org, election, |sheet|, ChosenRecords(sheet, existing), reports)
      ensures JobHolds(job, 0) && JobShows(job, org, election, |sheet|, reports)
    {
      var rows := Readings(sheet);
      var valid, duplicates, invalid;
      valid, reports, duplicates, invalid := Check(rows, existing);
      PreviewAccounts(org, election, rows, existing);
      JobShowsReports(org, election, |rows|, valid, reports);
      job := Job(org, election, PreviewReady, |rows|, |valid|, duplicates, invalid, 0, valid);
    }

    /** job_repo.create and update */
    method StoreJob(job: Job) returns (id: nat)
      requires Valid() && JobHolds(job, 0) && job.imported == 0
      modifies this`jobs, this`confirmations
      ensures Valid() && id == |old(jobs)| && jobs == old(jobs) + [Some(job)] && confirmations == old(confirmations) + [0]
    {
      id := |jobs|;
      NewJobKeepsConsistent(jobs, roll, confirmations, others, job);
      jobs := jobs + [Some(job)];
      confirmations := confirmations + [0];
    }

    /** The loop over the rows; seen holds the good ids so far that the election does not have. */
    static method Check(rows: seq<Record>, existing: set<string>)
        returns (valid: seq<Record>, reports: seq<Report>, duplicates: nat, invalid: nat)
      ensures valid == Chosen(rows, existing, |rows|) && reports == Reported(rows, existing, |rows|)
      ensures duplicates == Duplicates(reports) && duplicates + invalid == |reports|
    {
      var seen: set<string> := {};
      valid, reports := [], [];
      duplicates, invalid := 0, 0;
      for i := 0 to |rows|
        invariant existing + seen == existing + GoodIds(rows, i)
        invariant valid == Chosen(rows, existing, i) && reports == Reported(rows, existing, i)
        invariant duplicates == Duplicates(reports) && duplicates + invalid == |reports|
      {
        var record := rows[i];
        OneRow(rows, existing, seen, i);
        if record.id == "" || record.id == "NAN" {
          reports := reports + [Report(i + 2, MissingId)];
          invalid := invalid + 1;
        } else if record.first == "" || record.first == "NAN" {
          reports := reports + [Report(i + 2, MissingName)];
          invalid := invalid + 1;
        } else if record.id in seen || record.id in existing {
          duplicates := duplicates + 1;
          reports := reports + [Report(i + 2, DuplicateId)];
        } else {
          seen := seen + {record.id};
          valid := valid + [record];
        }
      }
    }

    /** The query for the voter ids of the election. */
    method CollectIds(election: Id) returns (existing: set<string>)
      ensures existing == RollIds(roll, election)
    {
      existing := set e | e in roll && e.election == Some(election) && e.id.Some? :: e.id.value;
      assert forall e :: e in roll ==> exists i :: 0 <= i < |roll| && roll[i] == e;
    }

    /** confirm_bulk_import */
    method Confirm(id: nat) returns (r: Result<nat>)
      requires Valid()
      modifies this`jobs, this`roll, this`confirmations
      ensures Valid()
      ensures r.Ok? <==> id < |old(jobs)| && old(jobs)[id].Some? && old(jobs)[id].value.status.PreviewReady?
      ensures r.Err? ==> jobs == old(jobs) && roll == old(roll) && confirmations == old(confirmations)
      ensures r.Ok? ==> var job := old(jobs)[id].value;
        && r.value == job.valid
        && jobs == old(jobs)[id := Some(job.(status := Completed, imported := job.valid))]
        && roll == old(roll) + Entries(job.election, job.held)
        && |roll| == |old(roll)| + |job.held|
        && (forall k :: 0 <= k < |job.held| ==> roll[|old(roll)| + k] == Entry(Some(job.election), Some(job.held[k].id)))
        && old(confirmations)[id] == 0 && confirmations == old(confirmations)[id := 1]
    {
      if id >= |jobs| || jobs[id].None? {
        return Err(ValidationFailed);
      }
      var job := jobs[id].value;
      if job.status != PreviewReady {
        return Err(ValidationFailed);
      }
      var entries: seq<Entry> := [];
      for k := 0 to |job.held|
        invariant entries == Entries(job.election, job.held[..k])
      {
        entries := entries + [Entry(Some(job.election), Some(job.held[k].id))];
      }
      assert job.held[..|job.held|] == job.held;
      roll := roll + entries;
      ghost var done := Some(job.(status := Completed, imported := |entries|));
      ImportedAfterUpdate(jobs, id, done);
      jobs := jobs[id := Some(job.(status := Completed, imported := |entries|))];
      confirmations := confirmations[id := confirmations[id] + 1];
      r := Ok(|entries|);
    }

    /** cancel_import; an unconfirmed job of the caller's organization goes, and nothing else. */
    method Cancel(org: Id, id: nat) returns (r: Result<()>)
      requires Valid()
      modifies this`jobs
      ensures Valid()
      ensures r.Ok? <==>
        id < |old(jobs)| && old(jobs)[id].Some? && old(jobs)[id].value.org == org && old(jobs)[id].value.status.PreviewReady?
      ensures jobs == if r.Ok? then old(jobs)[id := None] else old(jobs)
    {
      if id >= |jobs| || jobs[id].None? || jobs[id].value.org != org || jobs[id].value.status != PreviewReady {
        return Err(ValidationFailed);
      }
      ImportedAfterUpdate(jobs, id, None);
      jobs := jobs[id := None];
      r := Ok(());
    }

    /** A voter row from any other service. */
    method AddVoter(entry: Entry)
      requires Valid()
      modifies this`roll, this`others
      ensures Valid() && roll == old(roll) + [entry] && others == old(others) + 1
    {
      roll := roll + [entry];
      others := others + 1;
    }
  }
}
