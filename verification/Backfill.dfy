/** The backfill of the coverage authority
    (scripts/database/phase3-campaign-coverage-generation-online-preflight.js, the direct and the
    fallback statement, and backfillAuthority, which runs both in one transaction).

    A row is filled from the job it names itself (direct), then from the job of its generation's first
    work row (fallback).  A statement that overflows an integer or a column aborts the transaction. */
module Backfill {

  import Text
  import opened Wrappers

  datatype Kind = Manual | Automatic

  datatype Row = Row(
    creatorId: string, scanRunId: Option<string>, sourceJobId: Option<string>,
    delegated: bool, ownerKind: Option<Kind>, collectorVersion: Option<string>, coverageJobId: Option<string>)

  /** The texts that `->>` extracts from a job. */
  datatype Job = Job(
    freshnessVersion: Option<string>, manualScan: Option<string>,
    nestedVersion: Option<string>, continuationVersion: Option<string>, resultVersion: Option<string>)

  /** `id` is the position of the row's id in the order of the column. */
  datatype Work = Work(id: nat, creatorId: string, scanRunId: string, campaignJobId: string)

  datatype Db = Db(jobs: map<string, Job>, works: seq<Work>)

  datatype Error = IntegerOutOfRange | ValueTooLong

  datatype Stage = Direct | Fallback

  const MAX_INT := 2147483647

  // ----- One row -----

  /** The version's text is a positive integer of the database. */
  function Fresh(job: Job): Result<bool, Error> {
    var text := if job.freshnessVersion.Some? then job.freshnessVersion.value else "";
    if text == "" || !Text.Digits(text) then Success(false)
    else if Text.Number(text) > MAX_INT then Failure(IntegerOutOfRange)
    else Success(Text.Number(text) >= 1)
  }

  function KindOf(job: Job): Kind {
    if job.manualScan == Some("true") then Manual else Automatic
  }

  function Coalesce<T>(a: Option<T>, b: Option<T>): Option<T> {
    if a.Some? then a else b
  }

  function VersionOf(job: Job): Option<string> {
    Coalesce(job.nestedVersion, Coalesce(job.continuationVersion, job.resultVersion))
  }

  /** Assignment to VARCHAR(80): blanks beyond the limit are dropped, anything else is an error. */
  function Stored(s: string): Result<string, Error> {
    if |s| <= 80 then Success(s)
    else if forall c :: c in s[80..] ==> c == ' ' then Success(s[..80])
    else Failure(ValueTooLong)
  }

  /** An id smaller than that of every other work row of the generation. */
  function First(works: seq<Work>, creatorId: string, scanRunId: string): (first: Option<Work>)
    ensures first.Some? ==>
              && first.value in works && first.value.creatorId == creatorId && first.value.scanRunId == scanRunId
    ensures forall w :: w in works && w.creatorId == creatorId && w.scanRunId == scanRunId ==>
                          first.Some? && first.value.id <= w.id
  {
    if works == [] then None
    else
      var rest := First(works[1..], creatorId, scanRunId);
      if works[0].creatorId != creatorId || works[0].scanRunId != scanRunId then rest
      else if rest.Some? && rest.value.id < works[0].id then rest
      else Some(works[0])
  }

  /** The id of the job that a statement joins to the row. */
  function JobFor(stage: Stage, db: Db, row: Row): (id: Option<string>)
    ensures id.Some? ==> id.value in db.jobs
  {
    if row.scanRunId.None? then None
    else
      var id := match stage
        case Direct => row.sourceJobId
        case Fallback =>
          var first := First(db.works, row.creatorId, row.scanRunId.value);
          if first.Some? then Some(first.value.campaignJobId) else None;
      if id.Some? && id.value in db.jobs then id else None
  }

  function FilledVersion(row: Row, job: Job): Result<Option<string>, Error> {
    if row.collectorVersion.Some? then Success(row.collectorVersion)
    else if VersionOf(job).None? then Success(None)
    else
      var stored :- Stored(VersionOf(job).value);
      Success(Some(stored))
  }

  function FillRow(stage: Stage, db: Db, row: Row): Result<Row, Error> {
    var id := JobFor(stage, db, row);
    if id.None? then Success(row)
    else
      var job := db.jobs[id.value];
      var delegated :- if stage.Direct? then Fresh(job) else Success(true);
      var version :- FilledVersion(row, job);
      Success(row.(
        delegated := row.delegated || delegated,
        ownerKind := Coalesce(row.ownerKind, Some(KindOf(job))),
        collectorVersion := version,
        coverageJobId := Coalesce(row.coverageJobId, id)))
  }

  /** A value that is there stays, the flag is only ever raised, and what identifies the row stays. */
  predicate Grows(a: Row, b: Row) {
    && b.creatorId == a.creatorId && b.scanRunId == a.scanRunId && b.sourceJobId == a.sourceJobId
    && (a.delegated ==> b.delegated)
    && (a.ownerKind.Some? ==> b.ownerKind == a.ownerKind)
    && (a.collectorVersion.Some? ==> b.collectorVersion == a.collectorVersion)
    && (a.coverageJobId.Some? ==> b.coverageJobId == a.coverageJobId)
    && (a.scanRunId.None? ==> b == a)
  }

  lemma FillGrows(stage: Stage, db: Db, row: Row)
    requires FillRow(stage, db, row).Success?
    ensures Grows(row, FillRow(stage, db, row).value)
  {
  }

  /** Once a stage has filled a row, it changes nothing in that row or in what it grows into. */
  lemma FilledStaysFilled(stage: Stage, db: Db, row: Row, later: Row)
    requires FillRow(stage, db, row).Success? && Grows(FillRow(stage, db, row).value, later)
    ensures FillRow(stage, db, later) == Success(later)
  {
    var id := JobFor(stage, db, row);
    assert JobFor(stage, db, later) == id;
    if id.Some? {
      var job := db.jobs[id.value];
      var filled := FillRow(stage, db, row).value;
      assert FilledVersion(row, job) == Success(filled.collectorVersion);
      hide Fresh, Stored, KindOf, JobFor;
      if filled.collectorVersion.None? {
        assert VersionOf(job).None?;
      }
    }
  }

  // ----- The table -----

  function Fill(stage: Stage, db: Db, rows: seq<Row>): (filled: Result<seq<Row>, Error>)
    ensures filled.Success? ==> |filled.value| == |rows|
  {
    if rows == [] then Success([])
    else
      var first :- FillRow(stage, db, rows[0]);
      var rest :- Fill(stage, db, rows[1..]);
      Success([first] + rest)
  }

  /** The transaction. */
  function Backfill(db: Db, rows: seq<Row>): Result<seq<Row>, Error> {
    var direct :- Fill(Direct, db, rows);
    Fill(Fallback, db, direct)
  }

  function Updated(stage: Stage, db: Db, rows: seq<Row>): nat {
    if rows == [] then 0 else (if JobFor(stage, db, rows[0]).Some? then 1 else 0) + Updated(stage, db, rows[1..])
  }

  lemma {:induction false} FillIsPointwise(stage: Stage, db: Db, rows: seq<Row>, filled: seq<Row>)
    requires |filled| == |rows|
    ensures Fill(stage, db, rows) == Success(filled) <==>
            forall i :: 0 <= i < |rows| ==> FillRow(stage, db, rows[i]) == Success(filled[i])
  {
    if rows != [] {
      FillIsPointwise(stage, db, rows[1..], filled[1..]);
      assert filled == [filled[0]] + filled[1..];
      hide FillRow;
      if forall i :: 0 <= i < |rows| ==> FillRow(stage, db, rows[i]) == Success(filled[i]) {
        forall i | 0 <= i < |rows| - 1
          ensures FillRow(stage, db, rows[1..][i]) == Success(filled[1..][i])
        {
          assert rows[1..][i] == rows[i + 1];
        }
      }
      if Fill(stage, db, rows) == Success(filled) {
        assert FillRow(stage, db, rows[0]) == Success(filled[0]);
        assert Fill(stage, db, rows[1..]) == Success(filled[1..]);
        forall i | 0 <= i < |rows|
          ensures FillRow(stage, db, rows[i]) == Success(filled[i])
        {
          if i > 0 {
            assert rows[1..][i - 1] == rows[i];
          }
        }
      }
    }
  }

  lemma {:induction false} FillFails(stage: Stage, db: Db, rows: seq<Row>, i: nat)
    requires i < |rows| && FillRow(stage, db, rows[i]).Failure?
    requires forall j :: 0 <= j < i ==> FillRow(stage, db, rows[j]).Success?
    ensures Fill(stage, db, rows) == Failure(FillRow(stage, db, rows[i]).error)
  {
    if i > 0 {
      assert forall j :: 0 <= j < i - 1 ==> rows[1..][j] == rows[j + 1];
      FillFails(stage, db, rows[1..], i - 1);
    }
  }

  // ----- What the transaction does -----

  /** The transaction only adds. */
  lemma BackfillGrows(db: Db, rows: seq<Row>, after: seq<Row>)
    requires Backfill(db, rows) == Success(after)
    ensures |after| == |rows| && forall i :: 0 <= i < |rows| ==> Grows(rows[i], after[i])
  {
    var direct := Fill(Direct, db, rows).value;
    FillIsPointwise(Direct, db, rows, direct);
    FillIsPointwise(Fallback, db, direct, after);
    forall i | 0 <= i < |rows|
      ensures Grows(rows[i], after[i])
    {
      FillGrows(Direct, db, rows[i]);
      FillGrows(Fallback, db, direct[i]);
      hide FillRow;
    }
  }

  /** What a job says of the version: the first of its three texts, */
  function SaidText(job: Job): Option<string> {
    if job.nestedVersion.Some? then job.nestedVersion
    else if job.continuationVersion.Some? then job.continuationVersion
    else job.resultVersion
  }

  /** without blanks beyond the eightieth place. */
  function SaidVersion(db: Db, id: Option<string>): Option<string> {
    if id.None? || id.value !in db.jobs then None
    else
      var said := SaidText(db.jobs[id.value]);
      if said.Some? && |said.value| > 80 then Some(said.value[..80]) else said
  }

  function SaidKind(db: Db, id: Option<string>): Option<Kind> {
    if id.None? || id.value !in db.jobs then None
    else if db.jobs[id.value].manualScan == Some("true") then Some(Manual) else Some(Automatic)
  }

  /** The job promises coverage: its version is a number other than zero. */
  predicate Promises(db: Db, id: Option<string>) {
    && id.Some? && id.value in db.jobs && db.jobs[id.value].freshnessVersion.Some?
    && var text := db.jobs[id.value].freshnessVersion.value;
       text != "" && Text.Digits(text) && exists i :: 0 <= i < |text| && text[i] != '0'
  }

  lemma {:induction false} PositiveNumber(s: string)
    requires Text.Digits(s)
    ensures Text.Number(s) >= 1 <==> exists i :: 0 <= i < |s| && s[i] != '0'
  {
    if s != "" {
      var front := s[..|s| - 1];
      PositiveNumber(front);
      assert forall i :: 0 <= i < |front| ==> front[i] == s[i];
    }
  }

  lemma FreshTells(db: Db, id: Option<string>)
    requires id.Some? && id.value in db.jobs && Fresh(db.jobs[id.value]).Success?
    ensures Fresh(db.jobs[id.value]).value <==> Promises(db, id)
  {
    var job := db.jobs[id.value];
    if job.freshnessVersion.Some? && Text.Digits(job.freshnessVersion.value) {
      PositiveNumber(job.freshnessVersion.value);
    }
  }

  /** The job of a row is its own, if it exists, or that of the first work row of its generation. */
  lemma JobForTells(db: Db, row: Row)
    ensures JobFor(Direct, db, row) ==
      if row.scanRunId.Some? && row.sourceJobId.Some? && row.sourceJobId.value in db.jobs then row.sourceJobId else None
    ensures forall id :: JobFor(Fallback, db, row) == Some(id) ==>
      && row.scanRunId.Some? && id in db.jobs
      && exists w :: IsFirst(db.works, row.creatorId, row.scanRunId.value, w) && w.campaignJobId == id
    ensures JobFor(Fallback, db, row) == None && row.scanRunId.Some? ==>
      || (forall w :: w in db.works ==> w.creatorId != row.creatorId || w.scanRunId != row.scanRunId.value)
      || exists w :: IsFirst(db.works, row.creatorId, row.scanRunId.value, w) && w.campaignJobId !in db.jobs
  {
    if row.scanRunId.Some? {
      var first := First(db.works, row.creatorId, row.scanRunId.value);
      if first.Some? {
        assert IsFirst(db.works, row.creatorId, row.scanRunId.value, first.value);
      }
    }
  }

  ghost predicate IsFirst(works: seq<Work>, creatorId: string, scanRunId: string, w: Work) {
    && w in works && w.creatorId == creatorId && w.scanRunId == scanRunId
    && forall v :: v in works && v.creatorId == creatorId && v.scanRunId == scanRunId ==> w.id <= v.id
  }

  /** What one row becomes, said without stages: the first of what it has, what its own job says and
      what the job of its generation says. */
  predicate Filled(db: Db, a: Row, b: Row) {
    var direct, fallback := JobFor(Direct, db, a), JobFor(Fallback, db, a);
    && b.creatorId == a.creatorId && b.scanRunId == a.scanRunId && b.sourceJobId == a.sourceJobId
    && b.coverageJobId == (if a.coverageJobId.Some? then a.coverageJobId else if direct.Some? then direct else fallback)
    && b.ownerKind ==
       (if a.ownerKind.Some? then a.ownerKind else if direct.Some? then SaidKind(db, direct) else SaidKind(db, fallback))
    && b.collectorVersion ==
       (if a.collectorVersion.Some? then a.collectorVersion
        else if SaidVersion(db, direct).Some? then SaidVersion(db, direct) else SaidVersion(db, fallback))
    && (b.delegated <==> a.delegated || fallback.Some? || Promises(db, direct))
  }

  lemma RowIsFilled(db: Db, a: Row)
    requires FillRow(Direct, db, a).Success? && FillRow(Fallback, db, FillRow(Direct, db, a).value).Success?
    ensures Filled(db, a, FillRow(Fallback, db, FillRow(Direct, db, a).value).value)
  {
    var d := FillRow(Direct, db, a).value;
    var direct, fallback := JobFor(Direct, db, a), JobFor(Fallback, db, a);
    assert JobFor(Fallback, db, d) == fallback;
    if direct.Some? {
      FreshTells(db, direct);
      StoredTells(db, direct);
    }
    if fallback.Some? {
      StoredTells(db, fallback);
    }
    hide JobFor, Fresh, Stored, VersionOf, SaidVersion, Promises;
  }

  lemma StoredTells(db: Db, id: Option<string>)
    requires id.Some? && id.value in db.jobs
    ensures var version := VersionOf(db.jobs[id.value]);
      && (version.None? <==> SaidVersion(db, id).None?)
      && (version.Some? && Stored(version.value).Success? ==> SaidVersion(db, id) == Some(Stored(version.value).value))
  {
  }

  // ----- When the transaction fails -----

  /** The job's version is a number that the database's integers cannot hold. */
  predicate Overflows(db: Db, id: Option<string>) {
    && id.Some? && id.value in db.jobs && db.jobs[id.value].freshnessVersion.Some?
    && var text := db.jobs[id.value].freshnessVersion.value; text != "" && Text.Digits(text) && Text.Number(text) > 2147483647
  }

  predicate PrintsBeyond(s: string) {
    exists i :: 80 <= i < |s| && s[i] != ' '
  }

  /** The version that the job says does not fit: more than blanks are beyond the eightieth place. */
  predicate SaysTooMuch(db: Db, id: Option<string>) {
    && id.Some? && id.value in db.jobs
    && SaidText(db.jobs[id.value]).Some? && PrintsBeyond(SaidText(db.jobs[id.value]).value)
  }

  /** The transaction stumbles over the row. */
  predicate Stumbles(db: Db, row: Row) {
    var direct, fallback := JobFor(Direct, db, row), JobFor(Fallback, db, row);
    || Overflows(db, direct)
    || (row.collectorVersion.None? && SaysTooMuch(db, direct))
    || (row.collectorVersion.None? && SaidVersion(db, direct).None? && SaysTooMuch(db, fallback))
  }

  lemma {:induction false} FillSucceeds(stage: Stage, db: Db, rows: seq<Row>)
    ensures Fill(stage, db, rows).Success? <==> forall i :: 0 <= i < |rows| ==> FillRow(stage, db, rows[i]).Success?
  {
    if rows != [] {
      FillSucceeds(stage, db, rows[1..]);
      hide FillRow;
      assert rows == [rows[0]] + rows[1..];
      assert forall i :: 0 < i < |rows| ==> rows[i] == rows[1..][i - 1];
    }
  }

  lemma TooMuchTells(db: Db, id: Option<string>)
    requires id.Some? && id.value in db.jobs
    ensures var version := VersionOf(db.jobs[id.value]);
      SaysTooMuch(db, id) <==> version.Some? && Stored(version.value).Failure?
  {
    var version := VersionOf(db.jobs[id.value]);
    assert version == SaidText(db.jobs[id.value]);
    if version.Some? {
      BlankBeyond(version.value);
    }
    hide Stored, PrintsBeyond;
  }

  lemma BlankBeyond(s: string)
    ensures Stored(s).Failure? <==> PrintsBeyond(s)
  {
    if Stored(s).Failure? {
      var c :| c in s[80..] && c != ' ';
      var k :| 0 <= k < |s| - 80 && s[80..][k] == c;
      assert s[80 + k] != ' ';
    }
    forall i | 80 <= i < |s| && s[i] != ' '
      ensures Stored(s).Failure?
    {
      assert s[80..][i - 80] in s[80..];
    }
  }

  lemma RowStumbles(db: Db, row: Row)
    ensures Stumbles(db, row) <==>
      FillRow(Direct, db, row).Failure? || FillRow(Fallback, db, FillRow(Direct, db, row).value).Failure?
  {
    var direct, fallback := JobFor(Direct, db, row), JobFor(Fallback, db, row);
    if direct.Some? {
      TooMuchTells(db, direct);
      StoredTells(db, direct);
      assert Overflows(db, direct) <==> Fresh(db.jobs[direct.value]).Failure?;
    }
    if fallback.Some? {
      TooMuchTells(db, fallback);
    }
    if FillRow(Direct, db, row).Success? {
      assert JobFor(Fallback, db, FillRow(Direct, db, row).value) == fallback;
    }
    hide JobFor, Fresh, Stored, VersionOf, SaidVersion, SaysTooMuch, Overflows;
  }

  /** The transaction fails, and leaves everything as it was, exactly when it stumbles over some row. */
  lemma FailsExactlyWhen(db: Db, rows: seq<Row>)
    ensures Backfill(db, rows).Failure? <==> exists i :: 0 <= i < |rows| && Stumbles(db, rows[i])
  {
    FillSucceeds(Direct, db, rows);
    forall i | 0 <= i < |rows|
      ensures Stumbles(db, rows[i]) <==>
        FillRow(Direct, db, rows[i]).Failure? || FillRow(Fallback, db, FillRow(Direct, db, rows[i]).value).Failure?
    {
      RowStumbles(db, rows[i]);
    }
    hide FillRow, Stumbles;
    if Fill(Direct, db, rows).Success? {
      var direct := Fill(Direct, db, rows).value;
      FillIsPointwise(Direct, db, rows, direct);
      FillSucceeds(Fallback, db, direct);
    }
  }

  lemma BackfillFills(db: Db, rows: seq<Row>, after: seq<Row>)
    requires Backfill(db, rows) == Success(after)
    ensures |after| == |rows| && forall i :: 0 <= i < |rows| ==> Filled(db, rows[i], after[i])
  {
    var direct := Fill(Direct, db, rows).value;
    FillIsPointwise(Direct, db, rows, direct);
    FillIsPointwise(Fallback, db, direct, after);
    forall i | 0 <= i < |rows|
      ensures Filled(db, rows[i], after[i])
    {
      RowIsFilled(db, rows[i]);
      hide FillRow, Filled;
    }
  }

  /** After the transaction neither statement finds anything to change, nor an error. */
  lemma NothingLeftToFill(db: Db, rows: seq<Row>, after: seq<Row>, stage: Stage)
    requires Backfill(db, rows) == Success(after)
    ensures Fill(stage, db, after) == Success(after)
  {
    var direct := Fill(Direct, db, rows).value;
    FillIsPointwise(Direct, db, rows, direct);
    FillIsPointwise(Fallback, db, direct, after);
    forall i | 0 <= i < |after|
      ensures FillRow(stage, db, after[i]) == Success(after[i])
    {
      FillGrows(Fallback, db, direct[i]);
      FilledStaysFilled(Direct, db, rows[i], after[i]);
      FilledStaysFilled(Fallback, db, direct[i], after[i]);
      hide FillRow;
    }
    FillIsPointwise(stage, db, after, after);
  }

  function RunStages(db: Db, rows: seq<Row>, stages: seq<Stage>): Result<seq<Row>, Error>
    decreases |stages|
  {
    if stages == [] then Success(rows)
    else
      var filled :- Fill(stages[0], db, rows);
      RunStages(db, filled, stages[1..])
  }

  /** However many installers run it, and even if only parts of later runs take place: after one
      transaction every further statement leaves the table as that transaction left it. */
  lemma {:induction false} AnyNumberOfRuns(db: Db, rows: seq<Row>, after: seq<Row>, stages: seq<Stage>)
    requires Backfill(db, rows) == Success(after)
    ensures RunStages(db, after, stages) == Success(after)
    ensures Backfill(db, after) == Success(after)
    decreases |stages|
  {
    NothingLeftToFill(db, rows, after, Direct);
    NothingLeftToFill(db, rows, after, Fallback);
    if stages != [] {
      NothingLeftToFill(db, rows, after, stages[0]);
      AnyNumberOfRuns(db, rows, after, stages[1..]);
    }
  }

  /** The order of the two statements matters: the row's own job comes first. */
  lemma OrderMatters()
    ensures exists db, rows ::
              && RunStages(db, rows, [Direct, Fallback]).Success?
              && RunStages(db, rows, [Fallback, Direct]).Success?
              && RunStages(db, rows, [Direct, Fallback]) != RunStages(db, rows, [Fallback, Direct])
  {
    var own := Job(None, Some("true"), None, None, None);
    var other := Job(None, None, None, None, None);
    var db := Db(map["own" := own, "other" := other], [Work(0, "c", "r", "other")]);
    var row := Row("c", Some("r"), Some("own"), false, None, None, None);
    var direct := row.(ownerKind := Some(Manual), coverageJobId := Some("own"));
    var fallback := row.(delegated := true, ownerKind := Some(Automatic), coverageJobId := Some("other"));
    assert First(db.works, "c", "r") == Some(db.works[0]);
    assert FillRow(Direct, db, row) == Success(direct);
    assert FillRow(Fallback, db, direct) == Success(direct.(delegated := true));
    assert FillRow(Fallback, db, row) == Success(fallback);
    assert FillRow(Direct, db, fallback) == Success(fallback);
    hide FillRow;
    OneRow(db, row, Direct, direct, Fallback, direct.(delegated := true));
    OneRow(db, row, Fallback, fallback, Direct, fallback);
  }

  lemma OneRow(db: Db, row: Row, first: Stage, a: Row, second: Stage, b: Row)
    requires FillRow(first, db, row) == Success(a) && FillRow(second, db, a) == Success(b)
    ensures RunStages(db, [row], [first, second]) == Success([b])
  {
    FillIsPointwise(first, db, [row], [a]);
    FillIsPointwise(second, db, [a], [b]);
    assert [first, second][1..] == [second];
    assert [second][1..] == [];
    assert RunStages(db, [b], []) == Success([b]);
    assert RunStages(db, [a], [second]) == Success([b]);
  }

  // ----- The program -----

  /** The collection state table. */
  class Table {
    const rows: array<Row>

    constructor (rows: array<Row>)
      ensures this.rows == rows
    {
      this.rows := rows;
    }

    /** One UPDATE; on an error the rows before the offending one have been written already. */
    method Update(stage: Stage, db: Db) returns (r: Result<nat, Error>)
      modifies rows
      ensures r.Success? ==> Fill(stage, db, old(rows[..])) == Success(rows[..])
      ensures r.Success? ==> r.value == Updated(stage, db, old(rows[..]))
      ensures r.Failure? ==> Fill(stage, db, old(rows[..])) == Failure(r.error)
    {
      ghost var was := rows[..];
      var n, i := 0, 0;
      while i < rows.Length
        invariant 0 <= i <= rows.Length
        invariant forall k :: 0 <= k < i ==> FillRow(stage, db, was[k]) == Success(rows[k])
        invariant forall k :: i <= k < rows.Length ==> rows[k] == was[k]
        invariant n + Updated(stage, db, was[i..]) == Updated(stage, db, was)
      {
        var filled := FillRow(stage, db, rows[i]);
        if filled.Failure? {
          FillFails(stage, db, was, i);
          return Failure(filled.error);
        }
        assert was[i..][0] == rows[i] && was[i..][1..] == was[i + 1..];
        n := n + if JobFor(stage, db, rows[i]).Some? then 1 else 0;
        rows[i] := filled.value;
        i := i + 1;
      }
      FillIsPointwise(stage, db, was, rows[..]);
      return Success(n);
    }

    method Restore(snapshot: seq<Row>)
      requires |snapshot| == rows.Length
      modifies rows
      ensures rows[..] == snapshot
    {
      var i := 0;
      while i < rows.Length
        invariant 0 <= i <= rows.Length && rows[..i] == snapshot[..i]
      {
        rows[i] := snapshot[i];
        i := i + 1;
      }
    }

    /** `backfillAuthority`: both counts, or an error and the table as it was. */
    method BackfillAuthority(db: Db) returns (r: Result<(nat, nat), Error>)
      modifies rows
      ensures r.Success? ==> Backfill(db, old(rows[..])) == Success(rows[..])
      ensures r.Success? ==> r.value.0 == Updated(Direct, db, old(rows[..]))
      ensures r.Success? ==> r.value.1 == Updated(Fallback, db, old(rows[..]))
      ensures r.Failure? ==> Backfill(db, old(rows[..])) == Failure(r.error) && rows[..] == old(rows[..])
    {
      var snapshot := rows[..];
      var direct := Update(Direct, db);
      if direct.Failure? {
        Restore(snapshot);
        return Failure(direct.error);
      }
      ghost var middle := rows[..];
      var fallback := Update(Fallback, db);
      if fallback.Failure? {
        Restore(snapshot);
        return Failure(fallback.error);
      }
      DirectKeepsFallback(db, snapshot, middle);
      return Success((direct.value, fallback.value));
    }
  }

  /** What the direct statement writes does not change which rows the fallback statement finds. */
  lemma {:induction false} DirectKeepsFallback(db: Db, rows: seq<Row>, direct: seq<Row>)
    requires Fill(Direct, db, rows) == Success(direct)
    ensures Updated(Fallback, db, direct) == Updated(Fallback, db, rows)
  {
    if rows != [] {
      FillGrows(Direct, db, rows[0]);
      assert direct == [FillRow(Direct, db, rows[0]).value] + Fill(Direct, db, rows[1..]).value;
      assert direct[1..] == Fill(Direct, db, rows[1..]).value;
      assert JobFor(Fallback, db, direct[0]) == JobFor(Fallback, db, rows[0]);
      DirectKeepsFallback(db, rows[1..], direct[1..]);
    }
  }
}
