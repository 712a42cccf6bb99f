/** The restartable database installer (scripts/database/install-current.js).

    One run inspects the migration receipts or, with the reset flag, may replace a legacy schema;
    then it deploys the migration chain.  Runs may crash anywhere, overlap, belong to different
    releases and be disturbed by other deployments between any two statements.  The reset is one
    transaction under an advisory lock, which only other resets respect. */
module Installer {

  import opened Text
  import opened Wrappers

  datatype Receipt = Receipt(name: string, checksum: string, finished: bool, rolledBack: bool)

  datatype Migration = Migration(name: string, checksum: string)

  /** A release: its migration chain, and the migration its contract names. */
  datatype Release = Release(chain: seq<Migration>, contract: string)

  /** The public schema: whether it holds tables other than the receipts, and the receipts. */
  datatype Db = Db(otherTables: bool, receipts: Option<seq<Receipt>>)

  datatype Refusal =
    | EmptyDatabaseRequired | CurrentBaselineRequired | InstallationIncomplete
    | DuplicateReceipt | NoncontiguousReceipts | ResetNotApplicable

  /** The fixed baseline: legacyResetTarget. */
  const TARGET := "20261009000000_current_baseline"

  // ----- Names -----

  predicate WordChar(c: char) {
    'a' <= c <= 'z' || 'A' <= c <= 'Z' || '0' <= c <= '9' || c == '_'
  }

  predicate Stamped(name: string, digits: nat) {
    && digits + 1 < |name| && Digits(name[..digits]) && name[digits] == '_'
    && forall c :: c in name[digits + 1..] ==> WordChar(c)
  }

  /** Eight or fourteen digits, an underscore and word characters. */
  predicate MigrationName(name: string) {
    Stamped(name, 8) || Stamped(name, 14)
  }

  predicate Legacy(name: string) {
    MigrationName(name) && Less(name, TARGET)
  }

  // ----- Inspection -----

  predicate Known(r: Release, row: Receipt) {
    Migration(row.name, row.checksum) in r.chain
  }

  function Active(rows: seq<Receipt>): (active: seq<Receipt>)
    ensures forall row :: row in active <==> row in rows && !row.rolledBack
  {
    if rows == [] then [] else (if rows[0].rolledBack then [] else [rows[0]]) + Active(rows[1..])
  }

  function Applied(rows: seq<Receipt>): (applied: seq<Receipt>)
    ensures forall row :: row in applied <==> row in rows && row.finished && !row.rolledBack
  {
    if rows == [] then [] else (if rows[0].finished && !rows[0].rolledBack then [rows[0]] else []) + Applied(rows[1..])
  }

  function Named(rows: seq<Receipt>, name: string): (named: seq<Receipt>)
    ensures forall row :: row in named <==> row in rows && row.name == name
  {
    if rows == [] then [] else (if rows[0].name == name then [rows[0]] else []) + Named(rows[1..], name)
  }

  /** `validMigrationPrefix`. */
  predicate ValidPrefix(r: Release, rows: seq<Receipt>) {
    var active := Active(rows);
    && |active| <= |r.chain|
    && forall i :: 0 <= i < |active| ==>
      var matches := Named(active, r.chain[i].name);
      |matches| == 1 && matches[0].checksum == r.chain[i].checksum && matches[0].finished
  }

  predicate NamedTwice(active: seq<Receipt>) {
    exists i, j :: 0 <= i < j < |active| && active[i].name == active[j].name
  }

  /** The installation is fresh or current, or the run is refused. */
  function Inspect(r: Release, db: Db): Result<bool, Refusal> {
    match db.receipts
    case None => if db.otherTables then Failure(EmptyDatabaseRequired) else Success(true)
    case Some(rows) =>
      if exists row :: row in rows && !Known(r, row) then Failure(CurrentBaselineRequired)
      else if exists row :: row in rows && !row.finished && !row.rolledBack then Failure(InstallationIncomplete)
      else if !ValidPrefix(r, rows) then
        Failure(if NamedTwice(Active(rows)) then DuplicateReceipt else NoncontiguousReceipts)
      else if Applied(rows) == [] && db.otherTables then Failure(EmptyDatabaseRequired)
      else Success(Applied(rows) == [])
  }

  /** The history to which the reset is tied. */
  predicate Applicable(r: Release, rows: seq<Receipt>) {
    r.contract == TARGET && rows != [] && forall row :: row in rows ==> Legacy(row.name)
  }

  /** `resetLegacyTestDatabase` at one stroke: the database afterwards, and what the run learns. */
  function Reset(r: Release, db: Db): (Db, Result<bool, Refusal>) {
    if Inspect(r, db) != Failure(CurrentBaselineRequired) then (db, Inspect(r, db))
    else if Applicable(r, db.receipts.value) then (Db(false, None), Success(true))
    else (db, Failure(ResetNotApplicable))
  }

  // ----- What the reset applies to -----

  /** The name is a stamp of eight or fourteen digits, an underscore, and a title of ASCII letters, digits and
      underscores. */
  ghost predicate Splits(name: string, stamp: string, title: string) {
    && name == stamp + "_" + title && (|stamp| == 8 || |stamp| == 14) && Text.Digits(stamp)
    && title != "" && forall c :: c in title ==>
         c as int == 95 || 48 <= c as int <= 57 || 65 <= c as int <= 90 || 97 <= c as int <= 122
  }

  lemma StampedSplits(name: string, digits: nat)
    requires digits == 8 || digits == 14
    ensures Stamped(name, digits) ==> Splits(name, name[..digits], name[digits + 1..])
    ensures forall stamp, title :: Splits(name, stamp, title) && |stamp| == digits ==>
              Stamped(name, digits) && stamp == name[..digits] && title == name[digits + 1..]
  {
    if Stamped(name, digits) {
      var title := name[digits + 1..];
      assert name == name[..digits] + "_" + title;
      forall c | c in title
        ensures c as int == 95 || 48 <= c as int <= 57 || 65 <= c as int <= 90 || 97 <= c as int <= 122
      {
        assert WordChar(c);
      }
    }
    forall stamp, title | Splits(name, stamp, title) && |stamp| == digits
      ensures Stamped(name, digits) && stamp == name[..digits] && title == name[digits + 1..]
    {
      assert name[digits] == '_' && name[..digits] == stamp && name[digits + 1..] == title;
    }
  }

  lemma MigrationNameExactlyWhen(name: string)
    ensures MigrationName(name) <==> exists stamp, title :: Splits(name, stamp, title)
  {
    StampedSplits(name, 8);
    StampedSplits(name, 14);
    hide Stamped, Splits;
    forall stamp, title | Splits(name, stamp, title)
      ensures MigrationName(name)
    {
      Parts(name, stamp, title);
    }
  }

  lemma Parts(name: string, stamp: string, title: string)
    requires Splits(name, stamp, title)
    ensures name == stamp + ("_" + title) && Text.Digits(stamp) && (|stamp| == 8 || |stamp| == 14)
  {
  }

  lemma TargetSplits()
    ensures TARGET == "20261009000000" + ("_" + "current_baseline")
    ensures TARGET == "20261009" + "000000_current_baseline"
  {
  }

  /** By date: a name with a day is older than the baseline if its day is; one with a time, if its time is, or
      at the same time its title comes first. */
  lemma OlderByDate(name: string, stamp: string, title: string)
    requires Splits(name, stamp, title)
    ensures Text.Digits("20261009") && Text.Digits("20261009000000")
    ensures |stamp| == 8 ==> (Legacy(name) <==> Number(stamp) < Number("20261009"))
    ensures |stamp| == 14 ==>
      (Legacy(name) <==> Number(stamp) < Number("20261009000000") || (stamp == "20261009000000" && Less(title, "current_baseline")))
  {
    MigrationNameExactlyWhen(name);
    TargetSplits();
    Parts(name, stamp, title);
    hide Stamped, Splits, Less, TARGET;
    if |stamp| == 8 {
      DayOrder(stamp, title, "20261009", "000000_current_baseline");
    } else {
      TimeOrder(stamp, title, "20261009000000", "current_baseline");
    }
  }

  lemma DayOrder(stamp: string, title: string, day: string, rest: string)
    requires Text.Digits(stamp) && Text.Digits(day) && |stamp| == |day| && rest != "" && rest[0] < '_'
    ensures Less(stamp + ("_" + title), day + rest) <==> Number(stamp) < Number(day)
  {
    NumberOrder(stamp, day);
    LessConcat(stamp, day, "_" + title, rest);
    hide Number;
  }

  lemma TimeOrder(stamp: string, title: string, time: string, rest: string)
    requires Text.Digits(stamp) && Text.Digits(time) && |stamp| == |time|
    ensures Less(stamp + ("_" + title), time + ("_" + rest)) <==> Number(stamp) < Number(time) || (stamp == time && Less(title, rest))
  {
    NumberOrder(stamp, time);
    LessConcat(stamp, time, "_" + title, "_" + rest);
    LessConcat("_", "_", title, rest);
    LessIsTotal("_", "_");
    hide Number, Less;
  }

  /** The reset discards the schema exactly when the release is the baseline's own, some receipt is unknown to
      it, and every receipt is named like a migration and precedes the baseline. */
  lemma ResetDropsExactlyWhen(r: Release, db: Db)
    ensures Reset(r, db).0 != db <==>
      && db.receipts.Some? && r.contract == "20261009000000_current_baseline"
      && (exists row :: row in db.receipts.value && Migration(row.name, row.checksum) !in r.chain)
      && (forall row :: row in db.receipts.value ==>
            Precedes(row.name, "20261009000000_current_baseline") && exists stamp, title :: Splits(row.name, stamp, title))
    ensures Reset(r, db).0 != db ==> Reset(r, db) == (Db(false, None), Success(true))
    ensures Reset(r, db).0 == db ==>
      Reset(r, db).1 == if db.receipts.Some? && exists row :: row in db.receipts.value && Migration(row.name, row.checksum) !in r.chain
                        then Failure(ResetNotApplicable) else Inspect(r, db)
  {
    forall name: string
      ensures Legacy(name) <==> Precedes(name, TARGET) && exists stamp, title :: Splits(name, stamp, title)
    {
      LessExactlyWhen(name, TARGET);
      MigrationNameExactlyWhen(name);
    }
    hide Legacy, Splits, Precedes, ValidPrefix, Applied, NamedTwice, Active;
  }

  /** So a database with an unknown receipt, all of whose receipts are dated before the baseline, is reset. */
  lemma DatedBeforeIsReset(r: Release, db: Db)
    requires r.contract == "20261009000000_current_baseline" && db.receipts.Some?
    requires exists row :: row in db.receipts.value && Migration(row.name, row.checksum) !in r.chain
    requires Text.Digits("20261009") && Text.Digits("20261009000000")
    requires forall row :: row in db.receipts.value ==>
      exists stamp, title :: Splits(row.name, stamp, title) && Text.Digits(stamp)
                             && Number(stamp) < Number(if |stamp| == 8 then "20261009" else "20261009000000")
    ensures Reset(r, db) == (Db(false, None), Success(true))
  {
    forall row | row in db.receipts.value
      ensures Precedes(row.name, TARGET) && exists stamp, title :: Splits(row.name, stamp, title)
    {
      var stamp, title :| Splits(row.name, stamp, title) && Text.Digits(stamp)
                          && Number(stamp) < Number(if |stamp| == 8 then "20261009" else "20261009000000");
      OlderByDate(row.name, stamp, title);
      Parts(row.name, stamp, title);
      LessExactlyWhen(row.name, TARGET);
    }
    hide Splits, Precedes, Number, Reset;
    ResetDropsExactlyWhen(r, db);
  }

  // ----- What the inspection accepts -----

  ghost predicate DistinctChain(r: Release) {
    forall i, j :: 0 <= i < j < |r.chain| ==> r.chain[i].name != r.chain[j].name
  }

  /** The receipts of the first `k` migrations, all finished. */
  function Receipts(chain: seq<Migration>, k: nat): (rows: seq<Receipt>)
    requires k <= |chain|
    ensures |rows| == k
    ensures forall i :: 0 <= i < k ==> rows[i] == Receipt(chain[i].name, chain[i].checksum, true, false)
  {
    if k == 0 then [] else Receipts(chain, k - 1) + [Receipt(chain[k - 1].name, chain[k - 1].checksum, true, false)]
  }

  lemma NamedPermutation(a: seq<Receipt>, b: seq<Receipt>, name: string)
    requires multiset(a) == multiset(b)
    ensures multiset(Named(a, name)) == multiset(Named(b, name))
  {
    NamedMultiset(a, name);
    NamedMultiset(b, name);
  }

  /** How often a row of that name occurs does not change. */
  lemma {:induction false} NamedMultiset(a: seq<Receipt>, name: string)
    ensures forall row: Receipt :: multiset(Named(a, name))[row] == if row.name == name then multiset(a)[row] else 0
  {
    if a != [] {
      NamedMultiset(a[1..], name);
      assert a == [a[0]] + a[1..];
    }
  }

  lemma SubmultisetOfSameSize(a: multiset<Receipt>, b: multiset<Receipt>)
    requires a <= b && |a| == |b|
    ensures a == b
  {
    assert b == a + (b - a);
  }

  lemma {:induction false} DistinctMultiset(chain: seq<Migration>, k: nat)
    requires k <= |chain| && forall i, j :: 0 <= i < j < |chain| ==> chain[i].name != chain[j].name
    ensures forall row :: multiset(Receipts(chain, k))[row] <= 1
    ensures forall row :: row in Receipts(chain, k) <==> exists i :: 0 <= i < k && row == Receipt(chain[i].name, chain[i].checksum, true, false)
  {
    if k > 0 {
      DistinctMultiset(chain, k - 1);
    }
  }

  /** Pigeonhole: the counted check accepts exactly the permutations of a finished chain prefix. */
  lemma PrefixMeansPermutation(r: Release, rows: seq<Receipt>)
    requires DistinctChain(r)
    ensures ValidPrefix(r, rows) <==> |Active(rows)| <= |r.chain| && multiset(Active(rows)) == multiset(Receipts(r.chain, |Active(rows)|))
  {
    var active := Active(rows);
    var k := |active|;
    if k <= |r.chain| {
      DistinctMultiset(r.chain, k);
      if ValidPrefix(r, rows) {
        EachExpectedIsActive(r, rows);
        SubmultisetOfSameSize(multiset(Receipts(r.chain, k)), multiset(active));
      }
      if multiset(active) == multiset(Receipts(r.chain, k)) {
        forall i | 0 <= i < k
          ensures var matches := Named(active, r.chain[i].name);
            |matches| == 1 && matches[0].checksum == r.chain[i].checksum && matches[0].finished
        {
          NamedPermutation(active, Receipts(r.chain, k), r.chain[i].name);
          NamedOnce(r.chain, k, i);
          MultisetOfOne(Named(active, r.chain[i].name), Receipts(r.chain, k)[i]);
        }
      }
    }
  }

  lemma EachExpectedIsActive(r: Release, rows: seq<Receipt>)
    requires DistinctChain(r) && ValidPrefix(r, rows)
    ensures multiset(Receipts(r.chain, |Active(rows)|)) <= multiset(Active(rows))
  {
    var active, k := Active(rows), |Active(rows)|;
    DistinctMultiset(r.chain, k);
    forall row | row in Receipts(r.chain, k)
      ensures row in active
    {
      var i :| 0 <= i < k && row == Receipt(r.chain[i].name, r.chain[i].checksum, true, false);
      var matches := Named(active, r.chain[i].name);
      assert matches[0] in active && matches[0] == row;
    }
  }

  lemma {:induction false} NamedOnce(chain: seq<Migration>, k: nat, i: nat)
    requires i < k <= |chain| && forall i, j :: 0 <= i < j < |chain| ==> chain[i].name != chain[j].name
    ensures multiset(Named(Receipts(chain, k), chain[i].name)) == multiset{Receipts(chain, k)[i]}
  {
    forall row: Receipt
      ensures multiset(Named(Receipts(chain, k), chain[i].name))[row] == multiset{Receipts(chain, k)[i]}[row]
    {
      NamedOnceAt(chain, k, i, row);
      hide *;
    }
  }

  lemma NamedOnceAt(chain: seq<Migration>, k: nat, i: nat, row: Receipt)
    requires i < k <= |chain| && forall i, j :: 0 <= i < j < |chain| ==> chain[i].name != chain[j].name
    ensures multiset(Named(Receipts(chain, k), chain[i].name))[row] == multiset{Receipts(chain, k)[i]}[row]
  {
    var expected := Receipts(chain, k);
    NamedMultiset(expected, chain[i].name);
    DistinctMultiset(chain, k);
    assert expected[i] in multiset(expected);
    hide Named, Receipts;
    if row in expected && row.name == chain[i].name {
      var j :| 0 <= j < k && row == expected[j];
      assert j == i;
    }
  }

  lemma MultisetOfOne(s: seq<Receipt>, x: Receipt)
    requires multiset(s) == multiset{x}
    ensures s == [x]
  {
    assert |s| == |multiset(s)| == 1;
    assert s[0] in multiset(s);
  }

  /** The receipts are exactly those of a finished chain prefix, next to rolled-back ones. */
  ghost predicate Installed(r: Release, rows: seq<Receipt>) {
    && (forall row :: row in rows ==> Known(r, row))
    && |Active(rows)| <= |r.chain| && multiset(Active(rows)) == multiset(Receipts(r.chain, |Active(rows)|))
  }

  /** What a run may continue from: a fresh database without a single active receipt, or an
      installed, non-empty chain prefix, in whatever order the receipts are read. */
  lemma InspectTells(r: Release, db: Db)
    requires DistinctChain(r)
    ensures Inspect(r, db) == Success(true) <==>
      !db.otherTables && (db.receipts.None? || (Installed(r, db.receipts.value) && Active(db.receipts.value) == []))
    ensures Inspect(r, db) == Success(false) <==>
      db.receipts.Some? && Installed(r, db.receipts.value) && Active(db.receipts.value) != []
  {
    if db.receipts.Some? {
      var rows := db.receipts.value;
      InstalledMeans(r, rows);
      InspectCases(r, db);
      hide *;
      if AllFinished(rows) {
        FinishedIsApplied(rows);
      }
    }
  }

  predicate AllKnown(r: Release, rows: seq<Receipt>) {
    forall row :: row in rows ==> Known(r, row)
  }

  lemma InspectCases(r: Release, db: Db)
    requires db.receipts.Some?
    ensures var rows := db.receipts.value;
      var good := AllKnown(r, rows) && AllFinished(rows) && ValidPrefix(r, rows);
      && (Inspect(r, db) == Success(true) <==> good && Applied(rows) == [] && !db.otherTables)
      && (Inspect(r, db) == Success(false) <==> good && Applied(rows) != [])
  {
    hide Known, ValidPrefix, NamedTwice, Applied, Active;
  }

  predicate AllFinished(rows: seq<Receipt>) {
    forall row :: row in rows ==> row.finished || row.rolledBack
  }

  lemma InstalledMeans(r: Release, rows: seq<Receipt>)
    requires DistinctChain(r)
    ensures Installed(r, rows) <==> ValidPrefix(r, rows) && AllKnown(r, rows)
    ensures Installed(r, rows) ==> AllFinished(rows)
  {
    PrefixMeansPermutation(r, rows);
    if Installed(r, rows) {
      ActiveIsApplied(r, rows);
    }
    hide ValidPrefix, Known;
  }

  lemma {:induction false} FinishedIsApplied(rows: seq<Receipt>)
    requires AllFinished(rows)
    ensures Applied(rows) == Active(rows)
  {
    if rows != [] {
      assert rows[0] in rows;
      FinishedIsApplied(rows[1..]);
    }
  }

  lemma ActiveIsApplied(r: Release, rows: seq<Receipt>)
    requires DistinctChain(r) && Installed(r, rows)
    ensures forall row :: row in rows ==> row.finished || row.rolledBack
  {
    var active := Active(rows);
    DistinctMultiset(r.chain, |active|);
    forall row | row in rows && !row.rolledBack
      ensures row.finished
    {
      assert row in active && row in multiset(active);
      assert row in Receipts(r.chain, |active|);
    }
  }

  // ----- Histories -----

  /** A run of the installer, between two of its statements; `resets` is the flag on its command line.  With
      the flag everything from `Locked` to the drop is one transaction, which holds the advisory lock. */
  datatype Process =
    | Starting(release: Release, resets: bool)
    | Locked(release: Release)
    | Listed(release: Release, resets: bool, otherTables: bool) // it has seen the tables, with receipts
    | Foreign(release: Release)                                 // it has read receipts that are not its own
    | Condemning(release: Release)                              // it has read that all of them are older
    | Deploying(release: Release)
    | Gone

  datatype World = World(db: Db, processes: seq<Process>)

  datatype Event =
    | Launch(release: Release, resets: bool)
    | Locks(process: nat)
    | ReadsTables(process: nat)
    | ReadsReceipts(process: nat)
    | ReadsNames(process: nat)
    | Replaces(process: nat)                   // DROP SCHEMA, CREATE SCHEMA and the commit
    | CreatesLedger(process: nat)              // the deployment makes the receipt table
    | BeginsMigration(process: nat)            // an unfinished receipt; tables appear
    | FinishesMigration(process: nat, at: nat) // the receipt is finished
    | Ends(process: nat)                       // the run ends, fails or is killed
    | Outside(db: Db)                          // other deployments and manual repairs

  /** Index of the next migration to deploy: the first without an applied receipt. */
  function NextMigration(r: Release, rows: seq<Receipt>, from: nat): (i: nat)
    requires from <= |r.chain|
    ensures from <= i <= |r.chain|
    ensures forall j :: from <= j < i ==> exists row :: row in rows && row.name == r.chain[j].name && row.finished && !row.rolledBack
    ensures i < |r.chain| ==> forall row :: row in rows && row.name == r.chain[i].name ==> !row.finished || row.rolledBack
    decreases |r.chain| - from
  {
    if from == |r.chain| then from
    else
      var named := Named(Applied(rows), r.chain[from].name);
      assert named != [] ==> named[0] in named;
      if named == [] then from else NextMigration(r, rows, from + 1)
  }

  /** Others may add receipts and change flags and checksums, but a recorded name stays recorded. */
  predicate KeepsNames(a: Db, b: Db) {
    a.receipts.Some? ==> b.receipts.Some? && forall row :: row in a.receipts.value ==> exists kept :: kept in b.receipts.value && kept.name == row.name
  }

  /** Inside the transaction. */
  predicate HoldsLock(p: Process) {
    p.Locked? || (p.Listed? && p.resets) || p.Foreign? || p.Condemning?
  }

  predicate Enabled(w: World, e: Event) {
    if e.Launch? then true
    else if e.Outside? then KeepsNames(w.db, e.db)
    else
      e.process < |w.processes| &&
      var p := w.processes[e.process];
      match e
      case Locks(_) => p.Starting? && p.resets && forall q :: q in w.processes ==> !HoldsLock(q)
      case ReadsTables(_) => (p.Starting? && !p.resets) || p.Locked?
      case ReadsReceipts(_) => p.Listed?
      case ReadsNames(_) => p.Foreign?
      case Replaces(_) => p.Condemning?
      case CreatesLedger(_) => p.Deploying? && w.db.receipts.None?
      case BeginsMigration(_) =>
        p.Deploying? && w.db.receipts.Some? && NextMigration(p.release, w.db.receipts.value, 0) < |p.release.chain|
      case FinishesMigration(_, at) => p.Deploying? && w.db.receipts.Some? && at < |w.db.receipts.value|
      case _ => true
  }

  function Concluded(r: Release, found: Result<bool, Refusal>): Process {
    if found.Success? then Deploying(r) else Gone
  }

  /** What a process does next with what it reads; a query on a missing table fails. */
  function Advance(p: Process, db: Db): Process
    requires p.Starting? || p.Locked? || p.Listed? || p.Foreign?
  {
    if p.Starting? || p.Locked? then
      if db.receipts.None? then Concluded(p.release, Inspect(p.release, db))
      else Listed(p.release, p.Locked?, db.otherTables)
    else if db.receipts.None? then Gone
    else if p.Listed? then
      var found := Inspect(p.release, Db(p.otherTables, db.receipts));
      if p.resets && found == Failure(CurrentBaselineRequired) then Foreign(p.release) else Concluded(p.release, found)
    else if Applicable(p.release, db.receipts.value) then Condemning(p.release)
    else Gone
  }

  /** An event that is not enabled does not happen. */
  function Step(w: World, e: Event): World {
    if !Enabled(w, e) then w
    else if e.Launch? then w.(processes := w.processes + [Starting(e.release, e.resets)])
    else if e.Outside? then w.(db := e.db)
    else
      var i, p := e.process, w.processes[e.process];
      match e
      case Locks(_) => w.(processes := w.processes[i := Locked(p.release)])
      case Replaces(_) => World(Db(false, None), w.processes[i := Deploying(p.release)])
      case CreatesLedger(_) => w.(db := w.db.(receipts := Some([])))
      case BeginsMigration(_) =>
        var rows := w.db.receipts.value;
        var next := p.release.chain[NextMigration(p.release, rows, 0)];
        w.(db := Db(true, Some(rows + [Receipt(next.name, next.checksum, false, false)])))
      case FinishesMigration(_, at) =>
        var rows := w.db.receipts.value;
        w.(db := w.db.(receipts := Some(rows[at := rows[at].(finished := true)])))
      case Ends(_) => w.(processes := w.processes[i := Gone])
      case _ => w.(processes := w.processes[i := Advance(p, w.db)])
  }

  function Run(w: World, events: seq<Event>): World
    decreases |events|
  {
    if events == [] then w else Run(Step(w, events[0]), events[1..])
  }

  lemma {:induction false} RunConcat(w: World, a: seq<Event>, b: seq<Event>)
    ensures Run(w, a + b) == Run(Run(w, a), b)
    decreases |a|
  {
    if a == [] {
      assert a + b == b;
    } else {
      assert (a + b)[0] == a[0] && (a + b)[1..] == a[1..] + b;
      RunConcat(Step(w, a[0]), a[1..], b);
    }
  }

  /** The one event that discards the schema. */
  predicate Drops(w: World, e: Event) {
    e.Replaces? && Enabled(w, e)
  }

  /** How often the schema is discarded on the way. */
  function Resettings(w: World, events: seq<Event>): nat
    decreases |events|
  {
    if events == [] then 0
    else (if Drops(w, events[0]) then 1 else 0) + Resettings(Step(w, events[0]), events[1..])
  }

  // ----- The lock -----

  /** At most one process is inside the transaction. */
  ghost predicate Exclusive(w: World) {
    forall i, j :: 0 <= i < j < |w.processes| ==> !(HoldsLock(w.processes[i]) && HoldsLock(w.processes[j]))
  }

  lemma StepKeepsExclusive(w: World, e: Event)
    requires Exclusive(w)
    ensures Exclusive(Step(w, e))
  {
    hide Inspect, Applicable;
    if Enabled(w, e) && e.Locks? {
      assert forall j :: 0 <= j < |w.processes| ==> w.processes[j] in w.processes;
    }
  }

  /** Nobody but `i` is about to discard the schema. */
  ghost predicate NoOtherCondemns(w: World, i: int) {
    forall j :: 0 <= j < |w.processes| && j != i ==> !w.processes[j].Condemning?
  }

  ghost predicate NoneCondemns(w: World) {
    NoOtherCondemns(w, -1)
  }

  lemma DropLeavesNone(w: World, e: Event)
    requires Exclusive(w) && Drops(w, e)
    ensures Step(w, e).db == Db(false, None) && NoneCondemns(Step(w, e))
  {
    assert HoldsLock(w.processes[e.process]);
  }

  // ----- Uninterrupted runs -----

  /** Without anyone in between, a run with the flag ends as `resetLegacyTestDatabase` does at one stroke. */
  lemma UninterruptedReset(w: World, i: nat)
    requires i < |w.processes| && w.processes[i].Starting? && w.processes[i].resets
    requires forall q :: q in w.processes ==> !HoldsLock(q)
    ensures var events := [Locks(i), ReadsTables(i), ReadsReceipts(i), ReadsNames(i), Replaces(i)];
      var r := w.processes[i].release;
      Run(w, events) == World(Reset(r, w.db).0, w.processes[i := Concluded(r, Reset(r, w.db).1)])
  {
    var r := w.processes[i].release;
    var e1, e2, e3, e4 := [ReadsTables(i), ReadsReceipts(i), ReadsNames(i), Replaces(i)], [ReadsReceipts(i), ReadsNames(i), Replaces(i)], [ReadsNames(i), Replaces(i)], [Replaces(i)];
    var events := [Locks(i)] + e1;
    assert events == [Locks(i), ReadsTables(i), ReadsReceipts(i), ReadsNames(i), Replaces(i)];
    assert events[1..] == e1 && e1[1..] == e2 && e2[1..] == e3 && e3[1..] == e4 && e4[1..] == [];
    var w1 := Step(w, Locks(i));
    var w2 := Step(w1, ReadsTables(i));
    var w3 := Step(w2, ReadsReceipts(i));
    var w4 := Step(w3, ReadsNames(i));
    var w5 := Step(w4, Replaces(i));
    assert Run(w, events) == w5 by {
      hide Step, Enabled;
      assert Run(w4, e4) == Run(w5, []);
      assert Run(w3, e3) == Run(w4, e4);
      assert Run(w2, e2) == Run(w3, e3);
      assert Run(w1, e1) == Run(w2, e2);
    }
    StepsOfReset(w, i);
  }

  lemma StepsOfReset(w: World, i: nat)
    requires i < |w.processes| && w.processes[i].Starting? && w.processes[i].resets
    requires forall q :: q in w.processes ==> !HoldsLock(q)
    ensures var r := w.processes[i].release;
      Step(Step(Step(Step(Step(w, Locks(i)), ReadsTables(i)), ReadsReceipts(i)), ReadsNames(i)), Replaces(i))
      == World(Reset(r, w.db).0, w.processes[i := Concluded(r, Reset(r, w.db).1)])
  {
    hide Known, ValidPrefix, Applied, NamedTwice, Active, Applicable;
    var r := w.processes[i].release;
    assert Step(w, Locks(i)) == w.(processes := w.processes[i := Locked(r)]);
    assert Db(w.db.otherTables, w.db.receipts) == w.db;
  }

  // ----- A recorded baseline -----

  /** Some receipt, finished or not, known or not, is not older than the baseline. */
  ghost predicate Recorded(db: Db) {
    db.receipts.Some? && exists row :: row in db.receipts.value && !Less(row.name, TARGET)
  }

  lemma StepKeepsNames(w: World, e: Event)
    ensures Drops(w, e) || KeepsNames(w.db, Step(w, e).db)
  {
    hide Advance;
    if Enabled(w, e) && e.FinishesMigration? {
      var rows := w.db.receipts.value;
      var next := rows[e.at := rows[e.at].(finished := true)];
      forall row | row in rows
        ensures exists kept :: kept in next && kept.name == row.name
      {
        var j :| 0 <= j < |rows| && rows[j] == row;
        assert next[j] in next;
      }
    }
  }

  lemma NamesStayRecorded(a: Db, b: Db)
    requires Recorded(a) && KeepsNames(a, b)
    ensures Recorded(b)
  {
    var row :| row in a.receipts.value && !Less(row.name, TARGET);
    var kept :| kept in b.receipts.value && kept.name == row.name;
  }

  lemma CondemnsOnlyLegacy(w: World, e: Event, i: nat)
    requires i < |w.processes| && !w.processes[i].Condemning?
    requires i < |Step(w, e).processes| && Step(w, e).processes[i].Condemning?
    ensures e == ReadsNames(i) && w.processes[i].release.contract == TARGET
    ensures w.db.receipts.Some? && w.db.receipts.value != [] && !Recorded(w.db) && Step(w, e).db == w.db
  {
    hide Inspect;
  }

  lemma StepCondemnsNone(w: World, e: Event)
    requires NoneCondemns(w)
    requires w.db.receipts.None? || w.db.receipts.value == [] || Recorded(w.db)
    ensures !Drops(w, e) && NoneCondemns(Step(w, e))
  {
    forall i | 0 <= i < |Step(w, e).processes|
      ensures !Step(w, e).processes[i].Condemning?
    {
      if i < |w.processes| && Step(w, e).processes[i].Condemning? {
        CondemnsOnlyLegacy(w, e, i);
      }
    }
    hide Advance;
  }

  /** Once a receipt is recorded, no run drops the schema that had not read the history before: whatever runs,
      crashes, statements and deploys follow, with whatever flags and releases. */
  lemma {:induction false} NeverResetOnceRecorded(w: World, events: seq<Event>)
    requires Recorded(w.db) && NoneCondemns(w)
    ensures Resettings(w, events) == 0 && Recorded(Run(w, events).db)
    decreases |events|
  {
    if events != [] {
      StepCondemnsNone(w, events[0]);
      StepKeepsNames(w, events[0]);
      NamesStayRecorded(w.db, Step(w, events[0]).db);
      hide Recorded, Drops, Step, NoneCondemns, KeepsNames;
      NeverResetOnceRecorded(Step(w, events[0]), events[1..]);
    }
  }

  /** In particular a receipt of the baseline itself, finished or not, with whatever checksum, protects the
      database from every such run. */
  lemma BaselineIsNeverDropped(w: World, events: seq<Event>, row: Receipt)
    requires w.db.receipts.Some? && row in w.db.receipts.value && row.name == "20261009000000_current_baseline"
    requires NoneCondemns(w)
    ensures Resettings(w, events) == 0
    ensures Run(w, events).db.receipts.Some?
    ensures exists kept :: kept in Run(w, events).db.receipts.value && kept.name == "20261009000000_current_baseline"
    decreases |events|
  {
    LessIsTotal(row.name, TARGET);
    assert Recorded(w.db);
    NeverResetOnceRecorded(w, events);
    hide Recorded, Drops, Step, NoneCondemns, KeepsNames;
    if events != [] {
      KeepsOne(w, events[0], row);
      var kept :| kept in Step(w, events[0]).db.receipts.value && kept.name == row.name;
      BaselineIsNeverDropped(Step(w, events[0]), events[1..], kept);
    }
  }

  lemma KeepsOne(w: World, e: Event, row: Receipt)
    requires Recorded(w.db) && NoneCondemns(w) && row in w.db.receipts.value
    ensures NoneCondemns(Step(w, e)) && Step(w, e).db.receipts.Some?
    ensures exists kept :: kept in Step(w, e).db.receipts.value && kept.name == row.name
  {
    StepCondemnsNone(w, e);
    StepKeepsNames(w, e);
    hide Step, Drops, NoneCondemns;
  }

  /** The process stays about to discard the schema. */
  ghost predicate StaysCondemning(w: World, events: seq<Event>, i: nat)
    decreases |events|
  {
    i < |w.processes| && w.processes[i].Condemning?
    && (events == [] || StaysCondemning(Step(w, events[0]), events[1..], i))
  }

  /** Some event on the way records a receipt at or after the baseline. */
  ghost predicate RecordsOnTheWay(w: World, events: seq<Event>)
    decreases |events|
  {
    events != []
    && ((!Recorded(w.db) && Recorded(Step(w, events[0]).db)) || RecordsOnTheWay(Step(w, events[0]), events[1..]))
  }

  lemma CondemnedAlone(w: World, e: Event, i: nat)
    requires Exclusive(w) && i < |w.processes| && w.processes[i].Condemning?
    requires Drops(w, e)
    ensures e.process == i
  {
    assert HoldsLock(w.processes[i]) && HoldsLock(w.processes[e.process]);
  }

  lemma {:induction false} RecordedOnTheWay(w: World, events: seq<Event>, i: nat)
    requires Exclusive(w) && StaysCondemning(w, events, i)
    ensures Recorded(Run(w, events).db) <==> Recorded(w.db) || RecordsOnTheWay(w, events)
    decreases |events|
  {
    if events != [] {
      var next := Step(w, events[0]);
      StepKeepsExclusive(w, events[0]);
      if Drops(w, events[0]) {
        CondemnedAlone(w, events[0], i);
      }
      StepKeepsNames(w, events[0]);
      if Recorded(w.db) {
        NamesStayRecorded(w.db, next.db);
      }
      hide Recorded, Drops, Step, Exclusive, KeepsNames;
      RecordedOnTheWay(next, events[1..], i);
    }
  }

  /** A run drops a recorded database exactly when the receipt was recorded between its last read of the
      history and its DROP. */
  lemma DropsRecordedExactlyWhen(w: World, i: nat, between: seq<Event>)
    requires Exclusive(w) && i < |w.processes| && !w.processes[i].Condemning?
    requires StaysCondemning(Step(w, ReadsNames(i)), between, i)
    ensures var read := Step(w, ReadsNames(i));
      && Drops(Run(read, between), Replaces(i))
      && (Recorded(Run(read, between).db) <==> RecordsOnTheWay(read, between))
  {
    var read := Step(w, ReadsNames(i));
    CondemnsOnlyLegacy(w, ReadsNames(i), i);
    StepKeepsExclusive(w, ReadsNames(i));
    RecordedOnTheWay(read, between, i);
    StillCondemning(read, between, i);
  }

  lemma {:induction false} StillCondemning(w: World, events: seq<Event>, i: nat)
    requires StaysCondemning(w, events, i)
    ensures i < |Run(w, events).processes| && Run(w, events).processes[i].Condemning?
    decreases |events|
  {
    if events != [] {
      StillCondemning(Step(w, events[0]), events[1..], i);
    }
  }

  /** It can happen: another deployment records the baseline just before the DROP. */
  lemma DeploymentIsLost(w: World, i: nat, row: Receipt)
    requires i < |w.processes| && w.processes[i].Condemning?
    requires w.db.receipts.Some? && !Less(row.name, TARGET)
    ensures exists events ::
      var last := Run(w, events);
      Recorded(last.db) && Drops(last, Replaces(i)) && !Recorded(Step(last, Replaces(i)).db)
  {
    var db := Db(true, Some(w.db.receipts.value + [row]));
    assert row in db.receipts.value;
    assert KeepsNames(w.db, db);
    var events := [Outside(db)];
    assert events[1..] == [];
    assert Run(Step(w, events[0]), []) == w.(db := db);
    assert Recorded(Run(w, events).db);
  }

  // ----- At most one reset, and a fresh start after it -----

  /** Releases deploy the migration of their contract first, and none is older than the baseline. */
  ghost predicate Modern(r: Release) {
    r.chain != [] && r.chain[0].name == r.contract && !Less(r.contract, TARGET)
  }

  ghost predicate ModernProcesses(w: World) {
    forall i :: 0 <= i < |w.processes| ==> w.processes[i].Gone? || Modern(w.processes[i].release)
  }

  /** Nothing that a reset could apply to. */
  ghost predicate Clean(db: Db) {
    db.receipts.None? || db.receipts.value == [] || Recorded(db)
  }

  /** A history of modern releases in which others record no names of their own. */
  ghost predicate ModernEvent(w: World, e: Event) {
    (e.Launch? ==> Modern(e.release)) && (e.Outside? ==> KeepsNames(e.db, w.db))
  }

  ghost predicate ModernEvents(w: World, events: seq<Event>)
    decreases |events|
  {
    events == [] || (ModernEvent(w, events[0]) && ModernEvents(Step(w, events[0]), events[1..]))
  }

  lemma SomeMember(rows: seq<Receipt>)
    ensures rows == [] || exists row :: row in rows
  {
    if rows != [] {
      assert rows[0] in rows;
    }
  }

  lemma StepKeepsClean(w: World, e: Event)
    requires Clean(w.db) && NoneCondemns(w) && ModernProcesses(w) && ModernEvent(w, e)
    ensures !Drops(w, e) && Clean(Step(w, e).db)
  {
    StepCondemnsNone(w, e);
    StepKeepsNames(w, e);
    if Recorded(w.db) {
      NamesStayRecorded(w.db, Step(w, e).db);
    } else if e.BeginsMigration? && Enabled(w, e) {
      var r := w.processes[e.process].release;
      assert Applied([]) == [] && Named([], r.chain[0].name) == [];
      assert NextMigration(r, [], 0) == 0;
      var rows := Step(w, e).db.receipts.value;
      assert rows[0] in rows && rows[0].name == r.contract;
    } else if e.Outside? && Enabled(w, e) && e.db.receipts.Some? {
      SomeMember(e.db.receipts.value);
    }
    hide Advance;
  }

  lemma StepKeepsModern(w: World, e: Event)
    requires ModernProcesses(w) && ModernEvent(w, e)
    ensures ModernProcesses(Step(w, e))
  {
    hide Inspect, Applicable, Modern;
  }

  lemma {:induction false} NoResetFromClean(w: World, events: seq<Event>)
    requires Clean(w.db) && NoneCondemns(w) && ModernProcesses(w) && ModernEvents(w, events)
    ensures Resettings(w, events) == 0
    decreases |events|
  {
    if events != [] {
      StepKeepsClean(w, events[0]);
      StepCondemnsNone(w, events[0]);
      StepKeepsModern(w, events[0]);
      hide Clean, NoneCondemns, ModernProcesses, ModernEvent, Drops, Step;
      NoResetFromClean(Step(w, events[0]), events[1..]);
    }
  }

  /** A flag left in a build command resets a database once in its life, however the runs overlap. */
  lemma {:induction false} AtMostOneReset(w: World, events: seq<Event>)
    requires Exclusive(w) && ModernProcesses(w) && ModernEvents(w, events)
    ensures Resettings(w, events) <= 1
    decreases |events|
  {
    if events != [] {
      var next := Step(w, events[0]);
      StepKeepsModern(w, events[0]);
      if Drops(w, events[0]) {
        DropLeavesNone(w, events[0]);
        NoResetFromClean(next, events[1..]);
      } else {
        StepKeepsExclusive(w, events[0]);
        hide ModernProcesses, ModernEvent, Step, Exclusive;
        AtMostOneReset(next, events[1..]);
      }
    }
  }

  ghost predicate NothingBegun(events: seq<Event>) {
    forall i :: 0 <= i < |events| ==> !events[i].BeginsMigration? && !events[i].Outside?
  }

  predicate Blank(db: Db) {
    !db.otherTables && (db.receipts.None? || db.receipts.value == [])
  }

  lemma StepKeepsBlank(w: World, e: Event)
    requires Blank(w.db) && !e.BeginsMigration? && !e.Outside?
    ensures Blank(Step(w, e).db)
  {
    hide Advance;
  }

  lemma BlankIsFresh(r: Release, db: Db)
    requires Blank(db)
    ensures Inspect(r, db) == Success(true) && Reset(r, db) == (db, Success(true))
  {
    assert db.receipts.Some? ==> Active(db.receipts.value) == [] && Applied(db.receipts.value) == [];
  }

  /** A run interrupted between its reset and its first migration resumes as fresh, with or without
      the flag and however often it is interrupted again. */
  lemma {:induction false} InterruptedResetResumes(w: World, events: seq<Event>, r: Release)
    requires Blank(w.db) && NothingBegun(events)
    ensures Inspect(r, Run(w, events).db) == Success(true)
    ensures Reset(r, Run(w, events).db) == (Run(w, events).db, Success(true))
    decreases |events|
  {
    if events == [] {
      BlankIsFresh(r, w.db);
    } else {
      StepKeepsBlank(w, events[0]);
      InterruptedResetResumes(Step(w, events[0]), events[1..], r);
    }
  }

  /** A run with the flag that will find the database fresh. */
  ghost predicate FindsFresh(w: World, j: nat) {
    && Blank(w.db) && j < |w.processes|
    && var p := w.processes[j];
       || (p.Starting? && p.resets) || p.Locked? || p.Deploying?
       || (p.Listed? && p.resets && !p.otherTables && w.db.receipts.Some?)
  }

  lemma StepFindsFresh(w: World, e: Event, j: nat)
    requires FindsFresh(w, j) && NoneCondemns(w) && e != Ends(j) && !e.BeginsMigration? && !e.Outside?
    ensures FindsFresh(Step(w, e), j) && NoneCondemns(Step(w, e))
  {
    StepKeepsBlank(w, e);
    StepCondemnsNone(w, e);
    BlankIsFresh(w.processes[j].release, w.db);
    if w.processes[j].Listed? {
      assert Db(w.processes[j].otherTables, w.db.receipts) == w.db;
    }
    hide Inspect, Applicable, NoneCondemns, NoOtherCondemns;
  }

  lemma {:induction false} RunFindsFresh(w: World, events: seq<Event>, j: nat)
    requires FindsFresh(w, j) && NoneCondemns(w) && NothingBegun(events)
    requires forall k :: 0 <= k < |events| ==> events[k] != Ends(j)
    ensures FindsFresh(Run(w, events), j)
    decreases |events|
  {
    if events != [] {
      StepFindsFresh(w, events[0], j);
      hide FindsFresh, NoneCondemns, Step;
      RunFindsFresh(Step(w, events[0]), events[1..], j);
    }
  }

  lemma DropFindsFresh(w: World, first: nat, second: nat)
    requires first < |w.processes| && w.processes[first].Condemning?
    requires second < |w.processes| && w.processes[second].Starting? && w.processes[second].resets
    requires Exclusive(w)
    ensures FindsFresh(Step(w, Replaces(first)), second) && NoneCondemns(Step(w, Replaces(first)))
  {
    DropLeavesNone(w, Replaces(first));
    hide NoneCondemns, Exclusive;
  }

  /** Of two overlapping resets, the second waits and finds a fresh database: until a migration begins it is
      waiting, reading or deploying, and never on the way to another reset. */
  lemma SecondResetFindsFresh(w: World, first: nat, second: nat, events: seq<Event>)
    requires Exclusive(w) && first < |w.processes| && w.processes[first].Condemning?
    requires second < |w.processes| && w.processes[second].Starting? && w.processes[second].resets
    requires NothingBegun(events) && forall k :: 0 <= k < |events| ==> events[k] != Ends(second)
    ensures FindsFresh(Run(Step(w, Replaces(first)), events), second)
  {
    DropFindsFresh(w, first, second);
    hide *;
    RunFindsFresh(Step(w, Replaces(first)), events, second);
  }

  // ----- An unfinished migration -----

  ghost predicate KnowsAll(r: Release, db: Db) {
    db.receipts.Some? && forall row :: row in db.receipts.value ==> Known(r, row)
  }

  ghost predicate Unfinished(db: Db) {
    db.receipts.Some? && exists row :: row in db.receipts.value && !row.finished && !row.rolledBack
  }

  lemma UnfinishedIsIncomplete(r: Release, db: Db)
    requires KnowsAll(r, db) && Unfinished(db)
    ensures Inspect(r, db) == Failure(InstallationIncomplete)
    ensures forall otherTables :: Inspect(r, Db(otherTables, db.receipts)) == Failure(InstallationIncomplete)
  {
  }

  /** The process has not got beyond the inspection, and its release has all receipts. */
  ghost predicate Stopped(p: Process, db: Db) {
    p.Gone? || ((p.Starting? || p.Locked? || p.Listed?) && KnowsAll(p.release, db))
  }

  ghost predicate AllStopped(w: World) {
    forall i :: 0 <= i < |w.processes| ==> Stopped(w.processes[i], w.db)
  }

  lemma StepStops(w: World, e: Event)
    requires AllStopped(w) && Unfinished(w.db) && !e.Outside? && (e.Launch? ==> KnowsAll(e.release, w.db))
    ensures Step(w, e).db == w.db && AllStopped(Step(w, e))
  {
    if e.ReadsReceipts? && Enabled(w, e) {
      UnfinishedIsIncomplete(w.processes[e.process].release, w.db);
    }
    hide Inspect, KnowsAll, Applicable;
  }

  /** An interrupted migration stops every later run, with whatever flags, crashes and interleavings: while
      nobody else changes the receipts no run gets to deploy, and the database stays as it is. */
  lemma {:induction false} UnfinishedMigrationRefused(w: World, events: seq<Event>)
    requires AllStopped(w) && Unfinished(w.db)
    requires forall k :: 0 <= k < |events| ==> !events[k].Outside? && (events[k].Launch? ==> KnowsAll(events[k].release, w.db))
    ensures Run(w, events).db == w.db
    ensures forall p :: p in Run(w, events).processes ==> !p.Deploying? && !p.Condemning?
    decreases |events|
  {
    if events != [] {
      StepStops(w, events[0]);
      hide AllStopped, Unfinished, KnowsAll, Step;
      UnfinishedMigrationRefused(Step(w, events[0]), events[1..]);
    }
  }
}
