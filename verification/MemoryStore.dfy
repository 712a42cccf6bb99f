/** Rows, revision counters and billing locks of the transactional memory store
    (scripts/test-support/admin-command-memory-db.js).

    Some columns of a row are guarded by a revision counter, which `update` and `create` advance when
    a guarded column changes.  The guarded columns of a subscription are guarded by the counter of its
    agency.  The point of a counter is that two committed states which show the same revision show the
    same policy; `RevisionsTell` proves it for every run of transactions, and `AssignTells` says
    exactly which data breaks it in one call. */
module MemoryStore {

  import opened Wrappers
  import Savepoints

  /** A JavaScript value of a column. */
  datatype Val = Undefined | Null | NaN | Bool(b: bool) | Num(n: int) | Text(s: string) | Date(ms: int)

  type Row = map<string, Val>

  function Get(row: Row, key: string): Val {
    if key in row then row[key] else Undefined
  }

  predicate Truthy(v: Val) {
    match v
    case Undefined => false
    case Null => false
    case NaN => false
    case Bool(b) => b
    case Num(n) => n != 0
    case Text(s) => s != ""
    case Date(_) => true
  }

  /** The value as its JSON text tells it: `JSON.stringify(v ?? null)`. */
  function Json(v: Val): Val {
    if v.Undefined? || v.NaN? then Null else v
  }

  lemma SameJson(a: Val, b: Val)
    ensures Json(a) == Json(b) <==> a == b || (a in [Undefined, Null, NaN] && b in [Undefined, Null, NaN])
  {
  }

  /** `===` on columns; two copies of a date are never identical. */
  predicate Identical(a: Val, b: Val) {
    a == b && !a.NaN? && !a.Date?
  }

  function Increment(v: Val): Val {
    match v
    case Num(n) => Num(n + 1)
    case Null => Num(1)
    case Bool(b) => Num(if b then 2 else 1)
    case _ => NaN
  }

  // ----- Tables and their counters -----

  datatype Table = Admins | Agencies | Subscriptions | Profiles | Entitlements | Other(name: string)

  type Store = map<Table, seq<Row>>

  function Rows(s: Store, t: Table): seq<Row> {
    if t in s then s[t] else []
  }

  /** Tables whose rows carry their own counter. */
  predicate Counted(t: Table) {
    t.Admins? || t.Agencies? || t.Profiles? || t.Entitlements?
  }

  function Counter(t: Table): string {
    match t
    case Admins => "accessEpoch"
    case Profiles => "pricingRevision"
    case Entitlements => "entitlementRevision"
    case _ => "billingPolicyRevision"
  }

  predicate Guarded(t: Table, key: string) {
    match t
    case Admins => key in ["active", "role", "passwordHash"]
    case Agencies => key in ["plan", "trialEndsAt", "billingSupportHold", "billingSupportHoldReason"]
    case Subscriptions => key in ["billingMode", "billingPeriod", "corePricePerCreatorCents", "trialEndsAt", "notes"]
    case Profiles => key !in ["revenue30dCents", "updatedAt"]
    case Entitlements =>
      key !in ["updatedAt", "lastRenewalAttemptAt", "lastRenewalErrorCode", "lastRevenue30dCents", "lastRevenueCapturedAt"]
    case Other(_) => false
  }

  /** Whether `update` sees a difference in one column of the data.  Except for profiles a column that
      is present but undefined is overlooked. */
  predicate Differs(t: Table, was: Val, now: Val) {
    match t
    case Profiles => !Identical(was, now)
    case Admins => !now.Undefined? && !Identical(was, now)
    case _ => !now.Undefined? && Json(was) != Json(now)
  }

  predicate Touches(t: Table, row: Row, data: Row) {
    exists key :: key in data && Guarded(t, key) && Differs(t, Get(row, key), data[key])
  }

  /** Agreement on a guarded column. */
  predicate Same(t: Table, a: Val, b: Val) {
    if t.Admins? || t.Profiles? then a == b else Json(a) == Json(b)
  }

  // ----- Statements -----

  datatype Outcome = Outcome(store: Store, threw: bool)

  predicate Matches(row: Row, cond: Row) {
    forall key :: key in cond ==> Identical(Get(row, key), cond[key])
  }

  /** `rows.find(...)`: index of the first matching row, or -1. */
  function FindRow(rows: seq<Row>, cond: Row): (i: int)
    ensures -1 <= i < |rows|
    ensures i >= 0 ==> Matches(rows[i], cond) && forall j :: 0 <= j < i ==> !Matches(rows[j], cond)
    ensures i < 0 ==> forall j :: 0 <= j < |rows| ==> !Matches(rows[j], cond)
  {
    if rows == [] then -1
    else if Matches(rows[0], cond) then 0
    else var i := FindRow(rows[1..], cond); if i < 0 then -1 else i + 1
  }

  function Bump(t: Table, row: Row): Row {
    row[Counter(t) := Increment(Get(row, Counter(t)))]
  }

  /** Advances the counter of the agency of that id; fails when there is none. */
  function BumpAgency(s: Store, agency: Val): Option<Store> {
    var i := FindRow(Rows(s, Agencies), map["id" := agency]);
    if i < 0 then None
    else Some(s[Agencies := Rows(s, Agencies)[i := Bump(Agencies, Rows(s, Agencies)[i])]])
  }

  /** The row behind `Object.assign(row, data)`, its counter and the lock of a held or deleted agency. */
  function Assigned(t: Table, row: Row, data: Row): Row {
    var counted := if Counted(t) && Touches(t, row, data) then Bump(t, row) else row;
    var merged := counted + data;
    if t.Agencies? && (Truthy(Get(merged, "deletedAt")) || Truthy(Get(merged, "billingSupportHold")))
    then merged["status" := Text("LOCKED")] else merged
  }

  function Update(s: Store, t: Table, cond: Row, data: Row): Outcome {
    var i := FindRow(Rows(s, t), cond);
    if i < 0 then Outcome(s, true)
    else
      var row := Rows(s, t)[i];
      var bumped := if t.Subscriptions? && Touches(t, row, data) then BumpAgency(s, Get(row, "agencyId")) else Some(s);
      if bumped.None? then Outcome(s, true)
      else Outcome(bumped.value[t := Rows(s, t)[i := Assigned(t, row, data)]], false)
  }

  /** `row` is the created row with its defaults.  A subscription of an unknown agency is pushed
      before the statement throws. */
  function Create(s: Store, t: Table, row: Row): Outcome {
    var pushed := s[t := Rows(s, t) + [row]];
    if !t.Subscriptions? then Outcome(pushed, false)
    else
      var bumped := BumpAgency(pushed, Get(row, "agencyId"));
      if bumped.None? then Outcome(pushed, true) else Outcome(bumped.value, false)
  }

  // ----- What a counter tells about a row -----

  function Revision(t: Table, row: Row): Val {
    Get(row, Counter(t))
  }

  predicate AtMost(a: Val, b: Val) {
    a.Num? && b.Num? && a.n <= b.n
  }

  ghost predicate Agree(t: Table, a: Row, b: Row) {
    forall key {:trigger Guarded(t, key)} :: Guarded(t, key) && key != Counter(t) ==> Same(t, Get(a, key), Get(b, key))
  }

  /** The counter has not gone back, and where it stands still the guarded columns do too. */
  ghost predicate RowKept(t: Table, a: Row, b: Row) {
    AtMost(Revision(t, a), Revision(t, b)) && (Revision(t, a) == Revision(t, b) ==> Agree(t, a, b))
  }

  /** The data empties a guarded column by an undefined value. */
  ghost predicate Blanks(t: Table, row: Row, data: Row) {
    exists key :: key in data && Guarded(t, key) && key != Counter(t) && data[key].Undefined? && !Same(t, Get(row, key), Undefined)
  }

  lemma AssignedColumns(t: Table, row: Row, data: Row, key: string)
    requires Counted(t) && Guarded(t, key) && key != Counter(t)
    ensures Get(Assigned(t, row, data), key) == if key in data then data[key] else Get(row, key)
  {
    assert t.Agencies? ==> key != "status";
  }

  /** One assignment keeps the promise of the counter exactly when it touches the row in the eyes of
      `update`, or blanks nothing. */
  lemma AssignTells(t: Table, row: Row, data: Row)
    requires Counted(t) && Revision(t, row).Num? && Counter(t) !in data
    ensures RowKept(t, row, Assigned(t, row, data)) <==> Touches(t, row, data) || !Blanks(t, row, data)
  {
    var next := Assigned(t, row, data);
    assert t.Agencies? ==> Counter(t) != "status";
    assert Revision(t, next) == if Touches(t, row, data) then Num(Revision(t, row).n + 1) else Revision(t, row);
    if !Touches(t, row, data) {
      forall key | Guarded(t, key) && key != Counter(t) && !Blanks(t, row, data)
        ensures Same(t, Get(row, key), Get(next, key))
      {
        AssignedColumns(t, row, data, key);
      }
      if Blanks(t, row, data) {
        var key :| key in data && Guarded(t, key) && key != Counter(t) && data[key].Undefined? && !Same(t, Get(row, key), Undefined);
        AssignedColumns(t, row, data, key);
        assert !Agree(t, row, next);
      }
    }
  }

  /** Clearing the hold reason with an undefined value changes the policy under the same revision. */
  lemma BlankedColumn()
    ensures var row: Row := map["billingPolicyRevision" := Num(1), "plan" := Text("core")]; var data: Row := map["plan" := Undefined];
      !RowKept(Agencies, row, Assigned(Agencies, row, data))
  {
    var row: Row, data: Row := map["billingPolicyRevision" := Num(1), "plan" := Text("core")], map["plan" := Undefined];
    assert Guarded(Agencies, "plan") && "plan" in data && data["plan"].Undefined?;
    assert Blanks(Agencies, row, data);
    AssignTells(Agencies, row, data);
  }

  // ----- What the counters tell about a whole store -----

  predicate OfAgency(subs: seq<Row>, j: int, agency: Val) {
    0 <= j < |subs| && Get(subs[j], "agencyId") == agency
  }

  /** The same subscriptions of one agency, with the same guarded columns. */
  ghost predicate SubsAgree(a: seq<Row>, b: seq<Row>, agency: Val) {
    && (forall j :: OfAgency(a, j, agency) <==> OfAgency(b, j, agency))
    && (forall j :: OfAgency(a, j, agency) && OfAgency(b, j, agency) ==> Agree(Subscriptions, a[j], b[j]))
  }

  ghost predicate TableKept(t: Table, a: seq<Row>, b: seq<Row>) {
    |a| <= |b| && forall i :: 0 <= i < |a| ==> RowKept(t, a[i], b[i])
  }

  /** Equal revision, equal policy: row by row, and for an agency with all of its subscriptions. */
  ghost predicate PolicyKept(a: seq<Row>, b: seq<Row>, subsA: seq<Row>, subsB: seq<Row>) {
    && |a| == |b|
    && (forall i :: 0 <= i < |a| ==> Get(a[i], "id") == Get(b[i], "id"))
    && (forall i :: 0 <= i < |a| && Revision(Agencies, a[i]) == Revision(Agencies, b[i]) ==> SubsAgree(subsA, subsB, Get(a[i], "id")))
  }

  ghost predicate StoreKept(a: Store, b: Store) {
    && (forall t :: Counted(t) ==> TableKept(t, Rows(a, t), Rows(b, t)))
    && PolicyKept(Rows(a, Agencies), Rows(b, Agencies), Rows(a, Subscriptions), Rows(b, Subscriptions))
  }

  const FALSY: seq<Val> := [Undefined, Null, NaN, Bool(false), Num(0), Text("")]

  /** An agency that is held or deleted is locked. */
  predicate Locked(agency: Row) {
    || (Get(agency, "deletedAt") in FALSY && Get(agency, "billingSupportHold") in FALSY)
    || Get(agency, "status") == Text("LOCKED")
  }

  ghost predicate GoodAgencies(agencies: seq<Row>) {
    && (forall i, j :: 0 <= i < j < |agencies| ==> Get(agencies[i], "id") != Get(agencies[j], "id"))
    && (forall i :: 0 <= i < |agencies| ==> Identical(Get(agencies[i], "id"), Get(agencies[i], "id")))
    && (forall i :: 0 <= i < |agencies| ==> Locked(agencies[i]))
  }

  ghost predicate Numbered(t: Table, rows: seq<Row>) {
    forall i :: 0 <= i < |rows| ==> Revision(t, rows[i]).Num?
  }

  /** Agencies are told apart by their ids, which `===` finds, held and deleted ones are locked, counters are
      numbers. */
  ghost predicate Sound(s: Store) {
    GoodAgencies(Rows(s, Agencies)) && forall t :: Counted(t) ==> Numbered(t, Rows(s, t))
  }

  lemma RowKeptTransitive(t: Table, a: Row, b: Row, c: Row)
    requires RowKept(t, a, b) && RowKept(t, b, c)
    ensures RowKept(t, a, c)
  {
    if Revision(t, a) == Revision(t, c) {
      forall key | Guarded(t, key) && key != Counter(t)
        ensures Same(t, Get(a, key), Get(c, key))
      {
        assert Same(t, Get(a, key), Get(b, key)) && Same(t, Get(b, key), Get(c, key));
      }
    }
  }

  lemma TableKeptTransitive(t: Table, a: seq<Row>, b: seq<Row>, c: seq<Row>)
    requires TableKept(t, a, b) && TableKept(t, b, c)
    ensures TableKept(t, a, c)
  {
    hide RowKept;
    forall i | 0 <= i < |a|
      ensures RowKept(t, a[i], c[i])
    {
      RowKeptTransitive(t, a[i], b[i], c[i]);
    }
  }

  lemma SubsAgreeTransitive(a: seq<Row>, b: seq<Row>, c: seq<Row>, agency: Val)
    requires SubsAgree(a, b, agency) && SubsAgree(b, c, agency)
    ensures SubsAgree(a, c, agency)
  {
    forall j | OfAgency(a, j, agency) && OfAgency(c, j, agency)
      ensures Agree(Subscriptions, a[j], c[j])
    {
      assert OfAgency(b, j, agency);
      forall key | Guarded(Subscriptions, key) && key != Counter(Subscriptions)
        ensures Same(Subscriptions, Get(a[j], key), Get(c[j], key))
      {
        assert Same(Subscriptions, Get(a[j], key), Get(b[j], key)) && Same(Subscriptions, Get(b[j], key), Get(c[j], key));
      }
    }
  }

  lemma StoreKeptTransitive(a: Store, b: Store, c: Store)
    requires StoreKept(a, b) && StoreKept(b, c)
    ensures StoreKept(a, c)
  {
    hide RowKept, SubsAgree, TableKept;
    forall t | Counted(t)
      ensures TableKept(t, Rows(a, t), Rows(c, t))
    {
      TableKeptTransitive(t, Rows(a, t), Rows(b, t), Rows(c, t));
    }
    PolicyKeptTransitive(Rows(a, Agencies), Rows(b, Agencies), Rows(c, Agencies),
                         Rows(a, Subscriptions), Rows(b, Subscriptions), Rows(c, Subscriptions));
  }

  lemma PolicyKeptTransitive(a: seq<Row>, b: seq<Row>, c: seq<Row>, subsA: seq<Row>, subsB: seq<Row>, subsC: seq<Row>)
    requires TableKept(Agencies, a, b) && TableKept(Agencies, b, c)
    requires PolicyKept(a, b, subsA, subsB) && PolicyKept(b, c, subsB, subsC)
    ensures PolicyKept(a, c, subsA, subsC)
  {
    hide SubsAgree;
    forall i | 0 <= i < |a| && Revision(Agencies, a[i]) == Revision(Agencies, c[i])
      ensures SubsAgree(subsA, subsC, Get(a[i], "id"))
    {
      assert RowKept(Agencies, a[i], b[i]) && RowKept(Agencies, b[i], c[i]);
      SubsAgreeTransitive(subsA, subsB, subsC, Get(a[i], "id"));
    }
  }

  // ----- Every statement keeps what the counters tell -----

  /** A caller leaves counters and identities alone, and does not blank guarded columns; a new row
      starts with a number in its counter.  Agencies are not created by this client. */
  ghost predicate WellBehaved(stmt: Statement) {
    match stmt
    case DoUpdate(t, _, data) =>
      && Counter(t) !in data
      && (t.Agencies? ==> "id" !in data)
      && (t.Subscriptions? ==> "agencyId" !in data)
      && (!t.Profiles? ==> forall key :: key in data && Guarded(t, key) ==> !data[key].Undefined?)
    case DoCreate(t, row) => !t.Agencies? && (Counted(t) ==> Revision(t, row).Num?)
    case _ => true
  }

  datatype Statement =
    | DoUpdate(table: Table, cond: Row, data: Row)
    | DoCreate(table: Table, row: Row)
    | Save(name: string)
    | RollBack(name: string)
    | Free(name: string)

  lemma RowKeptReflexive(t: Table, row: Row)
    requires Revision(t, row).Num?
    ensures RowKept(t, row, row)
  {
  }

  lemma TableKeptReflexive(t: Table, rows: seq<Row>)
    requires Numbered(t, rows)
    ensures TableKept(t, rows, rows)
  {
    hide RowKept;
    forall i | 0 <= i < |rows|
      ensures RowKept(t, rows[i], rows[i])
    {
      RowKeptReflexive(t, rows[i]);
    }
  }

  lemma SubsAgreeReflexive(subs: seq<Row>, agency: Val)
    ensures SubsAgree(subs, subs, agency)
  {
  }

  lemma StoreKeptReflexive(s: Store)
    requires Sound(s)
    ensures StoreKept(s, s)
  {
    hide RowKept, TableKept, SubsAgree;
    forall t | Counted(t)
      ensures TableKept(t, Rows(s, t), Rows(s, t))
    {
      TableKeptReflexive(t, Rows(s, t));
    }
    forall agency: Val
      ensures SubsAgree(Rows(s, Subscriptions), Rows(s, Subscriptions), agency)
    {
      SubsAgreeReflexive(Rows(s, Subscriptions), agency);
    }
  }

  lemma ReplacedRow(t: Table, rows: seq<Row>, i: nat, row: Row)
    requires Numbered(t, rows) && i < |rows| && RowKept(t, rows[i], row)
    ensures Numbered(t, rows[i := row]) && TableKept(t, rows, rows[i := row])
  {
    TableKeptReflexive(t, rows);
    assert AtMost(Revision(t, rows[i]), Revision(t, row));
    hide RowKept;
  }

  lemma AssignedKept(t: Table, row: Row, data: Row)
    requires Counted(t) && Revision(t, row).Num? && WellBehaved(DoUpdate(t, map[], data))
    ensures RowKept(t, row, Assigned(t, row, data))
  {
    AssignTells(t, row, data);
    if Blanks(t, row, data) {
      var key :| key in data && Guarded(t, key) && key != Counter(t) && data[key].Undefined? && !Same(t, Get(row, key), Undefined);
      assert t.Profiles? && Differs(t, Get(row, key), data[key]);
    }
  }

  lemma ReplacedKept(s: Store, t: Table, i: nat, row: Row)
    requires Sound(s) && Counted(t) && i < |Rows(s, t)|
    requires Numbered(t, Rows(s, t)[i := row]) && TableKept(t, Rows(s, t), Rows(s, t)[i := row])
    requires t.Agencies? ==> Get(row, "id") == Get(Rows(s, t)[i], "id") && Locked(row)
    ensures Sound(s[t := Rows(s, t)[i := row]]) && StoreKept(s, s[t := Rows(s, t)[i := row]])
  {
    StoreKeptReflexive(s);
    hide RowKept, TableKept, SubsAgree, Numbered, Locked;
    var next := s[t := Rows(s, t)[i := row]];
    assert forall u :: Rows(next, u) == if u == t then Rows(s, t)[i := row] else Rows(s, u);
  }

  lemma UpdateCountedKept(s: Store, t: Table, cond: Row, data: Row)
    requires Sound(s) && Counted(t) && WellBehaved(DoUpdate(t, cond, data))
    ensures Sound(Update(s, t, cond, data).store) && StoreKept(s, Update(s, t, cond, data).store)
  {
    var i := FindRow(Rows(s, t), cond);
    if i < 0 {
      StoreKeptReflexive(s);
    } else {
      var rows := Rows(s, t);
      var row := Assigned(t, rows[i], data);
      AssignedKept(t, rows[i], data);
      ReplacedRow(t, rows, i, row);
      if t.Agencies? {
        AssignedAgency(rows[i], data);
      }
      ReplacedKept(s, t, i, row);
      hide Sound, StoreKept, Assigned;
    }
  }

  lemma AssignedAgency(row: Row, data: Row)
    requires "id" !in data
    ensures Get(Assigned(Agencies, row, data), "id") == Get(row, "id") && Locked(Assigned(Agencies, row, data))
  {
  }

  /** The counter of every agency of that id has changed. */
  ghost predicate Advanced(a: seq<Row>, b: seq<Row>, agency: Val)
    requires |a| == |b|
  {
    forall i :: 0 <= i < |a| && Get(a[i], "id") == agency ==> Revision(Agencies, b[i]) != Revision(Agencies, a[i])
  }

  lemma BumpedAgencyKept(s: Store, agency: Val)
    requires Sound(s) && BumpAgency(s, agency).Some?
    ensures var next := BumpAgency(s, agency).value;
      && Sound(next)
      && (forall t :: t != Agencies ==> Rows(next, t) == Rows(s, t))
      && (forall t :: Counted(t) ==> TableKept(t, Rows(s, t), Rows(next, t)))
      && |Rows(next, Agencies)| == |Rows(s, Agencies)|
      && (forall i :: 0 <= i < |Rows(s, Agencies)| ==> Get(Rows(next, Agencies)[i], "id") == Get(Rows(s, Agencies)[i], "id"))
      && Advanced(Rows(s, Agencies), Rows(next, Agencies), agency)
  {
    var rows, cond := Rows(s, Agencies), map["id" := agency];
    var i := FindRow(rows, cond);
    assert Get(rows[i], "id") == cond["id"];
    var row := Bump(Agencies, rows[i]);
    StoreKeptReflexive(s);
    assert RowKept(Agencies, rows[i], row);
    ReplacedRow(Agencies, rows, i, row);
    var next := BumpAgency(s, agency).value;
    hide RowKept, TableKept, Matches;
    assert Rows(next, Agencies) == rows[i := row];
    assert forall u :: u != Agencies ==> Rows(next, u) == Rows(s, u);
    assert Get(row, "id") == Get(rows[i], "id") && (Locked(rows[i]) ==> Locked(row));
    hide BumpAgency, FindRow, Bump, Locked, Rows, Increment;
  }

  /** Changing or adding a subscription of another agency is not seen. */
  lemma SubsChanged(a: seq<Row>, b: seq<Row>, j: nat, agency: Val)
    requires j < |b| && |a| <= |b| <= |a| + 1 && (|a| < |b| ==> j == |a|)
    requires forall k :: 0 <= k < |b| && k != j ==> k < |a| && a[k] == b[k]
    requires if j < |a| then Get(a[j], "agencyId") == Get(b[j], "agencyId") && (Get(a[j], "agencyId") == agency ==> Agree(Subscriptions, a[j], b[j]))
             else Get(b[j], "agencyId") != agency
    ensures SubsAgree(a, b, agency)
  {
    forall k
      ensures OfAgency(a, k, agency) <==> OfAgency(b, k, agency)
    {
    }
    forall k | OfAgency(a, k, agency) && OfAgency(b, k, agency)
      ensures Agree(Subscriptions, a[k], b[k])
    {
      if k != j {
        assert a[k] == b[k];
      }
    }
  }

  lemma UntouchedSubscription(row: Row, data: Row)
    requires WellBehaved(DoUpdate(Subscriptions, map[], data)) && !Touches(Subscriptions, row, data)
    ensures Agree(Subscriptions, row, Assigned(Subscriptions, row, data))
  {
    forall key | Guarded(Subscriptions, key)
      ensures Same(Subscriptions, Get(row, key), Get(Assigned(Subscriptions, row, data), key))
    {
      assert key in data ==> !Differs(Subscriptions, Get(row, key), data[key]);
    }
  }

  lemma UpdateSubscriptionKept(s: Store, cond: Row, data: Row)
    requires Sound(s) && WellBehaved(DoUpdate(Subscriptions, cond, data))
    ensures Sound(Update(s, Subscriptions, cond, data).store) && StoreKept(s, Update(s, Subscriptions, cond, data).store)
  {
    StoreKeptReflexive(s);
    hide Touches, StoreKept, BumpAgency;
    var subs := Rows(s, Subscriptions);
    var j := FindRow(subs, cond);
    if j >= 0 {
      var row, agency := Assigned(Subscriptions, subs[j], data), Get(subs[j], "agencyId");
      var touched := Touches(Subscriptions, subs[j], data);
      assert Get(row, "agencyId") == agency;
      if touched && BumpAgency(s, agency).Some? {
        BumpedAgencyKept(s, agency);
        SubscriptionWritten(s, BumpAgency(s, agency).value, subs[j := row], j, agency);
      } else if !touched {
        UntouchedSubscription(subs[j], data);
        SubscriptionWritten(s, s, subs[j := row], j, agency);
      }
    }
  }

  /** Writing one subscription behind the counter of its agency. */
  lemma SubscriptionWritten(s: Store, bumped: Store, subs: seq<Row>, j: nat, agency: Val)
    requires Sound(s) && Sound(bumped)
    requires forall t :: t != Agencies ==> Rows(bumped, t) == Rows(s, t)
    requires forall t :: Counted(t) ==> TableKept(t, Rows(s, t), Rows(bumped, t))
    requires |Rows(bumped, Agencies)| == |Rows(s, Agencies)|
    requires forall i :: 0 <= i < |Rows(s, Agencies)| ==> Get(Rows(bumped, Agencies)[i], "id") == Get(Rows(s, Agencies)[i], "id")
    requires j < |subs| && |Rows(s, Subscriptions)| <= |subs| <= |Rows(s, Subscriptions)| + 1
    requires |Rows(s, Subscriptions)| < |subs| ==> j == |Rows(s, Subscriptions)|
    requires forall k :: 0 <= k < |subs| && k != j ==> k < |Rows(s, Subscriptions)| && subs[k] == Rows(s, Subscriptions)[k]
    requires Get(subs[j], "agencyId") == agency
    requires j < |Rows(s, Subscriptions)| ==> Get(Rows(s, Subscriptions)[j], "agencyId") == agency
    requires (j < |Rows(s, Subscriptions)| && Agree(Subscriptions, Rows(s, Subscriptions)[j], subs[j]))
      || Advanced(Rows(s, Agencies), Rows(bumped, Agencies), agency)
    ensures Sound(bumped[Subscriptions := subs]) && StoreKept(s, bumped[Subscriptions := subs])
  {
    var next := bumped[Subscriptions := subs];
    assert forall t :: Counted(t) ==> Rows(next, t) == Rows(bumped, t);
    hide TableKept, RowKept, SubsAgree;
    var a, b := Rows(s, Agencies), Rows(bumped, Agencies);
    forall i | 0 <= i < |a| && Revision(Agencies, a[i]) == Revision(Agencies, b[i])
      ensures SubsAgree(Rows(s, Subscriptions), subs, Get(a[i], "id"))
    {
      SubsChanged(Rows(s, Subscriptions), subs, j, Get(a[i], "id"));
    }
  }

  // ----- Exactly which updates of a subscription are seen -----

  function AgencyIds(rows: seq<Row>): (ids: seq<Val>)
    ensures |ids| == |rows| && forall i :: 0 <= i < |rows| ==> ids[i] == Get(rows[i], "id")
  {
    if rows == [] then [] else [Get(rows[0], "id")] + AgencyIds(rows[1..])
  }

  predicate Known(s: Store, agency: Val) {
    agency in AgencyIds(Rows(s, Agencies))
  }

  lemma KnownTells(s: Store, agency: Val)
    requires GoodAgencies(Rows(s, Agencies))
    ensures Known(s, agency) <==> FindRow(Rows(s, Agencies), map["id" := agency]) >= 0
  {
    var cond := map["id" := agency];
    var ids := AgencyIds(Rows(s, Agencies));
    forall i | 0 <= i < |Rows(s, Agencies)|
      ensures Matches(Rows(s, Agencies)[i], cond) <==> ids[i] == agency
    {
    }
    var found := FindRow(Rows(s, Agencies), cond);
    if found >= 0 {
      assert ids[found] == agency;
    }
  }

  lemma OneSubscription(a: seq<Row>, b: seq<Row>, j: nat, agency: Val)
    requires j < |a| == |b| && forall k :: 0 <= k < |a| && k != j ==> a[k] == b[k]
    ensures SubsAgree(a, b, agency) <==>
      && (Get(a[j], "agencyId") == agency <==> Get(b[j], "agencyId") == agency)
      && (Get(a[j], "agencyId") == agency ==> Agree(Subscriptions, a[j], b[j]))
  {
    assert OfAgency(a, j, agency) <==> Get(a[j], "agencyId") == agency;
    assert OfAgency(b, j, agency) <==> Get(b[j], "agencyId") == agency;
    assert forall k :: k != j ==> (OfAgency(a, k, agency) <==> OfAgency(b, k, agency));
    assert forall k :: k != j && OfAgency(a, k, agency) ==> Agree(Subscriptions, a[k], b[k]);
    hide Agree;
  }

  lemma UntouchedTells(row: Row, data: Row)
    requires !Touches(Subscriptions, row, data)
    ensures Agree(Subscriptions, row, row + data) <==> !Blanks(Subscriptions, row, data)
  {
    var next := row + data;
    if !Blanks(Subscriptions, row, data) {
      forall key | Guarded(Subscriptions, key)
        ensures Same(Subscriptions, Get(row, key), Get(next, key))
      {
        assert key in data ==> !Differs(Subscriptions, Get(row, key), data[key]);
      }
    } else {
      var key :| key in data && Guarded(Subscriptions, key) && key != Counter(Subscriptions) && data[key].Undefined?
        && !Same(Subscriptions, Get(row, key), Undefined);
      assert Get(next, key) == data[key];
    }
  }

  /** The update shows in the policy of an agency whose revision stays: it moves the row to a known agency, or,
      untouched, takes it from a known one or blanks it there. */
  ghost predicate Shows(s: Store, row: Row, data: Row) {
    var was, now := Get(row, "agencyId"), Get(row + data, "agencyId");
    || (now != was && Known(s, now))
    || (Known(s, was) && !Touches(Subscriptions, row, data) && (now != was || Blanks(Subscriptions, row, data)))
  }

  lemma UnbumpedTells(s: Store, j: nat, data: Row)
    requires Sound(s) && j < |Rows(s, Subscriptions)| && !Touches(Subscriptions, Rows(s, Subscriptions)[j], data)
    ensures var subs := Rows(s, Subscriptions);
      StoreKept(s, s[Subscriptions := subs[j := subs[j] + data]]) <==> !Shows(s, subs[j], data)
  {
    var subs := Rows(s, Subscriptions);
    var row, next := subs[j], subs[j := subs[j] + data];
    var was, now := Get(row, "agencyId"), Get(row + data, "agencyId");
    SubscriptionsDecide(s, next);
    UntouchedTells(row, data);
    hide *;
    forall agency: Val
      ensures SubsAgree(subs, next, agency) <==>
        (was == agency <==> now == agency) && (was == agency ==> Agree(Subscriptions, row, row + data))
    {
      OneSubscription(subs, next, j, agency);
    }
    ShowsUntouched(s, row, data, Agree(Subscriptions, row, row + data));
  }

  lemma ShowsUntouched(s: Store, row: Row, data: Row, agree: bool)
    requires !Touches(Subscriptions, row, data) && (agree <==> !Blanks(Subscriptions, row, data))
    ensures var was, now := Get(row, "agencyId"), Get(row + data, "agencyId");
      !Shows(s, row, data) <==>
        forall id :: id in AgencyIds(Rows(s, Agencies)) ==> (was == id <==> now == id) && (was == id ==> agree)
  {
    hide Touches, Blanks, AgencyIds, Rows;
  }

  /** When only subscriptions change, the agencies' views of them decide. */
  lemma SubscriptionsDecide(s: Store, next: seq<Row>)
    requires Sound(s)
    ensures StoreKept(s, s[Subscriptions := next]) <==>
      forall id :: id in AgencyIds(Rows(s, Agencies)) ==> SubsAgree(Rows(s, Subscriptions), next, id)
  {
    StoreKeptReflexive(s);
    var after := s[Subscriptions := next];
    assert forall t :: Counted(t) ==> Rows(after, t) == Rows(s, t);
    hide TableKept, SubsAgree;
    var ids := AgencyIds(Rows(s, Agencies));
    assert forall i :: 0 <= i < |ids| ==> Get(Rows(s, Agencies)[i], "id") == ids[i];
  }

  lemma BumpedTells(s: Store, j: nat, data: Row)
    requires Sound(s) && j < |Rows(s, Subscriptions)| && Touches(Subscriptions, Rows(s, Subscriptions)[j], data)
    requires BumpAgency(s, Get(Rows(s, Subscriptions)[j], "agencyId")).Some?
    ensures var subs := Rows(s, Subscriptions);
      var bumped := BumpAgency(s, Get(subs[j], "agencyId")).value;
      StoreKept(s, bumped[Subscriptions := subs[j := subs[j] + data]]) <==> !Shows(s, subs[j], data)
  {
    var subs := Rows(s, Subscriptions);
    var row, next := subs[j], subs[j := subs[j] + data];
    var was, now := Get(row, "agencyId"), Get(row + data, "agencyId");
    OthersDecide(s, was, next);
    hide *;
    forall agency: Val | agency != was
      ensures SubsAgree(subs, next, agency) <==> now != agency
    {
      OneSubscription(subs, next, j, agency);
    }
    ShowsTouched(s, row, data);
  }

  lemma ShowsTouched(s: Store, row: Row, data: Row)
    requires Touches(Subscriptions, row, data)
    ensures var was, now := Get(row, "agencyId"), Get(row + data, "agencyId");
      !Shows(s, row, data) <==> forall id :: id in AgencyIds(Rows(s, Agencies)) && id != was ==> now != id
  {
    hide Touches, Blanks, AgencyIds, Rows;
  }

  /** When an agency's revision advances, the views of the others decide. */
  lemma OthersDecide(s: Store, agency: Val, next: seq<Row>)
    requires Sound(s) && BumpAgency(s, agency).Some?
    ensures StoreKept(s, BumpAgency(s, agency).value[Subscriptions := next]) <==>
      forall id :: id in AgencyIds(Rows(s, Agencies)) && id != agency ==> SubsAgree(Rows(s, Subscriptions), next, id)
  {
    hide *;
    var bumped := BumpAgency(s, agency).value;
    BumpedAgencyKept(s, agency);
    BumpChangesOne(s, agency);
    PolicyDecides(Rows(s, Agencies), Rows(bumped, Agencies), Rows(s, Subscriptions), next, agency);
    PolicyIsLeft(s, bumped, next);
  }

  lemma PolicyIsLeft(s: Store, bumped: Store, next: seq<Row>)
    requires forall t :: Counted(t) ==> TableKept(t, Rows(s, t), Rows(bumped, t))
    ensures StoreKept(s, bumped[Subscriptions := next])
       <==> PolicyKept(Rows(s, Agencies), Rows(bumped, Agencies), Rows(s, Subscriptions), next)
  {
    hide TableKept, PolicyKept;
    var after := bumped[Subscriptions := next];
    assert forall t :: Counted(t) ==> Rows(after, t) == Rows(bumped, t);
  }

  lemma PolicyDecides(a: seq<Row>, b: seq<Row>, subs: seq<Row>, next: seq<Row>, agency: Val)
    requires |a| == |b| && forall i :: 0 <= i < |a| ==> Get(a[i], "id") == Get(b[i], "id")
    requires forall i :: 0 <= i < |a| ==> (Revision(Agencies, a[i]) == Revision(Agencies, b[i]) <==> Get(a[i], "id") != agency)
    ensures PolicyKept(a, b, subs, next) <==> forall id :: id in AgencyIds(a) && id != agency ==> SubsAgree(subs, next, id)
  {
    hide SubsAgree, Get, Revision;
    var ids := AgencyIds(a);
    assert forall i :: 0 <= i < |ids| ==> Get(a[i], "id") == ids[i];
  }

  lemma BumpChangesOne(s: Store, agency: Val)
    requires Sound(s) && BumpAgency(s, agency).Some?
    ensures var a, b := Rows(s, Agencies), Rows(BumpAgency(s, agency).value, Agencies);
      |a| == |b| && forall i :: 0 <= i < |a| ==> (Revision(Agencies, a[i]) == Revision(Agencies, b[i]) <==> Get(a[i], "id") != agency)
  {
    var a, cond := Rows(s, Agencies), map["id" := agency];
    var i := FindRow(a, cond);
    assert Get(a[i], "id") == cond["id"];
    hide FindRow;
  }

  /** An update of a subscription leaves equal revisions meaning equal policy if and only if it throws or does
      not show. */
  lemma SubscriptionUpdateTells(s: Store, cond: Row, data: Row)
    requires Sound(s) && FindRow(Rows(s, Subscriptions), cond) >= 0
    ensures var row := Rows(s, Subscriptions)[FindRow(Rows(s, Subscriptions), cond)];
      StoreKept(s, Update(s, Subscriptions, cond, data).store) <==>
        (Touches(Subscriptions, row, data) && !Known(s, Get(row, "agencyId"))) || !Shows(s, row, data)
  {
    var j := FindRow(Rows(s, Subscriptions), cond);
    var row := Rows(s, Subscriptions)[j];
    assert Assigned(Subscriptions, row, data) == row + data;
    KnownTells(s, Get(row, "agencyId"));
    if !Touches(Subscriptions, row, data) {
      UnbumpedTells(s, j, data);
    } else if Known(s, Get(row, "agencyId")) {
      BumpedTells(s, j, data);
    } else {
      StoreKeptReflexive(s);
    }
    hide StoreKept, Sound, Shows, Touches, FindRow;
  }

  lemma CreateKept(s: Store, t: Table, row: Row)
    requires Sound(s) && WellBehaved(DoCreate(t, row))
    ensures Sound(Create(s, t, row).store) && StoreKept(s, Create(s, t, row).store)
  {
    StoreKeptReflexive(s);
    if t.Subscriptions? {
      CreateSubscriptionKept(s, row);
    } else {
      var next := s[t := Rows(s, t) + [row]];
      assert forall u :: Rows(next, u) == if u == t then Rows(s, t) + [row] else Rows(s, u);
      forall u | Counted(u)
        ensures TableKept(u, Rows(s, u), Rows(next, u)) && Numbered(u, Rows(next, u))
      {
        hide RowKept;
        assert TableKept(u, Rows(s, u), Rows(s, u));
      }
      hide RowKept, TableKept, SubsAgree;
    }
  }

  lemma CreateSubscriptionKept(s: Store, row: Row)
    requires Sound(s)
    ensures Sound(Create(s, Subscriptions, row).store) && StoreKept(s, Create(s, Subscriptions, row).store)
  {
    var subs, agency := Rows(s, Subscriptions), Get(row, "agencyId");
    var pushed := s[Subscriptions := subs + [row]];
    assert Rows(pushed, Agencies) == Rows(s, Agencies);
    assert BumpAgency(pushed, agency).Some? <==> BumpAgency(s, agency).Some?;
    StoreKeptReflexive(s);
    if BumpAgency(s, agency).Some? {
      BumpedAgencyKept(s, agency);
      SubscriptionWritten(s, BumpAgency(s, agency).value, subs + [row], |subs|, agency);
      assert Create(s, Subscriptions, row).store == BumpAgency(s, agency).value[Subscriptions := subs + [row]];
    } else {
      forall i | 0 <= i < |Rows(s, Agencies)|
        ensures Get(Rows(s, Agencies)[i], "id") != agency
      {
        assert !Matches(Rows(s, Agencies)[i], map["id" := agency]);
      }
      SubscriptionWritten(s, s, subs + [row], |subs|, agency);
    }
  }

  lemma StatementKept(s: Store, stmt: Statement)
    requires Sound(s) && WellBehaved(stmt)
    ensures Sound(Effect(s, stmt)) && StoreKept(s, Effect(s, stmt))
  {
    hide Sound, StoreKept;
    match stmt
    case DoUpdate(t, cond, data) =>
      if Counted(t) {
        UpdateCountedKept(s, t, cond, data);
      } else if t.Subscriptions? {
        UpdateSubscriptionKept(s, cond, data);
      } else {
        OtherTableKept(s, t, Rows(Update(s, t, cond, data).store, t));
      }
    case DoCreate(t, row) => CreateKept(s, t, row);
    case _ => StoreKeptReflexive(s);
  }

  lemma OtherTableKept(s: Store, t: Table, rows: seq<Row>)
    requires Sound(s) && t.Other?
    ensures Sound(s[t := rows]) && StoreKept(s, s[t := rows])
    ensures Sound(s) && StoreKept(s, s)
  {
    StoreKeptReflexive(s);
    assert forall u :: u != t ==> Rows(s[t := rows], u) == Rows(s, u);
  }

  // ----- What an update and a create write -----

  /** The columns that `update` may set on its own account. */
  predicate OwnColumn(t: Table, key: string) {
    (Counted(t) && key == Counter(t)) || (t.Agencies? && key == "status")
  }

  /** Column by column the data is written, and every other column stays. */
  lemma AssignedWrites(t: Table, row: Row, data: Row, key: string)
    requires !OwnColumn(t, key)
    ensures Get(Assigned(t, row, data), key) == if key in data then data[key] else Get(row, key)
  {
    hide Touches, Increment, Truthy;
  }

  /** A counter that the data leaves alone advances by one, if a guarded column is touched, or stays. */
  lemma AssignedCounter(t: Table, row: Row, data: Row)
    requires Counted(t) && Counter(t) !in data
    ensures Get(Assigned(t, row, data), Counter(t)) ==
              if Touches(t, row, data) then Increment(Get(row, Counter(t))) else Get(row, Counter(t))
    ensures Counter(t) == match t
              case Admins => "accessEpoch"
              case Profiles => "pricingRevision"
              case Entitlements => "entitlementRevision"
              case _ => "billingPolicyRevision"
  {
    assert Counter(t) != "status";
    hide Touches, Truthy;
  }

  /** A held or deleted agency is locked, whatever status the data asks for. */
  lemma AssignedLock(row: Row, data: Row)
    ensures var next := Assigned(Agencies, row, data);
      Get(next, "status") ==
        if Get(next, "deletedAt") !in FALSY || Get(next, "billingSupportHold") !in FALSY then Text("LOCKED")
        else if "status" in data then data["status"] else Get(row, "status")
  {
    hide Touches;
  }

  /** `b` is `a` with the counter of the first agency of that id advanced. */
  ghost predicate OneCounterUp(a: seq<Row>, b: seq<Row>, agency: Val) {
    && |a| == |b|
    && exists i :: 0 <= i < |a| && Identical(Get(a[i], "id"), agency)
         && (forall j :: 0 <= j < i ==> !Identical(Get(a[j], "id"), agency))
         && (forall j :: 0 <= j < |a| && j != i ==> b[j] == a[j])
         && b[i] == a[i]["billingPolicyRevision" := Increment(Get(a[i], "billingPolicyRevision"))]
  }

  lemma BumpIsOneCounter(s: Store, agency: Val)
    requires BumpAgency(s, agency).Some?
    ensures OneCounterUp(Rows(s, Agencies), Rows(BumpAgency(s, agency).value, Agencies), agency)
    ensures forall t :: t != Agencies ==> Rows(BumpAgency(s, agency).value, t) == Rows(s, t)
  {
    var i := FindRow(Rows(s, Agencies), map["id" := agency]);
    var cond: Row := map["id" := agency];
    assert "id" in cond && cond["id"] == agency;
    forall j | 0 <= j < i
      ensures !Identical(Get(Rows(s, Agencies)[j], "id"), agency)
    {
      assert !Matches(Rows(s, Agencies)[j], cond);
    }
  }

  lemma NoAgency(s: Store, agency: Val)
    requires BumpAgency(s, agency).None?
    ensures forall j :: 0 <= j < |Rows(s, Agencies)| ==> !Identical(Get(Rows(s, Agencies)[j], "id"), agency)
  {
    var cond: Row := map["id" := agency];
    forall j | 0 <= j < |Rows(s, Agencies)|
      ensures !Identical(Get(Rows(s, Agencies)[j], "id"), agency)
    {
      assert !Matches(Rows(s, Agencies)[j], cond);
    }
  }

  /** The first row that matches, if any. */
  predicate IsFirst(rows: seq<Row>, cond: Row, i: nat) {
    i < |rows| && Matches(rows[i], cond) && forall j :: 0 <= j < i ==> !Matches(rows[j], cond)
  }

  /** An update throws exactly when no row matches, or the row is a subscription whose policy changes and
      whose agency does not exist; then it changes nothing. */
  lemma UpdateThrowsExactlyWhen(s: Store, t: Table, cond: Row, data: Row)
    ensures Update(s, t, cond, data).threw <==>
      || (forall i :: 0 <= i < |Rows(s, t)| ==> !Matches(Rows(s, t)[i], cond))
      || exists i: nat :: IsFirst(Rows(s, t), cond, i) && t.Subscriptions? && Touches(t, Rows(s, t)[i], data)
           && forall j :: 0 <= j < |Rows(s, Agencies)| ==>
                !Identical(Get(Rows(s, Agencies)[j], "id"), Get(Rows(s, t)[i], "agencyId"))
    ensures Update(s, t, cond, data).threw ==> Update(s, t, cond, data).store == s
  {
    var i := FindRow(Rows(s, t), cond);
    hide Matches, Touches;
    if i >= 0 {
      assert IsFirst(Rows(s, t), cond, i);
      var agency := Get(Rows(s, t)[i], "agencyId");
      if BumpAgency(s, agency).None? {
        NoAgency(s, agency);
      } else {
        BumpIsOneCounter(s, agency);
      }
    }
  }

  /** The row at `i` has the data's values and keeps its other columns, apart from its own counter and lock, and
      no other row and table changes, apart from the counter of a subscription's agency. */
  ghost predicate Wrote(s: Store, next: Store, t: Table, i: nat, data: Row) {
    && i < |Rows(s, t)| == |Rows(next, t)|
    && (forall j :: 0 <= j < |Rows(s, t)| && j != i ==> Rows(next, t)[j] == Rows(s, t)[j])
    && (forall key :: !OwnColumn(t, key) ==>
          Get(Rows(next, t)[i], key) == if key in data then data[key] else Get(Rows(s, t)[i], key))
    && (forall u :: u != t && !(t.Subscriptions? && u.Agencies?) ==> Rows(next, u) == Rows(s, u))
    && (t.Subscriptions? ==>
          if Touches(t, Rows(s, t)[i], data) then
            OneCounterUp(Rows(s, Agencies), Rows(next, Agencies), Get(Rows(s, t)[i], "agencyId"))
          else Rows(next, Agencies) == Rows(s, Agencies))
  }

  /** An update that does not throw, in any table, writes the data to the first matching row. */
  lemma UpdateWrites(s: Store, t: Table, cond: Row, data: Row)
    requires !Update(s, t, cond, data).threw
    ensures exists i: nat :: IsFirst(Rows(s, t), cond, i) && Wrote(s, Update(s, t, cond, data).store, t, i, data)
  {
    var i := FindRow(Rows(s, t), cond);
    var row := Rows(s, t)[i];
    UpdateReplaces(s, t, cond, data);
    forall key | !OwnColumn(t, key)
      ensures Get(Assigned(t, row, data), key) == if key in data then data[key] else Get(row, key)
    {
      AssignedWrites(t, row, data, key);
    }
    hide Update, Assigned, FindRow, Matches, Touches, OneCounterUp, BumpAgency, OwnColumn, IsFirst;
    assert Wrote(s, Update(s, t, cond, data).store, t, i, data);
  }

  lemma UpdateReplaces(s: Store, t: Table, cond: Row, data: Row)
    requires !Update(s, t, cond, data).threw
    ensures var next, i := Update(s, t, cond, data).store, FindRow(Rows(s, t), cond);
      && i >= 0 && IsFirst(Rows(s, t), cond, i)
      && Rows(next, t) == Rows(s, t)[i := Assigned(t, Rows(s, t)[i], data)]
      && (forall u :: u != t && !(t.Subscriptions? && u.Agencies?) ==> Rows(next, u) == Rows(s, u))
      && (t.Subscriptions? ==>
            if Touches(t, Rows(s, t)[i], data) then
              OneCounterUp(Rows(s, Agencies), Rows(next, Agencies), Get(Rows(s, t)[i], "agencyId"))
            else Rows(next, Agencies) == Rows(s, Agencies))
  {
    var i := FindRow(Rows(s, t), cond);
    var row := Rows(s, t)[i];
    if t.Subscriptions? && Touches(t, row, data) {
      BumpIsOneCounter(s, Get(row, "agencyId"));
    }
    hide Matches, Touches, OneCounterUp, BumpAgency, Assigned;
  }

  /** A create appends the row and changes nothing else, apart from the counter of a subscription's agency; it
      throws, with the row appended, exactly when that agency does not exist. */
  lemma CreateWrites(s: Store, t: Table, row: Row)
    ensures var next, threw := Create(s, t, row).store, Create(s, t, row).threw;
      && Rows(next, t) == Rows(s, t) + [row]
      && (forall u :: u != t && !(t.Subscriptions? && u.Agencies?) ==> Rows(next, u) == Rows(s, u))
      && (t.Subscriptions? ==>
            if threw then Rows(next, Agencies) == Rows(s, Agencies)
            else OneCounterUp(Rows(s, Agencies), Rows(next, Agencies), Get(row, "agencyId")))
      && (threw <==> t.Subscriptions? && forall j :: 0 <= j < |Rows(s, Agencies)| ==>
                       !Identical(Get(Rows(s, Agencies)[j], "id"), Get(row, "agencyId")))
  {
    if t.Subscriptions? {
      var pushed, agency := s[t := Rows(s, t) + [row]], Get(row, "agencyId");
      assert Rows(pushed, Agencies) == Rows(s, Agencies);
      if BumpAgency(pushed, agency).Some? {
        BumpIsOneCounter(pushed, agency);
      } else {
        NoAgency(pushed, agency);
      }
      hide BumpAgency;
    }
  }

  // ----- The guarded columns by name -----

  /** The data brings a different value, for `===` or for the JSON texts. */
  predicate Brings(row: Row, data: Row, key: string, byText: bool) {
    && key in data && !data[key].Undefined?
    && if byText then Json(Get(row, key)) != Json(data[key])
       else Get(row, key) != data[key] || data[key].NaN? || data[key].Date?
  }

  /** What touches one column. */
  predicate TouchedBy(t: Table, row: Row, data: Row, key: string) {
    key in data && Guarded(t, key) && Differs(t, Get(row, key), data[key])
  }

  lemma TouchesByColumn(t: Table, row: Row, data: Row)
    ensures Touches(t, row, data) <==> exists key :: TouchedBy(t, row, data, key)
  {
    if Touches(t, row, data) {
      var key :| key in data && Guarded(t, key) && Differs(t, Get(row, key), data[key]);
      assert TouchedBy(t, row, data, key);
    }
  }

  /** When `update` advances the counter of an admin. */
  lemma AdminsTouched(row: Row, data: Row)
    ensures Touches(Admins, row, data) <==>
      Brings(row, data, "active", false) || Brings(row, data, "role", false) || Brings(row, data, "passwordHash", false)
  {
    TouchesByColumn(Admins, row, data);
    assert forall key :: TouchedBy(Admins, row, data, key) <==>
      (key == "active" || key == "role" || key == "passwordHash") && Brings(row, data, key, false);
    hide TouchedBy, Touches, Brings;
  }

  /** Of an agency, through itself, */
  lemma PoliciesTouched(row: Row, data: Row)
    ensures Touches(Agencies, row, data) <==>
      || Brings(row, data, "plan", true) || Brings(row, data, "trialEndsAt", true)
      || Brings(row, data, "billingSupportHold", true) || Brings(row, data, "billingSupportHoldReason", true)
  {
    TouchesByColumn(Agencies, row, data);
    assert forall key :: TouchedBy(Agencies, row, data, key) <==>
      (key == "plan" || key == "trialEndsAt" || key == "billingSupportHold" || key == "billingSupportHoldReason") && Brings(row, data, key, true);
    hide TouchedBy, Touches, Brings;
  }

  /** or through a subscription. */
  lemma SubscriptionsTouched(row: Row, data: Row)
    ensures Touches(Subscriptions, row, data) <==>
      || Brings(row, data, "billingMode", true) || Brings(row, data, "billingPeriod", true)
      || Brings(row, data, "corePricePerCreatorCents", true) || Brings(row, data, "trialEndsAt", true)
      || Brings(row, data, "notes", true)
  {
    TouchesByColumn(Subscriptions, row, data);
    assert forall key :: TouchedBy(Subscriptions, row, data, key) <==>
      (key == "billingMode" || key == "billingPeriod" || key == "corePricePerCreatorCents" || key == "trialEndsAt" || key == "notes")
      && Brings(row, data, key, true);
    hide TouchedBy, Touches, Brings;
  }

  /** Of a profile and of an entitlement: every column but the named ones counts. */
  lemma ProfilesTouched(row: Row, data: Row)
    ensures Touches(Profiles, row, data) <==>
      exists key :: key in data && key != "revenue30dCents" && key != "updatedAt"
                    && (Brings(row, data, key, false) || (data[key].Undefined? && !Get(row, key).Undefined?))
  {
    TouchesByColumn(Profiles, row, data);
    assert forall key :: TouchedBy(Profiles, row, data, key) <==>
      && key in data && key != "revenue30dCents" && key != "updatedAt"
      && (Brings(row, data, key, false) || (data[key].Undefined? && !Get(row, key).Undefined?));
    hide TouchedBy, Touches;
  }

  lemma EntitlementsTouched(row: Row, data: Row)
    ensures Touches(Entitlements, row, data) <==>
      exists key :: Brings(row, data, key, true) && key != "updatedAt" && key != "lastRenewalAttemptAt"
                    && key != "lastRenewalErrorCode" && key != "lastRevenue30dCents" && key != "lastRevenueCapturedAt"
  {
    TouchesByColumn(Entitlements, row, data);
    assert forall key :: TouchedBy(Entitlements, row, data, key) <==>
      && Brings(row, data, key, true) && key != "updatedAt" && key != "lastRenewalAttemptAt"
      && key != "lastRenewalErrorCode" && key != "lastRevenue30dCents" && key != "lastRevenueCapturedAt";
    hide TouchedBy, Touches;
  }

  lemma SameByName(t: Table, a: Row, b: Row, key: string)
    requires Agree(t, a, b) && Guarded(t, key) && key != Counter(t)
    ensures if t.Admins? || t.Profiles? then Get(a, key) == Get(b, key) else Json(Get(a, key)) == Json(Get(b, key))
  {
    assert Same(t, Get(a, key), Get(b, key));
  }

  /** What equal counters mean where `StoreKept` says that they tell: for an admin, */
  lemma EqualEpochs(a: Store, b: Store, i: nat)
    requires StoreKept(a, b) && i < |Rows(a, Admins)|
    ensures i < |Rows(b, Admins)|
    ensures var x, y := Rows(a, Admins)[i], Rows(b, Admins)[i];
      Get(x, "accessEpoch") == Get(y, "accessEpoch") ==>
        Get(x, "active") == Get(y, "active") && Get(x, "role") == Get(y, "role") && Get(x, "passwordHash") == Get(y, "passwordHash")
  {
    assert TableKept(Admins, Rows(a, Admins), Rows(b, Admins));
    var x, y := Rows(a, Admins)[i], Rows(b, Admins)[i];
    assert RowKept(Admins, x, y);
    hide StoreKept, TableKept, Agree, Same;
    if Get(x, "accessEpoch") == Get(y, "accessEpoch") {
      SameByName(Admins, x, y, "active");
      SameByName(Admins, x, y, "role");
      SameByName(Admins, x, y, "passwordHash");
    }
  }

  /** for the price of a creator, */
  lemma EqualPricing(a: Store, b: Store, i: nat, key: string)
    requires StoreKept(a, b) && i < |Rows(a, Profiles)| && key != "revenue30dCents" && key != "updatedAt"
    ensures i < |Rows(b, Profiles)|
    ensures var x, y := Rows(a, Profiles)[i], Rows(b, Profiles)[i];
      Get(x, "pricingRevision") == Get(y, "pricingRevision") ==> Get(x, key) == Get(y, key)
  {
    assert TableKept(Profiles, Rows(a, Profiles), Rows(b, Profiles));
    var x, y := Rows(a, Profiles)[i], Rows(b, Profiles)[i];
    assert RowKept(Profiles, x, y);
    hide StoreKept, TableKept, Agree, Same;
    if Get(x, "pricingRevision") == Get(y, "pricingRevision") && key != "pricingRevision" {
      SameByName(Profiles, x, y, key);
    }
  }

  /** for an entitlement, */
  lemma EqualEntitlements(a: Store, b: Store, i: nat, key: string)
    requires StoreKept(a, b) && i < |Rows(a, Entitlements)|
    requires key != "updatedAt" && key != "lastRenewalAttemptAt" && key != "lastRenewalErrorCode"
    requires key != "lastRevenue30dCents" && key != "lastRevenueCapturedAt"
    ensures i < |Rows(b, Entitlements)|
    ensures var x, y := Rows(a, Entitlements)[i], Rows(b, Entitlements)[i];
      Get(x, "entitlementRevision") == Get(y, "entitlementRevision") ==> Json(Get(x, key)) == Json(Get(y, key))
  {
    assert TableKept(Entitlements, Rows(a, Entitlements), Rows(b, Entitlements));
    var x, y := Rows(a, Entitlements)[i], Rows(b, Entitlements)[i];
    assert RowKept(Entitlements, x, y);
    hide StoreKept, TableKept, Agree, Same;
    if Get(x, "entitlementRevision") == Get(y, "entitlementRevision") && key != "entitlementRevision" {
      SameByName(Entitlements, x, y, key);
    }
  }

  /** and for the policy of an agency with a subscription of its own. */
  lemma EqualPolicies(a: Store, b: Store, i: nat, j: nat)
    requires StoreKept(a, b) && i < |Rows(a, Agencies)| && i < |Rows(b, Agencies)|
    requires Get(Rows(a, Agencies)[i], "billingPolicyRevision") == Get(Rows(b, Agencies)[i], "billingPolicyRevision")
    ensures var x, y := Rows(a, Agencies)[i], Rows(b, Agencies)[i];
      && Json(Get(x, "plan")) == Json(Get(y, "plan")) && Json(Get(x, "trialEndsAt")) == Json(Get(y, "trialEndsAt"))
      && Json(Get(x, "billingSupportHold")) == Json(Get(y, "billingSupportHold"))
      && Json(Get(x, "billingSupportHoldReason")) == Json(Get(y, "billingSupportHoldReason"))
    ensures j < |Rows(a, Subscriptions)| && Get(Rows(a, Subscriptions)[j], "agencyId") == Get(Rows(a, Agencies)[i], "id") ==>
      j < |Rows(b, Subscriptions)| && SamePlan(Rows(a, Subscriptions)[j], Rows(b, Subscriptions)[j])
  {
    assert TableKept(Agencies, Rows(a, Agencies), Rows(b, Agencies));
    var x, y := Rows(a, Agencies)[i], Rows(b, Agencies)[i];
    assert RowKept(Agencies, x, y);
    var subs, next, agency := Rows(a, Subscriptions), Rows(b, Subscriptions), Get(x, "id");
    assert SubsAgree(subs, next, agency);
    if j < |subs| && Get(subs[j], "agencyId") == agency {
      assert OfAgency(subs, j, agency) && OfAgency(next, j, agency);
      hide *;
      PlansAgree(subs[j], next[j], agency);
    }
    hide StoreKept, TableKept, Agree, Same, SubsAgree;
    SameByName(Agencies, x, y, "plan");
    SameByName(Agencies, x, y, "trialEndsAt");
    SameByName(Agencies, x, y, "billingSupportHold");
    SameByName(Agencies, x, y, "billingSupportHoldReason");
  }

  predicate SamePlan(a: Row, b: Row) {
    && Get(a, "agencyId") == Get(b, "agencyId")
    && Json(Get(a, "billingMode")) == Json(Get(b, "billingMode")) && Json(Get(a, "billingPeriod")) == Json(Get(b, "billingPeriod"))
    && Json(Get(a, "corePricePerCreatorCents")) == Json(Get(b, "corePricePerCreatorCents"))
    && Json(Get(a, "trialEndsAt")) == Json(Get(b, "trialEndsAt")) && Json(Get(a, "notes")) == Json(Get(b, "notes"))
  }

  lemma PlansAgree(a: Row, b: Row, agency: Val)
    requires Agree(Subscriptions, a, b) && Get(a, "agencyId") == agency == Get(b, "agencyId")
    ensures SamePlan(a, b)
  {
    hide Agree;
    SameByName(Subscriptions, a, b, "billingMode");
    SameByName(Subscriptions, a, b, "billingPeriod");
    SameByName(Subscriptions, a, b, "corePricePerCreatorCents");
    SameByName(Subscriptions, a, b, "trialEndsAt");
    SameByName(Subscriptions, a, b, "notes");
  }

  // ----- Transactions -----

  /** What a statement leaves behind, whether or not it throws: the callback may catch the error. */
  function Effect(s: Store, stmt: Statement): Store {
    match stmt
    case DoUpdate(t, cond, data) => Update(s, t, cond, data).store
    case DoCreate(t, row) => Create(s, t, row).store
    case _ => s
  }

  function Op(stmt: Statement): Savepoints.Op<Store> {
    match stmt
    case Save(n) => Savepoints.Savepoint(n)
    case RollBack(n) => Savepoints.RollbackTo(n)
    case Free(n) => Savepoints.Release(n)
    case _ => Savepoints.Change((s: Store) => Effect(s, stmt))
  }

  function Execute(c: Savepoints.Client<Store>, stmts: seq<Statement>): Savepoints.Client<Store>
    decreases |stmts|
  {
    if stmts == [] then c else Execute(c.Step(Op(stmts[0])), stmts[1..])
  }

  /** The statements a callback issues, and whether it resolves. */
  datatype Transaction = Transaction(stmts: seq<Statement>, resolves: bool)

  /** The committed state after the first `n` transactions; `None` is the undefined state that a
      transaction leaves when it commits after rolling back to an unknown savepoint. */
  function Committed(initial: Store, txns: seq<Transaction>, n: nat): Option<Store>
    requires n <= |txns|
  {
    if n == 0 then Some(initial)
    else
      var before := Committed(initial, txns, n - 1);
      if txns[n - 1].resolves then Execute(Savepoints.Client(before, map[]), txns[n - 1].stmts).draft else before
  }

  /** One update or create after the other. */
  function Written(s: Store, stmts: seq<Statement>): Store
    decreases |stmts|
  {
    if stmts == [] then s
    else
      var next := match stmts[0]
        case DoUpdate(t, cond, data) => Update(s, t, cond, data).store
        case DoCreate(t, row) => Create(s, t, row).store
        case _ => s;
      Written(next, stmts[1..])
  }

  lemma {:induction false} ExecutesInOrder(c: Savepoints.Client<Store>, stmts: seq<Statement>)
    requires c.draft.Some? && forall i :: 0 <= i < |stmts| ==> stmts[i].DoUpdate? || stmts[i].DoCreate?
    ensures Execute(c, stmts).draft == Some(Written(c.draft.value, stmts))
    decreases |stmts|
  {
    if stmts != [] {
      hide Update, Create;
      ExecutesInOrder(c.Step(Op(stmts[0])), stmts[1..]);
    }
  }

  /** A transaction without savepoints commits what its statements wrote, one after the other, on the state that
      it found, if it resolves, and leaves that state otherwise. */
  lemma CommitsWhatItWrote(initial: Store, txns: seq<Transaction>, n: nat)
    requires n < |txns| && Committed(initial, txns, n).Some?
    requires forall i :: 0 <= i < |txns[n].stmts| ==> txns[n].stmts[i].DoUpdate? || txns[n].stmts[i].DoCreate?
    ensures Committed(initial, txns, 0) == Some(initial)
    ensures var before := Committed(initial, txns, n).value;
      Committed(initial, txns, n + 1) == Some(if txns[n].resolves then Written(before, txns[n].stmts) else before)
  {
    ExecutesInOrder(Savepoints.Client(Committed(initial, txns, n), map[]), txns[n].stmts);
    hide Execute, Written;
  }

  // ----- What every statement keeps, every committed state has -----

  ghost predicate Has(inv: Store -> bool, s: Option<Store>) {
    s.Some? ==> inv(s.value)
  }

  ghost predicate Keeps(inv: Store -> bool, stmts: seq<Statement>) {
    forall s, i :: 0 <= i < |stmts| && inv(s) ==> inv(Effect(s, stmts[i]))
  }

  lemma {:induction false} ExecuteHas(inv: Store -> bool, c: Savepoints.Client<Store>, stmts: seq<Statement>)
    requires Has(inv, c.draft) && (forall n :: n in c.saved ==> Has(inv, c.saved[n])) && Keeps(inv, stmts)
    ensures Has(inv, Execute(c, stmts).draft)
    decreases |stmts|
  {
    if stmts != [] {
      var next := c.Step(Op(stmts[0]));
      assert c.draft.Some? ==> inv(Effect(c.draft.value, stmts[0]));
      assert Keeps(inv, stmts[1..]);
      ExecuteHas(inv, next, stmts[1..]);
    }
  }

  lemma {:induction false} CommittedHas(inv: Store -> bool, initial: Store, txns: seq<Transaction>, from: nat, n: nat)
    requires from <= n <= |txns| && Has(inv, Committed(initial, txns, from))
    requires forall k :: from <= k < n ==> Keeps(inv, txns[k].stmts)
    ensures Has(inv, Committed(initial, txns, n))
    decreases n
  {
    if from < n {
      CommittedHas(inv, initial, txns, from, n - 1);
      ExecuteHas(inv, Savepoints.Client(Committed(initial, txns, n - 1), map[]), txns[n - 1].stmts);
    }
  }

  /** The undefined state is final. */
  lemma {:induction false} UndefinedStays(initial: Store, txns: seq<Transaction>, from: nat, n: nat)
    requires from <= n <= |txns| && Committed(initial, txns, from).None?
    ensures Committed(initial, txns, n).None?
    decreases n
  {
    if from < n {
      UndefinedStays(initial, txns, from, n - 1);
      ExecuteHas(s => false, Savepoints.Client(None, map[]), txns[n - 1].stmts);
    }
  }

  ghost predicate AllWellBehaved(txns: seq<Transaction>) {
    forall i, j :: 0 <= i < |txns| && 0 <= j < |txns[i].stmts| ==> WellBehaved(txns[i].stmts[j])
  }

  lemma SoundThroughout(initial: Store, txns: seq<Transaction>, n: nat)
    requires Sound(initial) && AllWellBehaved(txns) && n <= |txns|
    ensures Has(s => Sound(s), Committed(initial, txns, n))
  {
    hide Sound, StoreKept, WellBehaved;
    forall k, s, i | 0 <= k < n && 0 <= i < |txns[k].stmts| && Sound(s)
      ensures Sound(Effect(s, txns[k].stmts[i]))
    {
      StatementKept(s, txns[k].stmts[i]);
    }
    CommittedHas(s => Sound(s), initial, txns, 0, n);
  }

  /** Across committed states no counter goes back, and equal counters mean equal policy. */
  lemma RevisionsTell(initial: Store, txns: seq<Transaction>, i: nat, j: nat)
    requires Sound(initial) && AllWellBehaved(txns) && i <= j <= |txns|
    ensures var a, b := Committed(initial, txns, i), Committed(initial, txns, j);
      b.Some? ==> a.Some? && StoreKept(a.value, b.value)
  {
    hide Sound, StoreKept, WellBehaved;
    var a := Committed(initial, txns, i);
    if a.None? {
      UndefinedStays(initial, txns, i, j);
    } else {
      SoundThroughout(initial, txns, i);
      var inv := (s: Store) => Sound(s) && StoreKept(a.value, s);
      StoreKeptReflexive(a.value);
      forall k, s, l | i <= k < j && 0 <= l < |txns[k].stmts| && inv(s)
        ensures inv(Effect(s, txns[k].stmts[l]))
      {
        StatementKept(s, txns[k].stmts[l]);
        StoreKeptTransitive(a.value, s, Effect(s, txns[k].stmts[l]));
      }
      CommittedHas(inv, initial, txns, i, j);
    }
  }

  ghost predicate AllLocked(s: Store) {
    forall i :: 0 <= i < |Rows(s, Agencies)| ==> Locked(Rows(s, Agencies)[i])
  }

  lemma BumpLocks(s: Store, agency: Val)
    requires AllLocked(s) && BumpAgency(s, agency).Some?
    ensures AllLocked(BumpAgency(s, agency).value)
  {
    var row := Rows(s, Agencies)[FindRow(Rows(s, Agencies), map["id" := agency])];
    assert Locked(row) && Locked(Bump(Agencies, row));
  }

  lemma StatementLocks(s: Store, stmt: Statement)
    requires AllLocked(s) && !(stmt.DoCreate? && stmt.table.Agencies?)
    ensures AllLocked(Effect(s, stmt))
  {
    match stmt
    case DoUpdate(t, cond, data) => UpdateLocks(s, t, cond, data);
    case DoCreate(t, row) => CreateLocks(s, t, row);
    case _ =>
  }

  lemma UpdateLocks(s: Store, t: Table, cond: Row, data: Row)
    requires AllLocked(s)
    ensures AllLocked(Update(s, t, cond, data).store)
  {
    var i := FindRow(Rows(s, t), cond);
    if i >= 0 {
      var rows := Rows(s, t)[i := Assigned(t, Rows(s, t)[i], data)];
      if t.Agencies? {
        AssignedLock(Rows(s, t)[i], data);
        hide Assigned, Matches, Touches;
        assert Locked(rows[i]);
        assert Rows(s[t := rows], Agencies) == rows;
      } else {
        hide Assigned, Matches, Touches, Locked;
        assert Rows(s[t := rows], Agencies) == Rows(s, Agencies);
        var agency := Get(Rows(s, t)[i], "agencyId");
        if BumpAgency(s, agency).Some? {
          BumpLocks(s, agency);
          assert Rows(BumpAgency(s, agency).value[t := rows], Agencies) == Rows(BumpAgency(s, agency).value, Agencies);
        }
      }
    }
  }

  lemma CreateLocks(s: Store, t: Table, row: Row)
    requires AllLocked(s) && !t.Agencies?
    ensures AllLocked(Create(s, t, row).store)
  {
    var pushed := s[t := Rows(s, t) + [row]];
    assert Rows(pushed, Agencies) == Rows(s, Agencies);
    assert AllLocked(pushed);
    if t.Subscriptions? && BumpAgency(pushed, Get(row, "agencyId")).Some? {
      BumpLocks(pushed, Get(row, "agencyId"));
    }
  }

  /** A held or deleted agency is locked in every committed state, whatever columns callers write. */
  lemma HeldStaysLocked(initial: Store, txns: seq<Transaction>, n: nat)
    requires AllLocked(initial) && n <= |txns|
    requires forall i, j :: 0 <= i < |txns| && 0 <= j < |txns[i].stmts| ==> !(txns[i].stmts[j].DoCreate? && txns[i].stmts[j].table.Agencies?)
    ensures Committed(initial, txns, n).Some? ==> AllLocked(Committed(initial, txns, n).value)
  {
    hide AllLocked;
    forall k, s, i | 0 <= k < n && 0 <= i < |txns[k].stmts| && AllLocked(s)
      ensures AllLocked(Effect(s, txns[k].stmts[i]))
    {
      StatementLocks(s, txns[k].stmts[i]);
    }
    CommittedHas(s => AllLocked(s), initial, txns, 0, n);
  }

  /** Moving a subscription changes the policy of its new agency under the same revision. */
  lemma MovedSubscription()
    ensures exists s: Store, data: Row ::
      && Sound(s)
      && (forall key :: key in data ==> !data[key].Undefined?)
      && !StoreKept(s, Update(s, Subscriptions, map[], data).store)
  {
    var home: Row, other: Row := map["id" := Text("a"), "billingPolicyRevision" := Num(1)], map["id" := Text("b"), "billingPolicyRevision" := Num(1)];
    var sub: Row, data: Row := map["agencyId" := Text("a")], map["agencyId" := Text("b")];
    var s: Store := map[Agencies := [home, other], Subscriptions := [sub]];
    TwoAgencies(home, other, sub);
    assert Get(other, "id") == Get(sub + data, "agencyId") && Get(sub + data, "agencyId") != Get(sub, "agencyId");
    assert !Touches(Subscriptions, sub, data);
    hide *;
    SubscriptionUpdateTells(s, map[], data);
    ShowsWhenMoved(s, sub, data);
  }

  lemma ShowsWhenMoved(s: Store, row: Row, data: Row)
    requires Known(s, Get(row + data, "agencyId")) && Get(row + data, "agencyId") != Get(row, "agencyId")
    ensures Shows(s, row, data)
  {
  }

  lemma TwoAgencies(home: Row, other: Row, sub: Row)
    requires Get(home, "id") != Get(other, "id") && Locked(home) && Locked(other)
    requires Get(home, "id").Text? && Get(other, "id").Text?
    requires Revision(Agencies, home).Num? && Revision(Agencies, other).Num?
    ensures var s: Store := map[Agencies := [home, other], Subscriptions := [sub]];
      && Sound(s) && Known(s, Get(other, "id"))
      && Rows(s, Subscriptions) == [sub] && FindRow(Rows(s, Subscriptions), map[]) == 0
  {
    var s: Store := map[Agencies := [home, other], Subscriptions := [sub]];
    assert AgencyIds([home, other])[1] == Get(other, "id");
    assert FindRow([sub], map[]) == 0;
    assert Rows(s, Agencies) == [home, other] && forall t :: t != Agencies && t != Subscriptions ==> Rows(s, t) == [];
    assert GoodAgencies([home, other]) && Numbered(Agencies, [home, other]);
    assert forall t :: Numbered(t, []);
    hide GoodAgencies, Numbered, Rows, Locked, FindRow, AgencyIds;
  }

  // ----- Writes outside transactions -----

  /** A statement on the store itself takes effect at once; a transaction works on a copy of the state that
      it began with, and puts that copy in its place when it commits. */
  datatype Action = Direct(stmt: Statement) | Begin | Inside(stmt: Statement) | Commit | Abort

  /** The state that others see, and the open transaction: `serial` lets in one at a time. */
  datatype Shared = Shared(state: Option<Store>, open: Option<Work>)

  datatype Work = Work(base: Store, client: Savepoints.Client<Store>)

  function Act(w: Shared, a: Action): Shared {
    match a
    case Direct(stmt) => if w.state.Some? then w.(state := Some(Effect(w.state.value, stmt))) else w
    case Begin =>
      if w.open.Some? || w.state.None? then w
      else w.(open := Some(Work(w.state.value, Savepoints.Client(w.state, map[]))))
    case Inside(stmt) =>
      if w.open.None? then w else w.(open := Some(w.open.value.(client := w.open.value.client.Step(Op(stmt)))))
    case Commit => if w.open.None? then w else Shared(w.open.value.client.draft, None)
    case Abort => w.(open := None)
  }

  function ActAll(w: Shared, actions: seq<Action>): Shared
    decreases |actions|
  {
    if actions == [] then w else ActAll(Act(w, actions[0]), actions[1..])
  }

  function InsideAll(stmts: seq<Statement>): seq<Action> {
    if stmts == [] then [] else [Inside(stmts[0])] + InsideAll(stmts[1..])
  }

  lemma {:induction false} ActsInside(w: Shared, stmts: seq<Statement>, end: Action)
    requires w.open.Some?
    ensures ActAll(w, InsideAll(stmts) + [end]) == Act(w.(open := Some(w.open.value.(client := Execute(w.open.value.client, stmts)))), end)
    decreases |stmts|
  {
    if stmts == [] {
      assert InsideAll(stmts) + [end] == [end] && [end][1..] == [];
      assert ActAll(Act(w, end), []) == Act(w, end);
    } else {
      var all := InsideAll(stmts) + [end];
      assert all[0] == Inside(stmts[0]) && all[1..] == InsideAll(stmts[1..]) + [end];
      hide Op;
      ActsInside(Act(w, Inside(stmts[0])), stmts[1..], end);
    }
  }

  /** With nothing in between, a transaction makes of the state what `Committed` says, or aborts without a trace. */
  lemma TransactionActs(s: Store, txn: Transaction)
    ensures ActAll(Shared(Some(s), None), [Begin] + InsideAll(txn.stmts) + [if txn.resolves then Commit else Abort])
         == Shared(Committed(s, [txn], 1), None)
  {
    var end := if txn.resolves then Commit else Abort;
    var w := Shared(Some(s), None);
    var all := [Begin] + InsideAll(txn.stmts) + [end];
    assert all[0] == Begin && all[1..] == InsideAll(txn.stmts) + [end];
    ActsInside(Act(w, Begin), txn.stmts, end);
    assert Committed(s, [txn], 0) == Some(s);
    hide Execute;
  }

  /** The caller's side of the counters, for the state that the statement finds. */
  ghost predicate Honest(s: Store, stmt: Statement) {
    match stmt
    case DoUpdate(t, cond, data) =>
      var i := FindRow(Rows(s, t), cond);
      i >= 0 ==>
        var row := Rows(s, t)[i];
        if Counted(t) then
          && Counter(t) !in data && (t.Agencies? ==> "id" !in data)
          && (Touches(t, row, data) || !Blanks(t, row, data))
        else t.Subscriptions? ==>
          (Touches(t, row, data) && !Known(s, Get(row, "agencyId"))) || !Shows(s, row, data)
    case DoCreate(t, row) => !t.Agencies? && (Counted(t) ==> Revision(t, row).Num?)
    case _ => true
  }

  lemma HonestUpdateKept(s: Store, t: Table, cond: Row, data: Row)
    requires Sound(s) && Counted(t) && Honest(s, DoUpdate(t, cond, data))
    ensures Sound(Update(s, t, cond, data).store) && StoreKept(s, Update(s, t, cond, data).store)
  {
    var i := FindRow(Rows(s, t), cond);
    if i < 0 {
      StoreKeptReflexive(s);
    } else {
      var rows := Rows(s, t);
      var row := Assigned(t, rows[i], data);
      AssignTells(t, rows[i], data);
      ReplacedRow(t, rows, i, row);
      if t.Agencies? {
        AssignedAgency(rows[i], data);
      }
      ReplacedKept(s, t, i, row);
      hide Sound, StoreKept, Assigned, Touches, Blanks;
    }
  }

  lemma SubscriptionsKeepSound(s: Store, cond: Row, data: Row)
    requires Sound(s)
    ensures Sound(Update(s, Subscriptions, cond, data).store)
  {
    var subs := Rows(s, Subscriptions);
    var j := FindRow(subs, cond);
    if j >= 0 {
      var agency := Get(subs[j], "agencyId");
      if Touches(Subscriptions, subs[j], data) && BumpAgency(s, agency).Some? {
        BumpedAgencyKept(s, agency);
        hide TableKept, BumpAgency, Assigned, Touches;
      }
    }
    hide TableKept, BumpAgency, Assigned, Touches, GoodAgencies, Numbered;
  }

  lemma HonestKept(s: Store, stmt: Statement)
    requires Sound(s) && Honest(s, stmt)
    ensures Sound(Effect(s, stmt)) && StoreKept(s, Effect(s, stmt))
  {
    match stmt
    case DoUpdate(t, cond, data) =>
      if Counted(t) {
        HonestUpdateKept(s, t, cond, data);
        hide *;
      } else if t.Subscriptions? {
        if FindRow(Rows(s, t), cond) >= 0 {
          SubscriptionUpdateTells(s, cond, data);
        } else {
          StoreKeptReflexive(s);
        }
        SubscriptionsKeepSound(s, cond, data);
        hide Sound, StoreKept, Shows, Touches;
      } else {
        hide Sound, StoreKept;
        OtherTableKept(s, t, Rows(Update(s, t, cond, data).store, t));
      }
    case DoCreate(t, row) =>
      hide Sound, StoreKept;
      CreateKept(s, t, row);
    case _ => StoreKeptReflexive(s);
  }

  /** Statements are honest where they take effect, and no transaction commits over another's write. */
  ghost predicate HonestAct(w: Shared, a: Action) {
    match a
    case Direct(stmt) => w.state.Some? ==> Honest(w.state.value, stmt)
    case Inside(stmt) => w.open.Some? && w.open.value.client.draft.Some? ==> Honest(w.open.value.client.draft.value, stmt)
    case Commit => w.open.Some? ==> w.state == Some(w.open.value.base)
    case _ => true
  }

  ghost predicate HonestRun(w: Shared, actions: seq<Action>)
    decreases |actions|
  {
    actions == [] || (HonestAct(w, actions[0]) && HonestRun(Act(w, actions[0]), actions[1..]))
  }

  /** A copy of the draft keeps what the state at the beginning told. */
  ghost predicate CopyKept(base: Store, copy: Option<Store>) {
    copy.Some? ==> Sound(copy.value) && StoreKept(base, copy.value)
  }

  ghost predicate WorkKept(work: Work) {
    && Sound(work.base) && CopyKept(work.base, work.client.draft)
    && forall n :: n in work.client.saved ==> CopyKept(work.base, work.client.saved[n])
  }

  ghost predicate SharedKept(seen: Store, w: Shared) {
    CopyKept(seen, w.state) && (w.open.Some? ==> WorkKept(w.open.value))
  }

  lemma InsideKept(work: Work, stmt: Statement)
    requires WorkKept(work) && (work.client.draft.Some? ==> Honest(work.client.draft.value, stmt))
    ensures WorkKept(work.(client := work.client.Step(Op(stmt))))
  {
    if work.client.draft.Some? {
      HonestKept(work.client.draft.value, stmt);
      StoreKeptTransitive(work.base, work.client.draft.value, Effect(work.client.draft.value, stmt));
    }
    hide Sound, StoreKept, Honest, Effect;
  }

  lemma ActKept(seen: Store, w: Shared, a: Action)
    requires SharedKept(seen, w) && HonestAct(w, a)
    ensures SharedKept(seen, Act(w, a))
  {
    hide Sound, StoreKept, Honest, Effect, WorkKept;
    match a
    case Direct(stmt) =>
      if w.state.Some? {
        HonestKept(w.state.value, stmt);
        StoreKeptTransitive(seen, w.state.value, Effect(w.state.value, stmt));
      }
    case Begin =>
      if w.state.Some? && w.open.None? {
        BegunKept(w.state.value);
      }
    case Inside(stmt) =>
      if w.open.Some? {
        InsideKept(w.open.value, stmt);
      }
    case Commit =>
      if w.open.Some? {
        CommittedKept(seen, w.open.value);
      }
    case Abort =>
  }

  lemma BegunKept(s: Store)
    requires Sound(s)
    ensures WorkKept(Work(s, Savepoints.Client(Some(s), map[])))
  {
    StoreKeptReflexive(s);
    hide Sound, StoreKept;
  }

  lemma CommittedKept(seen: Store, work: Work)
    requires WorkKept(work) && StoreKept(seen, work.base)
    ensures CopyKept(seen, work.client.draft)
  {
    if work.client.draft.Some? {
      StoreKeptTransitive(seen, work.base, work.client.draft.value);
    }
    hide Sound, StoreKept;
  }

  lemma {:induction false} RunKept(seen: Store, w: Shared, actions: seq<Action>)
    requires SharedKept(seen, w) && HonestRun(w, actions)
    ensures SharedKept(seen, ActAll(w, actions))
    decreases |actions|
  {
    if actions != [] {
      ActKept(seen, w, actions[0]);
      hide SharedKept, HonestAct, Act;
      RunKept(seen, Act(w, actions[0]), actions[1..]);
    }
  }

  lemma {:induction false} HonestConcat(w: Shared, a: seq<Action>, b: seq<Action>)
    requires HonestRun(w, a + b)
    ensures HonestRun(w, a) && HonestRun(ActAll(w, a), b) && ActAll(w, a + b) == ActAll(ActAll(w, a), b)
    decreases |a|
  {
    if a == [] {
      assert a + b == b;
    } else {
      assert (a + b)[0] == a[0] && (a + b)[1..] == a[1..] + b;
      hide HonestAct, Act;
      HonestConcat(Act(w, a[0]), a[1..], b);
    }
  }

  /** With writes outside transactions as well, between any two states that others see no counter goes back and
      equal counters mean equal policy, as long as no transaction commits over a state other than the one it
      began with.  Callers may blank columns and move subscriptions wherever a counter tells of it. */
  lemma VisibleStatesTell(initial: Store, before: seq<Action>, between: seq<Action>)
    requires Sound(initial) && HonestRun(Shared(Some(initial), None), before + between)
    ensures var a := ActAll(Shared(Some(initial), None), before);
      var b := ActAll(Shared(Some(initial), None), before + between);
      a.state.Some? && b.state.Some? ==> StoreKept(a.state.value, b.state.value)
  {
    var w := Shared(Some(initial), None);
    HonestConcat(w, before, between);
    StoreKeptReflexive(initial);
    hide Sound, StoreKept, HonestRun, WorkKept;
    RunKept(initial, w, before);
    var a := ActAll(w, before);
    if a.state.Some? {
      StoreKeptReflexive(a.state.value);
      RunKept(a.state.value, a, between);
    }
  }

  /** No counted row was added, and no counter moved. */
  ghost predicate NothingAdvanced(a: Store, b: Store) {
    forall t :: Counted(t) ==>
      |Rows(a, t)| == |Rows(b, t)|
      && forall i :: 0 <= i < |Rows(a, t)| ==> Revision(t, Rows(a, t)[i]) == Revision(t, Rows(b, t)[i])
  }

  lemma RowBack(t: Table, a: Row, b: Row)
    requires RowKept(t, a, b)
    ensures RowKept(t, b, a) <==> Revision(t, a) == Revision(t, b)
  {
    if Revision(t, a) == Revision(t, b) {
      forall key | Guarded(t, key) && key != Counter(t)
        ensures Same(t, Get(b, key), Get(a, key))
      {
        assert Same(t, Get(a, key), Get(b, key));
      }
    }
  }

  lemma SubsAgreeBack(a: seq<Row>, b: seq<Row>, agency: Val)
    requires SubsAgree(a, b, agency)
    ensures SubsAgree(b, a, agency)
  {
    forall j | OfAgency(b, j, agency) && OfAgency(a, j, agency)
      ensures Agree(Subscriptions, b[j], a[j])
    {
      forall key | Guarded(Subscriptions, key) && key != Counter(Subscriptions)
        ensures Same(Subscriptions, Get(b[j], key), Get(a[j], key))
      {
        assert Same(Subscriptions, Get(a[j], key), Get(b[j], key));
      }
    }
  }

  lemma TablesBack(a: Store, b: Store, t: Table)
    requires TableKept(t, Rows(a, t), Rows(b, t))
    ensures TableKept(t, Rows(b, t), Rows(a, t)) <==>
      |Rows(a, t)| == |Rows(b, t)|
      && forall i :: 0 <= i < |Rows(a, t)| ==> Revision(t, Rows(a, t)[i]) == Revision(t, Rows(b, t)[i])
  {
    forall i | 0 <= i < |Rows(a, t)|
      ensures RowKept(t, Rows(b, t)[i], Rows(a, t)[i]) <==> Revision(t, Rows(a, t)[i]) == Revision(t, Rows(b, t)[i])
    {
      RowBack(t, Rows(a, t)[i], Rows(b, t)[i]);
    }
    hide RowKept, Revision;
  }

  /** A transaction that changes nothing commits the state that it began with over `b`, what others have made of
      it: the counters still tell if and only if none of those writes advanced one. */
  lemma OverwriteTells(a: Store, b: Store)
    requires StoreKept(a, b)
    ensures StoreKept(b, a) <==> NothingAdvanced(a, b)
  {
    forall t | Counted(t)
      ensures TableKept(t, Rows(b, t), Rows(a, t)) <==>
        |Rows(a, t)| == |Rows(b, t)|
        && forall i :: 0 <= i < |Rows(a, t)| ==> Revision(t, Rows(a, t)[i]) == Revision(t, Rows(b, t)[i])
    {
      TablesBack(a, b, t);
    }
    forall agency: Val | SubsAgree(Rows(a, Subscriptions), Rows(b, Subscriptions), agency)
      ensures SubsAgree(Rows(b, Subscriptions), Rows(a, Subscriptions), agency)
    {
      SubsAgreeBack(Rows(a, Subscriptions), Rows(b, Subscriptions), agency);
    }
    hide TableKept, SubsAgree, Revision;
  }

  /** So a counter goes back whenever a transaction is open while somebody else changes an agency's policy. */
  lemma LostUpdate(s: Store, cond: Row, data: Row)
    requires Sound(s) && FindRow(Rows(s, Agencies), cond) >= 0 && Honest(s, DoUpdate(Agencies, cond, data))
    requires Touches(Agencies, Rows(s, Agencies)[FindRow(Rows(s, Agencies), cond)], data)
    ensures var changed := Effect(s, DoUpdate(Agencies, cond, data));
      && ActAll(Shared(Some(s), None), [Begin, Direct(DoUpdate(Agencies, cond, data))]).state == Some(changed)
      && ActAll(Shared(Some(s), None), [Begin, Direct(DoUpdate(Agencies, cond, data)), Commit]).state == Some(s)
      && !StoreKept(changed, s)
  {
    var stmt := DoUpdate(Agencies, cond, data);
    WriteUnderTransaction(s, stmt);
    HonestKept(s, stmt);
    CounterMoves(s, cond, data);
    hide *;
    OverwriteTells(s, Effect(s, stmt));
  }

  lemma WriteUnderTransaction(s: Store, stmt: Statement)
    ensures ActAll(Shared(Some(s), None), [Begin, Direct(stmt)]).state == Some(Effect(s, stmt))
    ensures ActAll(Shared(Some(s), None), [Begin, Direct(stmt), Commit]).state == Some(s)
  {
    hide Effect;
    var two, three := [Begin, Direct(stmt)], [Begin, Direct(stmt), Commit];
    assert two[1..] == [Direct(stmt)] && three[1..] == [Direct(stmt), Commit];
    assert [Direct(stmt)][1..] == [] && [Direct(stmt), Commit][1..] == [Commit] && [Commit][1..] == [];
    var w := Shared(Some(s), None);
    var begun := Act(w, Begin);
    var written := Act(begun, Direct(stmt));
    assert ActAll(written, []) == written;
    assert ActAll(begun, [Direct(stmt)]) == written;
    assert ActAll(written, [Commit]) == ActAll(Act(written, Commit), []);
    assert ActAll(begun, [Direct(stmt), Commit]) == Act(written, Commit);
  }

  lemma CounterMoves(s: Store, cond: Row, data: Row)
    requires Sound(s) && FindRow(Rows(s, Agencies), cond) >= 0 && Counter(Agencies) !in data
    requires Touches(Agencies, Rows(s, Agencies)[FindRow(Rows(s, Agencies), cond)], data)
    ensures !NothingAdvanced(s, Effect(s, DoUpdate(Agencies, cond, data)))
  {
    var i := FindRow(Rows(s, Agencies), cond);
    var row := Rows(s, Agencies)[i];
    var changed := Effect(s, DoUpdate(Agencies, cond, data));
    assert Rows(changed, Agencies) == Rows(s, Agencies)[i := Assigned(Agencies, row, data)];
    assert Revision(Agencies, Assigned(Agencies, row, data)) == Increment(Revision(Agencies, row));
    assert Numbered(Agencies, Rows(s, Agencies));
    hide Assigned, Touches, FindRow, Effect;
    assert Counted(Agencies) && Revision(Agencies, Rows(s, Agencies)[i]) != Revision(Agencies, Rows(changed, Agencies)[i]);
  }

  // ----- The client of one transaction -----

  class Client {
    var draft: Option<Store>
    var saved: map<string, Option<Store>>

    ghost function View(): Savepoints.Client<Store>
      reads this
    {
      Savepoints.Client(draft, saved)
    }

    constructor (state: Option<Store>)
      ensures View() == Savepoints.Client(state, map[])
    {
      draft, saved := state, map[];
    }

    method SaveDraft(name: string)
      modifies this
      ensures View() == old(View()).Step(Op(Save(name)))
    {
      saved := saved[name := draft];
    }

    method RollBackTo(name: string)
      modifies this
      ensures View() == old(View()).Step(Op(RollBack(name)))
    {
      draft := if name in saved then saved[name] else None;
    }

    method ReleaseSave(name: string)
      modifies this
      ensures View() == old(View()).Step(Op(Free(name)))
    {
      saved := saved - {name};
    }

    /** `update`, statement by statement; `threw` is the missing row or the missing agency. */
    method UpdateRow(t: Table, cond: Row, data: Row) returns (threw: bool)
      requires draft.Some?
      modifies this
      ensures View() == old(View()).Step(Op(DoUpdate(t, cond, data)))
      ensures threw == Update(old(draft).value, t, cond, data).threw
    {
      hide Matches, Touches, Bump;
      var s := draft.value;
      var i := 0;
      while i < |Rows(s, t)| && !Matches(Rows(s, t)[i], cond)
        invariant 0 <= i <= |Rows(s, t)|
        invariant forall j :: 0 <= j < i ==> !Matches(Rows(s, t)[j], cond)
        invariant draft == old(draft) && saved == old(saved)
      {
        i := i + 1;
      }
      if i == |Rows(s, t)| {
        assert FindRow(Rows(s, t), cond) == -1;
        assert draft == old(View()).Step(Op(DoUpdate(t, cond, data))).draft;
        return true;
      }
      assert FindRow(Rows(s, t), cond) == i;
      var row := Rows(s, t)[i];
      if t.Subscriptions? && Touches(t, row, data) {
        var bumped := BumpAgency(s, Get(row, "agencyId"));
        if bumped.None? {
          assert draft == old(View()).Step(Op(DoUpdate(t, cond, data))).draft;
          return true;
        }
        s := bumped.value;
      }
      var next := row;
      if Counted(t) && Touches(t, row, data) {
        next := Bump(t, next);
      }
      next := next + data;
      if t.Agencies? && (Truthy(Get(next, "deletedAt")) || Truthy(Get(next, "billingSupportHold"))) {
        next := next["status" := Text("LOCKED")];
      }
      draft := Some(s[t := Rows(s, t)[i := next]]);
      return false;
    }
  }
}
