/** The rescheduling of history notifications (scripts/database/reconcile-conversations.js, reconcile):
    nested keyset loops over the scopes and over the outbox rows of each scope.

    `resets` and `rotations` count the updates of a row.  The tables are listed in the order of their
    keys, and nobody else writes to them: the script is run with the other programs stopped. */
module Reconciliation {

  /** The position of a text in the collation of its column; the empty text comes first. */
  type Id = nat

  const EMPTY: Id := 0

  datatype Outbox = Outbox(scope: Id, dialog: Id, acknowledged: nat, attempts: nat, due: bool, resets: nat)

  datatype Scope = Scope(id: Id, epoch: nat, relayPending: bool, rotations: nat)

  const SCOPES_PER_PAGE: nat := 32
  const DIALOGS_PER_PAGE: nat := 128

  // ----- Queries -----

  ghost predicate Ascending(ids: seq<Id>) {
    forall i, j :: 0 <= i < j < |ids| ==> ids[i] < ids[j]
  }

  /** `WHERE id > after ORDER BY id`. */
  function Above(ids: seq<Id>, after: Id): (above: seq<Id>)
    ensures |above| <= |ids|
    ensures forall x :: x in above <==> x in ids && x > after
  {
    if ids == [] then [] else (if ids[0] > after then [ids[0]] else []) + Above(ids[1..], after)
  }

  function Page(ids: seq<Id>, after: Id, limit: nat): seq<Id> {
    var above := Above(ids, after);
    if |above| <= limit then above else above[..limit]
  }

  lemma {:induction false} AboveIsSuffix(ids: seq<Id>, k: nat, after: Id)
    requires Ascending(ids) && k <= |ids|
    requires forall i :: 0 <= i < |ids| ==> (ids[i] <= after <==> i < k)
    ensures Above(ids, after) == ids[k..]
  {
    if ids != [] {
      AboveIsSuffix(ids[1..], if k == 0 then 0 else k - 1, after);
      if k == 0 {
        assert ids[0] > after;
        assert ids[1..][0..] == ids[1..];
        assert [ids[0]] + ids[1..] == ids[k..];
      } else {
        assert ids[0] <= after;
        assert ids[1..][k - 1..] == ids[k..];
      }
    }
  }

  /** How many ids a keyset loop that starts with the empty text never sees: one or none. */
  function Skipped(ids: seq<Id>): nat {
    if ids != [] && ids[0] == EMPTY then 1 else 0
  }

  /** A loop that has got to `after` has `ids[k..]` before it. */
  ghost predicate Stands(ids: seq<Id>, k: nat, after: Id) {
    k <= |ids| && Above(ids, after) == ids[k..]
  }

  lemma FromTheStart(ids: seq<Id>)
    requires Ascending(ids)
    ensures Stands(ids, Skipped(ids), EMPTY)
    ensures |Above(ids, EMPTY)| == |ids| - Skipped(ids)
  {
    AboveIsSuffix(ids, Skipped(ids), EMPTY);
  }

  ghost predicate IsStretch(ids: seq<Id>, k: nat, page: seq<Id>) {
    k + |page| <= |ids| && page == ids[k..k + |page|]
  }

  /** A page is the next stretch of ids, and its last id leads to the rest. */
  lemma NextPage(ids: seq<Id>, k: nat, after: Id, limit: nat)
    requires Ascending(ids) && limit > 0 && Stands(ids, k, after)
    ensures var page := Page(ids, after, limit);
            && IsStretch(ids, k, page)
            && (page == [] ==> k == |ids| && Above(ids, after) == [])
            && (page != [] ==> Stands(ids, k + |page|, page[|page| - 1]))
  {
    var page := Page(ids, after, limit);
    assert page == ids[k..k + |page|];
    if page != [] {
      assert page[|page| - 1] == ids[k + |page| - 1];
      AboveIsSuffix(ids, k + |page|, page[|page| - 1]);
    }
  }

  /** The page holds the ids after the last one seen, up to its own last. */
  lemma InPage(ids: seq<Id>, k: nat, after: Id, limit: nat, d: Id)
    requires Ascending(ids) && limit > 0 && Stands(ids, k, after) && d in ids
    ensures var page := Page(ids, after, limit);
            page != [] ==> (d in page <==> after < d <= page[|page| - 1])
  {
    NextPage(ids, k, after, limit);
    var page := Page(ids, after, limit);
    if page != [] {
      var last := page[|page| - 1];
      assert last in Above(ids, after) && last > after;
      if d in page {
        var i :| 0 <= i < |page| && page[i] == d;
        assert page[i] == ids[k + i] && last == ids[k + |page| - 1];
        assert d in Above(ids, after);
      }
      if after < d <= last {
        assert d in Above(ids, after);
        var i :| 0 <= i < |ids| - k && ids[k..][i] == d;
        assert ids[k + i] == d && last == ids[k + |page| - 1];
        assert page[i] == d;
      }
    }
  }

  function Ids(scopes: seq<Scope>): (ids: seq<Id>)
    ensures |ids| == |scopes| && forall i :: 0 <= i < |ids| ==> ids[i] == scopes[i].id
  {
    if scopes == [] then [] else [scopes[0].id] + Ids(scopes[1..])
  }

  function DialogsOf(rows: seq<Outbox>, scope: Id): (ids: seq<Id>)
    ensures forall d :: d in ids ==> exists i :: 0 <= i < |rows| && rows[i].scope == scope && rows[i].dialog == d
    ensures forall i :: 0 <= i < |rows| && rows[i].scope == scope ==> rows[i].dialog in ids
  {
    if rows == [] then []
    else (if rows[0].scope == scope then [rows[0].dialog] else []) + DialogsOf(rows[1..], scope)
  }

  predicate KeyLess(a: Outbox, b: Outbox) {
    a.scope < b.scope || (a.scope == b.scope && a.dialog < b.dialog)
  }

  ghost predicate KeyOrdered(rows: seq<Outbox>) {
    forall i, j :: 0 <= i < j < |rows| ==> KeyLess(rows[i], rows[j])
  }

  lemma {:induction false} DialogsAscend(rows: seq<Outbox>, scope: Id)
    requires KeyOrdered(rows)
    ensures Ascending(DialogsOf(rows, scope))
  {
    if rows != [] {
      DialogsAscend(rows[1..], scope);
      var rest := DialogsOf(rows[1..], scope);
      if rows[0].scope == scope {
        forall j | 0 <= j < |rest|
          ensures rows[0].dialog < rest[j]
        {
          assert rest[j] in rest;
        }
      }
    }
  }

  // ----- What the script promises -----

  /** The script gets to the row. */
  predicate Visited(ids: seq<Id>, r: Outbox) {
    r.scope in ids && r.scope != EMPTY && r.dialog != EMPTY
  }

  function Reset(r: Outbox): Outbox {
    r.(acknowledged := 0, attempts := 0, due := true, resets := r.resets + 1)
  }

  predicate HasDialog(rows: seq<Outbox>, scope: Id) {
    exists r :: r in rows && r.scope == scope && r.dialog != EMPTY
  }

  /** A scope after its turn; only its new epoch is open. */
  predicate Turned(rows: seq<Outbox>, restored: bool, a: Scope, b: Scope) {
    && b.id == a.id
    && b.rotations == a.rotations + (if restored then 1 else 0)
    && (!restored ==> b.epoch == a.epoch)
    && (b.relayPending <==> a.relayPending || HasDialog(rows, a.id))
  }

  /** Every row the script gets to has been reset once, and no other. */
  ghost predicate EachReset(ids: seq<Id>, rows: seq<Outbox>, now: seq<Outbox>) {
    |now| == |rows|
    && forall i :: 0 <= i < |rows| ==>
                     now[i] == if rows[i].scope in ids && rows[i].scope != EMPTY && rows[i].dialog != EMPTY then
                                 Outbox(rows[i].scope, rows[i].dialog, 0, 0, true, rows[i].resets + 1)
                               else rows[i]
  }

  /** Every scope but the one with the empty id has had its turn. */
  ghost predicate EachTurned(rows: seq<Outbox>, restored: bool, started: seq<Scope>, now: seq<Scope>) {
    |now| == |started|
    && forall i :: 0 <= i < |started| ==>
                     if started[i].id != EMPTY then Turned(rows, restored, started[i], now[i])
                     else now[i] == started[i]
  }

  function CountVisited(ids: seq<Id>, rows: seq<Outbox>): nat {
    if rows == [] then 0 else (if Visited(ids, rows[0]) then 1 else 0) + CountVisited(ids, rows[1..])
  }

  /** How many dialogs the loop over the scopes `ids` counts. */
  function CountByScope(ids: seq<Id>, rows: seq<Outbox>): nat {
    if ids == [] then 0 else |Above(DialogsOf(rows, ids[0]), EMPTY)| + CountByScope(ids[1..], rows)
  }

  /** The dialogs counted for one scope grow with a row of that scope. */
  lemma ScopeAddsRow(rows: seq<Outbox>, scope: Id)
    requires rows != []
    ensures |Above(DialogsOf(rows, scope), EMPTY)|
         == |Above(DialogsOf(rows[1..], scope), EMPTY)| + (if rows[0].scope == scope && rows[0].dialog != EMPTY then 1 else 0)
  {
    var rest := DialogsOf(rows[1..], scope);
    assert rows[0].scope == scope ==> ([rows[0].dialog] + rest)[1..] == rest;
    assert [] + rest == rest;
  }

  lemma FirstOnlyOnce(ids: seq<Id>)
    requires Ascending(ids) && ids != []
    ensures ids[0] !in ids[1..] && Ascending(ids[1..])
    ensures forall id :: id in ids <==> id == ids[0] || id in ids[1..]
  {
    assert ids == [ids[0]] + ids[1..];
  }

  lemma {:induction false} CountByScopeAddsRow(ids: seq<Id>, rows: seq<Outbox>)
    requires Ascending(ids) && rows != []
    ensures CountByScope(ids, rows)
         == CountByScope(ids, rows[1..]) + (if rows[0].scope in ids && rows[0].dialog != EMPTY then 1 else 0)
  {
    if ids != [] {
      FirstOnlyOnce(ids);
      ScopeAddsRow(rows, ids[0]);
      hide Ascending, Above, DialogsOf;
      CountByScopeAddsRow(ids[1..], rows);
    }
  }

  lemma {:induction false} CountIsByScope(ids: seq<Id>, rows: seq<Outbox>)
    requires Ascending(ids) && (forall id :: id in ids ==> id != EMPTY)
    ensures CountByScope(ids, rows) == CountVisited(ids, rows)
    decreases |rows|
  {
    if rows == [] {
      NothingToCount(ids);
    } else {
      CountByScopeAddsRow(ids, rows);
      CountIsByScope(ids, rows[1..]);
    }
  }

  lemma NothingToCount(ids: seq<Id>)
    ensures CountByScope(ids, []) == 0
  {
  }

  lemma {:induction false} CountSkipsEmpty(ids: seq<Id>, rows: seq<Outbox>)
    requires Ascending(ids)
    ensures CountVisited(ids[Skipped(ids)..], rows) == CountVisited(ids, rows)
  {
    if rows != [] {
      CountSkipsEmpty(ids, rows[1..]);
      if ids != [] {
        assert ids == [ids[0]] + ids[1..];
      }
    }
  }

  /** The total is the number of outbox rows exactly when every row has an existing scope and neither id
      is empty. */
  lemma {:induction false} TotalIsAllRows(ids: seq<Id>, rows: seq<Outbox>)
    ensures CountVisited(ids, rows) <= |rows|
    ensures CountVisited(ids, rows) == |rows| <==> forall r :: r in rows ==> r.scope in ids && r.scope != EMPTY && r.dialog != EMPTY
  {
    if rows != [] {
      TotalIsAllRows(ids, rows[1..]);
      assert rows == [rows[0]] + rows[1..];
    }
  }

  function CountFrom(ids: seq<Id>, k: nat, rows: seq<Outbox>): nat {
    if k <= |ids| then CountByScope(ids[k..], rows) else 0
  }

  lemma CountFromSplit(ids: seq<Id>, k: nat, rows: seq<Outbox>)
    requires k < |ids|
    ensures CountFrom(ids, k, rows) == |Above(DialogsOf(rows, ids[k]), EMPTY)| + CountFrom(ids, k + 1, rows)
  {
    assert ids[k..][0] == ids[k] && ids[k..][1..] == ids[k + 1..];
  }

  lemma InStretch(ids: seq<Id>, k: nat, page: seq<Id>, i: nat)
    requires IsStretch(ids, k, page) && i < |page|
    ensures k + i < |ids| && page[i] == ids[k + i]
  {
  }

  // ----- The state between the pages -----

  /** The update of one page. */
  ghost predicate Notified(a: seq<Outbox>, scope: Id, page: seq<Id>, b: seq<Outbox>) {
    |b| == |a|
    && forall i :: 0 <= i < |a| ==> b[i] == if a[i].scope == scope && a[i].dialog in page then Reset(a[i]) else a[i]
  }

  ghost predicate Flagged(a: seq<Scope>, scope: Id, flag: bool, b: seq<Scope>) {
    |b| == |a|
    && forall i :: 0 <= i < |a| ==> b[i] == if a[i].id == scope && flag then a[i].(relayPending := true) else a[i]
  }

  ghost predicate Rotated(a: seq<Scope>, scope: Id, epoch: nat, b: seq<Scope>) {
    |b| == |a|
    && forall i :: 0 <= i < |a| ==>
                     b[i] == if a[i].id == scope then a[i].(epoch := epoch, rotations := a[i].rotations + 1) else a[i]
  }

  /** The scope's dialogs up to `after` have been reset, each once. */
  ghost predicate ResetUpTo(a: seq<Outbox>, scope: Id, after: Id, b: seq<Outbox>) {
    |b| == |a|
    && forall i :: 0 <= i < |a| ==>
                     b[i] == if a[i].scope == scope && EMPTY < a[i].dialog <= after then Reset(a[i]) else a[i]
  }

  ghost predicate ScopeReset(a: seq<Outbox>, scope: Id, b: seq<Outbox>) {
    |b| == |a|
    && forall i :: 0 <= i < |a| ==>
                     b[i] == if a[i].scope == scope && a[i].dialog != EMPTY then Reset(a[i]) else a[i]
  }

  ghost predicate ScopeTurned(rows: seq<Outbox>, restored: bool, a: seq<Scope>, scope: Id, b: seq<Scope>) {
    |b| == |a|
    && forall i :: 0 <= i < |a| ==> if a[i].id == scope then Turned(rows, restored, a[i], b[i]) else b[i] == a[i]
  }

  /** The rows of the scopes up to `after` have been reset, each once. */
  ghost predicate Reached(rows: seq<Outbox>, ids: seq<Id>, after: Id, now: seq<Outbox>) {
    |now| == |rows|
    && forall i :: 0 <= i < |rows| ==>
                     now[i] == if Visited(ids, rows[i]) && rows[i].scope <= after then Reset(rows[i]) else rows[i]
  }

  /** The scopes up to `after` have had their turn. */
  ghost predicate TurnedUpTo(rows: seq<Outbox>, restored: bool, started: seq<Scope>, after: Id, now: seq<Scope>) {
    |now| == |started|
    && forall i :: 0 <= i < |started| ==>
                     if EMPTY < started[i].id <= after then Turned(rows, restored, started[i], now[i])
                     else now[i] == started[i]
  }

  lemma {:induction false} SameDialogs(a: seq<Outbox>, b: seq<Outbox>, scope: Id)
    requires |a| == |b|
    requires forall i :: 0 <= i < |a| ==> a[i].scope == b[i].scope && a[i].dialog == b[i].dialog
    ensures DialogsOf(a, scope) == DialogsOf(b, scope)
  {
    if a != [] {
      SameDialogs(a[1..], b[1..], scope);
    }
  }

  lemma DialogsDuring(rows: seq<Outbox>, scope: Id, after: Id, now: seq<Outbox>)
    requires ResetUpTo(rows, scope, after, now)
    ensures DialogsOf(now, scope) == DialogsOf(rows, scope)
  {
    SameDialogs(now, rows, scope);
  }

  lemma PageIsReset(rows: seq<Outbox>, scope: Id, k: nat, after: Id, before: seq<Outbox>, now: seq<Outbox>)
    requires KeyOrdered(rows)
    requires Stands(DialogsOf(rows, scope), k, after)
    requires ResetUpTo(rows, scope, after, before)
    requires var page := Page(DialogsOf(rows, scope), after, DIALOGS_PER_PAGE);
             page != [] && Notified(before, scope, page, now)
    ensures var page := Page(DialogsOf(rows, scope), after, DIALOGS_PER_PAGE);
            page[|page| - 1] > after && ResetUpTo(rows, scope, page[|page| - 1], now)
  {
    var ids := DialogsOf(rows, scope);
    var page := Page(ids, after, DIALOGS_PER_PAGE);
    DialogsAscend(rows, scope);
    assert page[|page| - 1] in Above(ids, after);
    forall i | 0 <= i < |rows| && rows[i].scope == scope
      ensures rows[i].dialog in page <==> after < rows[i].dialog <= page[|page| - 1]
    {
      InPage(ids, k, after, DIALOGS_PER_PAGE, rows[i].dialog);
    }
  }

  /** Nothing is above the last id: every dialog that is not empty has had its turn. */
  lemma ScopeIsReset(rows: seq<Outbox>, scope: Id, after: Id, now: seq<Outbox>)
    requires ResetUpTo(rows, scope, after, now) && Above(DialogsOf(rows, scope), after) == []
    ensures ScopeReset(rows, scope, now)
  {
    var ids := DialogsOf(rows, scope);
    forall i | 0 <= i < |rows| && rows[i].scope == scope
      ensures rows[i].dialog <= after
    {
      assert rows[i].dialog in ids;
      assert rows[i].dialog !in Above(ids, after);
    }
  }

  lemma HasDialogs(rows: seq<Outbox>, scope: Id)
    ensures HasDialog(rows, scope) <==> Above(DialogsOf(rows, scope), EMPTY) != []
  {
    var ids := DialogsOf(rows, scope);
    if HasDialog(rows, scope) {
      var r :| r in rows && r.scope == scope && r.dialog != EMPTY;
      assert r.dialog in Above(ids, EMPTY);
    }
    if Above(ids, EMPTY) != [] {
      var d := Above(ids, EMPTY)[0];
      assert d in Above(ids, EMPTY);
      var i :| 0 <= i < |rows| && rows[i].scope == scope && rows[i].dialog == d;
      assert rows[i] in rows;
    }
  }

  lemma ScopeIsTurned(rows: seq<Outbox>, restored: bool, scope: Id, epoch: nat,
                      a: seq<Scope>, rotated: seq<Scope>, b: seq<Scope>)
    requires if restored then Rotated(a, scope, epoch, rotated) else rotated == a
    requires Flagged(rotated, scope, HasDialog(rows, scope), b)
    ensures ScopeTurned(rows, restored, a, scope, b)
  {
    hide HasDialog;
  }

  lemma FlagAgain(a: seq<Scope>, scope: Id, flag: bool, b: seq<Scope>, c: seq<Scope>)
    requires Flagged(a, scope, flag, b) && Flagged(b, scope, true, c)
    ensures Flagged(a, scope, true, c)
  {
  }

  lemma {:induction false} SameIds(a: seq<Scope>, b: seq<Scope>)
    requires |a| == |b| && forall i :: 0 <= i < |a| ==> a[i].id == b[i].id
    ensures Ids(a) == Ids(b)
  {
  }

  lemma IdsDuring(rows: seq<Outbox>, restored: bool, started: seq<Scope>, after: Id, now: seq<Scope>)
    requires TurnedUpTo(rows, restored, started, after, now)
    ensures Ids(now) == Ids(started)
  {
    SameIds(now, started);
  }

  lemma OrderDuring(rows: seq<Outbox>, ids: seq<Id>, after: Id, now: seq<Outbox>)
    requires Reached(rows, ids, after, now) && KeyOrdered(rows)
    ensures KeyOrdered(now)
  {
  }

  /** The next scope in ascending order. */
  predicate NextScope(ids: seq<Id>, after: Id, scope: Id) {
    scope in ids && after < scope && forall id :: id in ids && id > after ==> id >= scope
  }

  lemma NextIsReached(rows: seq<Outbox>, ids: seq<Id>, after: Id, scope: Id, before: seq<Outbox>, now: seq<Outbox>)
    requires Reached(rows, ids, after, before) && NextScope(ids, after, scope) && ScopeReset(before, scope, now)
    ensures Reached(rows, ids, scope, now)
    ensures DialogsOf(before, scope) == DialogsOf(rows, scope)
  {
    SameDialogs(before, rows, scope);
  }

  lemma NextIsTurned(rows: seq<Outbox>, now: seq<Outbox>, restored: bool, started: seq<Scope>, after: Id, scope: Id,
                     before: seq<Scope>, turned: seq<Scope>)
    requires TurnedUpTo(rows, restored, started, after, before) && NextScope(Ids(started), after, scope)
    requires HasDialog(now, scope) <==> HasDialog(rows, scope)
    requires ScopeTurned(now, restored, before, scope, turned)
    ensures TurnedUpTo(rows, restored, started, scope, turned)
  {
    assert forall i :: 0 <= i < |started| ==> started[i].id in Ids(started) by {
      assert forall i :: 0 <= i < |started| ==> Ids(started)[i] == started[i].id;
    }
    hide HasDialog;
  }

  lemma NextInOrder(ids: seq<Id>, k: nat, after: Id)
    requires Ascending(ids) && k < |ids| && Stands(ids, k, after)
    ensures NextScope(ids, after, ids[k]) && Stands(ids, k + 1, ids[k])
  {
    assert ids[k..][0] in Above(ids, after);
    forall id | id in ids && id > after
      ensures id >= ids[k]
    {
      assert id in ids[k..];
      var i :| 0 <= i < |ids| - k && ids[k..][i] == id;
      assert id == ids[k + i];
    }
    AboveIsSuffix(ids, k + 1, ids[k]);
  }

  lemma AllReached(rows: seq<Outbox>, ids: seq<Id>, after: Id, now: seq<Outbox>)
    requires Reached(rows, ids, after, now) && Above(ids, after) == []
    ensures EachReset(ids, rows, now)
  {
    assert forall id :: id in ids ==> id <= after by {
      forall id | id in ids
        ensures id <= after
      {
        assert id !in Above(ids, after);
      }
    }
  }

  lemma AllTurned(rows: seq<Outbox>, restored: bool, started: seq<Scope>, after: Id, now: seq<Scope>)
    requires TurnedUpTo(rows, restored, started, after, now) && Above(Ids(started), after) == []
    ensures EachTurned(rows, restored, started, now)
  {
    forall i | 0 <= i < |started|
      ensures started[i].id <= after
    {
      assert Ids(started)[i] !in Above(Ids(started), after);
    }
    hide Turned;
  }

  lemma CountAll(ids: seq<Id>, rows: seq<Outbox>)
    requires Ascending(ids)
    ensures CountFrom(ids, Skipped(ids), rows) == CountVisited(ids, rows)
    ensures CountFrom(ids, |ids|, rows) == 0
  {
    CountSkipsEmpty(ids, rows);
    CountIsByScope(ids[Skipped(ids)..], rows);
  }

  // ----- The loops -----

  /** A scope's turn after `n` of its dialogs. */
  ghost predicate InTurn(rows: seq<Outbox>, rotated: seq<Scope>, scope: Id, after: Id, n: nat,
                         now: seq<Outbox>, flags: seq<Scope>) {
    var ids := DialogsOf(rows, scope);
    && KeyOrdered(rows) && Stands(ids, Skipped(ids) + n, after)
    && ResetUpTo(rows, scope, after, now) && Flagged(rotated, scope, n > 0, flags)
  }

  lemma TurnStarts(rows: seq<Outbox>, rotated: seq<Scope>, scope: Id)
    requires KeyOrdered(rows)
    ensures InTurn(rows, rotated, scope, EMPTY, 0, rows, rotated)
  {
    DialogsAscend(rows, scope);
    FromTheStart(DialogsOf(rows, scope));
    hide DialogsOf, Ascending, KeyOrdered, Stands, Skipped;
  }

  lemma TurnGoesOn(rows: seq<Outbox>, rotated: seq<Scope>, scope: Id, after: Id, n: nat,
                   before: seq<Outbox>, flags: seq<Scope>, page: seq<Id>, now: seq<Outbox>, flagged: seq<Scope>)
    requires InTurn(rows, rotated, scope, after, n, before, flags)
    requires page == Page(DialogsOf(before, scope), after, DIALOGS_PER_PAGE) && page != []
    requires Notified(before, scope, page, now) && Flagged(flags, scope, true, flagged)
    ensures InTurn(rows, rotated, scope, page[|page| - 1], n + |page|, now, flagged)
    ensures n + |page| <= |DialogsOf(rows, scope)|
  {
    hide *;
    var ids := DialogsOf(rows, scope);
    InTurnMeans(rows, rotated, scope, after, n, before, flags);
    DialogsDuring(rows, scope, after, before);
    TurnStands(rows, scope, Skipped(ids) + n, after, page);
    PageIsReset(rows, scope, Skipped(ids) + n, after, before, now);
    FlagAgain(rotated, scope, n > 0, flags, flagged);
    IsInTurn(rows, rotated, scope, page[|page| - 1], n + |page|, now, flagged);
  }

  lemma TurnStands(rows: seq<Outbox>, scope: Id, k: nat, after: Id, page: seq<Id>)
    requires KeyOrdered(rows) && Stands(DialogsOf(rows, scope), k, after)
    requires page == Page(DialogsOf(rows, scope), after, DIALOGS_PER_PAGE) && page != []
    ensures Stands(DialogsOf(rows, scope), k + |page|, page[|page| - 1]) && k + |page| <= |DialogsOf(rows, scope)|
  {
    DialogsAscend(rows, scope);
    NextPage(DialogsOf(rows, scope), k, after, DIALOGS_PER_PAGE);
  }

  lemma InTurnMeans(rows: seq<Outbox>, rotated: seq<Scope>, scope: Id, after: Id, n: nat,
                    now: seq<Outbox>, flags: seq<Scope>)
    requires InTurn(rows, rotated, scope, after, n, now, flags)
    ensures KeyOrdered(rows) && Stands(DialogsOf(rows, scope), Skipped(DialogsOf(rows, scope)) + n, after)
    ensures ResetUpTo(rows, scope, after, now) && Flagged(rotated, scope, n > 0, flags)
  {
  }

  lemma IsInTurn(rows: seq<Outbox>, rotated: seq<Scope>, scope: Id, after: Id, n: nat,
                 now: seq<Outbox>, flags: seq<Scope>)
    requires KeyOrdered(rows) && Stands(DialogsOf(rows, scope), Skipped(DialogsOf(rows, scope)) + n, after)
    requires ResetUpTo(rows, scope, after, now) && Flagged(rotated, scope, true, flags) && n > 0
    ensures InTurn(rows, rotated, scope, after, n, now, flags)
  {
    hide KeyOrdered, DialogsOf, Stands, ResetUpTo, Flagged, Skipped;
  }

  lemma TurnEnds(rows: seq<Outbox>, rotated: seq<Scope>, scope: Id, after: Id, n: nat,
                 now: seq<Outbox>, flags: seq<Scope>)
    requires InTurn(rows, rotated, scope, after, n, now, flags)
    requires Page(DialogsOf(now, scope), after, DIALOGS_PER_PAGE) == []
    ensures ScopeReset(rows, scope, now) && Flagged(rotated, scope, HasDialog(rows, scope), flags)
    ensures n == |Above(DialogsOf(rows, scope), EMPTY)|
  {
    var ids := DialogsOf(rows, scope);
    DialogsDuring(rows, scope, after, now);
    DialogsAscend(rows, scope);
    FromTheStart(ids);
    HasDialogs(rows, scope);
    NextPage(ids, Skipped(ids) + n, after, DIALOGS_PER_PAGE);
    ScopeIsReset(rows, scope, after, now);
    hide KeyOrdered, DialogsOf, Stands, ResetUpTo, Flagged, Page, Above, ScopeReset, HasDialog, Ascending;
  }

  /** The run before the scope at position `k`. */
  ghost predicate Running(rows: seq<Outbox>, restored: bool, started: seq<Scope>, k: nat, after: Id, total: nat,
                          now: seq<Outbox>, scopes: seq<Scope>) {
    var ids := Ids(started);
    && Ascending(ids) && KeyOrdered(rows) && Stands(ids, k, after)
    && Reached(rows, ids, after, now) && TurnedUpTo(rows, restored, started, after, scopes)
    && total + CountFrom(ids, k, rows) == CountFrom(ids, Skipped(ids), rows)
  }

  lemma RunStarts(rows: seq<Outbox>, restored: bool, started: seq<Scope>)
    requires Ascending(Ids(started)) && KeyOrdered(rows)
    ensures Running(rows, restored, started, Skipped(Ids(started)), EMPTY, 0, rows, started)
    ensures Skipped(Ids(started)) <= |Ids(started)|
  {
    FromTheStart(Ids(started));
    hide Ascending, KeyOrdered, Stands, Ids, Visited, Turned, CountFrom;
  }

  lemma RunPage(rows: seq<Outbox>, restored: bool, started: seq<Scope>, k: nat, after: Id, total: nat,
                now: seq<Outbox>, scopes: seq<Scope>, page: seq<Id>)
    requires Running(rows, restored, started, k, after, total, now, scopes)
    requires page == Page(Ids(scopes), after, SCOPES_PER_PAGE) && page != []
    ensures Ascending(Ids(started)) && KeyOrdered(rows) && IsStretch(Ids(started), k, page)
    ensures Stands(Ids(started), k, after) && Stands(Ids(started), k + |page|, page[|page| - 1])
    ensures Reached(rows, Ids(started), after, now) && TurnedUpTo(rows, restored, started, after, scopes)
    ensures total + CountFrom(Ids(started), k, rows) == CountFrom(Ids(started), Skipped(Ids(started)), rows)
    ensures k + |page| <= |Ids(started)|
  {
    IdsDuring(rows, restored, started, after, scopes);
    NextPage(Ids(started), k, after, SCOPES_PER_PAGE);
    hide Ascending, KeyOrdered, Ids, Visited, Turned, CountFrom, Reached, TurnedUpTo;
  }

  lemma RunGoesOn(rows: seq<Outbox>, restored: bool, started: seq<Scope>, k: nat, after: Id, total: nat,
                  now: seq<Outbox>, scopes: seq<Scope>, page: seq<Id>, n: nat)
    requires Ascending(Ids(started)) && KeyOrdered(rows) && page != []
    requires Stands(Ids(started), k + |page|, page[|page| - 1])
    requires Reached(rows, Ids(started), page[|page| - 1], now)
    requires TurnedUpTo(rows, restored, started, page[|page| - 1], scopes)
    requires total + CountFrom(Ids(started), k, rows) == CountFrom(Ids(started), Skipped(Ids(started)), rows)
    requires n + CountFrom(Ids(started), k + |page|, rows) == CountFrom(Ids(started), k, rows)
    ensures Running(rows, restored, started, k + |page|, page[|page| - 1], total + n, now, scopes)
  {
    hide Ascending, KeyOrdered, Stands, Ids, CountFrom, Reached, TurnedUpTo;
  }

  lemma RunEnds(rows: seq<Outbox>, restored: bool, started: seq<Scope>, k: nat, after: Id, total: nat,
                now: seq<Outbox>, scopes: seq<Scope>)
    requires Running(rows, restored, started, k, after, total, now, scopes)
    requires Page(Ids(scopes), after, SCOPES_PER_PAGE) == []
    ensures EachReset(Ids(started), rows, now) && EachTurned(rows, restored, started, scopes)
    ensures total == CountVisited(Ids(started), rows)
  {
    var ids := Ids(started);
    IdsDuring(rows, restored, started, after, scopes);
    NextPage(ids, k, after, SCOPES_PER_PAGE);
    CountAll(ids, rows);
    AllReached(rows, ids, after, now);
    AllTurned(rows, restored, started, after, scopes);
    hide Ascending, KeyOrdered, Stands, Ids, CountFrom, Reached, TurnedUpTo, EachReset, EachTurned;
  }

  // ----- The program -----

  class Database {
    const scopes: array<Scope>
    const outbox: array<Outbox>

    constructor (scopes: array<Scope>, outbox: array<Outbox>)
      ensures this.scopes == scopes && this.outbox == outbox
    {
      this.scopes, this.outbox := scopes, outbox;
    }

    /** The transaction for one page of a scope's dialogs. */
    method Notify(scope: Id, page: seq<Id>)
      modifies scopes, outbox
      ensures Notified(old(outbox[..]), scope, page, outbox[..])
      ensures Flagged(old(scopes[..]), scope, true, scopes[..])
    {
      forall i | 0 <= i < outbox.Length && outbox[i].scope == scope && outbox[i].dialog in page {
        outbox[i] := Reset(outbox[i]);
      }
      forall i | 0 <= i < scopes.Length && scopes[i].id == scope {
        scopes[i] := scopes[i].(relayPending := true);
      }
    }

    method RotateEpoch(scope: Id, epoch: nat)
      modifies scopes
      ensures Rotated(old(scopes[..]), scope, epoch, scopes[..])
    {
      forall i | 0 <= i < scopes.Length && scopes[i].id == scope {
        scopes[i] := scopes[i].(epoch := epoch, rotations := scopes[i].rotations + 1);
      }
    }

    /** One scope's turn: all its dialogs, page by page. */
    method ReconcileScope(scope: Id, restored: bool) returns (n: nat)
      requires KeyOrdered(outbox[..])
      modifies scopes, outbox
      ensures ScopeReset(old(outbox[..]), scope, outbox[..])
      ensures ScopeTurned(old(outbox[..]), restored, old(scopes[..]), scope, scopes[..])
      ensures n == |Above(DialogsOf(old(outbox[..]), scope), EMPTY)|
    {
      hide *;
      ghost var rows, started := outbox[..], scopes[..];
      ghost var bound := |DialogsOf(rows, scope)|;
      var epoch: nat :| true;
      if restored {
        RotateEpoch(scope, epoch);
      }
      ghost var rotated := scopes[..];
      var afterDialog: Id := EMPTY;
      n := 0;
      TurnStarts(rows, rotated, scope);
      var page := Page(DialogsOf(outbox[..], scope), afterDialog, DIALOGS_PER_PAGE);
      while page != []
        invariant InTurn(rows, rotated, scope, afterDialog, n, outbox[..], scopes[..])
        invariant page == Page(DialogsOf(outbox[..], scope), afterDialog, DIALOGS_PER_PAGE)
        invariant n <= bound
        decreases bound - n
      {
        ghost var before, flags := outbox[..], scopes[..];
        Notify(scope, page);
        TurnGoesOn(rows, rotated, scope, afterDialog, n, before, flags, page, outbox[..], scopes[..]);
        n := n + |page|;
        afterDialog := page[|page| - 1];
        page := Page(DialogsOf(outbox[..], scope), afterDialog, DIALOGS_PER_PAGE);
      }
      TurnEnds(rows, rotated, scope, afterDialog, n, outbox[..], scopes[..]);
      ScopeIsTurned(rows, restored, scope, epoch, started, rotated, scopes[..]);
    }

    /** The scopes of one page, in order. */
    method ReconcilePage(page: seq<Id>, restored: bool, ghost after: Id,
                         ghost rows: seq<Outbox>, ghost started: seq<Scope>, ghost k: nat)
      returns (n: nat)
      requires page != [] && Ascending(Ids(started)) && KeyOrdered(rows)
      requires IsStretch(Ids(started), k, page) && Stands(Ids(started), k, after)
      requires Reached(rows, Ids(started), after, outbox[..])
      requires TurnedUpTo(rows, restored, started, after, scopes[..])
      modifies scopes, outbox
      ensures Reached(rows, Ids(started), page[|page| - 1], outbox[..])
      ensures TurnedUpTo(rows, restored, started, page[|page| - 1], scopes[..])
      ensures n + CountFrom(Ids(started), k + |page|, rows) == CountFrom(Ids(started), k, rows)
    {
      hide *;
      ghost var ids := Ids(started);
      ghost var afterScope := after;
      n := 0;
      var i := 0;
      while i < |page|
        invariant 0 <= i <= |page| && afterScope == (if i == 0 then after else page[i - 1])
        invariant Stands(ids, k + i, afterScope)
        invariant Reached(rows, ids, afterScope, outbox[..])
        invariant TurnedUpTo(rows, restored, started, afterScope, scopes[..])
        invariant n + CountFrom(ids, k + i, rows) == CountFrom(ids, k, rows)
      {
        InStretch(ids, k, page, i);
        NextInOrder(ids, k + i, afterScope);
        OrderDuring(rows, ids, afterScope, outbox[..]);
        ghost var before, turned := outbox[..], scopes[..];
        var m := ReconcileScope(page[i], restored);
        NextIsReached(rows, ids, afterScope, page[i], before, outbox[..]);
        HasDialogs(before, page[i]);
        HasDialogs(rows, page[i]);
        NextIsTurned(rows, before, restored, started, afterScope, page[i], turned, scopes[..]);
        CountFromSplit(ids, k + i, rows);
        n := n + m;
        afterScope := page[i];
        i := i + 1;
      }
    }

    /** `reconcile`: the number of dialogs whose notifications were scheduled. */
    method Reconcile(restored: bool) returns (total: nat)
      requires Ascending(Ids(scopes[..])) && KeyOrdered(outbox[..])
      modifies scopes, outbox
      ensures EachReset(Ids(old(scopes[..])), old(outbox[..]), outbox[..])
      ensures EachTurned(old(outbox[..]), restored, old(scopes[..]), scopes[..])
      ensures total == CountVisited(Ids(old(scopes[..])), old(outbox[..]))
    {
      hide *;
      ghost var rows, started := outbox[..], scopes[..];
      ghost var k: nat := Skipped(Ids(started));
      ghost var bound := |Ids(started)|;
      var afterScope: Id := EMPTY;
      total := 0;
      RunStarts(rows, restored, started);
      var page := Page(Ids(scopes[..]), afterScope, SCOPES_PER_PAGE);
      while page != []
        invariant Running(rows, restored, started, k, afterScope, total, outbox[..], scopes[..])
        invariant page == Page(Ids(scopes[..]), afterScope, SCOPES_PER_PAGE)
        invariant k <= bound
        decreases bound - k
      {
        RunPage(rows, restored, started, k, afterScope, total, outbox[..], scopes[..], page);
        var n := ReconcilePage(page, restored, afterScope, rows, started, k);
        RunGoesOn(rows, restored, started, k, afterScope, total, outbox[..], scopes[..], page, n);
        total := total + n;
        k := k + |page|;
        afterScope := page[|page| - 1];
        page := Page(Ids(scopes[..]), afterScope, SCOPES_PER_PAGE);
      }
      RunEnds(rows, restored, started, k, afterScope, total, outbox[..], scopes[..]);
    }
  }
}
