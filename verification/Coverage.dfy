/** The coverage preflight (scripts/audit/phase2-coverage-preflight-readonly.js: identityKey,
    inspectAgencies and the verdict of runCoveragePreflight).

    `live` lists the ids of the agencies that are not deleted, in the order of the id column; `table` is
    the coverage table.  Both stay as they are while the preflight reads. */
module Coverage {

  import opened Wrappers

  datatype Pair = Pair(family: string, generation: string)

  datatype Row = Row(agencyId: string, pair: Pair, active: bool, state: string, completedAt: Option<int>)

  /** An agency and an entry of the manifest. */
  datatype Cell = Cell(agencyId: string, pair: Pair)

  const AGENCIES_PER_PAGE: nat := 100

  // ----- Identity keys -----

  /** The unit separator, U+001F. */
  const US := '\U{1F}'

  function Key(c: Cell): string {
    (c.agencyId + [US] + c.pair.family) + [US] + c.pair.generation
  }

  predicate Plain(s: string) {
    US !in s
  }

  lemma BorderNotLater(a: string, b: string, c: string, d: string)
    requires Plain(d) && |a| > |c|
    ensures a + [US] + b != c + [US] + d
  {
    var s, t := a + [US] + b, c + [US] + d;
    assert s[|a|] == US;
    if |a| < |t| {
      assert t[|a|] == d[|a| - |c| - 1];
    }
  }

  lemma LastSeparator(a: string, b: string, c: string, d: string)
    requires a + [US] + b == c + [US] + d && Plain(b) && Plain(d)
    ensures a == c && b == d
  {
    var s, t := a + [US] + b, c + [US] + d;
    if |a| > |c| {
      BorderNotLater(a, b, c, d);
    } else if |a| < |c| {
      BorderNotLater(c, d, a, b);
    }
    assert a == s[..|a|] && c == t[..|c|] && b == s[|a| + 1..] && d == t[|c| + 1..];
  }

  /** Whatever the agency ids are, cells of the manifest have different keys. */
  lemma KeyTellsCells(x: Cell, y: Cell)
    requires Plain(x.pair.family) && Plain(x.pair.generation) && Plain(y.pair.family) && Plain(y.pair.generation)
    ensures Key(x) == Key(y) ==> x == y
  {
    if Key(x) == Key(y) {
      LastSeparator(x.agencyId + [US] + x.pair.family, x.pair.generation,
                    y.agencyId + [US] + y.pair.family, y.pair.generation);
      LastSeparator(x.agencyId, x.pair.family, y.agencyId, y.pair.family);
    }
  }

  /** What a key adds to the agency's id. */
  function Tail(p: Pair): string {
    [US] + p.family + [US] + p.generation
  }

  predicate IsSuffix(s: string, t: string) {
    |s| <= |t| && t[|t| - |s|..] == s
  }

  /** Two entries form the same key for some two agencies exactly when one tail ends with the other; then, and
      only then, could a separator inside a part make the map of rows mix them up. */
  lemma KeysCollideExactlyWhen(p: Pair, q: Pair)
    ensures (exists a, b :: Key(Cell(a, p)) == Key(Cell(b, q))) <==> IsSuffix(Tail(p), Tail(q)) || IsSuffix(Tail(q), Tail(p))
  {
    forall a, b | Key(Cell(a, p)) == Key(Cell(b, q))
      ensures IsSuffix(Tail(p), Tail(q)) || IsSuffix(Tail(q), Tail(p))
    {
      KeyIsTail(a, p);
      KeyIsTail(b, q);
      SameEnd(a, Tail(p), b, Tail(q));
    }
    if IsSuffix(Tail(p), Tail(q)) {
      KeyOfSuffix(p, q);
    }
    if IsSuffix(Tail(q), Tail(p)) {
      KeyOfSuffix(q, p);
    }
  }

  lemma KeyIsTail(a: string, p: Pair)
    ensures Key(Cell(a, p)) == a + Tail(p)
  {
  }

  lemma SameEnd(a: string, s: string, b: string, t: string)
    requires a + s == b + t
    ensures IsSuffix(s, t) || IsSuffix(t, s)
  {
    var all := a + s;
    assert all[|a|..] == s && all[|b|..] == t;
    if |s| <= |t| {
      assert t[|t| - |s|..] == all[|a|..];
    } else {
      assert s[|s| - |t|..] == all[|b|..];
    }
  }

  lemma KeyOfSuffix(p: Pair, q: Pair)
    requires IsSuffix(Tail(p), Tail(q))
    ensures exists a, b :: Key(Cell(a, p)) == Key(Cell(b, q))
  {
    var a := Tail(q)[..|Tail(q)| - |Tail(p)|];
    KeyIsTail(a, p);
    KeyIsTail("", q);
    assert a + Tail(p) == Tail(q) && "" + Tail(q) == Tail(q);
    assert Key(Cell(a, p)) == Key(Cell("", q));
  }

  // ----- What there is to find -----

  function CellOf(r: Row): Cell {
    Cell(r.agencyId, r.pair)
  }

  /** The last of the cell's rows. */
  function Observed(table: seq<Row>, c: Cell): Option<Row> {
    if table == [] then None
    else
      var last := table[|table| - 1];
      if CellOf(last) == c then Some(last) else Observed(table[..|table| - 1], c)
  }

  predicate IsComplete(r: Row) {
    r.active && r.state == "COMPLETE" && r.completedAt.Some?
  }

  datatype State = Missing | Incomplete | Complete

  function StateOf(table: seq<Row>, c: Cell): State {
    var row := Observed(table, c);
    if row.None? then Missing else if IsComplete(row.value) then Complete else Incomplete
  }

  function CellsOfAgency(id: string, manifest: seq<Pair>): seq<Cell> {
    if manifest == [] then [] else [Cell(id, manifest[0])] + CellsOfAgency(id, manifest[1..])
  }

  /** Every agency with every entry of the manifest, in the order of the loops. */
  function Cells(ids: seq<string>, manifest: seq<Pair>): seq<Cell> {
    if ids == [] then [] else CellsOfAgency(ids[0], manifest) + Cells(ids[1..], manifest)
  }

  function CellsIn(table: seq<Row>, cells: seq<Cell>, state: State): (r: seq<Cell>)
    ensures |r| <= |cells|
  {
    if cells == [] then []
    else (if StateOf(table, cells[0]) == state then [cells[0]] else []) + CellsIn(table, cells[1..], state)
  }

  lemma {:induction false} AgencyMembers(id: string, manifest: seq<Pair>, c: Cell)
    ensures |CellsOfAgency(id, manifest)| == |manifest|
    ensures c in CellsOfAgency(id, manifest) <==> c.agencyId == id && c.pair in manifest
  {
    if manifest != [] {
      AgencyMembers(id, manifest[1..], c);
    }
  }

  lemma {:induction false} CellsMembers(ids: seq<string>, manifest: seq<Pair>, c: Cell)
    ensures c in Cells(ids, manifest) <==> c.agencyId in ids && c.pair in manifest
    ensures |Cells(ids, manifest)| == |ids| * |manifest|
  {
    if ids != [] {
      AgencyMembers(ids[0], manifest, c);
      CellsMembers(ids[1..], manifest, c);
      assert |ids| * |manifest| == |manifest| + (|ids| - 1) * |manifest|;
      hide CellsOfAgency;
    }
  }

  lemma {:induction false} CellsInMembers(table: seq<Row>, cells: seq<Cell>, state: State)
    ensures forall c :: c in CellsIn(table, cells, state) <==> c in cells && StateOf(table, c) == state
  {
    if cells != [] {
      CellsInMembers(table, cells[1..], state);
      hide StateOf;
    }
  }

  lemma Associative(a: seq<Cell>, b: seq<Cell>, c: seq<Cell>)
    ensures a + (b + c) == (a + b) + c
  {
  }

  lemma {:induction false} CellsInConcat(table: seq<Row>, a: seq<Cell>, b: seq<Cell>, state: State)
    ensures CellsIn(table, a + b, state) == CellsIn(table, a, state) + CellsIn(table, b, state)
  {
    if a == [] {
      assert a + b == b;
    } else {
      CellsInConcat(table, a[1..], b, state);
      assert (a + b)[0] == a[0] && (a + b)[1..] == a[1..] + b;
      var first := if StateOf(table, a[0]) == state then [a[0]] else [];
      assert CellsIn(table, a + b, state) == first + CellsIn(table, a[1..] + b, state);
      hide StateOf, CellsIn;
      Associative(first, CellsIn(table, a[1..], state), CellsIn(table, b, state));
    }
  }

  lemma {:induction false} CellsConcat(a: seq<string>, b: seq<string>, manifest: seq<Pair>)
    ensures Cells(a + b, manifest) == Cells(a, manifest) + Cells(b, manifest)
  {
    hide CellsOfAgency;
    if a == [] {
      assert a + b == b;
    } else {
      CellsConcat(a[1..], b, manifest);
      assert (a + b)[0] == a[0] && (a + b)[1..] == a[1..] + b;
    }
  }

  /** Every cell is missing, incomplete or complete. */
  lemma {:induction false} CellsAreClassified(table: seq<Row>, cells: seq<Cell>)
    ensures |CellsIn(table, cells, Missing)| + |CellsIn(table, cells, Incomplete)| + |CellsIn(table, cells, Complete)|
         == |cells|
  {
    if cells != [] {
      CellsAreClassified(table, cells[1..]);
      hide Observed, IsComplete;
    }
  }

  // ----- Counting rows -----

  /** The rows of the query for one page. */
  function Fetch(table: seq<Row>, ids: seq<string>, manifest: seq<Pair>): (rows: seq<Row>)
    ensures forall r :: r in rows ==> r.agencyId in ids && r.pair in manifest
  {
    if table == [] then []
    else
      var last := table[|table| - 1];
      Fetch(table[..|table| - 1], ids, manifest)
      + (if last.agencyId in ids && last.pair in manifest then [last] else [])
  }

  lemma {:induction false} FetchObserves(table: seq<Row>, ids: seq<string>, manifest: seq<Pair>, c: Cell)
    requires c.agencyId in ids && c.pair in manifest
    ensures Observed(Fetch(table, ids, manifest), c) == Observed(table, c)
  {
    if table != [] {
      var last := table[|table| - 1];
      var rest := Fetch(table[..|table| - 1], ids, manifest);
      FetchObserves(table[..|table| - 1], ids, manifest, c);
      assert (rest + [last])[..|rest|] == rest;
      assert rest + [] == rest;
    }
  }

  /** How many rows a cell has. */
  function Copies(table: seq<Row>, c: Cell): nat {
    if table == [] then 0
    else (if CellOf(table[|table| - 1]) == c then 1 else 0) + Copies(table[..|table| - 1], c)
  }

  function CopiesOf(table: seq<Row>, cells: seq<Cell>): nat {
    if cells == [] then 0 else Copies(table, cells[0]) + CopiesOf(table, cells[1..])
  }

  ghost predicate Distinct<T(!new)>(s: seq<T>) {
    forall i, j :: 0 <= i < j < |s| ==> s[i] != s[j]
  }

  lemma {:induction false} NoCopies(cells: seq<Cell>)
    ensures CopiesOf([], cells) == 0
  {
    if cells != [] {
      NoCopies(cells[1..]);
    }
  }

  lemma {:induction false} CopiesAddRow(table: seq<Row>, cells: seq<Cell>)
    requires table != [] && Distinct(cells)
    ensures CopiesOf(table, cells)
         == CopiesOf(table[..|table| - 1], cells) + (if CellOf(table[|table| - 1]) in cells then 1 else 0)
  {
    if cells != [] {
      CopiesAddRow(table, cells[1..]);
      assert cells == [cells[0]] + cells[1..];
      forall i | 0 <= i < |cells| - 1
        ensures cells[1..][i] != cells[0]
      {
        assert cells[1..][i] == cells[i + 1];
      }
    }
  }

  lemma {:induction false} AgencyDistinct(id: string, manifest: seq<Pair>)
    requires Distinct(manifest)
    ensures Distinct(CellsOfAgency(id, manifest))
  {
    if manifest != [] {
      AgencyDistinct(id, manifest[1..]);
      var rest := CellsOfAgency(id, manifest[1..]);
      forall j | 0 <= j < |rest|
        ensures rest[j] != Cell(id, manifest[0])
      {
        AgencyMembers(id, manifest[1..], rest[j]);
        var k :| 0 <= k < |manifest| - 1 && manifest[1..][k] == rest[j].pair;
        assert manifest[k + 1] == rest[j].pair;
      }
    }
  }

  lemma DistinctConcat(a: seq<Cell>, b: seq<Cell>)
    requires Distinct(a) && Distinct(b) && forall c :: c in a ==> c !in b
    ensures Distinct(a + b)
  {
    forall i, j | 0 <= i < j < |a + b|
      ensures (a + b)[i] != (a + b)[j]
    {
      if i < |a| <= j {
        assert a[i] in a && b[j - |a|] in b;
      }
    }
  }

  lemma {:induction false} CellsDistinct(ids: seq<string>, manifest: seq<Pair>)
    requires Distinct(ids) && Distinct(manifest)
    ensures Distinct(Cells(ids, manifest))
  {
    if ids != [] {
      var first, rest := CellsOfAgency(ids[0], manifest), Cells(ids[1..], manifest);
      CellsDistinct(ids[1..], manifest);
      AgencyDistinct(ids[0], manifest);
      forall c | c in first
        ensures c !in rest
      {
        AgencyMembers(ids[0], manifest, c);
        CellsMembers(ids[1..], manifest, c);
        assert ids[0] !in ids[1..];
      }
      DistinctConcat(first, rest);
    }
  }

  /** Every fetched row belongs to exactly one cell. */
  lemma {:induction false} FetchCountsCopies(table: seq<Row>, ids: seq<string>, manifest: seq<Pair>)
    requires Distinct(ids) && Distinct(manifest)
    ensures |Fetch(table, ids, manifest)| == CopiesOf(table, Cells(ids, manifest))
    decreases |table|
  {
    if table == [] {
      NoCopies(Cells(ids, manifest));
    } else {
      CellsDistinct(ids, manifest);
      CellsMembers(ids, manifest, CellOf(table[|table| - 1]));
      CopiesAddRow(table, Cells(ids, manifest));
      FetchCountsCopies(table[..|table| - 1], ids, manifest);
    }
  }

  lemma {:induction false} ObservedHasCopies(table: seq<Row>, c: Cell)
    ensures Observed(table, c).None? <==> Copies(table, c) == 0
  {
    if table != [] {
      ObservedHasCopies(table[..|table| - 1], c);
    }
  }

  lemma {:induction false} OneCopyEach(table: seq<Row>, cells: seq<Cell>)
    requires forall c :: c in cells ==> Copies(table, c) >= 1
    ensures CopiesOf(table, cells) >= |cells|
    ensures CopiesOf(table, cells) == |cells| <==> forall c :: c in cells ==> Copies(table, c) == 1
  {
    if cells != [] {
      OneCopyEach(table, cells[1..]);
      assert cells == [cells[0]] + cells[1..];
      assert Copies(table, cells[0]) >= 1;
      hide Copies;
      if CopiesOf(table, cells) == |cells| {
        forall c | c in cells
          ensures Copies(table, c) == 1
        {
          assert c == cells[0] || c in cells[1..];
        }
      }
    }
  }

  lemma {:induction false} CopiesConcat(table: seq<Row>, a: seq<Cell>, b: seq<Cell>)
    ensures CopiesOf(table, a + b) == CopiesOf(table, a) + CopiesOf(table, b)
  {
    if a == [] {
      assert a + b == b;
    } else {
      CopiesConcat(table, a[1..], b);
      assert (a + b)[0] == a[0] && (a + b)[1..] == a[1..] + b;
    }
  }

  // ----- The report and the verdict -----

  datatype Report = Report(
    scanned: nat, expected: nat, observed: nat, missingCount: nat, incompleteCount: nat,
    missing: seq<Cell>, incomplete: seq<Cell>, truncated: bool)

  /** The agencies that are looked at. */
  function Scope(live: seq<string>, requested: Option<string>): seq<string> {
    if requested.None? then live else if requested.value in live then [requested.value] else []
  }

  function UpTo(cells: seq<Cell>, limit: nat): seq<Cell> {
    if |cells| <= limit then cells else cells[..limit]
  }

  ghost predicate Reports(
    live: seq<string>, table: seq<Row>, manifest: seq<Pair>, requested: Option<string>, limit: nat, r: Report)
  {
    var cells := Cells(Scope(live, requested), manifest);
    && r.scanned == |Scope(live, requested)| && r.expected == |cells|
    && r.observed == CopiesOf(table, cells)
    && r.missingCount == |CellsIn(table, cells, Missing)|
    && r.missing == UpTo(CellsIn(table, cells, Missing), limit)
    && r.incompleteCount == |CellsIn(table, cells, Incomplete)|
    && r.incomplete == UpTo(CellsIn(table, cells, Incomplete), limit)
    && (r.truncated <==> |r.missing| >= limit || |r.incomplete| >= limit)
  }

  predicate Seeded(r: Report) {
    r.missingCount == 0 && r.observed == r.expected
  }

  predicate Converged(r: Report) {
    r.incompleteCount == 0 && Seeded(r)
  }

  /** The state of the seed's lane, or what the program expects it to be. */
  datatype Lane = Lane(completed: bool, generation: string, activeGeneration: string, version: string, fingerprint: string)

  predicate SeedComplete(lane: Option<Lane>, expected: Lane) {
    && lane.Some? && lane.value.completed && lane.value.generation == expected.generation
    && (if lane.value.activeGeneration != "" then lane.value.activeGeneration else lane.value.generation) == expected.generation
    && lane.value.version == expected.version && lane.value.fingerprint == expected.fingerprint
  }

  /** `ok` of the report. */
  predicate Passes(lane: Option<Lane>, expected: Lane, r: Report) {
    SeedComplete(lane, expected) && Seeded(r) && Converged(r)
  }

  /** The counters add up to the cells there are; the samples are cut only at the limit. */
  lemma CountersAddUp(live: seq<string>, table: seq<Row>, manifest: seq<Pair>, requested: Option<string>,
                      limit: nat, r: Report)
    requires Reports(live, table, manifest, requested, limit, r)
    ensures var cells := Cells(Scope(live, requested), manifest);
            && r.missingCount + r.incompleteCount + |CellsIn(table, cells, Complete)| == r.scanned * |manifest|
            && r.missing <= CellsIn(table, cells, Missing) && r.incomplete <= CellsIn(table, cells, Incomplete)
            && |r.missing| <= limit && |r.incomplete| <= limit
            && (!r.truncated ==> |r.missing| == r.missingCount && |r.incomplete| == r.incompleteCount)
  {
    var ids := Scope(live, requested);
    CellsAreClassified(table, Cells(ids, manifest));
    CellsMembers(ids, manifest, Cell("", Pair("", "")));
  }

  /** The row at `i` is the cell's, and no other is. */
  predicate OnlyRow(table: seq<Row>, c: Cell, i: nat) {
    && i < |table| && table[i].agencyId == c.agencyId && table[i].pair == c.pair
    && forall j :: 0 <= j < |table| && j != i ==> table[j].agencyId != c.agencyId || table[j].pair != c.pair
  }

  ghost predicate HasNoRow(table: seq<Row>, c: Cell) {
    forall j :: 0 <= j < |table| ==> table[j].agencyId != c.agencyId || table[j].pair != c.pair
  }

  lemma PushOwn(front: seq<Row>, r: Row, c: Cell)
    requires CellOf(r) == c
    ensures forall i: nat :: OnlyRow(front + [r], c, i) <==> i == |front| && HasNoRow(front, c)
    ensures !HasNoRow(front + [r], c)
  {
    var table := front + [r];
    assert table[|front|] == r && forall j :: 0 <= j < |front| ==> table[j] == front[j];
  }

  lemma PushOther(front: seq<Row>, r: Row, c: Cell)
    requires CellOf(r) != c
    ensures forall i: nat :: OnlyRow(front + [r], c, i) <==> OnlyRow(front, c, i)
    ensures HasNoRow(front + [r], c) <==> HasNoRow(front, c)
  {
    var table := front + [r];
    assert r.agencyId != c.agencyId || r.pair != c.pair;
    assert table[|front|] == r && forall j :: 0 <= j < |front| ==> table[j] == front[j];
  }

  lemma {:induction false} CopiesTell(table: seq<Row>, c: Cell)
    ensures Copies(table, c) == 0 <==> HasNoRow(table, c)
    ensures Copies(table, c) == 1 <==> exists i: nat :: OnlyRow(table, c, i)
    ensures forall i: nat :: OnlyRow(table, c, i) ==> Observed(table, c) == Some(table[i])
  {
    if table != [] {
      var front, r := table[..|table| - 1], table[|table| - 1];
      CopiesTell(front, c);
      assert table == front + [r];
      if CellOf(r) == c {
        PushOwn(front, r, c);
        assert OnlyRow(table, c, |front|) <==> HasNoRow(front, c);
      } else {
        PushOther(front, r, c);
        assert forall i: nat :: OnlyRow(front, c, i) ==> i < |front|;
      }
      hide OnlyRow, HasNoRow, CellOf;
    }
  }

  /** The cell has exactly one row, and that row is active and complete. */
  ghost predicate OneCompleteRow(table: seq<Row>, c: Cell) {
    exists i: nat :: OnlyRow(table, c, i) && table[i].active && table[i].state == "COMPLETE" && table[i].completedAt.Some?
  }

  lemma CellPasses(table: seq<Row>, c: Cell)
    ensures StateOf(table, c) == Missing <==> Copies(table, c) == 0
    ensures StateOf(table, c) == Complete && Copies(table, c) == 1 <==> OneCompleteRow(table, c)
  {
    ObservedHasCopies(table, c);
    CopiesTell(table, c);
    hide Observed, Copies, OnlyRow;
  }

  lemma ScopeMembers(live: seq<string>, requested: Option<string>, id: string)
    ensures id in Scope(live, requested) <==> id in live && (requested.None? || requested.value == id)
  {
  }

  /** The verdict on the coverage is positive exactly when every live agency has, for every entry of the
      manifest, exactly one row, and that row is active and complete. */
  lemma PassesExactlyWhen(live: seq<string>, table: seq<Row>, manifest: seq<Pair>, requested: Option<string>,
                          limit: nat, r: Report, lane: Option<Lane>, expected: Lane)
    requires Reports(live, table, manifest, requested, limit, r)
    requires expected.completed && expected.generation != "" && expected.activeGeneration == expected.generation
    ensures Passes(lane, expected, r) <==>
      && (lane == Some(expected) || lane == Some(expected.(activeGeneration := "")))
      && forall c: Cell ::
           c.agencyId in live && (requested.None? || requested.value == c.agencyId) && c.pair in manifest ==> OneCompleteRow(table, c)
  {
    var ids := Scope(live, requested);
    var cells := Cells(ids, manifest);
    CoveragePasses(live, table, manifest, requested, limit, r);
    forall c: Cell
      ensures c in cells <==> c.agencyId in live && (requested.None? || requested.value == c.agencyId) && c.pair in manifest
    {
      CellsMembers(ids, manifest, c);
      ScopeMembers(live, requested, c.agencyId);
    }
    hide Cells, Scope, Reports, Seeded, Converged, OneCompleteRow;
  }

  lemma CoveragePasses(live: seq<string>, table: seq<Row>, manifest: seq<Pair>, requested: Option<string>, limit: nat, r: Report)
    requires Reports(live, table, manifest, requested, limit, r)
    ensures Seeded(r) && Converged(r) <==> forall c :: c in Cells(Scope(live, requested), manifest) ==> OneCompleteRow(table, c)
  {
    var cells := Cells(Scope(live, requested), manifest);
    CellsInMembers(table, cells, Missing);
    CellsInMembers(table, cells, Incomplete);
    EmptyHasNoMember(CellsIn(table, cells, Missing));
    EmptyHasNoMember(CellsIn(table, cells, Incomplete));
    hide Copies, StateOf, Cells, CellsIn, CopiesOf, OneCompleteRow, Scope;
    forall c
      ensures StateOf(table, c) == Missing <==> Copies(table, c) == 0
      ensures StateOf(table, c) == Complete && Copies(table, c) == 1 <==> OneCompleteRow(table, c)
    {
      CellPasses(table, c);
    }
    if r.missingCount == 0 {
      OneCopyEach(table, cells);
    }
  }

  lemma EmptyHasNoMember(s: seq<Cell>)
    ensures s == [] <==> forall c :: c !in s
  {
    if s != [] {
      assert s[0] in s;
    }
  }

  // ----- The counters of the loops -----

  datatype Tally = Tally(missingCount: nat, missing: seq<Cell>, incompleteCount: nat, incomplete: seq<Cell>)

  function TallyOf(table: seq<Row>, cells: seq<Cell>, limit: nat): Tally {
    var missing, incomplete := CellsIn(table, cells, Missing), CellsIn(table, cells, Incomplete);
    Tally(|missing|, UpTo(missing, limit), |incomplete|, UpTo(incomplete, limit))
  }

  function Counted(t: Tally, c: Cell, state: State, limit: nat): Tally {
    match state
    case Missing =>
      t.(missingCount := t.missingCount + 1, missing := if |t.missing| < limit then t.missing + [c] else t.missing)
    case Incomplete =>
      t.(incompleteCount := t.incompleteCount + 1,
         incomplete := if |t.incomplete| < limit then t.incomplete + [c] else t.incomplete)
    case Complete => t
  }

  lemma UpToPush(cells: seq<Cell>, c: Cell, limit: nat)
    ensures UpTo(cells + [c], limit) == if |UpTo(cells, limit)| < limit then UpTo(cells, limit) + [c] else UpTo(cells, limit)
  {
  }

  lemma OneCell(table: seq<Row>, c: Cell, state: State)
    ensures CellsIn(table, [c], state) == if StateOf(table, c) == state then [c] else []
  {
    assert [c][1..] == [];
    assert CellsIn(table, [], state) == [];
    hide StateOf;
  }

  lemma TallyStep(table: seq<Row>, cells: seq<Cell>, c: Cell, limit: nat)
    ensures TallyOf(table, cells + [c], limit) == Counted(TallyOf(table, cells, limit), c, StateOf(table, c), limit)
  {
    CellsInConcat(table, cells, [c], Missing);
    CellsInConcat(table, cells, [c], Incomplete);
    OneCell(table, c, Missing);
    OneCell(table, c, Incomplete);
    UpToPush(CellsIn(table, cells, Missing), c, limit);
    UpToPush(CellsIn(table, cells, Incomplete), c, limit);
    hide CellsIn, StateOf, UpTo;
    assert forall s: seq<Cell> :: s + [] == s;
  }

  lemma {:induction false} AgencyPush(id: string, manifest: seq<Pair>, p: Pair)
    ensures CellsOfAgency(id, manifest + [p]) == CellsOfAgency(id, manifest) + [Cell(id, p)]
  {
    if manifest == [] {
      assert [p][1..] == [];
      assert [] + [p] == [p];
      assert CellsOfAgency(id, [p]) == [Cell(id, p)] + CellsOfAgency(id, []);
    } else {
      AgencyPush(id, manifest[1..], p);
      assert (manifest + [p])[0] == manifest[0] && (manifest + [p])[1..] == manifest[1..] + [p];
      Associative([Cell(id, manifest[0])], CellsOfAgency(id, manifest[1..]), [Cell(id, p)]);
    }
  }

  // ----- The program -----

  ghost predicate PlainPairs(manifest: seq<Pair>) {
    forall p :: p in manifest ==> Plain(p.family) && Plain(p.generation)
  }

  /** The map from keys finds, for a cell with a plain pair, its last row. */
  ghost predicate Finds(m: map<string, Row>, rows: seq<Row>, c: Cell) {
    if Observed(rows, c).Some? then Key(c) in m && m[Key(c)] == Observed(rows, c).value else Key(c) !in m
  }

  lemma FindsNext(m: map<string, Row>, rows: seq<Row>, r: Row, c: Cell)
    requires Finds(m, rows, c)
    requires Plain(r.pair.family) && Plain(r.pair.generation) && Plain(c.pair.family) && Plain(c.pair.generation)
    ensures Finds(m[Key(CellOf(r)) := r], rows + [r], c)
  {
    KeyTellsCells(CellOf(r), c);
    assert (rows + [r])[..|rows|] == rows;
    hide Key;
  }

  ghost predicate FindsAll(m: map<string, Row>, rows: seq<Row>) {
    forall c: Cell :: Plain(c.pair.family) && Plain(c.pair.generation) ==> Finds(m, rows, c)
  }

  lemma FindsAllNext(m: map<string, Row>, rows: seq<Row>, r: Row)
    requires FindsAll(m, rows) && Plain(r.pair.family) && Plain(r.pair.generation)
    ensures FindsAll(m[Key(CellOf(r)) := r], rows + [r])
  {
    forall c: Cell | Plain(c.pair.family) && Plain(c.pair.generation)
      ensures Finds(m[Key(CellOf(r)) := r], rows + [r], c)
    {
      FindsNext(m, rows, r, c);
    }
  }

  method BuildMap(rows: seq<Row>) returns (m: map<string, Row>)
    requires forall r :: r in rows ==> Plain(r.pair.family) && Plain(r.pair.generation)
    ensures FindsAll(m, rows)
  {
    m := map[];
    var i := 0;
    while i < |rows|
      invariant 0 <= i <= |rows| && FindsAll(m, rows[..i])
    {
      FindsAllNext(m, rows[..i], rows[i]);
      assert rows[..i] + [rows[i]] == rows[..i + 1];
      m := m[Key(CellOf(rows[i])) := rows[i]];
      i := i + 1;
    }
    assert rows[..|rows|] == rows;
  }

  /** The inner loop: one agency against the manifest. */
  method InspectAgency(id: string, manifest: seq<Pair>, observed: map<string, Row>, limit: nat, t: Tally,
                       ghost table: seq<Row>, ghost fetched: seq<Row>, ghost before: seq<Cell>)
    returns (r: Tally)
    requires PlainPairs(manifest) && FindsAll(observed, fetched)
    requires forall p :: p in manifest ==> Observed(fetched, Cell(id, p)) == Observed(table, Cell(id, p))
    requires t == TallyOf(table, before, limit)
    ensures r == TallyOf(table, before + CellsOfAgency(id, manifest), limit)
  {
    hide Observed, TallyOf, Key, Counted;
    r := t;
    var j := 0;
    ghost var cells := before;
    assert before + [] == before;
    while j < |manifest|
      invariant 0 <= j <= |manifest|
      invariant cells == before + CellsOfAgency(id, manifest[..j])
      invariant r == TallyOf(table, cells, limit)
    {
      var c := Cell(id, manifest[j]);
      assert Finds(observed, fetched, c);
      var state := if Key(c) !in observed then Missing else if IsComplete(observed[Key(c)]) then Complete else Incomplete;
      assert state == StateOf(table, c);
      TallyStep(table, cells, c, limit);
      r := CountCell(r, c, state, limit);
      AgencyPush(id, manifest[..j], manifest[j]);
      assert manifest[..j] + [manifest[j]] == manifest[..j + 1];
      Associative(before, CellsOfAgency(id, manifest[..j]), [c]);
      cells := cells + [c];
      j := j + 1;
    }
    assert manifest[..|manifest|] == manifest;
  }

  /** What the two counters and the two samples become. */
  method CountCell(t: Tally, c: Cell, state: State, limit: nat) returns (r: Tally)
    ensures r == Counted(t, c, state, limit)
  {
    r := t;
    if state.Missing? {
      r := r.(missingCount := r.missingCount + 1);
      if |r.missing| < limit {
        r := r.(missing := r.missing + [c]);
      }
    } else if state.Incomplete? {
      r := r.(incompleteCount := r.incompleteCount + 1);
      if |r.incomplete| < limit {
        r := r.(incomplete := r.incomplete + [c]);
      }
    }
  }

  /** The cells of another page. */
  function Further(cells: seq<Cell>, page: seq<string>, manifest: seq<Pair>): seq<Cell> {
    cells + Cells(page, manifest)
  }

  /** One page of agencies: one query and the loops. */
  method InspectPage(ids: seq<string>, table: seq<Row>, manifest: seq<Pair>, limit: nat, t: Tally, ghost before: seq<Cell>)
    returns (r: Tally, observed: nat)
    requires PlainPairs(manifest) && Distinct(ids) && Distinct(manifest)
    requires t == TallyOf(table, before, limit)
    ensures r == TallyOf(table, Further(before, ids, manifest), limit)
    ensures observed == CopiesOf(table, Cells(ids, manifest))
  {
    var rows := Fetch(table, ids, manifest);
    FetchCountsCopies(table, ids, manifest);
    observed := |rows|;
    var m := BuildMap(rows);
    r := t;
    var i := 0;
    assert before + [] == before;
    hide TallyOf, Fetch, CopiesOf, FindsAll;
    ghost var cells := before;
    while i < |ids|
      invariant 0 <= i <= |ids|
      invariant cells == before + Cells(ids[..i], manifest)
      invariant r == TallyOf(table, cells, limit)
    {
      forall p | p in manifest
        ensures Observed(rows, Cell(ids[i], p)) == Observed(table, Cell(ids[i], p))
      {
        FetchObserves(table, ids, manifest, Cell(ids[i], p));
      }
      r := InspectAgency(ids[i], manifest, m, limit, r, table, rows, cells);
      CellsPush(ids, i, manifest, before);
      cells := cells + CellsOfAgency(ids[i], manifest);
      i := i + 1;
    }
    assert ids[..|ids|] == ids;
  }

  lemma CellsPush(ids: seq<string>, i: nat, manifest: seq<Pair>, before: seq<Cell>)
    requires i < |ids|
    ensures before + Cells(ids[..i + 1], manifest) == before + Cells(ids[..i], manifest) + CellsOfAgency(ids[i], manifest)
  {
    CellsConcat(ids[..i], [ids[i]], manifest);
    assert ids[..i] + [ids[i]] == ids[..i + 1];
    assert [ids[i]][1..] == [] && Cells([], manifest) == [];
    assert Cells([ids[i]], manifest) == CellsOfAgency(ids[i], manifest) + [];
    hide Cells, CellsOfAgency;
    Associative(before, Cells(ids[..i], manifest), CellsOfAgency(ids[i], manifest));
  }

  /** The live agencies are listed in the order of the id column: `rank` is the position of a text in its
      collation, in which the empty text comes first. */
  ghost predicate Listed(live: seq<string>, rank: string -> nat) {
    && (forall s :: rank(s) == 0 <==> s == "")
    && (forall i, j :: 0 <= i < j < |live| ==> rank(live[i]) < rank(live[j]))
  }

  /** The live agencies whose id is greater than `after`, in order. */
  function Following(live: seq<string>, after: string, rank: string -> nat): seq<string> {
    if live == [] then []
    else (if rank(live[0]) > rank(after) then [live[0]] else []) + Following(live[1..], after, rank)
  }

  lemma {:induction false} FollowingIsSuffix(live: seq<string>, k: nat, after: string, rank: string -> nat)
    requires k <= |live| && forall i :: 0 <= i < |live| ==> (rank(live[i]) > rank(after) <==> i >= k)
    ensures Following(live, after, rank) == live[k..]
  {
    if live != [] {
      FollowingIsSuffix(live[1..], if k == 0 then 0 else k - 1, after, rank);
      if k == 0 {
        assert rank(live[0]) > rank(after) && live[1..][0..] == live[1..];
        assert [live[0]] + live[1..] == live[k..];
      } else {
        assert rank(live[0]) <= rank(after) && live[1..][k - 1..] == live[k..];
      }
    }
  }

  lemma ListedIsDistinct(live: seq<string>, rank: string -> nat)
    requires Listed(live, rank)
    ensures Distinct(live) && forall i :: 0 < i < |live| ==> live[i] != ""
  {
    forall i, j | 0 <= i < j < |live|
      ensures live[i] != live[j]
    {
      assert rank(live[i]) < rank(live[j]);
    }
    forall i | 0 < i < |live|
      ensures live[i] != ""
    {
      assert rank(live[i - 1]) < rank(live[i]);
    }
  }

  /** The query for a page; an empty `after` is no bound. */
  function Agencies(live: seq<string>, requested: Option<string>, after: string, rank: string -> nat): seq<string> {
    if requested.Some? then Scope(live, requested)
    else
      FirstOf(if after == "" then live else Following(live, after, rank))
  }

  function FirstOf(rest: seq<string>): seq<string> {
    if |rest| <= AGENCIES_PER_PAGE then rest else rest[..AGENCIES_PER_PAGE]
  }

  /** The query that sees the agencies from position `k` on. */
  ghost predicate After(live: seq<string>, requested: Option<string>, k: nat, after: string) {
    if requested.Some? then k == 0
    else k <= |live| && (if k == 0 then after == "" else after == live[k - 1] && after != "")
  }

  ghost predicate IsStretch(scope: seq<string>, k: nat, page: seq<string>) {
    k + |page| <= |scope| && page == scope[k..k + |page|]
  }

  lemma AgenciesAt(live: seq<string>, requested: Option<string>, k: nat, after: string, rank: string -> nat)
    requires Listed(live, rank) && After(live, requested, k, after) && k <= |Scope(live, requested)|
    ensures var page, scope := Agencies(live, requested, after, rank), Scope(live, requested);
            && IsStretch(scope, k, page) && k + |page| <= |scope|
            && (page == [] || requested.Some? || |page| < AGENCIES_PER_PAGE ==> k + |page| == |scope|)
            && (requested.None? && |page| >= AGENCIES_PER_PAGE ==>
                  After(live, requested, k + |page|, page[|page| - 1]))
            && Distinct(page)
  {
    hide *;
    if requested.Some? {
      RequestedAt(live, requested, k, after, rank);
    } else {
      assert requested == None;
      PageOfRest(live, after, rank);
      PagedAt(live, k, after, rank);
    }
  }

  lemma RequestedAt(live: seq<string>, requested: Option<string>, k: nat, after: string, rank: string -> nat)
    requires requested.Some? && After(live, requested, k, after)
    ensures var page, scope := Agencies(live, requested, after, rank), Scope(live, requested);
            k == 0 && IsStretch(scope, 0, page) && |page| == |scope| && Distinct(page)
  {
    var page := Agencies(live, requested, after, rank);
    assert page == Scope(live, requested)[0..|page|];
  }

  lemma PagedAt(live: seq<string>, k: nat, after: string, rank: string -> nat)
    requires Listed(live, rank) && After(live, None, k, after) && k <= |live|
    ensures var page := Agencies(live, None, after, rank);
            && Scope(live, None) == live
            && IsStretch(live, k, page) && k + |page| <= |live| && Distinct(page)
            && (|page| < AGENCIES_PER_PAGE ==> k + |page| == |live|)
            && (page == [] ==> k + |page| == |live|)
            && (|page| >= AGENCIES_PER_PAGE ==> After(live, None, k + |page|, page[|page| - 1]))
  {
    hide *;
    RestAt(live, k, after, rank);
    ListedIsDistinct(live, rank);
    PageOfRest(live, after, rank);
    var rest := if after == "" then live else Following(live, after, rank);
    FirstPage(live, k, rest, Agencies(live, None, after, rank));
  }

  lemma PageOfRest(live: seq<string>, after: string, rank: string -> nat)
    ensures Scope(live, None) == live
    ensures Agencies(live, None, after, rank) == FirstOf(if after == "" then live else Following(live, after, rank))
  {
  }

  lemma FirstPage(live: seq<string>, k: nat, rest: seq<string>, page: seq<string>)
    requires k <= |live| && rest == live[k..] && Distinct(live) && forall i :: 0 < i < |live| ==> live[i] != ""
    requires page == FirstOf(rest)
    ensures IsStretch(live, k, page) && Distinct(page) && k + |page| <= |live|
    ensures |page| < AGENCIES_PER_PAGE || page == [] ==> k + |page| == |live|
    ensures |page| >= AGENCIES_PER_PAGE ==> After(live, None, k + |page|, page[|page| - 1])
  {
    assert page == rest[..|page|];
    Stretch(live, k, |page|);
  }

  lemma RestAt(live: seq<string>, k: nat, after: string, rank: string -> nat)
    requires Listed(live, rank) && After(live, None, k, after)
    ensures (if after == "" then live else Following(live, after, rank)) == live[k..]
  {
    if k > 0 {
      FollowingIsSuffix(live, k, after, rank);
    }
  }

  lemma Stretch(live: seq<string>, k: nat, n: nat)
    requires k + n <= |live| && Distinct(live)
    ensures live[k..][..n] == live[k..k + n] && Distinct(live[k..k + n])
    ensures n > 0 ==> live[k..k + n][n - 1] == live[k + n - 1]
  {
  }

  /** The state of the scan after the first `k` agencies. */
  ghost predicate Scanned(scope: seq<string>, k: nat, table: seq<Row>, manifest: seq<Pair>, limit: nat,
                          t: Tally, observed: nat, cells: seq<Cell>) {
    k <= |scope| && cells == Cells(scope[..k], manifest) && t == TallyOf(table, cells, limit)
    && observed == CopiesOf(table, cells)
  }

  lemma NothingScanned(scope: seq<string>, table: seq<Row>, manifest: seq<Pair>, limit: nat)
    ensures Scanned(scope, 0, table, manifest, limit, Tally(0, [], 0, []), 0, [])
  {
    assert CellsIn(table, [], Missing) == [] && CellsIn(table, [], Incomplete) == [];
    assert scope[..0] == [] && Cells([], manifest) == [] && CopiesOf(table, []) == 0;
  }

  lemma PageScanned(scope: seq<string>, k: nat, page: seq<string>, table: seq<Row>, manifest: seq<Pair>, limit: nat,
                    t: Tally, observed: nat, cells: seq<Cell>, t': Tally, n: nat)
    requires Scanned(scope, k, table, manifest, limit, t, observed, cells) && IsStretch(scope, k, page)
    requires t' == TallyOf(table, Further(cells, page, manifest), limit) && n == CopiesOf(table, Cells(page, manifest))
    ensures Scanned(scope, k + |page|, table, manifest, limit, t', observed + n, Further(cells, page, manifest))
  {
    hide TallyOf, Cells, CopiesOf;
    CellsConcat(scope[..k], page, manifest);
    assert scope[..k] + page == scope[..k + |page|];
    CopiesConcat(table, cells, Cells(page, manifest));
  }

  function ReportOf(scanned: nat, observed: nat, entries: nat, t: Tally, limit: nat): Report {
    Report(scanned, scanned * entries, observed, t.missingCount, t.incompleteCount, t.missing, t.incomplete,
           |t.missing| >= limit || |t.incomplete| >= limit)
  }

  /** What the loop over the pages carries from one to the next. */
  datatype Scan = Scan(scanned: nat, observed: nat, t: Tally, afterId: string, more: bool)

  ghost predicate Scanning(live: seq<string>, table: seq<Row>, manifest: seq<Pair>, requested: Option<string>, limit: nat,
                           s: Scan, cells: seq<Cell>) {
    && s.scanned <= |Scope(live, requested)|
    && (if s.more then After(live, requested, s.scanned, s.afterId) else s.scanned == |Scope(live, requested)|)
    && Scanned(Scope(live, requested), s.scanned, table, manifest, limit, s.t, s.observed, cells)
  }

  function Left(live: seq<string>, requested: Option<string>, s: Scan): int {
    |Scope(live, requested)| - s.scanned
  }

  /** The query for the next page, when there is one. */
  lemma PageToScan(live: seq<string>, rank: string -> nat, table: seq<Row>, manifest: seq<Pair>, requested: Option<string>, limit: nat,
                   s: Scan, cells: seq<Cell>)
    requires Listed(live, rank) && Scanning(live, table, manifest, requested, limit, s, cells) && s.more
    ensures var page, scope := Agencies(live, requested, s.afterId, rank), Scope(live, requested);
      && Scanned(scope, s.scanned, table, manifest, limit, s.t, s.observed, cells) && s.t == TallyOf(table, cells, limit)
      && IsStretch(scope, s.scanned, page) && Distinct(page) && s.scanned + |page| <= |scope|
      && (page == [] || requested.Some? || |page| < AGENCIES_PER_PAGE ==> s.scanned + |page| == |scope|)
      && (requested.None? && |page| >= AGENCIES_PER_PAGE ==>
            After(live, requested, s.scanned + |page|, page[|page| - 1]))
  {
    AgenciesAt(live, requested, s.scanned, s.afterId, rank);
    hide Agencies, Scope, TallyOf, IsStretch, After, Distinct, Listed;
  }

  lemma ScanEnds(live: seq<string>, table: seq<Row>, manifest: seq<Pair>, requested: Option<string>, limit: nat, s: Scan, cells: seq<Cell>)
    requires Scanning(live, table, manifest, requested, limit, s, cells) && s.scanned == |Scope(live, requested)|
    ensures Scanning(live, table, manifest, requested, limit, s.(more := false), cells)
    ensures Left(live, requested, s.(more := false)) == 0
  {
  }

  method ScanPage(live: seq<string>, rank: string -> nat, table: seq<Row>, manifest: seq<Pair>, requested: Option<string>, limit: nat,
                  s: Scan, ghost cells: seq<Cell>)
    returns (r: Scan, ghost rest: seq<Cell>)
    requires Listed(live, rank)
    requires Distinct(manifest) && PlainPairs(manifest)
    requires Scanning(live, table, manifest, requested, limit, s, cells) && s.more
    ensures Scanning(live, table, manifest, requested, limit, r, rest)
    ensures Left(live, requested, r) >= 0
    ensures r.more ==> Left(live, requested, r) < Left(live, requested, s)
  {
    hide *;
    ghost var scope := Scope(live, requested);
    PageToScan(live, rank, table, manifest, requested, limit, s, cells);
    var agencies := Agencies(live, requested, s.afterId, rank);
    if agencies == [] {
      ScanEnds(live, table, manifest, requested, limit, s, cells);
      r, rest := s.(more := false), cells;
    } else {
      var t, n := InspectPage(agencies, table, manifest, limit, s.t, cells);
      PageScanned(scope, s.scanned, agencies, table, manifest, limit, s.t, s.observed, cells, t, n);
      rest := Further(cells, agencies, manifest);
      var more := requested.None? && |agencies| >= AGENCIES_PER_PAGE;
      r := Scan(s.scanned + |agencies|, s.observed + n, t, if more then agencies[|agencies| - 1] else s.afterId, more);
      IsScanning(live, table, manifest, requested, limit, r, rest, s);
    }
  }

  lemma IsScanning(live: seq<string>, table: seq<Row>, manifest: seq<Pair>, requested: Option<string>, limit: nat,
                   r: Scan, cells: seq<Cell>, s: Scan)
    requires s.scanned < r.scanned <= |Scope(live, requested)|
    requires if r.more then After(live, requested, r.scanned, r.afterId) else r.scanned == |Scope(live, requested)|
    requires Scanned(Scope(live, requested), r.scanned, table, manifest, limit, r.t, r.observed, cells)
    ensures Scanning(live, table, manifest, requested, limit, r, cells)
    ensures 0 <= Left(live, requested, r) < Left(live, requested, s)
  {
  }

  lemma NotYetScanning(live: seq<string>, table: seq<Row>, manifest: seq<Pair>, requested: Option<string>, limit: nat)
    ensures Scanning(live, table, manifest, requested, limit, Scan(0, 0, Tally(0, [], 0, []), "", true), [])
    ensures Left(live, requested, Scan(0, 0, Tally(0, [], 0, []), "", true)) >= 0
  {
    NothingScanned(Scope(live, requested), table, manifest, limit);
    hide Scanned;
  }

  /** `inspectAgencies`. */
  method InspectAgencies(live: seq<string>, rank: string -> nat, table: seq<Row>, manifest: seq<Pair>, requested: Option<string>, limit: nat)
    returns (r: Report)
    requires Listed(live, rank)
    requires Distinct(manifest) && PlainPairs(manifest)
    ensures Reports(live, table, manifest, requested, limit, r)
  {
    var s := Scan(0, 0, Tally(0, [], 0, []), "", true);
    ghost var cells: seq<Cell> := [];
    NotYetScanning(live, table, manifest, requested, limit);
    hide *;
    while s.more
      invariant Scanning(live, table, manifest, requested, limit, s, cells) && Left(live, requested, s) >= 0
      decreases s.more, Left(live, requested, s)
    {
      s, cells := ScanPage(live, rank, table, manifest, requested, limit, s, cells);
    }
    r := ReportOf(s.scanned, s.observed, |manifest|, s.t, limit);
    ReportsTally(live, table, manifest, requested, limit, s, cells);
  }

  lemma ReportsTally(live: seq<string>, table: seq<Row>, manifest: seq<Pair>, requested: Option<string>, limit: nat,
                     s: Scan, cells: seq<Cell>)
    requires Scanning(live, table, manifest, requested, limit, s, cells) && !s.more
    ensures Reports(live, table, manifest, requested, limit, ReportOf(s.scanned, s.observed, |manifest|, s.t, limit))
  {
    var scope := Scope(live, requested);
    assert scope[..|scope|] == scope;
    CellsMembers(scope, manifest, Cell("", Pair("", "")));
  }
}
