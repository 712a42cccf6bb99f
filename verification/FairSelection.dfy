/** The fair choice of automation deliveries (scripts/test-support/billing-execution-fixture.js:8-15):
    filter, stable sort by five keys, first row of each creator, at most a hundred. */
module FairSelection {

  /** Times are in milliseconds; `idRank` is the position of the id in the locale's collation, equal for
      ids that `localeCompare` does not tell apart. */
  datatype Row = Row(
    creatorId: string, recovery: bool, priority: int, notBefore: int, createdAt: int, idRank: int,
    attempts: int, maxAttempts: int)

  /** A row and its position among the rows that were read. */
  datatype Item = Item(row: Row, at: nat)

  const LIMIT := 100

  predicate Eligible(paid: set<string>, r: Row) {
    (r.creatorId in paid && r.attempts < r.maxAttempts) || r.recovery
  }

  /** The comparator is negative. */
  predicate Less(a: Row, b: Row) {
    if a.recovery != b.recovery then a.recovery
    else if a.priority != b.priority then a.priority > b.priority
    else if a.notBefore != b.notBefore then a.notBefore < b.notBefore
    else if a.createdAt != b.createdAt then a.createdAt < b.createdAt
    else a.idRank < b.idRank
  }

  /** The order of a stable sort: rows that compare equal stay in the order in which they were read. */
  predicate Before(a: Item, b: Item) {
    Less(a.row, b.row) || (!Less(b.row, a.row) && a.at < b.at)
  }

  lemma BeforeIsTotal(a: Item, b: Item)
    requires a.at != b.at
    ensures Before(a, b) != Before(b, a)
  {
  }

  lemma BeforeIsTransitive(a: Item, b: Item, c: Item)
    requires Before(a, b) && Before(b, c)
    ensures Before(a, c) && a != c && !Before(c, a)
  {
  }

  /** The eligible rows from position `from` on. */
  function Candidates(paid: set<string>, rows: seq<Row>, from: nat): (items: seq<Item>)
    requires from <= |rows|
    ensures forall x :: x in items <==> from <= x.at < |rows| && x.row == rows[x.at] && Eligible(paid, x.row)
    decreases |rows| - from
  {
    if from == |rows| then []
    else
      (if Eligible(paid, rows[from]) then [Item(rows[from], from)] else []) + Candidates(paid, rows, from + 1)
  }

  // ----- Sorting -----

  ghost predicate Sorted(s: seq<Item>) {
    forall i, j :: 0 <= i < j < |s| ==> Before(s[i], s[j])
  }

  /** Items at one position are one item. */
  ghost predicate Placed(s: seq<Item>) {
    forall x, y :: x in s && y in s && x.at == y.at ==> x == y
  }

  function Insert(x: Item, s: seq<Item>): (r: seq<Item>)
    ensures |r| == |s| + 1
    ensures forall y :: y in r <==> y == x || y in s
  {
    if s == [] || Before(x, s[0]) then [x] + s else [s[0]] + Insert(x, s[1..])
  }

  function Sort(s: seq<Item>): (r: seq<Item>)
    ensures |r| == |s|
    ensures forall y :: y in r <==> y in s
  {
    if s == [] then [] else Insert(s[0], Sort(s[1..]))
  }

  lemma {:induction false} InsertSorts(x: Item, s: seq<Item>)
    requires Sorted(s) && forall y :: y in s ==> y.at != x.at
    ensures Sorted(Insert(x, s))
  {
    if s != [] {
      if Before(x, s[0]) {
        forall j | 0 <= j < |s|
          ensures Before(x, s[j])
        {
          if j > 0 {
            BeforeIsTransitive(x, s[0], s[j]);
          }
        }
      } else {
        InsertSorts(x, s[1..]);
        BeforeIsTotal(x, s[0]);
        var r := Insert(x, s[1..]);
        forall j | 0 <= j < |r|
          ensures Before(s[0], r[j])
        {
          assert r[j] in r;
        }
        hide Before;
      }
    }
  }

  ghost predicate Apart(s: seq<Item>) {
    forall i, j :: 0 <= i < j < |s| ==> s[i].at != s[j].at
  }

  lemma {:induction false} SortSorts(s: seq<Item>)
    requires Apart(s)
    ensures Sorted(Sort(s))
  {
    if s != [] {
      SortSorts(s[1..]);
      InsertSorts(s[0], Sort(s[1..]));
    }
  }

  lemma SomeMember(s: seq<Item>)
    ensures s == [] || exists x :: x in s
  {
    if s != [] {
      assert s[0] in s;
    }
  }

  /** A strictly sorted sequence is determined by its members. */
  lemma {:induction false} SortedIsUnique(a: seq<Item>, b: seq<Item>)
    requires Sorted(a) && Sorted(b) && forall x :: x in a <==> x in b
    ensures a == b
  {
    SomeMember(b);
    if a != [] {
      assert a[0] in b && b != [] && b[0] in a;
      SameFirst(a, b);
      forall x: Item
        ensures x in a[1..] <==> x in b[1..]
      {
        MembersOfTail(a, x);
        MembersOfTail(b, x);
      }
      SortedIsUnique(a[1..], b[1..]);
      assert a == [a[0]] + a[1..] && b == [b[0]] + b[1..];
    }
  }

  lemma SameFirst(a: seq<Item>, b: seq<Item>)
    requires Sorted(a) && Sorted(b) && a != [] && b != [] && a[0] in b && b[0] in a
    ensures a[0] == b[0]
  {
    var i :| 0 <= i < |a| && a[i] == b[0];
    var j :| 0 <= j < |b| && b[j] == a[0];
    if i > 0 && j > 0 {
      BeforeIsTransitive(a[0], b[0], a[0]);
    }
  }

  lemma MembersOfTail(a: seq<Item>, x: Item)
    requires Sorted(a) && a != []
    ensures x in a[1..] <==> x in a && x != a[0]
  {
    if x in a[1..] {
      var i :| 0 <= i < |a| - 1 && a[1..][i] == x;
      assert a[i + 1] == x && Before(a[0], a[i + 1]);
    }
  }

  // ----- The first row of each creator -----

  function FirstPerCreator(s: seq<Item>, seen: set<string>): (r: seq<Item>)
    ensures forall x :: x in r ==> x in s && x.row.creatorId !in seen
  {
    if s == [] then []
    else if s[0].row.creatorId in seen then FirstPerCreator(s[1..], seen)
    else [s[0]] + FirstPerCreator(s[1..], seen + {s[0].row.creatorId})
  }

  /** No item of the same creator is before it. */
  predicate IsBest(s: seq<Item>, x: Item) {
    x in s && forall y :: y in s && y.row.creatorId == x.row.creatorId ==> !Before(y, x)
  }

  lemma {:induction false} FirstsAreBest(s: seq<Item>, seen: set<string>)
    requires Sorted(s)
    ensures Sorted(FirstPerCreator(s, seen))
    ensures forall x :: x in FirstPerCreator(s, seen) <==> IsBest(s, x) && x.row.creatorId !in seen
  {
    if s != [] {
      var c := s[0].row.creatorId;
      var next := if c in seen then seen else seen + {c};
      FirstsAreBest(s[1..], next);
      var r := FirstPerCreator(s[1..], next);
      forall j | 0 <= j < |r|
        ensures Before(s[0], r[j])
      {
        assert r[j] in r;
        MembersOfTail(s, r[j]);
        BeforeAllOthers(s, r[j]);
      }
      forall x: Item | x.row.creatorId !in seen
        ensures x in FirstPerCreator(s, seen) <==> IsBest(s, x)
      {
        BestOfTail(s, x);
        hide IsBest;
      }
    }
  }

  lemma BeforeAllOthers(s: seq<Item>, x: Item)
    requires Sorted(s) && x in s && x != s[0]
    ensures Before(s[0], x) && !Before(x, s[0])
  {
    var i :| 0 <= i < |s| && s[i] == x;
    if Before(x, s[0]) {
      BeforeIsTransitive(s[0], x, s[0]);
    }
  }

  /** The head is the best of its creator; of the others the tail decides. */
  lemma BestOfTail(s: seq<Item>, x: Item)
    requires Sorted(s) && s != []
    ensures x.row.creatorId == s[0].row.creatorId ==> (IsBest(s, x) <==> x == s[0])
    ensures x.row.creatorId != s[0].row.creatorId ==> (IsBest(s, x) <==> IsBest(s[1..], x))
  {
    assert !Before(s[0], s[0]);
    forall y | y in s
      ensures y == s[0] || (Before(s[0], y) && !Before(y, s[0]))
    {
      if y != s[0] {
        BeforeAllOthers(s, y);
      }
    }
    forall y: Item
      ensures y in s[1..] <==> y in s && y != s[0]
    {
      MembersOfTail(s, y);
    }
    hide Before;
  }

  // ----- The selection -----

  function Select(paid: set<string>, rows: seq<Row>): seq<Item> {
    Take(FirstPerCreator(Sort(Candidates(paid, rows, 0)), {}))
  }

  function Take(s: seq<Item>): seq<Item> {
    if |s| <= LIMIT then s else s[..LIMIT]
  }

  lemma {:induction false} CandidatesApart(paid: set<string>, rows: seq<Row>, from: nat)
    requires from <= |rows|
    ensures Apart(Candidates(paid, rows, from))
    decreases |rows| - from
  {
    if from < |rows| {
      CandidatesApart(paid, rows, from + 1);
      var rest := Candidates(paid, rows, from + 1);
      assert forall j :: 0 <= j < |rest| ==> rest[j] in rest;
      hide Eligible;
    }
  }

  lemma FirstsOf(paid: set<string>, rows: seq<Row>)
    ensures var firsts := FirstPerCreator(Sort(Candidates(paid, rows, 0)), {});
            && Sorted(firsts)
            && forall x :: x in firsts <==> IsBest(Candidates(paid, rows, 0), x)
  {
    var all := Candidates(paid, rows, 0);
    CandidatesApart(paid, rows, 0);
    SortSorts(all);
    FirstsAreBest(Sort(all), {});
    forall x
      ensures IsBest(Sort(all), x) <==> IsBest(all, x)
    {
      hide Before, Candidates;
    }
  }

  /** The selection is the first hundred, in the global order, of each creator's best eligible row: of
      whatever sequence lists exactly these in order. */
  lemma SelectionIsTheFirstHundred(paid: set<string>, rows: seq<Row>, bests: seq<Item>)
    requires Sorted(bests)
    requires forall x :: x in bests <==> IsBest(Candidates(paid, rows, 0), x)
    ensures Select(paid, rows) == Take(bests)
  {
    FirstsOf(paid, rows);
    SortedIsUnique(FirstPerCreator(Sort(Candidates(paid, rows, 0)), {}), bests);
  }

  /** One row per creator. */
  lemma OnePerCreator(paid: set<string>, rows: seq<Row>, x: Item, y: Item)
    requires x in Select(paid, rows) && y in Select(paid, rows) && x.row.creatorId == y.row.creatorId
    ensures x == y
  {
    FirstsOf(paid, rows);
    if x.at != y.at {
      BeforeIsTotal(x, y);
    }
  }

  lemma {:induction false} BestExists(s: seq<Item>, x: Item)
    requires Apart(s) && x in s
    ensures exists b :: IsBest(s, b) && b.row.creatorId == x.row.creatorId && !Before(x, b)
  {
    SortSorts(s);
    var sorted := Sort(s);
    var i :| 0 <= i < |sorted| && sorted[i] == x;
    var k := FirstOfCreator(sorted, i);
    var b := sorted[k];
    forall y | y in s && y.row.creatorId == x.row.creatorId
      ensures !Before(y, b)
    {
      assert y in sorted;
      var j :| 0 <= j < |sorted| && sorted[j] == y;
      if k < j && Before(y, b) {
        BeforeIsTransitive(b, y, b);
      }
    }
    assert b in sorted;
    assert IsBest(s, b);
  }

  lemma FirstOfCreator(s: seq<Item>, i: nat) returns (k: nat)
    requires i < |s|
    ensures k <= i && s[k].row.creatorId == s[i].row.creatorId
    ensures forall j :: 0 <= j < k ==> s[j].row.creatorId != s[i].row.creatorId
  {
    k := 0;
    while s[k].row.creatorId != s[i].row.creatorId
      invariant k <= i && forall j :: 0 <= j < k ==> s[j].row.creatorId != s[i].row.creatorId
      decreases i - k
    {
      k := k + 1;
    }
  }

  /** A creator with an eligible row is left out only when a hundred others have rows ahead of all of its. */
  lemma LeftOutOnlyBehindAHundred(paid: set<string>, rows: seq<Row>, x: Item)
    requires x in Candidates(paid, rows, 0)
    requires forall y :: y in Select(paid, rows) ==> y.row.creatorId != x.row.creatorId
    ensures |Select(paid, rows)| == LIMIT
    ensures forall y :: y in Select(paid, rows) ==> Before(y, x)
  {
    var all := Candidates(paid, rows, 0);
    FirstsOf(paid, rows);
    CandidatesApart(paid, rows, 0);
    BestExists(all, x);
    var b :| IsBest(all, b) && b.row.creatorId == x.row.creatorId && !Before(x, b);
    var firsts := FirstPerCreator(Sort(all), {});
    assert b in firsts;
    var k :| 0 <= k < |firsts| && firsts[k] == b;
    forall y | y in Select(paid, rows)
      ensures Before(y, x)
    {
      var j :| 0 <= j < LIMIT && j < |firsts| && firsts[j] == y;
      assert Before(firsts[j], firsts[k]);
      if b != x {
        BeforeIsTotal(b, x);
        BeforeIsTransitive(y, b, x);
      }
    }
  }

  /** Rows that are read later and are not better than one that their creator has already, however many. */
  ghost predicate Dominated(paid: set<string>, rows: seq<Row>, more: seq<Row>) {
    forall i :: 0 <= i < |more| && Eligible(paid, more[i]) ==> HasAsGood(paid, rows, more[i])
  }

  ghost predicate HasAsGood(paid: set<string>, rows: seq<Row>, r: Row) {
    exists d :: d in rows && d.creatorId == r.creatorId && Eligible(paid, d) && !Less(r, d)
  }

  lemma SameBest(paid: set<string>, rows: seq<Row>, more: seq<Row>, x: Item)
    requires Dominated(paid, rows, more)
    ensures IsBest(Candidates(paid, rows + more, 0), x) <==> IsBest(Candidates(paid, rows, 0), x)
  {
    var old_, all := Candidates(paid, rows, 0), Candidates(paid, rows + more, 0);
    CandidatesApart(paid, rows, 0);
    forall y: Item | y in all && y !in old_
      ensures exists b :: IsBest(old_, b) && b.row.creatorId == y.row.creatorId && Before(b, y)
    {
      assert y.row == more[y.at - |rows|];
      var d :| d in rows && d.creatorId == y.row.creatorId && Eligible(paid, d) && !Less(y.row, d);
      var i :| 0 <= i < |rows| && rows[i] == d;
      var e := Item(d, i);
      assert e in old_ && Before(e, y);
      BestExists(old_, e);
      var b :| IsBest(old_, b) && b.row.creatorId == e.row.creatorId && !Before(e, b);
      if b != e {
        BeforeIsTotal(b, e);
        BeforeIsTransitive(b, e, y);
      }
    }
    assert forall y :: y in old_ ==> y in all;
    BestAmongMore(old_, all, x);
  }

  lemma BestAmongMore(some: seq<Item>, all: seq<Item>, x: Item)
    requires forall y :: y in some ==> y in all
    requires forall y: Item :: y in all && y !in some ==>
               exists b :: IsBest(some, b) && b.row.creatorId == y.row.creatorId && Before(b, y)
    requires Apart(some)
    ensures IsBest(all, x) <==> IsBest(some, x)
  {
    if x in all && x !in some {
      var b :| IsBest(some, b) && b.row.creatorId == x.row.creatorId && Before(b, x);
      assert b in all;
    }
    if IsBest(some, x) {
      forall y | y in all && y.row.creatorId == x.row.creatorId
        ensures !Before(y, x)
      {
        if y !in some && Before(y, x) {
          var b :| IsBest(some, b) && b.row.creatorId == y.row.creatorId && Before(b, y);
          BeforeIsTransitive(b, y, x);
        }
      }
    }
  }

  /** Queueing any number of such rows changes nothing for anybody. */
  lemma FloodingChangesNothing(paid: set<string>, rows: seq<Row>, more: seq<Row>)
    requires Dominated(paid, rows, more)
    ensures Select(paid, rows + more) == Select(paid, rows)
  {
    FirstsOf(paid, rows);
    var bests := FirstPerCreator(Sort(Candidates(paid, rows, 0)), {});
    forall x
      ensures x in bests <==> IsBest(Candidates(paid, rows + more, 0), x)
    {
      SameBest(paid, rows, more, x);
    }
    SelectionIsTheFirstHundred(paid, rows + more, bests);
  }

  // ----- Which rows are selected -----

  /** What the comparator compares, one after the other, each with the smaller first. */
  function Keys(r: Row): seq<int> {
    [if r.recovery then 0 else 1, -r.priority, r.notBefore, r.createdAt, r.idRank]
  }

  /** Recovery comes first, then the higher priority, the earlier due time, the earlier creation and the id. */
  lemma LessExactlyWhen(a: Row, b: Row)
    ensures Less(a, b) <==> exists k :: 0 <= k < 5 && Keys(a)[..k] == Keys(b)[..k] && Keys(a)[k] < Keys(b)[k]
  {
    var x, y := Keys(a), Keys(b);
    var k := if x[0] != y[0] then 0 else if x[1] != y[1] then 1 else if x[2] != y[2] then 2 else if x[3] != y[3] then 3 else 4;
    SamePrefix(x, y, k);
    assert Less(a, b) <==> x[k] < y[k];
    forall l | 0 <= l < 5 && x[..l] == y[..l] && x[l] < y[l]
      ensures l == k
    {
      SamePrefix(x, y, l);
    }
  }

  lemma SamePrefix(x: seq<int>, y: seq<int>, k: nat)
    requires |x| == |y| && k <= |x|
    ensures x[..k] == y[..k] <==> forall i :: 0 <= i < k ==> x[i] == y[i]
  {
    if x[..k] == y[..k] {
      assert forall i :: 0 <= i < k ==> x[..k][i] == x[i] && y[..k][i] == y[i];
    }
  }

  /** The row at `q` can be taken and comes before the one at `p`. */
  ghost predicate Ahead(paid: set<string>, rows: seq<Row>, q: int, p: int)
    requires 0 <= p < |rows|
  {
    && 0 <= q < |rows| && (rows[q].recovery || (rows[q].creatorId in paid && rows[q].attempts < rows[q].maxAttempts))
    && (Less(rows[q], rows[p]) || (!Less(rows[p], rows[q]) && q < p))
  }

  ghost function CreatorsAhead(paid: set<string>, rows: seq<Row>, p: nat): set<string>
    requires p < |rows|
  {
    set q | 0 <= q < |rows| && Ahead(paid, rows, q, p) :: rows[q].creatorId
  }

  ghost function CreatorsOf(s: seq<Item>): set<string> {
    set x | x in s :: x.row.creatorId
  }

  lemma {:induction false} CountCreators(s: seq<Item>)
    requires forall i, j :: 0 <= i < j < |s| ==> s[i].row.creatorId != s[j].row.creatorId
    ensures |CreatorsOf(s)| == |s|
  {
    if s != [] {
      var front, last := s[..|s| - 1], s[|s| - 1];
      CountCreators(front);
      assert s == front + [last];
      assert CreatorsOf(s) == CreatorsOf(front) + {last.row.creatorId};
      assert last.row.creatorId !in CreatorsOf(front);
    }
  }

  /** The creators of the firsts before the best row `x` are those with any row ahead of it. */
  lemma FirstsAhead(paid: set<string>, rows: seq<Row>, p: nat, k: nat)
    requires p < |rows| && k < |FirstPerCreator(Sort(Candidates(paid, rows, 0)), {})|
    requires FirstPerCreator(Sort(Candidates(paid, rows, 0)), {})[k] == Item(rows[p], p)
    ensures |CreatorsAhead(paid, rows, p)| == k
  {
    var all, x := Candidates(paid, rows, 0), Item(rows[p], p);
    var firsts := FirstPerCreator(Sort(all), {});
    FirstsOf(paid, rows);
    CandidatesApart(paid, rows, 0);
    hide IsBest, Apart, FirstPerCreator, Sort;
    forall q | 0 <= q < |rows| && Ahead(paid, rows, q, p)
      ensures rows[q].creatorId in CreatorsOf(firsts[..k])
    {
      assert Item(rows[q], q) in all;
      BestIsBefore(all, firsts, Item(rows[q], q), x, k);
    }
    forall y | y in firsts[..k]
      ensures y in all && Ahead(paid, rows, y.at, p)
    {
      IsAhead(all, firsts, y, k);
    }
    hide Before, Candidates, Ahead, Sorted;
    SameCreators(paid, rows, p, firsts[..k]);
    FirstsDiffer(all, firsts);
    CountCreators(firsts[..k]);
  }

  lemma IsAhead(all: seq<Item>, firsts: seq<Item>, y: Item, k: nat)
    requires Sorted(firsts) && forall z :: z in firsts <==> IsBest(all, z)
    requires k < |firsts| && y in firsts[..k]
    ensures y in all && Before(y, firsts[k])
  {
    var i :| 0 <= i < k && firsts[..k][i] == y;
    assert firsts[i] == y && y in firsts;
  }

  lemma SameCreators(paid: set<string>, rows: seq<Row>, p: nat, some: seq<Item>)
    requires p < |rows|
    requires forall q :: 0 <= q < |rows| && Ahead(paid, rows, q, p) ==> rows[q].creatorId in CreatorsOf(some)
    requires forall y :: y in some ==> 0 <= y.at < |rows| && y.row == rows[y.at] && Ahead(paid, rows, y.at, p)
    ensures CreatorsAhead(paid, rows, p) == CreatorsOf(some)
  {
    hide Ahead;
  }

  lemma BestIsBefore(all: seq<Item>, firsts: seq<Item>, y: Item, x: Item, k: nat)
    requires Apart(all) && Sorted(firsts) && forall z :: z in firsts <==> IsBest(all, z)
    requires k < |firsts| && firsts[k] == x && y in all && Before(y, x)
    ensures y.row.creatorId in CreatorsOf(firsts[..k])
  {
    BestExists(all, y);
    var b :| IsBest(all, b) && b.row.creatorId == y.row.creatorId && !Before(y, b);
    if b != y {
      BeforeIsTotal(b, y);
      BeforeIsTransitive(b, y, x);
    }
    assert b in firsts;
    var j :| 0 <= j < |firsts| && firsts[j] == b;
    if j > k {
      BeforeIsTransitive(b, x, b);
    }
    assert j < k by {
      if j == k {
        BeforeIsTransitive(x, x, x);
      }
    }
    assert firsts[..k][j] == b;
  }

  lemma FirstsDiffer(all: seq<Item>, firsts: seq<Item>)
    requires Apart(all) && Sorted(firsts) && forall z :: z in firsts <==> IsBest(all, z)
    ensures forall i, j :: 0 <= i < j < |firsts| ==> firsts[i].row.creatorId != firsts[j].row.creatorId
  {
    forall i, j | 0 <= i < j < |firsts|
      ensures firsts[i].row.creatorId != firsts[j].row.creatorId
    {
      assert firsts[i] in firsts && firsts[j] in firsts && Before(firsts[i], firsts[j]);
    }
  }

  /** A row is selected exactly when it is in recovery, or of a paid creator with attempts left; no such row of
      its creator comes before it; and fewer than a hundred creators have such a row before it. */
  lemma SelectedExactlyWhen(paid: set<string>, rows: seq<Row>, p: nat)
    requires p < |rows|
    ensures Item(rows[p], p) in Select(paid, rows) <==>
      && (rows[p].recovery || (rows[p].creatorId in paid && rows[p].attempts < rows[p].maxAttempts))
      && rows[p].creatorId !in CreatorsAhead(paid, rows, p) && |CreatorsAhead(paid, rows, p)| < 100
  {
    var all, x := Candidates(paid, rows, 0), Item(rows[p], p);
    var firsts := FirstPerCreator(Sort(all), {});
    FirstsOf(paid, rows);
    BestExactlyWhen(paid, rows, p);
    if x in firsts {
      var k :| 0 <= k < |firsts| && firsts[k] == x;
      FirstsAhead(paid, rows, p, k);
      InTake(firsts, k);
    } else {
      assert forall y :: y in Select(paid, rows) ==> y in firsts;
    }
    hide CreatorsAhead, IsBest, FirstPerCreator, Sort, Candidates;
  }

  lemma InTake(firsts: seq<Item>, k: nat)
    requires Sorted(firsts) && k < |firsts|
    ensures firsts[k] in Take(firsts) <==> k < 100
  {
    assert !Before(firsts[k], firsts[k]);
    assert forall j :: 0 <= j < k ==> firsts[j] != firsts[k];
    assert k < 100 ==> Take(firsts)[k] == firsts[k];
  }

  lemma BestExactlyWhen(paid: set<string>, rows: seq<Row>, p: nat)
    requires p < |rows|
    ensures IsBest(Candidates(paid, rows, 0), Item(rows[p], p)) <==>
      && (rows[p].recovery || (rows[p].creatorId in paid && rows[p].attempts < rows[p].maxAttempts))
      && rows[p].creatorId !in CreatorsAhead(paid, rows, p)
  {
    var all, x := Candidates(paid, rows, 0), Item(rows[p], p);
    assert x in all <==> Eligible(paid, rows[p]);
    if x in all && rows[p].creatorId !in CreatorsAhead(paid, rows, p) {
      forall y | y in all && y.row.creatorId == x.row.creatorId
        ensures !Before(y, x)
      {
        assert Ahead(paid, rows, y.at, p) <==> Before(y, x);
      }
    }
    if rows[p].creatorId in CreatorsAhead(paid, rows, p) {
      var q :| 0 <= q < |rows| && Ahead(paid, rows, q, p) && rows[q].creatorId == rows[p].creatorId;
      assert Item(rows[q], q) in all && Before(Item(rows[q], q), x);
    }
  }

  // ----- The program -----

  lemma {:induction false} FirstsOfPrefix(s: seq<Item>, seen: set<string>, i: nat, prefix: seq<Item>)
    requires i < |s|
    ensures prefix + FirstPerCreator(s[i..], seen) ==
            if s[i].row.creatorId in seen then prefix + FirstPerCreator(s[i + 1..], seen)
            else prefix + [s[i]] + FirstPerCreator(s[i + 1..], seen + {s[i].row.creatorId})
  {
    assert s[i..][0] == s[i] && s[i..][1..] == s[i + 1..];
  }

  /** The chain of filter, sort, filter with a growing set, and slice. */
  method SelectFair(paid: set<string>, rows: seq<Row>) returns (r: seq<Item>)
    ensures r == Select(paid, rows)
  {
    var items: seq<Item> := [];
    var i := |rows|;
    while i > 0
      invariant 0 <= i <= |rows| && items == Candidates(paid, rows, i)
    {
      i := i - 1;
      if Eligible(paid, rows[i]) {
        items := [Item(rows[i], i)] + items;
      }
    }
    var sorted := Sort(items);
    var seen: set<string> := {};
    r := [];
    i := 0;
    while i < |sorted|
      invariant 0 <= i <= |sorted|
      invariant r + FirstPerCreator(sorted[i..], seen) == FirstPerCreator(sorted, {})
    {
      FirstsOfPrefix(sorted, seen, i, r);
      if sorted[i].row.creatorId !in seen {
        seen := seen + {sorted[i].row.creatorId};
        r := r + [sorted[i]];
      }
      i := i + 1;
    }
    r := Take(r);
  }
}
