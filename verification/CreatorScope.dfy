/** Which creators a member may use (src/middleware/automation-permissions.js, without its A36 query,
    src/middleware/product-access.js, filterProductCreatorScope, and productBillingScope of
    src/services/product-billing-context-service.js).

    `live` lists the ids of the agency's creators that are not deleted, each once, in the order of the id
    column.  Whether a creator's billing admits product work is the predicate `paid`. */
module CreatorScope {

  import Text
  import opened Wrappers

  // ----- Members -----

  /** The shapes of the JSON column `assignedCreators`; the entries of a list are already texts. */
  datatype Assigned =
    | Unset                                  // null or undefined
    | Word(text: string)
    | List(entries: seq<string>)
    | Object(ids: Option<seq<string>>, creatorIds: Option<seq<string>>, all: bool, mode: Option<string>)
    | Scalar                                 // a number or a boolean

  datatype Member = Member(role: string, roleKey: string, creators: Assigned)

  function NonEmpty(entries: seq<string>): seq<string> {
    Keep(entries, x => x != "")
  }

  function AssignedIds(m: Member): seq<string> {
    match m.creators
    case List(entries) => NonEmpty(entries)
    case Object(Some(ids), _, _, _) => NonEmpty(ids)
    case Object(None, Some(ids), _, _) => NonEmpty(ids)
    case _ => []
  }

  predicate HasBroadAccess(m: Member) {
    || Text.Lower(m.role) == "owner" || Text.Lower(m.roleKey) == "owner"
    || match m.creators
       case Unset => true
       case Word(text) => text == "all"
       case Object(_, _, all, mode) => all || mode == Some("all")
       case _ => false
  }

  predicate CanAccess(m: Member, id: string) {
    id != "" && (HasBroadAccess(m) || id in AssignedIds(m))
  }

  // ----- The single-creator gate -----

  datatype Refusal = NotFound | Forbidden | Unpaid

  /** `requireCreatorAccess`; inside a product request the creator's billing is checked as well. */
  function Gate(m: Member, live: seq<string>, product: bool, paid: string -> bool, id: string): Result<string, Refusal> {
    if id !in live then Failure(NotFound)
    else if !CanAccess(m, id) then Failure(Forbidden)
    else if product && !paid(id) then Failure(Unpaid)
    else Success(id)
  }

  predicate Admits(m: Member, live: seq<string>, product: bool, paid: string -> bool, id: string) {
    Gate(m, live, product, paid, id).Success?
  }

  /** Whom the gate admits, shape by shape: an owner and a member without a list may use every creator, anyone
      else those on the list that counts.  No other role is privileged. */
  lemma GateAdmits(m: Member, live: seq<string>, product: bool, paid: string -> bool, id: string)
    ensures Gate(m, live, product, paid, id) == Success(id) <==>
      && id in live && id != "" && (product ==> paid(id))
      && (|| Text.Lower(m.role) == "owner" || Text.Lower(m.roleKey) == "owner"
          || m.creators == Unset || m.creators == Word("all")
          || (m.creators.List? && id in m.creators.entries)
          || (m.creators.Object? && (m.creators.all || m.creators.mode == Some("all")))
          || (m.creators.Object? && m.creators.ids.Some? && id in m.creators.ids.value)
          || (m.creators.Object? && m.creators.ids.None? && m.creators.creatorIds.Some? && id in m.creators.creatorIds.value))
    ensures Gate(m, live, product, paid, id) == Failure(NotFound) <==> id !in live
    ensures Gate(m, live, product, paid, id).Success? ==> Gate(m, live, product, paid, id).value == id
  {
  }

  function Longest(ids: seq<string>): (n: nat)
    ensures forall id :: id in ids ==> |id| <= n
  {
    if ids == [] then 0
    else
      var n := Longest(ids[1..]);
      if |ids[0]| > n then |ids[0]| else n
  }

  function Repeat(n: nat): (s: string)
    ensures |s| == n
  {
    if n == 0 then "" else ['x'] + Repeat(n - 1)
  }

  /** Broad access is access to every creator there could be. */
  lemma BroadExactlyWhen(m: Member)
    ensures HasBroadAccess(m) <==> forall id :: id != "" ==> CanAccess(m, id)
  {
    if !HasBroadAccess(m) {
      var id := Repeat(Longest(AssignedIds(m)) + 1);
      assert id !in AssignedIds(m) && !CanAccess(m, id);
    }
    hide HasBroadAccess, AssignedIds;
  }

  // ----- Lists of ids -----

  ghost predicate Distinct(s: seq<string>) {
    forall i, j :: 0 <= i < j < |s| ==> s[i] != s[j]
  }

  function Keep(s: seq<string>, good: string -> bool): (r: seq<string>)
    ensures forall x :: x in r <==> x in s && good(x)
  {
    if s == [] then [] else (if good(s[0]) then [s[0]] else []) + Keep(s[1..], good)
  }

  lemma {:induction false} KeepSame(s: seq<string>, f: string -> bool, g: string -> bool)
    requires forall x :: x in s ==> f(x) == g(x)
    ensures Keep(s, f) == Keep(s, g)
  {
    if s != [] {
      assert s[0] in s && forall x :: x in s[1..] ==> x in s;
      KeepSame(s[1..], f, g);
    }
  }

  /** `s` is an interleaving of `a` and `b`, each in its own order. */
  predicate Merges(s: seq<string>, a: seq<string>, b: seq<string>) {
    if s == [] then a == [] && b == []
    else
      || (a != [] && a[0] == s[0] && Merges(s[1..], a[1..], b))
      || (b != [] && b[0] == s[0] && Merges(s[1..], a, b[1..]))
  }

  lemma MergesMore(x: string, s: seq<string>, a: seq<string>, b: seq<string>)
    requires Merges(s, a, b)
    ensures Merges([x] + s, [x] + a, b) && Merges([x] + s, a, [x] + b)
  {
    assert ([x] + s)[1..] == s && ([x] + a)[1..] == a && ([x] + b)[1..] == b;
  }

  /** What is kept and what is not interleave to the whole list. */
  lemma {:induction false} KeepSplits(s: seq<string>, good: string -> bool)
    ensures Merges(s, Keep(s, good), Keep(s, x => !good(x)))
  {
    if s != [] {
      KeepSplits(s[1..], good);
      var a, b := Keep(s[1..], good), Keep(s[1..], x => !good(x));
      MergesMore(s[0], s[1..], a, b);
      assert s == [s[0]] + s[1..] && [] + a == a && [] + b == b;
      assert Keep(s, good) == (if good(s[0]) then [s[0]] else []) + a;
      assert Keep(s, x => !good(x)) == (if good(s[0]) then [] else [s[0]]) + b;
      hide Merges, Keep;
    }
  }

  /** `Array.from(new Set(...))`: first occurrences, in order. */
  function Unique(s: seq<string>, seen: set<string>): (r: seq<string>)
    ensures forall x :: x in r <==> x in s && x !in seen
    ensures Distinct(r)
  {
    if s == [] then [] else if s[0] in seen then Unique(s[1..], seen) else [s[0]] + Unique(s[1..], seen + {s[0]})
  }

  function Trimmed(s: seq<string>): (r: seq<string>)
    ensures forall x :: x in r <==> exists y :: y in s && Text.Trim(y) == x && x != ""
  {
    if s == [] then []
    else
      assert forall y :: y in s <==> y == s[0] || y in s[1..];
      (if Text.Trim(s[0]) == "" then [] else [Text.Trim(s[0])]) + Trimmed(s[1..])
  }

  /** The request after clean-up: trimmed, not empty, each id once. */
  function Requested(list: seq<string>): seq<string> {
    Unique(Trimmed(list), {})
  }

  /** Up to some position of the list there is `x`, and not yet `y`. */
  ghost predicate ComesFirst(s: seq<string>, x: string, y: string) {
    exists p :: 0 <= p < |s| && s[p] == x && forall q :: 0 <= q <= p ==> s[q] != y
  }

  lemma {:induction false} UniqueInOrder(s: seq<string>, seen: set<string>, i: nat, j: nat)
    requires i < j < |Unique(s, seen)|
    ensures ComesFirst(s, Unique(s, seen)[i], Unique(s, seen)[j])
  {
    var rest := if s[0] in seen then seen else seen + {s[0]};
    var k := if s[0] in seen then 0 else 1;
    if i < k {
      assert s[0] == Unique(s, seen)[0] && Unique(s, seen)[j] in Unique(s[1..], rest);
    } else {
      UniqueInOrder(s[1..], rest, i - k, j - k);
      var x, y := Unique(s, seen)[i], Unique(s, seen)[j];
      var p :| 0 <= p < |s| - 1 && s[1..][p] == x && forall q :: 0 <= q <= p ==> s[1..][q] != y;
      assert y in Unique(s[1..], rest);
      assert s[p + 1] == x && forall q :: 0 <= q <= p + 1 ==> s[q] != y;
    }
  }

  /** The same of the entries of a request, whose ids are what is left of them. */
  ghost predicate AskedFirst(list: seq<string>, x: string, y: string) {
    exists p :: 0 <= p < |list| && Text.Trim(list[p]) == x && forall q :: 0 <= q <= p ==> Text.Trim(list[q]) != y
  }

  lemma AskedLater(list: seq<string>, x: string, y: string)
    requires list != [] && AskedFirst(list[1..], x, y) && Text.Trim(list[0]) != y
    ensures AskedFirst(list, x, y)
  {
    hide Text.Trim;
    var l :| 0 <= l < |list| - 1 && Text.Trim(list[1..][l]) == x && forall q :: 0 <= q <= l ==> Text.Trim(list[1..][q]) != y;
    assert list[l + 1] == list[1..][l];
    forall q | 0 <= q <= l + 1
      ensures Text.Trim(list[q]) != y
    {
      assert q > 0 ==> list[q] == list[1..][q - 1];
    }
  }

  lemma ComesLater(s: seq<string>, x: string, y: string)
    requires s != [] && ComesFirst(s, x, y)
    ensures s[0] != y && (s[0] != x ==> ComesFirst(s[1..], x, y))
  {
    var p :| 0 <= p < |s| && s[p] == x && forall q :: 0 <= q <= p ==> s[q] != y;
    if s[0] != x {
      assert s[1..][p - 1] == x && forall q :: 0 <= q <= p - 1 ==> s[1..][q] == s[q + 1];
    }
  }

  lemma {:induction false} TrimmedInOrder(list: seq<string>, x: string, y: string)
    requires ComesFirst(Trimmed(list), x, y) && y != ""
    ensures AskedFirst(list, x, y)
  {
    hide Text.Trim;
    var s, first, rest := Trimmed(list), Text.Trim(list[0]), Trimmed(list[1..]);
    if first == "" {
      assert s == [] + rest == rest;
      TrimmedInOrder(list[1..], x, y);
      AskedLater(list, x, y);
    } else {
      assert s == [first] + rest && s[1..] == rest;
      ComesLater(s, x, y);
      if first == x {
        assert Text.Trim(list[0]) == x && forall q :: 0 <= q <= 0 ==> Text.Trim(list[q]) != y;
      } else {
        TrimmedInOrder(list[1..], x, y);
        AskedLater(list, x, y);
      }
    }
  }

  /** The ids of a request stand in the order in which they were first asked for. */
  lemma RequestedInOrder(list: seq<string>, i: nat, j: nat)
    requires i < j < |Requested(list)|
    ensures AskedFirst(list, Requested(list)[i], Requested(list)[j])
  {
    UniqueInOrder(Trimmed(list), {}, i, j);
    assert Requested(list)[j] in Trimmed(list);
    hide Unique;
    TrimmedInOrder(list, Requested(list)[i], Requested(list)[j]);
  }

  // ----- Queries -----

  /** `findMany` for the ids of one chunk, cut to as many rows as the chunk has ids. */
  function Query(live: seq<string>, chunk: seq<string>): seq<string> {
    var rows := Keep(live, x => x in chunk);
    if |rows| <= |chunk| then rows else rows[..|chunk|]
  }

  lemma {:induction false} DistinctFits(s: seq<string>, bound: seq<string>)
    requires Distinct(s) && forall x :: x in s ==> x in bound
    ensures |s| <= |bound|
  {
    if s != [] {
      var x := s[0];
      assert x in bound;
      var i :| 0 <= i < |bound| && bound[i] == x;
      var rest := bound[..i] + bound[i + 1..];
      forall y | y in s[1..]
        ensures y in rest
      {
        var j :| 0 <= j < |s| - 1 && s[1..][j] == y;
        assert s[j + 1] == y && y in bound;
        var k :| 0 <= k < |bound| && bound[k] == y;
        assert rest[if k < i then k else k - 1] == y;
      }
      DistinctFits(s[1..], rest);
    }
  }

  lemma {:induction false} KeepDistinct(s: seq<string>, good: string -> bool)
    requires Distinct(s)
    ensures Distinct(Keep(s, good))
  {
    if s != [] {
      KeepDistinct(s[1..], good);
      var rest := Keep(s[1..], good);
      assert forall j :: 0 <= j < |rest| ==> rest[j] in rest;
    }
  }

  /** The cut never cuts. */
  lemma QueryFindsAll(live: seq<string>, chunk: seq<string>)
    requires Distinct(live)
    ensures forall x :: x in Query(live, chunk) <==> x in live && x in chunk
  {
    var rows := Keep(live, x => x in chunk);
    KeepDistinct(live, x => x in chunk);
    DistinctFits(rows, chunk);
  }

  /** The loop over the chunks: whatever their size, it finds exactly the live ids. */
  method LiveAmong(live: seq<string>, ids: seq<string>, size: nat) returns (found: set<string>)
    requires Distinct(live) && size > 0
    ensures forall x :: x in found <==> x in ids && x in live
  {
    found := {};
    var offset := 0;
    while offset < |ids|
      invariant offset >= 0
      invariant forall x :: x in found <==> x in live && x in ids[..if offset < |ids| then offset else |ids|]
    {
      var end := if offset + size < |ids| then offset + size else |ids|;
      var chunk := ids[offset..end];
      QueryFindsAll(live, chunk);
      assert ids[..end] == ids[..offset] + chunk;
      found := found + set x | x in Query(live, chunk);
      offset := offset + size;
    }
    assert ids[..|ids|] == ids;
  }

  // ----- Scopes -----

  datatype Scope = Broad | Limited(ids: seq<string>)

  predicate Allows(s: Scope, id: string) {
    s.Broad? || id in s.ids
  }

  const CHUNK: nat := 500

  /** `membershipCreatorScope` without a requested creator. */
  method MembershipScope(m: Member, live: seq<string>) returns (s: Scope)
    requires Distinct(live)
    ensures s.Broad? <==> HasBroadAccess(m)
    ensures s.Limited? ==> s.ids == Keep(Unique(AssignedIds(m), {}), x => x in live)
  {
    if HasBroadAccess(m) {
      return Broad;
    }
    var ids := Unique(AssignedIds(m), {});
    var found := LiveAmong(live, ids, CHUNK);
    KeepSame(ids, x => x in found, x => x in live);
    return Limited(Keep(ids, x => x in found));
  }

  /** `productBillingScope`. */
  function BillingScope(s: Scope, live: seq<string>, product: bool, paid: string -> bool): Scope {
    if !product then s else Limited(Keep(live, x => Allows(s, x) && paid(x)))
  }

  /** The scope lists exactly what the gate admits. */
  lemma ScopeIsGate(m: Member, live: seq<string>, product: bool, paid: string -> bool, s: Scope, id: string)
    requires s.Broad? <==> HasBroadAccess(m)
    requires s.Limited? ==> s.ids == Keep(Unique(AssignedIds(m), {}), x => x in live)
    requires id != ""
    ensures id in live && Allows(BillingScope(s, live, product, paid), id) <==> Admits(m, live, product, paid, id)
  {
    hide HasBroadAccess, AssignedIds;
  }

  /** `filterProductCreatorScope`: the requested creators that the single-creator gate admits, and the
      others, or a refusal if there are others and they are to be rejected. */
  method FilterScope(m: Member, live: seq<string>, product: bool, paid: string -> bool, list: seq<string>, rejectForeign: bool)
    returns (r: Result<(seq<string>, seq<string>), Refusal>)
    requires Distinct(live)
    ensures var foreign := Keep(Requested(list), x => !Admits(m, live, product, paid, x));
            r == if foreign != [] && rejectForeign then Failure(Forbidden)
                 else Success((Keep(Requested(list), x => Admits(m, live, product, paid, x)), foreign))
  {
    var membership := MembershipScope(m, live);
    var scope := BillingScope(membership, live, product, paid);
    var requested := Requested(list);
    var found := LiveAmong(live, requested, CHUNK);
    forall id | id in requested
      ensures id in found && Allows(scope, id) <==> Admits(m, live, product, paid, id)
    {
      assert id != "";
      ScopeIsGate(m, live, product, paid, membership, id);
    }
    hide Admits, Allows, Requested;
    var foreign := Keep(requested, x => x !in found || !Allows(scope, x));
    KeepSame(requested, x => x !in found || !Allows(scope, x), x => !Admits(m, live, product, paid, x));
    if foreign != [] && rejectForeign {
      return Failure(Forbidden);
    }
    KeepSame(requested, x => x in found && Allows(scope, x), x => Admits(m, live, product, paid, x));
    return Success((Keep(requested, x => x in found && Allows(scope, x)), foreign));
  }

  // ----- Raw entries -----

  /** The filter accepts the entry: its cleaned-up id is asked for and admitted. */
  predicate FilterTakes(m: Member, live: seq<string>, product: bool, paid: string -> bool, entry: string) {
    Text.Trim(entry) != "" && Admits(m, live, product, paid, Text.Trim(entry))
  }

  /** That is what the filter's answer says, whatever else is in the request. */
  lemma FilterTakesAnswer(m: Member, live: seq<string>, product: bool, paid: string -> bool, list: seq<string>, entry: string)
    requires entry in list
    ensures Text.Trim(entry) in Keep(Requested(list), x => Admits(m, live, product, paid, x))
       <==> FilterTakes(m, live, product, paid, entry)
  {
    assert Text.Trim(entry) != "" ==> Text.Trim(entry) in Trimmed(list);
    hide Admits;
  }

  /** Ids that are not empty and have no white space at their ends. */
  ghost predicate CleanIds(live: seq<string>) {
    forall id :: id in live ==> id != "" && Text.Tight(id)
  }

  /** An entry without white space at its ends is decided alike; any other entry is unknown to the gate, and
      the two differ exactly when the gate admits what is left of it. */
  lemma TrimmingTells(m: Member, live: seq<string>, product: bool, paid: string -> bool, entry: string)
    requires CleanIds(live)
    ensures Text.Tight(entry) ==>
              (FilterTakes(m, live, product, paid, entry) <==> Admits(m, live, product, paid, entry))
    ensures !Text.Tight(entry) ==>
              && Gate(m, live, product, paid, entry) == Failure(NotFound)
              && ((FilterTakes(m, live, product, paid, entry) <==> Admits(m, live, product, paid, entry))
                  <==> !Admits(m, live, product, paid, Text.Trim(entry)))
  {
    Text.TrimTightens(entry);
    hide CanAccess, Text.Trim, Text.Tight;
  }

  /** Filter and gate decide the entry alike for everyone. */
  ghost predicate AlwaysAlike(entry: string) {
    forall m, live, product, paid :: CleanIds(live) ==>
      (FilterTakes(m, live, product, paid, entry) <==> Admits(m, live, product, paid, entry))
  }

  /** They do so for exactly the entries without white space at their ends and those of nothing but white
      space. */
  lemma AlikeExactlyWhen(entry: string)
    ensures AlwaysAlike(entry) <==> Text.Tight(entry) || Text.Trim(entry) == ""
  {
    forall m, live, product, paid | CleanIds(live) && (Text.Tight(entry) || Text.Trim(entry) == "")
      ensures FilterTakes(m, live, product, paid, entry) <==> Admits(m, live, product, paid, entry)
    {
      TrimmingTells(m, live, product, paid, entry);
    }
    if !Text.Tight(entry) && Text.Trim(entry) != "" {
      var owner, live := Member("OWNER", "", Unset), [Text.Trim(entry)];
      Text.TrimTightens(entry);
      TrimmingTells(owner, live, false, x => true, entry);
      assert Admits(owner, live, false, x => true, Text.Trim(entry));
    }
  }

  /** For instance, with a blank in front. */
  lemma OnlyTheFilterTrims(m: Member, paid: string -> bool)
    requires HasBroadAccess(m)
    ensures Requested([" a"]) == ["a"] && Admits(m, ["a"], false, paid, "a")
    ensures Gate(m, ["a"], false, paid, " a") == Failure(NotFound)
  {
    var s := " a";
    assert s[1..] == "a" && Text.TrimStart("a") == "a" && Text.TrimEnd("a") == "a";
    assert Text.Trim(s) == "a";
    var none: seq<string> := [];
    var asked: seq<string> := [s];
    var clean: seq<string> := ["a"];
    assert asked[1..] == none && clean[1..] == none && clean + none == clean;
    assert Trimmed(none) == none && Trimmed(asked) == clean + Trimmed(none);
    assert Unique(none, {"a"}) == none && Unique(clean, {}) == clean + Unique(none, {"a"});
    assert asked[0] != clean[0] && clean[0] in clean && asked[0] !in clean;
  }
}
