/** The savepoint statements of the memory store's client (scripts/test-support/admin-command-memory-db.js).

    A client keeps one copy of the draft per savepoint name in a map.  PostgreSQL keeps a stack of
    savepoints.  The two agree on exactly the scripts that release live names only and roll back only to
    live names whose last savepoint is the innermost live one.  `None` is JavaScript's `undefined`: the draft after rolling back to a name that was
    never saved. */
module Savepoints {

  import opened Wrappers

  datatype Op<!S> = Change(f: S -> S) | Savepoint(name: string) | RollbackTo(name: string) | Release(name: string)

  // ----- The client: a map of copies -----

  datatype Client<S> = Client(draft: Option<S>, saved: map<string, Option<S>>) {
    function Step(op: Op<S>): Client<S> {
      match op
      case Change(f) => if draft.Some? then Client(Some(f(draft.value)), saved) else this
      case Savepoint(n) => Client(draft, saved[n := draft])
      case RollbackTo(n) => Client(if n in saved then saved[n] else None, saved)
      case Release(n) => Client(draft, saved - {n})
    }

    function Run(ops: seq<Op<S>>): Client<S>
      decreases |ops|
    {
      if ops == [] then this else Step(ops[0]).Run(ops[1..])
    }
  }

  // ----- Reference: PostgreSQL's stack -----

  datatype Stack<S> = Stack(draft: S, frames: seq<(string, S)>) {
    /** Position of the innermost savepoint of that name, or -1. */
    function Find(n: string): (i: int)
      ensures -1 <= i < |frames|
      ensures i >= 0 ==> frames[i].0 == n
      ensures forall j :: i < j < |frames| ==> frames[j].0 != n
      decreases |frames|
    {
      if frames == [] then -1
      else if frames[|frames| - 1].0 == n then |frames| - 1
      else Stack(draft, frames[..|frames| - 1]).Find(n)
    }

    /** Rolling back keeps the savepoint and destroys the inner ones, releasing destroys it too. */
    function Step(op: Op<S>): Option<Stack<S>> {
      match op
      case Change(f) => Some(Stack(f(draft), frames))
      case Savepoint(n) => Some(Stack(draft, frames + [(n, draft)]))
      case RollbackTo(n) => var i := Find(n); if i < 0 then None else Some(Stack(frames[i].1, frames[..i + 1]))
      case Release(n) => var i := Find(n); if i < 0 then None else Some(Stack(draft, frames[..i]))
    }
  }

  /** The stack machine over a whole script. */
  function RunStack<S>(s: Stack<S>, ops: seq<Op<S>>): Option<Stack<S>>
    decreases |ops|
  {
    if ops == [] then Some(s)
    else match s.Step(ops[0]) case None => None case Some(t) => RunStack(t, ops[1..])
  }

  // ----- What a script does with names -----

  /** The live savepoints with the numbers of the statements that made them, and the last such statement of
      every name. */
  datatype Names = Names(frames: seq<(string, nat)>, last: map<string, nat>) {
    function Find(n: string): (i: int)
      ensures -1 <= i < |frames|
      ensures i >= 0 ==> frames[i].0 == n
      ensures forall j :: i < j < |frames| ==> frames[j].0 != n
    {
      Stack<nat>.Stack(0, frames).Find(n)
    }

    /** The savepoint is the last one made of its name. */
    predicate IsLast(i: int)
      requires 0 <= i < |frames|
    {
      frames[i].0 in last && frames[i].1 == last[frames[i].0]
    }

    /** A released name is live.  So is one that is rolled back to, and its innermost live savepoint is the
        last one made of that name. */
    predicate Allows<S>(op: Op<S>) {
      match op
      case RollbackTo(n) => Find(n) >= 0 && IsLast(Find(n))
      case Release(n) => Find(n) >= 0
      case _ => true
    }

    /** After statement number `k`. */
    function Step<S>(op: Op<S>, k: nat): Names
      requires Allows(op)
    {
      match op
      case Change(_) => this
      case Savepoint(n) => Names(frames + [(n, k)], last[n := k])
      case RollbackTo(n) => Names(frames[..Find(n) + 1], last)
      case Release(n) => Names(frames[..Find(n)], last)
    }

    predicate Ordered(k: nat) {
      && (forall i :: 0 <= i < |frames| ==> frames[i].0 in last && frames[i].1 <= last[frames[i].0])
      && (forall i, j :: 0 <= i < j < |frames| ==> frames[i].1 < frames[j].1)
      && (forall n :: n in last ==> last[n] < k)
    }
  }

  const NONE := Names([], map[])

  predicate Disciplined<S>(names: Names, ops: seq<Op<S>>, k: nat)
    decreases |ops|
  {
    ops == [] || (names.Allows(ops[0]) && Disciplined(names.Step(ops[0], k), ops[1..], k + 1))
  }

  lemma StepKeepsOrdered<S>(names: Names, op: Op<S>, k: nat)
    requires names.Ordered(k) && names.Allows(op)
    ensures names.Step(op, k).Ordered(k + 1)
  {
  }

  // ----- The map is the stack exactly on disciplined scripts -----

  /** Client and stack agree on the rest of a script: neither errs alone, and a rollback restores the copy of
      the same SAVEPOINT.  To tell the copies apart, statement `k` finds `k` as the draft. */
  predicate Agree(saved: map<string, Option<nat>>, frames: seq<(string, nat)>, ops: seq<Op<nat>>, k: nat)
    decreases |ops|
  {
    ops == [] ||
    var c, s := Client(Some(k), saved).Step(ops[0]), Stack(k, frames).Step(ops[0]);
    && s.Some?
    && (ops[0].RollbackTo? ==> c.draft == Some(s.value.draft))
    && Agree(c.saved, s.value.frames, ops[1..], k + 1)
  }

  /** What the map knows of the names: the last copy of each, until it is released. */
  ghost predicate Knows(saved: map<string, Option<nat>>, names: Names) {
    && (forall n :: n in saved ==> n in names.last && saved[n] == Some(names.last[n]))
    && (forall i :: 0 <= i < |names.frames| && names.IsLast(i) ==> names.frames[i].0 in saved)
  }

  lemma AllowedExactlyWhenAgreed(saved: map<string, Option<nat>>, names: Names, op: Op<nat>, k: nat)
    requires names.Ordered(k) && Knows(saved, names)
    ensures var c, s := Client(Some(k), saved).Step(op), Stack(k, names.frames).Step(op);
      && (names.Allows(op) <==> s.Some? && (op.RollbackTo? ==> c.draft == Some(s.value.draft)))
      && (names.Allows(op) ==> s.value.frames == names.Step(op, k).frames && Knows(c.saved, names.Step(op, k)))
  {
    SameFind(Stack(k, names.frames), Stack(0, names.frames));
    if op.RollbackTo? || op.Release? {
      assert Stack(k, names.frames).Find(op.name) == names.Find(op.name);
    }
  }

  lemma {:induction false} SameFind<S, T>(s: Stack<S>, t: Stack<T>)
    requires |s.frames| == |t.frames| && forall i :: 0 <= i < |s.frames| ==> s.frames[i].0 == t.frames[i].0
    ensures forall n :: s.Find(n) == t.Find(n)
  {
  }

  lemma {:induction false} AgreeFrom(saved: map<string, Option<nat>>, names: Names, ops: seq<Op<nat>>, k: nat)
    requires names.Ordered(k) && Knows(saved, names)
    ensures Agree(saved, names.frames, ops, k) <==> Disciplined(names, ops, k)
    decreases |ops|
  {
    if ops != [] {
      AllowedExactlyWhenAgreed(saved, names, ops[0], k);
      if names.Allows(ops[0]) {
        StepKeepsOrdered(names, ops[0], k);
        AgreeFrom(Client(Some(k), saved).Step(ops[0]).saved, names.Step(ops[0], k), ops[1..], k + 1);
      }
    }
  }

  /** On a script every rollback restores the same savepoint in the map as on the stack, and neither errs
      alone, if and only if every released name is live and every name that is rolled back to is live with
      its last savepoint innermost. */
  lemma AgreeExactlyWhenDisciplined(ops: seq<Op<nat>>)
    ensures Agree(map[], [], ops, 0) <==> Disciplined(NONE, ops, 0)
  {
    AgreeFrom(map[], NONE, ops, 0);
  }

  ghost predicate Refines<S>(c: Client<S>, s: Stack<S>, names: Names) {
    && c.draft == Some(s.draft)
    && |names.frames| == |s.frames|
    && (forall i :: 0 <= i < |s.frames| ==> s.frames[i].0 == names.frames[i].0)
    && (forall i :: 0 <= i < |s.frames| && names.IsLast(i) ==>
          s.frames[i].0 in c.saved && c.saved[s.frames[i].0] == Some(s.frames[i].1))
  }

  lemma StepRefines<S>(c: Client<S>, s: Stack<S>, names: Names, op: Op<S>, k: nat)
    requires names.Ordered(k) && Refines(c, s, names) && names.Allows(op)
    ensures s.Step(op).Some? && Refines(c.Step(op), s.Step(op).value, names.Step(op, k))
  {
    SameFind(s, Stack<nat>.Stack(0, names.frames));
    if op.RollbackTo? || op.Release? {
      assert s.Find(op.name) == names.Find(op.name);
    }
  }

  lemma {:induction false} RunRefines<S>(c: Client<S>, s: Stack<S>, names: Names, ops: seq<Op<S>>, k: nat)
    requires names.Ordered(k) && Refines(c, s, names) && Disciplined(names, ops, k)
    ensures RunStack(s, ops).Some? && c.Run(ops).draft == Some(RunStack(s, ops).value.draft)
    decreases |ops|
  {
    if ops != [] {
      StepRefines(c, s, names, ops[0], k);
      StepKeepsOrdered(names, ops[0], k);
      RunRefines(c.Step(ops[0]), s.Step(ops[0]).value, names.Step(ops[0], k), ops[1..], k + 1);
    }
  }

  /** On a disciplined script the map of copies is a stack of snapshots, whatever the drafts and changes. */
  lemma MapRefinesStack<S>(draft: S, ops: seq<Op<S>>)
    requires Disciplined(NONE, ops, 0)
    ensures RunStack(Stack(draft, []), ops).Some?
    ensures Client(Some(draft), map[]).Run(ops).draft == Some(RunStack(Stack(draft, []), ops).value.draft)
  {
    RunRefines(Client(Some(draft), map[]), Stack(draft, []), NONE, ops, 0);
  }

  // ----- Nested, distinct names are disciplined -----

  /** The names that are live after `op`, if it uses live names only and reuses none. */
  function Live<S>(live: seq<string>, op: Op<S>): Option<seq<string>> {
    match op
    case Change(_) => Some(live)
    case Savepoint(n) => if n in live then None else Some(live + [n])
    case RollbackTo(n) => if n in live then Some(live[..Index(live, n) + 1]) else None
    case Release(n) => if n in live then Some(live[..Index(live, n)]) else None
  }

  function Index(live: seq<string>, n: string): (i: nat)
    requires n in live
    ensures i < |live| && live[i] == n
  {
    if live[|live| - 1] == n then |live| - 1 else Index(live[..|live| - 1], n)
  }

  predicate Nested<S>(live: seq<string>, ops: seq<Op<S>>)
    decreases |ops|
  {
    ops == [] || (Live(live, ops[0]).Some? && Nested(Live(live, ops[0]).value, ops[1..]))
  }

  /** Every live name is live once, with its last savepoint. */
  ghost predicate Fresh(names: Names, live: seq<string>) {
    && |live| == |names.frames| && (forall i, j :: 0 <= i < j < |live| ==> live[i] != live[j])
    && (forall i :: 0 <= i < |live| ==> names.frames[i].0 == live[i] && names.IsLast(i))
  }

  lemma NestedStep<S>(names: Names, live: seq<string>, op: Op<S>, k: nat)
    requires Fresh(names, live) && Live(live, op).Some?
    ensures names.Allows(op) && Fresh(names.Step(op, k), Live(live, op).value)
  {
    if op.RollbackTo? || op.Release? {
      var i := Index(live, op.name);
      assert names.frames[i].0 == op.name;
      assert names.Find(op.name) == i;
    }
  }

  lemma {:induction false} NestedIsDisciplined<S>(names: Names, live: seq<string>, ops: seq<Op<S>>, k: nat)
    requires Fresh(names, live) && Nested(live, ops)
    ensures Disciplined(names, ops, k)
    decreases |ops|
  {
    if ops != [] {
      NestedStep(names, live, ops[0], k);
      NestedIsDisciplined(names.Step(ops[0], k), Live(live, ops[0]).value, ops[1..], k + 1);
    }
  }

  /** Scripts that nest distinct names, as a stack would have them, are disciplined. */
  lemma NestedScripts<S>(draft: S, ops: seq<Op<S>>)
    requires Nested([], ops)
    ensures Disciplined(NONE, ops, 0) && RunStack(Stack(draft, []), ops).Some?
    ensures Client(Some(draft), map[]).Run(ops).draft == Some(RunStack(Stack(draft, []), ops).value.draft)
  {
    NestedIsDisciplined(NONE, [], ops, 0);
    MapRefinesStack(draft, ops);
  }

  // ----- A rollback restores its savepoint -----

  lemma {:induction false} RunAppend<S>(c: Client<S>, a: seq<Op<S>>, b: seq<Op<S>>)
    ensures c.Run(a + b) == c.Run(a).Run(b)
    decreases |a|
  {
    if a == [] {
      assert a + b == b;
    } else {
      assert (a + b)[1..] == a[1..] + b;
      RunAppend(c.Step(a[0]), a[1..], b);
    }
  }

  lemma {:induction false} CopyIsKept<S>(c: Client<S>, n: string, ops: seq<Op<S>>)
    requires n in c.saved
    requires forall i :: 0 <= i < |ops| ==> ops[i] != Op<S>.Savepoint(n) && ops[i] != Op<S>.Release(n)
    ensures n in c.Run(ops).saved && c.Run(ops).saved[n] == c.saved[n]
    decreases |ops|
  {
    if ops != [] {
      CopyIsKept(c.Step(ops[0]), n, ops[1..]);
    }
  }

  /** Whatever happens in between, ROLLBACK TO gives back the draft of the SAVEPOINT, as long as the
      name is neither saved again nor released. */
  lemma RollbackRestores<S>(c: Client<S>, n: string, between: seq<Op<S>>)
    requires forall i :: 0 <= i < |between| ==> between[i] != Op<S>.Savepoint(n) && between[i] != Op<S>.Release(n)
    ensures c.Run([Op<S>.Savepoint(n)] + between + [Op<S>.RollbackTo(n)]).draft == c.draft
  {
    var ops := [Op<S>.Savepoint(n)] + between + [Op<S>.RollbackTo(n)];
    assert ops == [Op<S>.Savepoint(n)] + (between + [Op<S>.RollbackTo(n)]);
    var first := c.Step(Op<S>.Savepoint(n));
    assert ops[1..] == between + [Op<S>.RollbackTo(n)];
    RunAppend(first, between, [Op<S>.RollbackTo(n)]);
    CopyIsKept(first, n, between);
    assert [Op<S>.RollbackTo(n)][1..] == [];
  }

  // ----- Outside the discipline -----

  lemma RunFirst<S>(c: Client<S>, s: Stack<S>, op: Op<S>, rest: seq<Op<S>>)
    ensures c.Run([op] + rest) == c.Step(op).Run(rest)
    ensures RunStack(s, [op] + rest) == (if s.Step(op).None? then None else RunStack(s.Step(op).value, rest))
  {
    assert ([op] + rest)[1..] == rest;
  }

  /** A released name leaves no copy behind: the draft is lost, where the stack reports an error. */
  lemma RollbackAfterRelease<S>(draft: S, n: string)
    ensures var ops := [Op<S>.Savepoint(n)] + ([Op<S>.Release(n)] + ([Op<S>.RollbackTo(n)] + []));
      Client(Some(draft), map[]).Run(ops).draft == None && RunStack(Stack(draft, []), ops) == None
  {
    var c, s := Client(Some(draft), map[]), Stack(draft, []);
    var save, release, back := Op<S>.Savepoint(n), Op<S>.Release(n), Op<S>.RollbackTo(n);
    var s1 := Stack(draft, [(n, draft)]);
    assert s.Step(save).value.frames == s1.frames;
    assert s1.Step(release).value.frames == s.frames;
    RunFirst(c, s, save, [release] + ([back] + []));
    RunFirst(c.Step(save), s1, release, [back] + []);
    RunFirst(c.Step(save).Step(release), s, back, []);
  }

  /** A reused name hides the outer savepoint only on the stack. */
  lemma ReusedName<S>(draft: S, n: string)
    ensures var ops := [Op<S>.Savepoint(n)] + ([Op<S>.Savepoint(n)] + ([Op<S>.Release(n)] + ([Op<S>.RollbackTo(n)] + [])));
      Client(Some(draft), map[]).Run(ops).draft == None && RunStack(Stack(draft, []), ops) == Some(Stack(draft, [(n, draft)]))
  {
    var c, s := Client(Some(draft), map[]), Stack(draft, []);
    var save, release, back := Op<S>.Savepoint(n), Op<S>.Release(n), Op<S>.RollbackTo(n);
    var s1, s2 := Stack(draft, [(n, draft)]), Stack(draft, [(n, draft), (n, draft)]);
    assert s.Step(save).value.frames == s1.frames;
    assert s1.Step(save).value.frames == s2.frames;
    assert s2.Step(release).value.frames == s1.frames;
    assert s1.Step(back).value.frames == s1.frames;
    RunFirst(c, s, save, [save] + ([release] + ([back] + [])));
    RunFirst(c.Step(save), s1, save, [release] + ([back] + []));
    RunFirst(c.Step(save).Step(save), s2, release, [back] + []);
    RunFirst(c.Step(save).Step(save).Step(release), s1, back, []);
  }

  /** A savepoint inside a rolled back one survives in the map only. */
  lemma StaleInnerName<S>(draft: S, outer: string, inner: string)
    requires outer != inner
    ensures var ops := [Op<S>.Savepoint(outer)] + ([Op<S>.Savepoint(inner)] + ([Op<S>.RollbackTo(outer)] + ([Op<S>.RollbackTo(inner)] + [])));
      Client(Some(draft), map[]).Run(ops).draft == Some(draft) && RunStack(Stack(draft, []), ops) == None
  {
    var c, s := Client(Some(draft), map[]), Stack(draft, []);
    var a, b, back, stale := Op<S>.Savepoint(outer), Op<S>.Savepoint(inner), Op<S>.RollbackTo(outer), Op<S>.RollbackTo(inner);
    var s1, s2 := Stack(draft, [(outer, draft)]), Stack(draft, [(outer, draft), (inner, draft)]);
    assert s.Step(a).value.frames == s1.frames;
    assert s1.Step(b).value.frames == s2.frames;
    assert s2.Step(back).value.frames == s1.frames by {
      assert s2.frames[..1] == s1.frames;
      assert s2.Find(outer) == 0;
    }
    RunFirst(c, s, a, [b] + ([back] + ([stale] + [])));
    RunFirst(c.Step(a), s1, b, [back] + ([stale] + []));
    RunFirst(c.Step(a).Step(b), s2, back, [stale] + []);
    RunFirst(c.Step(a).Step(b).Step(back), s1, stale, []);
  }
}
