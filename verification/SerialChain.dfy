/** The promise-chain mutex of `$transaction` (scripts/test-support/admin-command-memory-db.js) and
    of `sessionLock` (public/site/web-api.js).

    Every call hangs its work on the promise of the previous call, `serial.then(run, run)`, and
    publishes a tail that never rejects.  The model keeps the promises apart and lets the
    scheduler choose any order of calls, starts, single actions and settlements.  A transaction
    works on a private copy of the state, which replaces the state when the work succeeds; work
    under the browser lock acts on the shared state at once. */
module SerialChain {

  /** What a callback does: its actions in order, and whether it resolves or rejects after them. */
  datatype Work<!S> = Work(actions: seq<S -> S>, resolves: bool)

  datatype Phase<S> = Waiting | Running(draft: S, done: nat) | Settled(resolved: bool)

  /** `after` is the call whose promise this one was chained to, -1 for the initial promise. */
  datatype Call<!S> = Call(work: Work<S>, after: int, phase: Phase<S>)

  /** `serial` is the call whose promise is the tail of the chain. */
  datatype Chain<!S> = Chain(copies: bool, state: S, calls: seq<Call<S>>, serial: int)

  datatype Event<!S> = Enqueue(work: Work<S>) | Start(call: nat) | Act(call: nat) | Settle(call: nat)

  predicate Released<S>(c: Chain<S>, after: int) {
    after == -1 || (0 <= after < |c.calls| && c.calls[after].phase.Settled?)
  }

  predicate Enabled<S>(c: Chain<S>, e: Event<S>) {
    match e
    case Enqueue(_) => true
    case Start(k) => k < |c.calls| && c.calls[k].phase.Waiting? && Released(c, c.calls[k].after)
    case Act(k) => k < |c.calls| && c.calls[k].phase.Running? && c.calls[k].phase.done < |c.calls[k].work.actions|
    case Settle(k) => k < |c.calls| && c.calls[k].phase.Running? && c.calls[k].phase.done == |c.calls[k].work.actions|
  }

  function SetPhase<S>(c: Chain<S>, k: nat, p: Phase<S>): Chain<S>
    requires k < |c.calls|
  {
    c.(calls := c.calls[k := c.calls[k].(phase := p)])
  }

  /** An event that is not enabled does not happen. */
  function Next<S>(c: Chain<S>, e: Event<S>): Chain<S> {
    if !Enabled(c, e) then c
    else
      match e
      case Enqueue(work) => c.(calls := c.calls + [Call(work, c.serial, Waiting)], serial := |c.calls|)
      case Start(k) => SetPhase(c, k, Running(c.state, 0))
      case Act(k) =>
        var p := c.calls[k].phase;
        var draft := c.calls[k].work.actions[p.done](p.draft);
        SetPhase(if c.copies then c else c.(state := draft), k, Running(draft, p.done + 1))
      case Settle(k) =>
        var commits := c.copies && c.calls[k].work.resolves;
        SetPhase(if commits then c.(state := c.calls[k].phase.draft) else c, k, Settled(c.calls[k].work.resolves))
  }

  function Run<S>(c: Chain<S>, events: seq<Event<S>>): Chain<S>
    decreases |events|
  {
    if events == [] then c else Run(Next(c, events[0]), events[1..])
  }

  function Begin<S>(copies: bool, initial: S): Chain<S> {
    Chain(copies, initial, [], -1)
  }

  // ----- Reference: one call after the other -----

  function Perform<S>(s: S, actions: seq<S -> S>): S
    decreases |actions|
  {
    if actions == [] then s else actions[|actions| - 1](Perform(s, actions[..|actions| - 1]))
  }

  lemma PerformNext<S>(s: S, actions: seq<S -> S>, done: nat)
    requires done < |actions|
    ensures Perform(s, actions[..done + 1]) == actions[done](Perform(s, actions[..done]))
  {
    assert actions[..done + 1][..done] == actions[..done];
  }

  /** The calls performed in call order: a failed transaction leaves no trace, failed work under the
      lock leaves what it did. */
  function Fold<S>(copies: bool, initial: S, calls: seq<Call<S>>): S
    decreases |calls|
  {
    if calls == [] then initial
    else
      var before := Fold(copies, initial, calls[..|calls| - 1]);
      var work := calls[|calls| - 1].work;
      if copies && !work.resolves then before else Perform(before, work.actions)
  }

  lemma FoldNext<S>(copies: bool, initial: S, calls: seq<Call<S>>, k: nat)
    requires k < |calls|
    ensures var before := Fold(copies, initial, calls[..k]);
            Fold(copies, initial, calls[..k + 1]) ==
              if copies && !calls[k].work.resolves then before else Perform(before, calls[k].work.actions)
  {
    assert calls[..k + 1][..k] == calls[..k];
  }

  // ----- Invariant -----

  /** The first call that has not settled. */
  function FirstUnsettled<S>(calls: seq<Call<S>>): (n: nat)
    ensures n <= |calls|
    ensures forall k :: 0 <= k < n ==> calls[k].phase.Settled?
    ensures n < |calls| ==> !calls[n].phase.Settled?
  {
    if calls == [] || !calls[0].phase.Settled? then 0
    else 1 + FirstUnsettled(calls[1..])
  }

  ghost predicate Chained<S>(c: Chain<S>) {
    c.serial == |c.calls| - 1 && forall k :: 0 <= k < |c.calls| ==> c.calls[k].after == k - 1
  }

  /** The first `n` calls have settled, each as its own work says, and only the next one may have started,
      on the state that they left. */
  ghost predicate Ordered<S>(copies: bool, calls: seq<Call<S>>, state: S, n: nat, before: S) {
    && n <= |calls|
    && (forall k :: n < k < |calls| ==> calls[k].phase.Waiting?)
    && (forall k :: 0 <= k < n ==> calls[k].phase == Phase<S>.Settled(calls[k].work.resolves))
    && if n < |calls| && calls[n].phase.Running? then Performing(copies, calls[n], state, before) else state == before
  }

  ghost predicate Performing<S>(copies: bool, call: Call<S>, state: S, before: S)
    requires call.phase.Running?
  {
    var p := call.phase;
    && p.done <= |call.work.actions|
    && p.draft == Perform(before, call.work.actions[..p.done])
    && state == (if copies then before else p.draft)
  }

  /** Only the first unsettled call may have started, on the folded state. */
  ghost predicate InOrder<S>(c: Chain<S>, initial: S) {
    var n := FirstUnsettled(c.calls);
    Ordered(c.copies, c.calls, c.state, n, Fold(c.copies, initial, c.calls[..n]))
  }

  ghost predicate Inv<S>(c: Chain<S>, initial: S) {
    Chained(c) && InOrder(c, initial)
  }

  lemma FirstUnsettledIs<S>(calls: seq<Call<S>>, n: nat)
    requires n <= |calls| && forall k :: 0 <= k < n ==> calls[k].phase.Settled?
    requires n < |calls| ==> !calls[n].phase.Settled?
    ensures FirstUnsettled(calls) == n
  {
  }

  lemma {:induction false} FoldSame<S>(copies: bool, initial: S, a: seq<Call<S>>, b: seq<Call<S>>)
    requires |a| == |b| && forall k :: 0 <= k < |a| ==> a[k].work == b[k].work
    ensures Fold(copies, initial, a) == Fold(copies, initial, b)
    decreases |a|
  {
    if a != [] {
      FoldSame(copies, initial, a[..|a| - 1], b[..|b| - 1]);
    }
  }

  lemma TheFirstMoves<S>(c: Chain<S>, initial: S, e: Event<S>)
    requires Inv(c, initial) && Enabled(c, e) && !e.Enqueue?
    ensures e.call == FirstUnsettled(c.calls)
  {
  }

  lemma EnqueueKeeps<S>(c: Chain<S>, initial: S, work: Work<S>)
    requires Inv(c, initial)
    ensures Inv(Next(c, Enqueue(work)), initial)
  {
    var next := Next(c, Enqueue(work));
    var n := FirstUnsettled(c.calls);
    FirstUnsettledIs(next.calls, n);
    assert next.calls[..n] == c.calls[..n];
    hide Fold, FirstUnsettled, Performing;
  }

  lemma StartOrdered<S>(c: Chain<S>, n: nat, before: S)
    requires Ordered(c.copies, c.calls, c.state, n, before) && Enabled(c, Event<S>.Start(n))
    ensures var next := Next(c, Event<S>.Start(n)); Ordered(next.copies, next.calls, next.state, n, before)
  {
    assert c.calls[n].work.actions[..0] == [];
    hide Released;
  }

  lemma StartKeeps<S>(c: Chain<S>, initial: S, n: nat)
    requires Inv(c, initial) && Enabled(c, Event<S>.Start(n))
    ensures Inv(Next(c, Event<S>.Start(n)), initial)
  {
    TheFirstMoves(c, initial, Event<S>.Start(n));
    var next := Next(c, Event<S>.Start(n));
    FirstUnsettledIs(next.calls, n);
    assert next.calls[..n] == c.calls[..n];
    StartOrdered(c, n, Fold(c.copies, initial, c.calls[..n]));
    hide Fold, FirstUnsettled, Ordered;
  }

  lemma ActOrdered<S>(c: Chain<S>, n: nat, before: S)
    requires Ordered(c.copies, c.calls, c.state, n, before) && Enabled(c, Event<S>.Act(n))
    ensures var next := Next(c, Event<S>.Act(n)); Ordered(next.copies, next.calls, next.state, n, before)
  {
    PerformNext(before, c.calls[n].work.actions, c.calls[n].phase.done);
    hide Perform;
  }

  lemma ActKeeps<S>(c: Chain<S>, initial: S, n: nat)
    requires Inv(c, initial) && Enabled(c, Event<S>.Act(n))
    ensures Inv(Next(c, Event<S>.Act(n)), initial)
  {
    TheFirstMoves(c, initial, Event<S>.Act(n));
    var next := Next(c, Event<S>.Act(n));
    FirstUnsettledIs(next.calls, n);
    assert next.calls[..n] == c.calls[..n];
    ActOrdered(c, n, Fold(c.copies, initial, c.calls[..n]));
    hide Fold, FirstUnsettled, Ordered;
  }

  lemma SettleOrdered<S>(c: Chain<S>, n: nat, before: S)
    requires Ordered(c.copies, c.calls, c.state, n, before) && Enabled(c, Event<S>.Settle(n))
    ensures var next := Next(c, Event<S>.Settle(n)); var work := c.calls[n].work;
            Ordered(next.copies, next.calls, next.state, n + 1,
                    if c.copies && !work.resolves then before else Perform(before, work.actions))
  {
    var actions := c.calls[n].work.actions;
    assert actions[..|actions|] == actions;
    hide Perform;
  }

  lemma SettleKeeps<S>(c: Chain<S>, initial: S, n: nat)
    requires Inv(c, initial) && Enabled(c, Event<S>.Settle(n))
    ensures Inv(Next(c, Event<S>.Settle(n)), initial)
  {
    TheFirstMoves(c, initial, Event<S>.Settle(n));
    var next := Next(c, Event<S>.Settle(n));
    FirstUnsettledIs(next.calls, n + 1);
    assert next.calls[..n] == c.calls[..n];
    FoldNext(c.copies, initial, next.calls, n);
    SettleOrdered(c, n, Fold(c.copies, initial, c.calls[..n]));
    hide Fold, FirstUnsettled, Ordered;
  }

  lemma {:induction false} RunKeeps<S>(c: Chain<S>, initial: S, events: seq<Event<S>>)
    requires Inv(c, initial)
    ensures Inv(Run(c, events), initial) && Run(c, events).copies == c.copies
    decreases |events|
  {
    hide Inv;
    if events != [] {
      var e := events[0];
      if Enabled(c, e) {
        match e
        case Enqueue(work) => EnqueueKeeps(c, initial, work);
        case Settle(k) => SettleKeeps(c, initial, k);
        case Start(n) => StartKeeps(c, initial, n);
        case Act(n) => ActKeeps(c, initial, n);
      }
      RunKeeps(Next(c, e), initial, events[1..]);
    }
  }

  // ----- Main results -----

  /** Under every schedule the settled calls are the first ones, each settles as its own work says,
      and whenever no work is running the state is their fold in call order. */
  lemma CommitsInCallOrder<S>(copies: bool, initial: S, events: seq<Event<S>>)
    ensures var c := Run(Begin(copies, initial), events); var n := FirstUnsettled(c.calls);
      && (forall k :: 0 <= k < n ==> c.calls[k].phase == Phase<S>.Settled(c.calls[k].work.resolves))
      && (forall k :: n < k < |c.calls| ==> c.calls[k].phase.Waiting?)
      && (copies || !(n < |c.calls| && c.calls[n].phase.Running?) ==> c.state == Fold(copies, initial, c.calls[..n]))
  {
    RunKeeps(Begin(copies, initial), initial, events);
  }

  /** Under every schedule work overlaps with no other work: whatever moves is the first call that has not
      settled, and no other one is running. */
  lemma OnlyTheFirstMoves<S>(copies: bool, initial: S, events: seq<Event<S>>, e: Event<S>)
    requires !e.Enqueue? && Enabled(Run(Begin(copies, initial), events), e)
    ensures var c := Run(Begin(copies, initial), events);
      e.call == FirstUnsettled(c.calls)
      && forall k :: 0 <= k < |c.calls| && k != e.call ==> !c.calls[k].phase.Running?
  {
    RunKeeps(Begin(copies, initial), initial, events);
    TheFirstMoves(Run(Begin(copies, initial), events), initial, e);
  }

  /** Whatever has failed, the first unsettled call can always go on. */
  lemma NeverBlocks<S>(copies: bool, initial: S, events: seq<Event<S>>)
    ensures var c := Run(Begin(copies, initial), events); var n := FirstUnsettled(c.calls);
      n < |c.calls| ==> Enabled(c, Event<S>.Start(n)) || Enabled(c, Event<S>.Act(n)) || Enabled(c, Event<S>.Settle(n))
  {
    RunKeeps(Begin(copies, initial), initial, events);
  }

  function Successful<S>(calls: seq<Call<S>>): seq<Call<S>>
    decreases |calls|
  {
    if calls == [] then []
    else Successful(calls[..|calls| - 1]) + (if calls[|calls| - 1].work.resolves then [calls[|calls| - 1]] else [])
  }

  /** A failed transaction leaves no trace: the successful ones alone lead to the same state. */
  lemma {:induction false} FailuresLeaveNoTrace<S>(initial: S, calls: seq<Call<S>>)
    ensures Fold(true, initial, calls) == Fold(true, initial, Successful(calls))
    decreases |calls|
  {
    if calls != [] {
      var front, last := calls[..|calls| - 1], calls[|calls| - 1];
      FailuresLeaveNoTrace(initial, front);
      if last.work.resolves {
        var kept := Successful(front) + [last];
        assert kept[..|kept| - 1] == Successful(front) && kept[|kept| - 1] == last;
        assert Fold(true, initial, kept) == Perform(Fold(true, initial, Successful(front)), last.work.actions);
      } else {
        assert Successful(calls) == Successful(front);
      }
    }
  }
}
