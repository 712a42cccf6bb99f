/** The index repair under the lifecycle authority
    (scripts/database/phase3-campaign-coverage-generation-online-preflight.js, withIndexLifecycleAuthority
    around ensureCurrentRunLookupIndex).

    Any number of installers share one catalog.  Each issues the statements of the repair while it is
    inside its work, and its work ends as the repair does.  A statement that throws in the middle of a
    DROP or CREATE may leave any index behind. */
module IndexLifecycle {

  import L = LifecycleAuthority
  import R = IndexRepair
  import opened Wrappers

  datatype World = World(authority: L.World, catalog: R.World, repairs: seq<R.State>)

  datatype Options = Options(authority: L.Options, repair: R.Options)

  datatype Event =
    | Authority(call: L.Event)
    | Repair(i: nat, statement: R.Event)
    | Throws(i: nat, left: Option<R.IndexRow>)
    | Others(catalog: R.World)              // sessions outside the authority, and time

  /** The work of an installer throws exactly if its repair does. */
  predicate EndsAsRepair(s: R.State, error: Option<L.Error>) {
    if error.None? then s.pc.Done? else s.pc.Failed?
  }

  predicate Works(w: World, i: nat) {
    i < |w.authority.installers| == |w.repairs| && w.authority.installers[i].pc.Working?
  }

  predicate Enabled(w: World, e: Event) {
    match e
    case Authority(a) =>
      && L.Enabled(w.authority, a)
      && (a.Act? && a.move.Work? ==> a.i < |w.repairs| && EndsAsRepair(w.repairs[a.i], a.move.error))
    case Repair(i, r) =>
      Works(w, i) && !r.Outside? && !r.Threw? && R.Enabled(R.Config(w.repairs[i], w.catalog), r)
    case Throws(i, left) =>
      && Works(w, i) && !R.Over(w.repairs[i].pc)
      && (left == w.catalog.index || w.repairs[i].pc.Dropping? || w.repairs[i].pc.Creating?)
    case Others(catalog) => catalog.clock >= w.catalog.clock
  }

  /** An event that is not enabled does not happen. */
  function Step(o: Options, w: World, e: Event): (after: World)
    ensures |after.repairs| == |w.repairs|
  {
    if !Enabled(w, e) then w
    else
      match e
      case Authority(a) => w.(authority := L.Step(o.authority, w.authority, a))
      case Repair(i, r) =>
        w.(repairs := w.repairs[i := R.Next(o.repair, w.repairs[i], r)], catalog := R.Effect(o.repair, w.catalog, r))
      case Throws(i, left) =>
        w.(repairs := w.repairs[i := w.repairs[i].(pc := R.Failed)], catalog := w.catalog.(index := left))
      case Others(catalog) => w.(catalog := catalog)
  }

  function Run(o: Options, w: World, events: seq<Event>): World
    decreases |events|
  {
    if events == [] then w else Run(o, Step(o, w, events[0]), events[1..])
  }

  /** No session is lost, and nobody outside the authority changes the index. */
  predicate Orderly(w: World, e: Event) {
    && (e.Authority? ==> !e.call.Lose?)
    && (e.Others? ==> e.catalog.index == w.catalog.index)
  }

  ghost predicate AllOrderly(o: Options, w: World, events: seq<Event>)
    decreases |events|
  {
    events == [] || (Orderly(w, events[0]) && AllOrderly(o, Step(o, w, events[0]), events[1..]))
  }

  /** Nobody has begun; the catalog is any. */
  ghost predicate Initial(w: World) {
    && L.Initial(w.authority) && |w.repairs| == |w.authority.installers|
    && forall i :: 0 <= i < |w.repairs| ==> w.repairs[i] == R.START
  }

  // ----- Invariant -----

  /** What one installer relies on. */
  predicate Part(x: L.Installer, s: R.State, index: Option<R.IndexRow>) {
    if x.pc.Working? then R.Alone(s, index)
    else if x.pc.Releasing? then x.workError.None? ==> R.Conforms(index)
    else if x.pc.Over? then x.pc.outcome == L.Returned ==> R.Conforms(index)
    else s == R.START
  }

  ghost predicate Parts(w: World) {
    && |w.repairs| == |w.authority.installers|
    && forall i :: 0 <= i < |w.repairs| ==> Part(w.authority.installers[i], w.repairs[i], w.catalog.index)
  }

  ghost predicate Inv(w: World) {
    && L.Locked(w.authority) && L.AllHealthy(w.authority) && L.AllBalanced(w.authority)
    && Parts(w)
  }

  lemma OneWorks(w: World, i: nat, j: nat)
    requires Inv(w) && Works(w, i) && Works(w, j)
    ensures i == j
  {
    var x, y := w.authority.installers[i], w.authority.installers[j];
    assert L.Healthy(x) && L.Healthy(y) && L.Owns(x, w.authority.lock) && L.Owns(y, w.authority.lock);
  }

  /** Only the part of the one that moves is new. */
  lemma MoveKeepsPart(o: Options, w: World, a: L.Event, i: nat)
    requires Parts(w) && i < |w.repairs| && Enabled(w, Authority(a)) && !a.Lose?
    ensures |L.Step(o.authority, w.authority, a).installers| == |w.repairs|
    ensures Part(L.Step(o.authority, w.authority, a).installers[i], w.repairs[i], w.catalog.index)
  {
    assert Part(w.authority.installers[i], w.repairs[i], w.catalog.index);
    hide R.Conforming;
  }

  /** Those that are not working rely on no more than a conforming index to stay one. */
  lemma PartStays(x: L.Installer, s: R.State, index: Option<R.IndexRow>, next: Option<R.IndexRow>)
    requires Part(x, s, index) && !x.pc.Working? && (R.Conforms(index) ==> R.Conforms(next))
    ensures Part(x, s, next)
  {
  }

  lemma WorkKeepsParts(o: Options, w: World, e: Event)
    requires Inv(w) && Enabled(w, e) && (e.Repair? || e.Throws?)
    ensures Parts(Step(o, w, e))
    ensures R.Conforms(w.catalog.index) ==> R.Conforms(Step(o, w, e).catalog.index)
  {
    var after := Step(o, w, e);
    assert Part(w.authority.installers[e.i], w.repairs[e.i], w.catalog.index);
    WorkKeepsIndex(o, w, e);
    forall j | 0 <= j < |w.repairs|
      ensures Part(w.authority.installers[j], after.repairs[j], after.catalog.index)
    {
      if j != e.i {
        if Works(w, j) {
          OneWorks(w, e.i, j);
        }
        hide *;
        PartStays(w.authority.installers[j], w.repairs[j], w.catalog.index, after.catalog.index);
      }
    }
  }

  lemma WorkKeepsIndex(o: Options, w: World, e: Event)
    requires Enabled(w, e) && (e.Repair? || e.Throws?)
    requires R.Alone(w.repairs[e.i], w.catalog.index)
    ensures var after := Step(o, w, e);
            && after.authority == w.authority && (forall j :: 0 <= j < |w.repairs| && j != e.i ==> after.repairs[j] == w.repairs[j])
            && R.Alone(after.repairs[e.i], after.catalog.index)
            && (R.Conforms(w.catalog.index) ==> after.catalog.index == w.catalog.index)
  {
    if e.Repair? {
      R.AloneStep(o.repair, R.Config(w.repairs[e.i], w.catalog), e.statement);
    }
    hide R.Conforming;
  }

  lemma StepKeepsInv(o: Options, w: World, e: Event)
    requires Inv(w) && Orderly(w, e)
    ensures Inv(Step(o, w, e))
    ensures R.Conforms(w.catalog.index) ==> R.Conforms(Step(o, w, e).catalog.index)
  {
    if Enabled(w, e) {
      if e.Authority? {
        L.StepKeepsSeparate(o.authority, w.authority, e.call);
        L.StepKeepsDated(o.authority, w.authority, e.call);
        L.StepKeepsOwned(o.authority, w.authority, e.call);
        L.StepKeepsHealthy(o.authority, w.authority, e.call);
        L.StepKeepsBalanced(o.authority, w.authority, e.call);
        forall i | 0 <= i < |w.repairs|
          ensures Part(Step(o, w, e).authority.installers[i], w.repairs[i], w.catalog.index)
        {
          MoveKeepsPart(o, w, e.call, i);
        }
        hide Part, L.Separate, L.AllDated, L.Owned, L.AllHealthy, L.AllBalanced, L.Step;
      } else if e.Repair? || e.Throws? {
        WorkKeepsParts(o, w, e);
        hide Parts, L.Locked, L.AllHealthy, L.AllBalanced;
      }
    }
  }

  lemma {:induction false} RunKeepsInv(o: Options, w: World, events: seq<Event>)
    requires Inv(w) && AllOrderly(o, w, events)
    ensures Inv(Run(o, w, events))
    ensures R.Conforms(w.catalog.index) ==> R.Conforms(Run(o, w, events).catalog.index)
    decreases |events|
  {
    if events != [] {
      StepKeepsInv(o, w, events[0]);
      hide Inv, Orderly, Step;
      RunKeepsInv(o, Step(o, w, events[0]), events[1..]);
    }
  }

  lemma InitialInv(w: World)
    requires Initial(w)
    ensures Inv(w)
  {
  }

  // ----- Main results -----

  /** Over every interleaving of any number of installers, with whatever errors and whatever other builds on
      the table: as long as no session is lost and nobody outside changes the index, a DROP only ever
      removes a nonconforming index. */
  lemma DropsOnlyNonconforming(o: Options, w: World, events: seq<Event>, i: nat)
    requires Initial(w) && AllOrderly(o, w, events)
    requires Enabled(Run(o, w, events), Repair(i, R.Dropped))
    ensures Run(o, w, events).catalog.index.Some? && !R.Conforms(Run(o, w, events).catalog.index)
  {
    InitialInv(w);
    RunKeepsInv(o, w, events);
    var after := Run(o, w, events);
    assert Part(after.authority.installers[i], after.repairs[i], after.catalog.index);
  }

  /** Then a call that returns leaves a conforming index, for as long as the run goes on. */
  lemma ReturnLeavesConforming(o: Options, w: World, events: seq<Event>, i: nat)
    requires Initial(w) && AllOrderly(o, w, events) && i < |Run(o, w, events).authority.installers|
    requires Run(o, w, events).authority.installers[i].pc == L.Over(L.Returned)
    ensures R.Conforms(Run(o, w, events).catalog.index)
  {
    InitialInv(w);
    RunKeepsInv(o, w, events);
    var after := Run(o, w, events);
    assert Part(after.authority.installers[i], after.repairs[i], after.catalog.index);
  }

  /** And a conforming index, whoever built it, is never lost. */
  lemma ConformingForGood(o: Options, w: World, events: seq<Event>)
    requires Initial(w) && AllOrderly(o, w, events) && R.Conforms(w.catalog.index)
    ensures R.Conforms(Run(o, w, events).catalog.index)
  {
    InitialInv(w);
    RunKeepsInv(o, w, events);
  }
}
