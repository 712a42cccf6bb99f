/** The index lifecycle authority (scripts/database/phase3-campaign-coverage-generation-online-preflight.js,
    withIndexLifecycleAuthority).

    Any number of installers compete for one session advisory lock by polling.  The server frees the
    lock when the holder's session is lost, which may happen at any moment and is noticed only by
    comparing session numbers; the client then goes on with a new session.  `Advance` is one
    installer's control flow, `Step` the whole system, and `Client.WithAuthority` the program. */
module LifecycleAuthority {

  import opened Wrappers

  datatype Error = Connection | TimedOut | ContractBroken | SessionChanged | NotHeld | WorkFailed(code: int)

  datatype Outcome = Returned | Threw(error: Error)

  datatype Pc = Idle | Trying | Denied | Sleeping | Held | Working | Releasing | Over(outcome: Outcome)

  /** One call.  `acquired` is the session that took the lock; the counters remember how often the lock
      was taken, its release was attempted and the work was entered. */
  datatype Installer = Installer(
    pc: Pc, session: nat, start: nat, attempts: nat, acquired: Option<nat>, workError: Option<Error>,
    acquisitions: nat, releases: nat, entries: nat)

  datatype World = World(clock: nat, lock: Option<nat>, unused: nat, installers: seq<Installer>)

  datatype Options = Options(timeout: int, poll: int)

  datatype Move =
    | Begin
    | Try(granted: bool)
    | TestTime
    | Sleep
    | Check(fit: bool)            // apart from the session's number, the connections are as required
    | Work(error: Option<Error>)
    | Release(held: bool)
    | Break                       // the query of the current step rejects

  datatype Event = Act(i: nat, move: Move) | Lose(i: nat) | Pass(ms: nat)

  function Nap(o: Options): (ms: nat)
    ensures ms >= 1
  {
    if o.poll < 1 then 1 else o.poll
  }

  // ----- One installer -----

  predicate Fits(pc: Pc, m: Move) {
    match m
    case Begin => pc.Idle?
    case Try(_) => pc.Trying?
    case TestTime => pc.Denied?
    case Sleep => pc.Sleeping?
    case Check(_) => pc.Held?
    case Work(_) => pc.Working?
    case Release(_) => pc.Releasing?
    case Break => pc.Trying? || pc.Held? || pc.Releasing?
  }

  /** What the `finally` block makes of the release: an error of the work comes first. */
  function Finish(x: Installer, releaseError: Option<Error>): Installer {
    var outcome := if x.workError.Some? then Threw(x.workError.value)
                   else if releaseError.Some? then Threw(releaseError.value) else Returned;
    x.(releases := x.releases + 1, pc := Over(outcome))
  }

  function Advance(o: Options, x: Installer, m: Move, clock: nat): Installer
    requires Fits(x.pc, m)
  {
    match m
    case Begin => x.(pc := Trying, start := clock)
    case Try(granted) =>
      if granted then
        x.(attempts := x.attempts + 1, pc := Held, acquired := Some(x.session), acquisitions := x.acquisitions + 1)
      else x.(attempts := x.attempts + 1, pc := Denied)
    case TestTime => x.(pc := if clock - x.start >= o.timeout then Over(Threw(TimedOut)) else Sleeping)
    case Sleep => x.(pc := Trying)
    case Check(fit) =>
      if Some(x.session) != x.acquired then x.(pc := Releasing, workError := Some(SessionChanged))
      else if !fit then x.(pc := Releasing, workError := Some(ContractBroken))
      else x.(pc := Working, entries := x.entries + 1)
    case Work(error) => x.(pc := Releasing, workError := error)
    case Release(held) =>
      Finish(x, if Some(x.session) != x.acquired then Some(SessionChanged) else if !held then Some(NotHeld) else None)
    case Break =>
      if x.pc.Trying? then x.(attempts := x.attempts + 1, pc := Over(Threw(Connection)))
      else if x.pc.Held? then x.(pc := Releasing, workError := Some(Connection))
      else Finish(x, Some(Connection))
  }

  // ----- The system -----

  predicate Enabled(w: World, e: Event) {
    match e
    case Pass(_) => true
    case Lose(i) => i < |w.installers|
    case Act(i, m) =>
      && i < |w.installers| && Fits(w.installers[i].pc, m)
      && (m.Try? ==> (m.granted <==> w.lock.None? || w.lock == Some(w.installers[i].session)))
      && (m.Release? ==> (m.held <==> w.lock == Some(w.installers[i].session)))
  }

  /** An event that is not enabled does not happen. */
  function Step(o: Options, w: World, e: Event): (after: World)
    ensures |after.installers| == |w.installers|
  {
    if !Enabled(w, e) then w
    else
      match e
      case Pass(ms) => w.(clock := w.clock + ms)
      case Lose(i) =>
        var x := w.installers[i];
        w.(installers := w.installers[i := x.(session := w.unused)], unused := w.unused + 1,
           lock := if w.lock == Some(x.session) then None else w.lock)
      case Act(i, m) =>
        var x := w.installers[i];
        w.(installers := w.installers[i := Advance(o, x, m, w.clock)],
           lock := if m == Try(true) then Some(x.session) else if m == Release(true) then None else w.lock,
           clock := if m.Sleep? then w.clock + Nap(o) else w.clock)
  }

  function Run(o: Options, w: World, events: seq<Event>): (after: World)
    ensures |after.installers| == |w.installers|
    decreases |events|
  {
    if events == [] then w else Run(o, Step(o, w, events[0]), events[1..])
  }

  lemma {:induction false} RunConcat(o: Options, w: World, a: seq<Event>, b: seq<Event>)
    ensures Run(o, w, a + b) == Run(o, Run(o, w, a), b)
    decreases |a|
  {
    if a == [] {
      assert a + b == b;
    } else {
      assert (a + b)[0] == a[0] && (a + b)[1..] == a[1..] + b;
      RunConcat(o, Step(o, w, a[0]), a[1..], b);
    }
  }

  function Newcomer(session: nat): Installer {
    Installer(Idle, session, 0, 0, None, None, 0, 0, 0)
  }

  /** Nobody has begun; the sessions differ, and nobody holds the lock. */
  ghost predicate Initial(w: World) {
    && w.lock.None?
    && Separate(w)
    && forall i :: 0 <= i < |w.installers| ==> w.installers[i] == Newcomer(w.installers[i].session)
  }

  // ----- The lock -----

  ghost predicate Separate(w: World) {
    && (forall i :: 0 <= i < |w.installers| ==> w.installers[i].session < w.unused)
    && (forall i, j :: 0 <= i < j < |w.installers| ==> w.installers[i].session != w.installers[j].session)
  }

  predicate Holds(pc: Pc) {
    pc.Held? || pc.Working? || pc.Releasing?
  }

  /** Its session is still the one that took the lock. */
  predicate Healthy(x: Installer) {
    x.acquired == Some(x.session)
  }

  /** A healthy installer between acquisition and release has the lock. */
  predicate Owns(x: Installer, lock: Option<nat>) {
    Holds(x.pc) && Healthy(x) ==> lock == Some(x.session)
  }

  ghost predicate Owned(w: World) {
    forall i :: 0 <= i < |w.installers| ==> Owns(w.installers[i], w.lock)
  }

  predicate Dated(x: Installer) {
    x.acquired.Some? ==> x.acquired.value <= x.session
  }

  ghost predicate AllDated(w: World) {
    forall i :: 0 <= i < |w.installers| ==> Dated(w.installers[i])
  }

  lemma StepKeepsSeparate(o: Options, w: World, e: Event)
    requires Separate(w)
    ensures Separate(Step(o, w, e))
  {
  }

  lemma StepKeepsDated(o: Options, w: World, e: Event)
    requires Separate(w) && AllDated(w)
    ensures AllDated(Step(o, w, e))
  {
  }

  lemma StepKeepsOwned(o: Options, w: World, e: Event)
    requires Separate(w) && AllDated(w) && Owned(w)
    ensures Owned(Step(o, w, e))
  {
  }

  ghost predicate Locked(w: World) {
    Separate(w) && AllDated(w) && Owned(w)
  }

  lemma {:induction false} RunKeepsLocked(o: Options, w: World, events: seq<Event>)
    requires Locked(w)
    ensures Locked(Run(o, w, events))
    decreases |events|
  {
    if events != [] {
      StepKeepsSeparate(o, w, events[0]);
      StepKeepsDated(o, w, events[0]);
      StepKeepsOwned(o, w, events[0]);
      RunKeepsLocked(o, Step(o, w, events[0]), events[1..]);
    }
  }

  /** At most one healthy installer is between acquisition and release. */
  lemma OneHealthyHolder(o: Options, w: World, events: seq<Event>, i: nat, j: nat)
    requires Initial(w)
    requires i < |w.installers| && j < |w.installers|
    requires var after := Run(o, w, events);
             && Holds(after.installers[i].pc) && Healthy(after.installers[i])
             && Holds(after.installers[j].pc) && Healthy(after.installers[j])
    ensures i == j
  {
    RunKeepsLocked(o, w, events);
  }

  predicate NoLoss(events: seq<Event>) {
    forall e :: e in events ==> !e.Lose?
  }

  ghost predicate AllHealthy(w: World) {
    forall i :: 0 <= i < |w.installers| && Holds(w.installers[i].pc) ==> Healthy(w.installers[i])
  }

  lemma StepKeepsHealthy(o: Options, w: World, e: Event)
    requires AllHealthy(w) && !e.Lose?
    ensures AllHealthy(Step(o, w, e))
  {
  }

  lemma {:induction false} RunKeepsHealthy(o: Options, w: World, events: seq<Event>)
    requires AllHealthy(w) && NoLoss(events)
    ensures AllHealthy(Run(o, w, events))
    decreases |events|
  {
    if events != [] {
      StepKeepsHealthy(o, w, events[0]);
      RunKeepsHealthy(o, Step(o, w, events[0]), events[1..]);
    }
  }

  /** As long as no session is lost, at most one installer is inside its work. */
  lemma OneWorker(o: Options, w: World, events: seq<Event>, i: nat, j: nat)
    requires Initial(w) && NoLoss(events)
    requires i < |w.installers| && j < |w.installers|
    requires Run(o, w, events).installers[i].pc.Working? && Run(o, w, events).installers[j].pc.Working?
    ensures i == j
  {
    RunKeepsHealthy(o, w, events);
    OneHealthyHolder(o, w, events, i, j);
  }

  /** The session that took the lock is gone, or the call has thrown. */
  predicate Doomed(x: Installer) {
    && x.acquired.Some? && x.acquired.value < x.session
    && (Holds(x.pc) || (x.pc.Over? && x.pc.outcome.Threw?))
  }

  lemma StepKeepsDoomed(o: Options, w: World, e: Event, i: nat)
    requires i < |w.installers| && Separate(w) && Doomed(w.installers[i])
    ensures Doomed(Step(o, w, e).installers[i])
  {
  }

  lemma {:induction false} RunKeepsDoomed(o: Options, w: World, events: seq<Event>, i: nat)
    requires i < |w.installers| && Separate(w) && Doomed(w.installers[i])
    ensures Doomed(Run(o, w, events).installers[i])
    decreases |events|
  {
    if events != [] {
      StepKeepsSeparate(o, w, events[0]);
      StepKeepsDoomed(o, w, events[0], i);
      RunKeepsDoomed(o, Step(o, w, events[0]), events[1..], i);
    }
  }

  lemma Then(o: Options, w: World, events: seq<Event>, e: Event)
    ensures Run(o, w, events + [e]) == Step(o, Run(o, w, events), e)
  {
    RunConcat(o, w, events, [e]);
    var after := Run(o, w, events);
    assert [e][1..] == [];
    assert Run(o, Step(o, after, e), []) == Step(o, after, e);
  }

  /** Sessions can be lost: then a second installer enters while the first has not noticed. */
  lemma LostSessionLetsAnotherIn(o: Options)
    ensures exists w, events ::
              && Initial(w) && |w.installers| == 2
              && Run(o, w, events).installers[0].pc.Working? && Run(o, w, events).installers[1].pc.Working?
  {
    var w := World(0, None, 2, [Newcomer(0), Newcomer(1)]);
    EntersWork(o, w, [], 0);
    var first := [] + [Act(0, Begin)] + [Act(0, Try(true))] + [Act(0, Check(true))];
    Then(o, w, first, Lose(0));
    EntersWork(o, w, first + [Lose(0)], 1);
  }

  /** A newcomer that finds the lock free. */
  lemma EntersWork(o: Options, w: World, events: seq<Event>, i: nat)
    requires i < |w.installers|
    requires Run(o, w, events).lock.None? && Run(o, w, events).installers[i].pc.Idle?
    ensures var before := Run(o, w, events);
            var after := Run(o, w, events + [Act(i, Begin)] + [Act(i, Try(true))] + [Act(i, Check(true))]);
            && after.installers[i].pc.Working? && after.installers[i].session == before.installers[i].session
            && after.lock == Some(after.installers[i].session) && after.unused == before.unused
            && forall j :: 0 <= j < |w.installers| && j != i ==> after.installers[j] == before.installers[j]
  {
    Then(o, w, events, Act(i, Begin));
    Then(o, w, events + [Act(i, Begin)], Act(i, Try(true)));
    Then(o, w, events + [Act(i, Begin)] + [Act(i, Try(true))], Act(i, Check(true)));
  }

  // ----- Balance -----

  predicate Balanced(x: Installer) {
    && x.acquisitions == (if x.acquired.Some? then 1 else 0)
    && x.releases == (if x.pc.Over? then x.acquisitions else 0)
    && (Holds(x.pc) ==> x.acquired.Some?)
    && (x.pc.Idle? || x.pc.Trying? || x.pc.Denied? || x.pc.Sleeping? ==> x.acquired.None?)
    && (x.pc.Held? || x.pc.Working? || x.acquired.None? ==> x.workError.None?)
    && x.entries <= x.acquisitions && (x.pc.Held? ==> x.entries == 0)
    && (x.pc.Working? || (x.pc.Releasing? && x.workError.None?) ==> x.entries == 1)
    && (x.pc.Over? ==> Settled(x, x.pc.outcome))
  }

  /** How a call ends: without the lock; with the error of the contract or the work; or with what became
      of the release. */
  predicate Settled(x: Installer, outcome: Outcome) {
    if x.acquired.None? then outcome == Threw(Connection) || outcome == Threw(TimedOut)
    else if x.workError.Some? then outcome == Threw(x.workError.value)
    else x.entries == 1 && (outcome.Threw? ==> outcome.error in {Connection, SessionChanged, NotHeld})
  }

  ghost predicate AllBalanced(w: World) {
    forall i :: 0 <= i < |w.installers| ==> Balanced(w.installers[i])
  }

  lemma AdvanceKeepsBalanced(o: Options, x: Installer, m: Move, clock: nat)
    requires Balanced(x) && Fits(x.pc, m)
    ensures Balanced(Advance(o, x, m, clock))
  {
  }

  lemma StepKeepsBalanced(o: Options, w: World, e: Event)
    requires AllBalanced(w)
    ensures AllBalanced(Step(o, w, e))
  {
    if Enabled(w, e) && e.Act? {
      AdvanceKeepsBalanced(o, w.installers[e.i], e.move, w.clock);
      hide Balanced, Advance;
    }
  }

  lemma {:induction false} RunKeepsBalanced(o: Options, w: World, events: seq<Event>)
    requires AllBalanced(w)
    ensures AllBalanced(Run(o, w, events))
    decreases |events|
  {
    if events != [] {
      StepKeepsBalanced(o, w, events[0]);
      RunKeepsBalanced(o, Step(o, w, events[0]), events[1..]);
    }
  }

  /** On every exit the release has been attempted exactly as often as the lock was taken, which is at
      most once; a call that returns did its work; and a failed release never hides an earlier error. */
  lemma ReleasedExactlyOnce(o: Options, w: World, events: seq<Event>, i: nat)
    requires Initial(w) && i < |w.installers|
    ensures var x := Run(o, w, events).installers[i];
            && x.entries <= x.acquisitions <= 1
            && x.releases == (if x.pc.Over? then x.acquisitions else 0)
            && (x.pc == Over(Returned) ==> x.entries == x.releases == 1 && x.workError.None?)
            && (x.pc.Over? && x.workError.Some? ==> x.pc == Over(Threw(x.workError.value)))
            && (x.pc == Over(Threw(TimedOut)) && x.workError != Some(TimedOut) ==> x.acquisitions == 0)
  {
    RunKeepsBalanced(o, w, events);
    assert Balanced(Run(o, w, events).installers[i]);
  }

  /** A call that returns normally has held the lock all the time: whatever is lost or retried, while it
      was inside its work no other call was that also returns normally, or is still healthy. */
  lemma NormalReturnWorkedAlone(o: Options, w: World, events: seq<Event>, more: seq<Event>, i: nat, j: nat)
    requires Initial(w) && i < |w.installers| && j < |w.installers|
    requires Holds(Run(o, w, events).installers[i].pc) && Holds(Run(o, w, events).installers[j].pc)
    requires Run(o, w, events + more).installers[i].pc == Over(Returned)
    requires Run(o, w, events + more).installers[j].pc == Over(Returned) || Healthy(Run(o, w, events).installers[j])
    ensures i == j
    ensures Run(o, w, events).lock == Run(o, w, events).installers[i].acquired
  {
    var middle := Run(o, w, events);
    RunConcat(o, w, events, more);
    RunKeepsLocked(o, w, events);
    RunKeepsBalanced(o, w, events);
    assert Balanced(middle.installers[i]) && Balanced(middle.installers[j]);
    hide Balanced;
    if !Healthy(middle.installers[i]) {
      RunKeepsDoomed(o, middle, more, i);
    }
    if !Healthy(middle.installers[j]) {
      RunKeepsDoomed(o, middle, more, j);
    }
  }

  // ----- Why a call ends as it does -----

  /** A move that installer `i` made: at what time, and whether its session was the one that took the lock. */
  datatype Turn = Turn(move: Move, at: nat, intact: bool)

  function TurnOf(w: World, e: Event, i: nat): seq<Turn>
    requires i < |w.installers|
  {
    if e.Act? && e.i == i && Enabled(w, e) then [Turn(e.move, w.clock, Healthy(w.installers[i]))] else []
  }

  /** The moves of installer `i` on the way. */
  function Story(o: Options, w: World, events: seq<Event>, i: nat): seq<Turn>
    requires i < |w.installers|
    decreases |events|
  {
    if events == [] then [] else TurnOf(w, events[0], i) + Story(o, Step(o, w, events[0]), events[1..], i)
  }

  /** The `n`th last move. */
  function LastTurn(story: seq<Turn>, n: nat): Option<Turn> {
    if n < |story| then Some(story[|story| - 1 - n]) else None
  }

  predicate Ended(story: seq<Turn>, move: Move) {
    LastTurn(story, 0).Some? && LastTurn(story, 0).value.move == move
  }

  /** It looked at the clock after the lock was denied, at least the timeout after it had begun. */
  predicate GaveUp(o: Options, story: seq<Turn>) {
    Ended(story, TestTime) && story[|story| - 1].at - story[0].at >= o.timeout
  }

  /** It was let in by a contract check that found the session that took the lock. */
  predicate WasLetIn(story: seq<Turn>, n: nat) {
    LastTurn(story, n).Some? && LastTurn(story, n).value.move == Check(true) && LastTurn(story, n).value.intact
  }

  /** It was let in, its work threw nothing, and it released the lock in the session that took it. */
  predicate WentWell(story: seq<Turn>) {
    && Ended(story, Release(true)) && LastTurn(story, 0).value.intact
    && LastTurn(story, 1).Some? && LastTurn(story, 1).value.move == Work(None)
    && WasLetIn(story, 2)
  }

  /** The error that its work threw right before the release. */
  function ThrownWork(story: seq<Turn>): Option<Error> {
    if LastTurn(story, 1).Some? && LastTurn(story, 1).value.move.Work? then LastTurn(story, 1).value.move.error else None
  }

  predicate Tells(o: Options, x: Installer, story: seq<Turn>) {
    && (story == [] <==> x.pc.Idle?)
    && (story != [] ==> story[0].move == Begin && story[0].at == x.start)
    && (x.pc.Trying? ==> Ended(story, Begin) || Ended(story, Sleep))
    && (x.pc.Denied? ==> Ended(story, Try(false)))
    && (x.pc.Sleeping? ==> Ended(story, TestTime) && !GaveUp(o, story))
    && (x.pc.Held? ==> Ended(story, Try(true)) && x.workError.None?)
    && (x.pc.Working? <==> WasLetIn(story, 0))
    && (x.pc.Working? ==> x.workError.None?)
    && (x.pc.Releasing? ==> Releases(x, story))
    && (x.pc.Over? ==> Finished(o, x, story))
  }

  /** On the way to the release: after the work, with its error, or after a contract that failed. */
  predicate Releases(x: Installer, story: seq<Turn>) {
    && LastTurn(story, 0).Some?
    && if LastTurn(story, 0).value.move.Work? then
         WasLetIn(story, 1) && x.workError == LastTurn(story, 0).value.move.error
       else
         && (LastTurn(story, 0).value.move.Check? || LastTurn(story, 0).value.move == Break)
         && !WasLetIn(story, 0) && x.workError.Some?
  }

  predicate Finished(o: Options, x: Installer, story: seq<Turn>) {
    && (x.acquired.None? ==> (x.pc == Over(Threw(TimedOut)) <==> GaveUp(o, story)) && x.pc != Over(Returned))
    && (x.acquired.None? ==> Ended(story, TestTime) || Ended(story, Break))
    && (x.acquired.Some? ==> LastTurn(story, 0).Some? && (LastTurn(story, 0).value.move.Release? || Ended(story, Break)))
    && (x.pc == Over(Returned) <==> WentWell(story))
    && (ThrownWork(story).Some? ==> x.pc == Over(Threw(ThrownWork(story).value)))
  }

  lemma LastTurnNext(story: seq<Turn>, turn: Turn, n: nat)
    ensures LastTurn(story + [turn], 0) == Some(turn)
    ensures LastTurn(story + [turn], n + 1) == LastTurn(story, n)
  {
  }

  lemma MoveTells(o: Options, x: Installer, m: Move, clock: nat, story: seq<Turn>)
    requires Tells(o, x, story) && Balanced(x) && Fits(x.pc, m)
    ensures Tells(o, Advance(o, x, m, clock), story + [Turn(m, clock, Healthy(x))])
  {
    var turn := Turn(m, clock, Healthy(x));
    LastTurnNext(story, turn, 0);
    LastTurnNext(story, turn, 1);
    hide LastTurn;
  }

  lemma OthersTell(o: Options, x: Installer, y: Installer, story: seq<Turn>)
    requires Tells(o, x, story) && SameCall(x, y)
    ensures Tells(o, y, story)
  {
  }

  lemma StepTells(o: Options, w: World, e: Event, i: nat, story: seq<Turn>)
    requires i < |w.installers| && AllBalanced(w) && Tells(o, w.installers[i], story)
    ensures Tells(o, Step(o, w, e).installers[i], story + TurnOf(w, e, i))
  {
    if TurnOf(w, e, i) != [] {
      MoveTells(o, w.installers[i], e.move, w.clock, story);
    } else {
      assert story + [] == story;
      OthersTell(o, w.installers[i], Step(o, w, e).installers[i], story);
    }
    hide Tells, Advance;
  }

  lemma {:induction false} RunTells(o: Options, w: World, events: seq<Event>, i: nat, story: seq<Turn>)
    requires i < |w.installers| && AllBalanced(w) && Tells(o, w.installers[i], story)
    ensures Tells(o, Run(o, w, events).installers[i], story + Story(o, w, events, i))
    ensures AllBalanced(Run(o, w, events))
    decreases |events|
  {
    if events == [] {
      assert story + [] == story;
    } else {
      var first := TurnOf(w, events[0], i);
      StepTells(o, w, events[0], i, story);
      StepKeepsBalanced(o, w, events[0]);
      hide Tells, Step, TurnOf, AllBalanced;
      RunTells(o, Step(o, w, events[0]), events[1..], i, story + first);
      assert story + first + Story(o, Step(o, w, events[0]), events[1..], i) == story + Story(o, w, events, i);
    }
  }

  /** Over every run: an installer is inside its work exactly after a contract check that found it fit, in the
      session that took the lock. */
  lemma WorksExactlyWhen(o: Options, w: World, events: seq<Event>, i: nat)
    requires Initial(w) && i < |w.installers|
    ensures Run(o, w, events).installers[i].pc.Working? <==> WasLetIn(Story(o, w, events, i), 0)
  {
    RunTells(o, w, events, i, []);
    assert [] + Story(o, w, events, i) == Story(o, w, events, i);
  }

  /** A call that is over has returned exactly when it was let in, its work threw nothing and it released the
      lock in the session that took it.  It ended without the lock for want of time exactly when a look at
      the clock came at least the timeout after its beginning, and an error of the work is the one thrown. */
  lemma EndsExactlyWhen(o: Options, w: World, events: seq<Event>, i: nat)
    requires Initial(w) && i < |w.installers| && Run(o, w, events).installers[i].pc.Over?
    ensures var x, story := Run(o, w, events).installers[i], Story(o, w, events, i);
            && (x.pc == Over(Returned) <==> WentWell(story))
            && (x.acquisitions == 0 ==> (x.pc == Over(Threw(TimedOut)) <==> GaveUp(o, story)))
            && (x.acquisitions == 0 ==> Ended(story, TestTime) || Ended(story, Break))
            && (ThrownWork(story).Some? ==> x.pc == Over(Threw(ThrownWork(story).value)))
  {
    RunTells(o, w, events, i, []);
    assert [] + Story(o, w, events, i) == Story(o, w, events, i);
    var x := Run(o, w, events).installers[i];
    assert Balanced(x) && Finished(o, x, Story(o, w, events, i));
    hide Finished, Tells, WentWell, GaveUp, ThrownWork, Ended, Settled;
  }

  // ----- Exactly when a second installer can enter -----

  predicate Owner(w: World, k: nat) {
    k < |w.installers| && w.lock == Some(w.installers[k].session)
  }

  /** The lock belongs to the intact session of a call that is still to release it, or has failed to. */
  ghost predicate Accounted(w: World) {
    w.lock.Some? ==>
      exists k: nat :: Owner(w, k) && Healthy(w.installers[k]) && (Holds(w.installers[k].pc) || w.installers[k].pc.Over?)
  }

  lemma StepKeepsAccounted(o: Options, w: World, e: Event)
    requires Separate(w) && Accounted(w)
    ensures Accounted(Step(o, w, e))
  {
    var after := Step(o, w, e);
    if Enabled(w, e) && w.lock.Some? {
      var k: nat :| Owner(w, k) && Healthy(w.installers[k]) && (Holds(w.installers[k].pc) || w.installers[k].pc.Over?);
      assert after.lock == w.lock ==> Owner(after, k);
      assert e.Act? && e.i != k ==> after.installers[k] == w.installers[k];
    }
    if Enabled(w, e) && e.Act? && e.move == Try(true) {
      assert Owner(after, e.i);
    }
  }

  lemma {:induction false} RunKeepsAccounted(o: Options, w: World, events: seq<Event>)
    requires Separate(w) && Accounted(w)
    ensures Accounted(Run(o, w, events))
    decreases |events|
  {
    if events != [] {
      StepKeepsSeparate(o, w, events[0]);
      StepKeepsAccounted(o, w, events[0]);
      hide Separate, Accounted, Step;
      RunKeepsAccounted(o, Step(o, w, events[0]), events[1..]);
    }
  }

  /** A call that is over still has the lock: only its session's end would free it. */
  ghost predicate Stuck(w: World) {
    exists k: nat :: Owner(w, k) && w.installers[k].pc.Over?
  }

  lemma {:induction false} StuckForGood(o: Options, w: World, events: seq<Event>, k: nat, j: nat)
    requires Separate(w) && Owner(w, k) && w.installers[k].pc.Over? && NoLoss(events)
    requires j < |w.installers| && !Holds(w.installers[j].pc) && j != k
    ensures !Holds(Run(o, w, events).installers[j].pc)
    decreases |events|
  {
    if events != [] {
      assert events[0] in events && forall e :: e in events[1..] ==> e in events;
      StepKeepsSeparate(o, w, events[0]);
      assert Owner(Step(o, w, events[0]), k);
      StuckForGood(o, Step(o, w, events[0]), events[1..], k, j);
    }
  }

  lemma {:induction false} StaysHealthy(o: Options, w: World, events: seq<Event>, i: nat)
    requires i < |w.installers| && NoLoss(events) && (Holds(w.installers[i].pc) ==> Healthy(w.installers[i]))
    ensures Holds(Run(o, w, events).installers[i].pc) ==> Healthy(Run(o, w, events).installers[i])
    decreases |events|
  {
    if events != [] {
      assert events[0] in events && forall e :: e in events[1..] ==> e in events;
      StaysHealthy(o, Step(o, w, events[0]), events[1..], i);
    }
  }

  /** A call that has the lock can let it go. */
  lemma LetsGo(o: Options, w: World, k: nat) returns (events: seq<Event>)
    requires Owner(w, k) && Healthy(w.installers[k]) && Holds(w.installers[k].pc)
    ensures NoLoss(events) && Run(o, w, events).lock.None?
    ensures forall j :: 0 <= j < |w.installers| && j != k ==> Run(o, w, events).installers[j] == w.installers[j]
  {
    var first := if w.installers[k].pc.Held? then [Act(k, Check(false))]
                 else if w.installers[k].pc.Working? then [Act(k, Work(None))] else [];
    assert Run(o, w, []) == w;
    if first != [] {
      assert [] + first == first;
      Then(o, w, [], first[0]);
    }
    Then(o, w, first, Act(k, Release(true)));
    events := first + [Act(k, Release(true))];
  }

  /** The others go on without losing a session, and `j` gets into its work while `i` has not released yet. */
  ghost predicate CanEnter(o: Options, w: World, i: nat, j: nat)
    requires i < |w.installers| && j < |w.installers|
  {
    exists events :: NoLoss(events)
                     && Holds(Run(o, w, events).installers[i].pc) && Run(o, w, events).installers[j].pc.Working?
  }

  /** While one installer is between acquisition and release, a newcomer can enter its work without any further
      loss of a session if and only if the first one's session has been lost and the lock has not got stuck
      with a call that is over. */
  lemma CanEnterExactlyWhen(o: Options, start: World, past: seq<Event>, i: nat, j: nat)
    requires Initial(start) && i < |start.installers| && j < |start.installers|
    requires var w := Run(o, start, past); Holds(w.installers[i].pc) && w.installers[j].pc.Idle?
    ensures var w := Run(o, start, past); CanEnter(o, w, i, j) <==> !Healthy(w.installers[i]) && !Stuck(w)
  {
    var w := Run(o, start, past);
    RunKeepsLocked(o, start, past);
    RunKeepsAccounted(o, start, past);
    if CanEnter(o, w, i, j) {
      var events :| NoLoss(events)
                    && Holds(Run(o, w, events).installers[i].pc) && Run(o, w, events).installers[j].pc.Working?;
      EnteredMeans(o, w, i, j, events);
    }
    if !Healthy(w.installers[i]) && !Stuck(w) {
      Enters(o, w, i, j);
    }
  }

  lemma HoldersAreOne(w: World, i: nat, j: nat)
    requires Locked(w) && i < |w.installers| && j < |w.installers|
    ensures Holds(w.installers[i].pc) && Healthy(w.installers[i]) && Holds(w.installers[j].pc) && Healthy(w.installers[j])
            ==> i == j
  {
    assert Owns(w.installers[i], w.lock) && Owns(w.installers[j], w.lock);
  }

  lemma EnteredMeans(o: Options, w: World, i: nat, j: nat, events: seq<Event>)
    requires Locked(w) && i < |w.installers| && j < |w.installers|
    requires Holds(w.installers[i].pc) && w.installers[j].pc.Idle? && NoLoss(events)
    requires Holds(Run(o, w, events).installers[i].pc) && Run(o, w, events).installers[j].pc.Working?
    ensures !Healthy(w.installers[i]) && !Stuck(w)
  {
    StaysHealthy(o, w, events, j);
    RunKeepsLocked(o, w, events);
    HoldersAreOne(Run(o, w, events), i, j);
    if Healthy(w.installers[i]) {
      StaysHealthy(o, w, events, i);
    }
    if k: nat :| Owner(w, k) && w.installers[k].pc.Over? {
      StuckForGood(o, w, events, k, j);
    }
  }

  lemma Enters(o: Options, w: World, i: nat, j: nat)
    requires Locked(w) && Accounted(w) && i < |w.installers| && j < |w.installers|
    requires Holds(w.installers[i].pc) && w.installers[j].pc.Idle?
    requires !Healthy(w.installers[i]) && !Stuck(w)
    ensures CanEnter(o, w, i, j)
  {
    var events := [];
    assert Run(o, w, []) == w;
    if w.lock.Some? {
      var k: nat :| Owner(w, k) && Healthy(w.installers[k]) && (Holds(w.installers[k].pc) || w.installers[k].pc.Over?);
      assert !w.installers[k].pc.Over?;
      events := LetsGo(o, w, k);
    }
    EntersWork(o, w, events, j);
    var all := events + [Act(j, Begin)] + [Act(j, Try(true))] + [Act(j, Check(true))];
    assert NoLoss(all);
    assert Holds(Run(o, w, all).installers[i].pc);
  }

  predicate OnlyMoves(events: seq<Event>, j: nat) {
    forall e :: e in events ==> e.Act? && e.i == j
  }

  lemma {:induction false} WaitsForTheLock(o: Options, w: World, events: seq<Event>, k: nat, j: nat)
    requires Separate(w) && Owner(w, k) && OnlyMoves(events, j) && j != k
    requires j < |w.installers| && !Holds(w.installers[j].pc)
    ensures !Holds(Run(o, w, events).installers[j].pc)
    decreases |events|
  {
    if events != [] {
      assert events[0] in events && forall e :: e in events[1..] ==> e in events;
      StepKeepsSeparate(o, w, events[0]);
      assert Owner(Step(o, w, events[0]), k);
      WaitsForTheLock(o, Step(o, w, events[0]), events[1..], k, j);
    }
  }

  /** With nobody else moving, the newcomer can enter if and only if the session of the one inside has been
      lost and no one has the lock. */
  lemma EntersAtOnceExactlyWhen(o: Options, start: World, past: seq<Event>, i: nat, j: nat)
    requires Initial(start) && i < |start.installers| && j < |start.installers|
    requires var w := Run(o, start, past); Holds(w.installers[i].pc) && w.installers[j].pc.Idle?
    ensures var w := Run(o, start, past);
            (exists events :: OnlyMoves(events, j) && Run(o, w, events).installers[j].pc.Working?)
            <==> !Healthy(w.installers[i]) && w.lock.None?
  {
    var w := Run(o, start, past);
    RunKeepsLocked(o, start, past);
    RunKeepsAccounted(o, start, past);
    RunKeepsBalanced(o, start, past);
    assert Owns(w.installers[i], w.lock) && Balanced(w.installers[i]) && Balanced(w.installers[j]);
    if w.lock.None? {
      assert Run(o, w, []) == w;
      EntersWork(o, w, [], j);
      var events := [] + [Act(j, Begin)] + [Act(j, Try(true))] + [Act(j, Check(true))];
      assert OnlyMoves(events, j);
    } else {
      var k: nat :| Owner(w, k) && Healthy(w.installers[k]) && (Holds(w.installers[k].pc) || w.installers[k].pc.Over?);
      forall events | OnlyMoves(events, j)
        ensures !Run(o, w, events).installers[j].pc.Working?
      {
        WaitsForTheLock(o, w, events, k, j);
      }
    }
  }

  // ----- Polling -----

  /** Every poll but the last two is paid for with a nap inside the timeout. */
  predicate Paced(o: Options, x: Installer, clock: nat) {
    match x.pc
    case Idle => x.attempts == 0
    case Trying => x.start + x.attempts * Nap(o) <= clock && (x.attempts > 0 ==> (x.attempts - 1) * Nap(o) < o.timeout)
    case Sleeping =>
      x.attempts > 0 && x.start + (x.attempts - 1) * Nap(o) <= clock && (x.attempts - 1) * Nap(o) < o.timeout
    case _ =>
      && x.attempts > 0 && (x.pc.Denied? ==> x.start + (x.attempts - 1) * Nap(o) <= clock)
      && (x.attempts > 1 ==> (x.attempts - 2) * Nap(o) < o.timeout)
  }

  ghost predicate AllPaced(o: Options, w: World) {
    forall i :: 0 <= i < |w.installers| ==> Paced(o, w.installers[i], w.clock)
  }

  lemma AdvanceKeepsPaced(o: Options, x: Installer, m: Move, clock: nat)
    requires Paced(o, x, clock) && Fits(x.pc, m)
    ensures Paced(o, Advance(o, x, m, clock), if m.Sleep? then clock + Nap(o) else clock)
  {
    var nap := Nap(o);
    assert x.attempts * nap == (x.attempts - 1) * nap + nap;
  }

  lemma PacedLater(o: Options, x: Installer, clock: nat, later: nat)
    requires Paced(o, x, clock) && clock <= later
    ensures Paced(o, x, later)
    ensures forall session :: Paced(o, x.(session := session), later)
  {
  }

  lemma StepKeepsPaced(o: Options, w: World, e: Event)
    requires AllPaced(o, w)
    ensures AllPaced(o, Step(o, w, e))
  {
    var after := Step(o, w, e);
    forall i | 0 <= i < |w.installers|
      ensures Paced(o, after.installers[i], after.clock)
    {
      PacedLater(o, w.installers[i], w.clock, after.clock);
      if Enabled(w, e) && e.Act? && e.i == i {
        AdvanceKeepsPaced(o, w.installers[i], e.move, w.clock);
      }
      hide Paced, Advance;
    }
  }

  lemma {:induction false} RunKeepsPaced(o: Options, w: World, events: seq<Event>)
    requires AllPaced(o, w)
    ensures AllPaced(o, Run(o, w, events))
    decreases |events|
  {
    if events != [] {
      StepKeepsPaced(o, w, events[0]);
      RunKeepsPaced(o, Step(o, w, events[0]), events[1..]);
    }
  }

  /** However long the lock stays taken, a call asks for it at most twice more than the timeout holds
      polling intervals. */
  lemma FewAttempts(o: Options, w: World, events: seq<Event>, i: nat)
    requires Initial(w) && i < |w.installers|
    ensures var x := Run(o, w, events).installers[i]; x.attempts > 1 ==> (x.attempts - 2) * Nap(o) < o.timeout
  {
    RunKeepsPaced(o, w, events);
    var x := Run(o, w, events).installers[i];
    assert Paced(o, x, Run(o, w, events).clock);
    assert x.attempts > 1 ==> (x.attempts - 2) * Nap(o) <= (x.attempts - 1) * Nap(o);
  }

  // ----- The program -----

  /** What installer `me` does not do itself: the moves of the others, and any loss of a session. */
  function Others(events: seq<Event>, me: nat): seq<Event> {
    if events == [] then []
    else (if events[0].Act? && events[0].i == me then [] else [events[0]]) + Others(events[1..], me)
  }

  /** The same call, possibly in a new session. */
  predicate SameCall(x: Installer, y: Installer) {
    x.(session := y.session) == y
  }

  lemma {:induction false} OthersKeepTheCall(o: Options, w: World, events: seq<Event>, me: nat)
    requires me < |w.installers|
    ensures SameCall(w.installers[me], Run(o, w, Others(events, me)).installers[me])
    ensures w.clock <= Run(o, w, Others(events, me)).clock
    decreases |events|
  {
    if events != [] {
      var rest := Others(events[1..], me);
      if events[0].Act? && events[0].i == me {
        assert [] + rest == rest;
        OthersKeepTheCall(o, w, events[1..], me);
      } else {
        assert ([events[0]] + rest)[0] == events[0] && ([events[0]] + rest)[1..] == rest;
        OthersKeepTheCall(o, Step(o, w, events[0]), events[1..], me);
      }
    }
  }

  /** The installer `me` of a world shared with the others. */
  class Client {
    const options: Options
    const me: nat
    var world: World
    ghost const initial: World
    ghost var log: seq<Event>

    constructor (options: Options, me: nat, world: World)
      requires me < |world.installers|
      ensures Valid() && this.world == initial == world && log == []
      ensures this.options == options && this.me == me
    {
      this.options, this.me, this.world := options, me, world;
      initial, log := world, [];
    }

    /** The log is a run of the system, and leads here. */
    ghost predicate Valid()
      reads this
      ensures Valid() ==> me < |world.installers|
    {
      me < |initial.installers| && world == Run(options, initial, log)
    }

    function Mine(): Installer
      requires me < |world.installers|
      reads this
    {
      world.installers[me]
    }

    method Interfere()
      requires Valid()
      modifies this
      ensures Valid() && SameCall(old(Mine()), Mine()) && world.clock >= old(world.clock)
    {
      var events: seq<Event> := *;
      OthersKeepTheCall(options, world, events, me);
      RunConcat(options, initial, log, Others(events, me));
      world := Run(options, world, Others(events, me));
      log := log + Others(events, me);
    }

    method Perform(m: Move)
      requires Valid() && Enabled(world, Act(me, m))
      modifies this
      ensures Valid() && Mine() == Advance(options, old(Mine()), m, old(world.clock))
      ensures m.Sleep? ==> world.clock > old(world.clock) && world.clock >= old(world.clock) + options.poll
      ensures !m.Sleep? ==> world.clock == old(world.clock)
    {
      Then(options, initial, log, Act(me, m));
      world := Step(options, world, Act(me, m));
      log := log + [Act(me, m)];
    }

    method TryAcquire() returns (r: Result<bool, Error>)
      requires Valid() && Mine().pc.Trying?
      modifies this
      ensures Valid() && world.clock >= old(world.clock) && Mine().start == old(Mine().start)
      ensures Mine().workError == old(Mine().workError)
      ensures match r
              case Success(granted) => if granted then Mine().pc.Held? else Mine().pc.Denied?
              case Failure(error) => Mine().pc == Over(Threw(error))
    {
      Interfere();
      if * {
        Perform(Break);
        return Failure(Connection);
      }
      var granted := world.lock.None? || world.lock == Some(Mine().session);
      Perform(Try(granted));
      return Success(granted);
    }

    method AssertContract() returns (r: Result<(), Error>)
      requires Valid() && Mine().pc.Held? && Mine().workError.None?
      modifies this
      ensures Valid()
      ensures r.Success? ==> Mine().pc.Working? && Mine().workError.None?
      ensures r.Failure? ==> Mine().pc.Releasing? && Mine().workError == Some(r.error)
    {
      Interfere();
      if * {
        Perform(Break);
        return Failure(Connection);
      }
      var fit: bool := *;
      var same := Some(Mine().session) == Mine().acquired;
      Perform(Check(fit));
      return if !same then Failure(SessionChanged) else if !fit then Failure(ContractBroken) else Success(());
    }

    method DoWork() returns (r: Result<(), Error>)
      requires Valid() && Mine().pc.Working?
      modifies this
      ensures Valid() && Mine().pc.Releasing?
      ensures Mine().workError == if r.Failure? then Some(r.error) else None
    {
      Interfere();
      var error: Option<Error> := *;
      Perform(Work(error));
      return if error.Some? then Failure(error.value) else Success(());
    }

    method ReleaseAuthority() returns (r: Result<(), Error>)
      requires Valid() && Mine().pc.Releasing?
      modifies this
      ensures Valid() && Mine().workError == old(Mine().workError)
      ensures Mine().pc ==
              Over(if Mine().workError.Some? then Threw(Mine().workError.value)
                   else if r.Failure? then Threw(r.error) else Returned)
    {
      Interfere();
      if * {
        Perform(Break);
        return Failure(Connection);
      }
      var same := Some(Mine().session) == Mine().acquired;
      var held := world.lock == Some(Mine().session);
      Perform(Release(held));
      return if !same then Failure(SessionChanged) else if !held then Failure(NotHeld) else Success(());
    }

    /** `withIndexLifecycleAuthority`. */
    method WithAuthority() returns (r: Outcome)
      requires Valid() && Mine().pc.Idle? && Mine().workError.None?
      modifies this
      ensures Valid() && Mine().pc == Over(r)
    {
      hide Valid, Nap;
      Interfere();
      var startedAt := world.clock;
      Perform(Begin);
      var acquired := false;
      while !acquired
        invariant Valid() && Mine().workError.None? && Mine().start == startedAt
        invariant if acquired then Mine().pc.Held? else Mine().pc.Trying?
        decreases !acquired, startedAt + options.timeout - world.clock
      {
        var attempt := TryAcquire();
        if attempt.Failure? {
          return Threw(attempt.error);
        }
        acquired := attempt.value;
        if !acquired {
          Interfere();
          var now := world.clock;
          Perform(TestTime);
          if now - startedAt >= options.timeout {
            return Threw(TimedOut);
          }
          Interfere();
          Perform(Sleep);
        }
      }
      var workError: Option<Error> := None;
      var contract := AssertContract();
      if contract.Failure? {
        workError := Some(contract.error);
      } else {
        var work := DoWork();
        if work.Failure? {
          workError := Some(work.error);
        }
      }
      var release := ReleaseAuthority();
      if release.Failure? && workError.None? {
        return Threw(release.error);
      }
      return if workError.Some? then Threw(workError.value) else Returned;
    }
  }
}
