/** The two-party barrier of scripts/test-support/phase3-interleaved-transactions.js.

    Two transactions each make a first write, wait for each other, and make a second write.  The
    model is the product of both callbacks, the barrier promise and the timer; the scheduler picks
    any enabled event, and every database call may fail.  `firstDone` and `secondStarted` remember
    which writes have finished and started, `recorded` the failures in the order in which
    `rejectBarrier` saw them. */
module Barrier {

  type Error = int

  /** The error of the timer. */
  const TIMEOUT: Error := -1

  datatype Party = A | B

  /** Where one `run` stands.  `Throwing` is a transaction that rejects and whose catch handler has
      not run yet. */
  datatype Phase =
    | Idle | Setup | First | Waiting | Second | Committing
    | Throwing(error: Error) | Committed | Failed(error: Error)

  datatype Promise = Pending | Resolved | Rejected(error: Error)

  datatype Timer = Armed | Cleared | Fired

  datatype Outcome = Open | Returned | Threw(error: Error)

  datatype State = State(
    a: Phase, b: Phase, arrivals: nat, barrier: Promise, failed: bool, firstFailure: Error, timer: Timer,
    outcome: Outcome, firstDone: set<Party>, secondStarted: set<Party>, recorded: seq<Error>)
  {
    function Of(p: Party): Phase {
      if p == A then a else b
    }

    function With(p: Party, phase: Phase): State {
      if p == A then this.(a := phase) else this.(b := phase)
    }

    /** `rejectBarrier`. */
    function Reject(error: Error): State {
      this.(failed := true, firstFailure := if failed then firstFailure else error,
            barrier := if barrier == Pending then Rejected(error) else barrier, recorded := recorded + [error])
    }
  }

  const START := State(Idle, Idle, 0, Pending, false, 0, Armed, Open, {}, {}, [])

  datatype Event =
    | Next(p: Party)                // the awaited call of the party resolves
    | Fails(p: Party, error: Error) // it rejects
    | Report(p: Party)              // the catch handler runs
    | Timeout
    | End                           // both results are in

  predicate IsSettled(phase: Phase) {
    phase.Committed? || phase.Failed?
  }

  predicate Enabled(s: State, e: Event) {
    s.outcome == Open &&
    match e
    case Next(p) =>
      var phase := s.Of(p);
      phase in {Idle, Setup, First, Second, Committing} || (phase.Waiting? && s.barrier == Resolved)
    case Fails(p, error) =>
      var phase := s.Of(p);
      phase in {Idle, Setup, First, Second, Committing} || (phase.Waiting? && s.barrier == Rejected(error))
    case Report(p) => s.Of(p).Throwing?
    case Timeout => s.timer == Armed
    case End => IsSettled(s.a) && IsSettled(s.b)
  }

  /** The first write has finished: the second arrival disarms the timer and opens the barrier. */
  function Arrive(s: State, p: Party): State {
    var n := s.arrivals + 1;
    s.With(p, Waiting).(
      arrivals := n,
      timer := if n == 2 then (if s.timer == Armed then Cleared else s.timer) else s.timer,
      barrier := if n == 2 && s.barrier == Pending then Resolved else s.barrier,
      firstDone := s.firstDone + {p})
  }

  function Step(s: State, e: Event): State
    requires Enabled(s, e)
  {
    match e
    case Next(p) =>
      (match s.Of(p)
       case Idle => s.With(p, Setup)
       case Setup => s.With(p, First)
       case First => Arrive(s, p)
       case Waiting => s.With(p, Second).(secondStarted := s.secondStarted + {p})
       case Second => s.With(p, Committing)
       case _ => s.With(p, Committed))
    case Fails(p, error) => s.With(p, Throwing(error))
    case Report(p) => s.With(p, Failed(s.Of(p).error)).Reject(s.Of(p).error)
    case Timeout => s.Reject(TIMEOUT).(timer := Fired)
    case End => s.(outcome := if s.failed then Threw(s.firstFailure) else Returned)
  }

  /** A run follows enabled events only. */
  ghost predicate IsRun(s: State, events: seq<Event>, end: State)
    decreases |events|
  {
    if events == [] then s == end
    else Enabled(s, events[0]) && IsRun(Step(s, events[0]), events[1..], end)
  }

  // ----- Invariant -----

  predicate PastFirst(phase: Phase) {
    phase in {Waiting, Second, Committing, Committed}
  }

  predicate PastBarrier(phase: Phase) {
    phase in {Second, Committing, Committed}
  }

  predicate PartyInv(s: State, p: Party) {
    var phase := s.Of(p);
    && (phase in {Idle, Setup, First} ==> p !in s.firstDone)
    && (PastFirst(phase) ==> p in s.firstDone)
    && (phase in {Idle, Setup, First, Waiting} ==> p !in s.secondStarted)
    && (PastBarrier(phase) ==> p in s.secondStarted)
    && (phase.Failed? ==> phase.error in s.recorded)
  }

  predicate Inv(s: State) {
    && PartyInv(s, A) && PartyInv(s, B)
    && s.arrivals == (if A in s.firstDone then 1 else 0) + (if B in s.firstDone then 1 else 0)
    && (s.secondStarted != {} ==> s.barrier == Resolved)
    && (s.barrier == Resolved ==> A in s.firstDone && B in s.firstDone)
    && (s.barrier == Pending <==> !s.failed && s.arrivals < 2)
    && (s.barrier.Rejected? ==> s.failed)
    && (s.timer == Armed <==> s.arrivals < 2 && s.timer != Fired)
    && s.failed == (s.recorded != []) && (s.failed ==> s.firstFailure == s.recorded[0])
    && (s.timer == Fired ==> s.barrier.Rejected?)
    && (!s.failed ==> !s.a.Failed? && !s.b.Failed?)
    && (s.outcome != Open ==> IsSettled(s.a) && IsSettled(s.b))
    && (s.outcome == Returned ==> !s.failed)
    && (s.outcome.Threw? ==> s.failed && s.outcome.error == s.recorded[0])
  }

  lemma NextKeepsInv(s: State, p: Party)
    requires Inv(s) && Enabled(s, Next(p)) && !s.Of(p).First?
    ensures Inv(Step(s, Next(p)))
  {
  }

  lemma ArriveKeepsInv(s: State, p: Party)
    requires Inv(s) && Enabled(s, Next(p)) && s.Of(p).First?
    ensures Inv(Step(s, Next(p)))
  {
  }

  lemma FailsKeepsInv(s: State, p: Party, error: Error)
    requires Inv(s) && Enabled(s, Fails(p, error))
    ensures Inv(Step(s, Fails(p, error)))
  {
  }

  lemma ReportKeepsInv(s: State, p: Party)
    requires Inv(s) && Enabled(s, Report(p))
    ensures Inv(Step(s, Report(p)))
  {
  }

  lemma EndingKeepsInv(s: State, e: Event)
    requires Inv(s) && Enabled(s, e) && (e.Timeout? || e.End?)
    ensures Inv(Step(s, e))
  {
  }

  lemma StepKeepsInv(s: State, e: Event)
    requires Inv(s) && Enabled(s, e)
    ensures Inv(Step(s, e))
  {
    hide *;
    match e
    case Next(p) =>
      if s.Of(p).First? {
        ArriveKeepsInv(s, p);
      } else {
        NextKeepsInv(s, p);
      }
    case Fails(p, error) => FailsKeepsInv(s, p, error);
    case Report(p) => ReportKeepsInv(s, p);
    case _ => EndingKeepsInv(s, e);
  }

  lemma {:induction false} RunKeepsInv(s: State, events: seq<Event>, end: State)
    requires Inv(s) && IsRun(s, events, end)
    ensures Inv(end)
    decreases |events|
  {
    if events != [] {
      StepKeepsInv(s, events[0]);
      hide Inv, Step;
      RunKeepsInv(Step(s, events[0]), events[1..], end);
    }
  }

  // ----- What the events say -----

  /** How many awaited calls of the party have resolved: the transaction has begun, the schema is set, the first
      write is done, the barrier has opened, the second write is done, the transaction is committed. */
  function Reached(events: seq<Event>, p: Party): nat {
    if events == [] then 0 else (if events[0] == Next(p) then 1 else 0) + Reached(events[1..], p)
  }

  predicate Counts(s: State, p: Party, n: nat) {
    && (match s.Of(p)
        case Idle => n == 0
        case Setup => n == 1
        case First => n == 2
        case Waiting => n == 3
        case Second => n == 4
        case Committing => n == 5
        case Committed => n == 6
        case _ => true)
    && (p in s.firstDone <==> n >= 3) && (p in s.secondStarted <==> n >= 4)
  }

  lemma NextCounts(s: State, q: Party, p: Party, n: nat)
    requires Counts(s, p, n) && Enabled(s, Next(q))
    ensures Counts(Step(s, Next(q)), p, n + (if q == p then 1 else 0))
  {
  }

  lemma StepCounts(s: State, e: Event, p: Party, n: nat)
    requires Counts(s, p, n) && Enabled(s, e)
    ensures Counts(Step(s, e), p, n + (if e == Next(p) then 1 else 0))
  {
    if e.Next? {
      NextCounts(s, e.p, p, n);
      hide *;
    }
  }

  lemma {:induction false} RunCounts(s: State, events: seq<Event>, end: State, p: Party, n: nat)
    requires Counts(s, p, n) && IsRun(s, events, end)
    ensures Counts(end, p, n + Reached(events, p))
    decreases |events|
  {
    if events != [] {
      StepCounts(s, events[0], p, n);
      hide Counts, Step;
      RunCounts(Step(s, events[0]), events[1..], end, p, n + (if events[0] == Next(p) then 1 else 0));
    }
  }

  /** The failures in the order in which they were reported; `a` and `b` are what the parties threw last. */
  function Failures(events: seq<Event>, a: Error, b: Error): seq<Error> {
    if events == [] then []
    else
      match events[0]
      case Fails(p, error) => if p == A then Failures(events[1..], error, b) else Failures(events[1..], a, error)
      case Report(p) => [if p == A then a else b] + Failures(events[1..], a, b)
      case Timeout => [TIMEOUT] + Failures(events[1..], a, b)
      case _ => Failures(events[1..], a, b)
  }

  lemma StepRecords(s: State, e: Event, a: Error, b: Error)
    requires Enabled(s, e) && (s.a.Throwing? ==> s.a.error == a) && (s.b.Throwing? ==> s.b.error == b)
    ensures var next := Step(s, e);
      && (next.a.Throwing? ==> next.a.error == if e.Fails? && e.p == A then e.error else a)
      && (next.b.Throwing? ==> next.b.error == if e.Fails? && e.p == B then e.error else b)
      && next.recorded == s.recorded + (if e.Timeout? then [TIMEOUT] else if e.Report? then [if e.p == A then a else b] else [])
  {
  }

  lemma {:induction false} RunRecords(s: State, events: seq<Event>, end: State, a: Error, b: Error)
    requires IsRun(s, events, end) && (s.a.Throwing? ==> s.a.error == a) && (s.b.Throwing? ==> s.b.error == b)
    ensures end.recorded == s.recorded + Failures(events, a, b)
    decreases |events|
  {
    if events == [] {
      assert s.recorded + [] == s.recorded;
    } else {
      var e := events[0];
      StepRecords(s, e, a, b);
      hide Step, Enabled;
      RunRecords(Step(s, e), events[1..], end, if e.Fails? && e.p == A then e.error else a, if e.Fails? && e.p == B then e.error else b);
    }
  }

  // ----- Safety -----

  /** No second write starts before both first writes have finished. */
  lemma SecondAfterBothFirst(events: seq<Event>, end: State, p: Party)
    requires IsRun(START, events, end) && Reached(events, p) >= 4
    ensures Reached(events, A) >= 3 && Reached(events, B) >= 3
  {
    RunKeepsInv(START, events, end);
    RunCounts(START, events, end, A, 0);
    RunCounts(START, events, end, B, 0);
  }

  predicate Dead(s: State, p: Party) {
    (s.Of(p).Throwing? || s.Of(p).Failed?) && p !in s.firstDone
  }

  /** The timer has fired, or a party has failed before the end of its first write. */
  predicate Doomed(s: State) {
    s.timer == Fired || Dead(s, A) || Dead(s, B)
  }

  lemma {:induction false} DoomedForGood(s: State, events: seq<Event>, end: State)
    requires Inv(s) && Doomed(s) && IsRun(s, events, end)
    ensures Inv(end) && Doomed(end)
    decreases |events|
  {
    if events != [] {
      StepKeepsInv(s, events[0]);
      assert Doomed(Step(s, events[0]));
      hide Inv, Step, Doomed;
      DoomedForGood(Step(s, events[0]), events[1..], end);
    }
  }

  /** Once a first write has failed or the timer has fired before both arrived, no second write runs,
      whatever happens afterwards, and the call does not return normally. */
  lemma NoSecondAfterFailure(before: seq<Event>, s: State, after: seq<Event>, end: State)
    requires IsRun(START, before, s) && Doomed(s) && IsRun(s, after, end)
    ensures Reached(before + after, A) < 4 && Reached(before + after, B) < 4 && end.outcome != Returned
  {
    RunKeepsInv(START, before, s);
    DoomedForGood(s, after, end);
    hide Inv, Doomed, Counts;
    RunConcat(START, before, s, after, end);
    CountsFewer(before + after, end, A);
    CountsFewer(before + after, end, B);
  }

  lemma CountsFewer(events: seq<Event>, end: State, p: Party)
    requires IsRun(START, events, end) && end.secondStarted == {}
    ensures Reached(events, p) < 4
  {
    RunCounts(START, events, end, p, 0);
  }

  lemma {:induction false} RunConcat(s: State, a: seq<Event>, middle: State, b: seq<Event>, end: State)
    requires IsRun(s, a, middle) && IsRun(middle, b, end)
    ensures IsRun(s, a + b, end)
    decreases |a|
  {
    if a == [] {
      assert a + b == b;
    } else {
      assert (a + b)[0] == a[0] && (a + b)[1..] == a[1..] + b;
      RunConcat(Step(s, a[0]), a[1..], middle, b, end);
    }
  }

  /** The call ends with both clients settled: it returns exactly when nothing failed and both have
      committed, and otherwise throws the earliest recorded failure. */
  lemma OutcomeTells(events: seq<Event>, end: State)
    requires IsRun(START, events, end) && end.outcome != Open
    ensures IsSettled(end.a) && IsSettled(end.b)
    ensures var failures := Failures(events, 0, 0);
            end.outcome == if failures == [] then Returned else Threw(failures[0])
    ensures end.outcome == Returned ==> end.a == Committed && end.b == Committed
    ensures end.outcome == Returned ==> Reached(events, A) == 6 && Reached(events, B) == 6
  {
    RunKeepsInv(START, events, end);
    RunRecords(START, events, end, 0, 0);
    RunCounts(START, events, end, A, 0);
    RunCounts(START, events, end, B, 0);
  }

  // ----- Every run ends -----

  function PhaseFuel(phase: Phase): nat {
    match phase
    case Idle => 7
    case Setup => 6
    case First => 5
    case Waiting => 4
    case Second => 3
    case Committing => 2
    case Throwing(_) => 1
    case _ => 0
  }

  /** How many events can still happen. */
  function Fuel(s: State): nat {
    PhaseFuel(s.a) + PhaseFuel(s.b) + (if s.timer == Armed then 1 else 0) + (if s.outcome == Open then 1 else 0)
  }

  lemma NextUsesFuel(s: State, p: Party)
    requires Enabled(s, Next(p))
    ensures Fuel(Step(s, Next(p))) < Fuel(s)
  {
  }

  lemma StepUsesFuel(s: State, e: Event)
    requires Enabled(s, e)
    ensures Fuel(Step(s, e)) < Fuel(s)
  {
    if e.Next? {
      NextUsesFuel(s, e.p);
      hide *;
    }
  }

  lemma {:induction false} RunsAreShort(s: State, events: seq<Event>, end: State)
    requires IsRun(s, events, end)
    ensures |events| + Fuel(end) <= Fuel(s)
    decreases |events|
  {
    if events != [] {
      StepUsesFuel(s, events[0]);
      hide Step, Fuel;
      RunsAreShort(Step(s, events[0]), events[1..], end);
    }
  }

  /** No schedule is stuck before the end: every run has at most sixteen events, and one that has
      not ended can go on without the timer. */
  lemma NeverStuck(events: seq<Event>, s: State)
    requires IsRun(START, events, s) && s.outcome == Open
    ensures |events| < 16
    ensures exists e :: e != Timeout && Enabled(s, e)
  {
    RunKeepsInv(START, events, s);
    RunsAreShort(START, events, s);
    assert Enabled(s, Next(A)) || Enabled(s, Next(B)) || Enabled(s, Report(A)) || Enabled(s, Report(B)) || Enabled(s, End)
      || (s.barrier.Rejected? && (Enabled(s, Fails(A, s.barrier.error)) || Enabled(s, Fails(B, s.barrier.error))));
  }
}
