/** The bounded throttle of analytics change hints (src/services/analytics-change-hint-service.js).

    `recent` is a Map in insertion order: an agency that is published again is deleted first and
    appended last, and a full map loses its oldest entries.  `log` records what was published, so
    that the effect of the bound on the throttle can be stated for whole runs. */
module ChangeHints {

  import opened Wrappers

  const CAPACITY: nat := 1000
  const WINDOW: real := 500.0

  datatype Entry = Entry(agency: string, at: real)

  // ----- The map, as the sequence of its entries -----

  predicate Has(recent: seq<Entry>, agency: string) {
    exists e :: e in recent && e.agency == agency
  }

  function Get(recent: seq<Entry>, agency: string): (at: Option<real>)
    ensures at.Some? <==> Has(recent, agency)
    ensures at.Some? ==> Entry(agency, at.value) in recent
  {
    if recent == [] then None
    else if recent[0].agency == agency then
      assert recent[0] in recent;
      Some(recent[0].at)
    else Get(recent[1..], agency)
  }

  function Without(recent: seq<Entry>, agency: string): (r: seq<Entry>)
    ensures !Has(r, agency)
    ensures forall e :: e in r <==> e in recent && e.agency != agency
  {
    if recent == [] then []
    else if recent[0].agency == agency then Without(recent[1..], agency)
    else [recent[0]] + Without(recent[1..], agency)
  }

  /** What the eviction loop leaves: room for one more entry. */
  function Newest(recent: seq<Entry>): (r: seq<Entry>)
    ensures |r| < CAPACITY
  {
    if |recent| < CAPACITY then recent else recent[|recent| - CAPACITY + 1..]
  }

  predicate Throttled(recent: seq<Entry>, agency: string, now: real) {
    var at := Get(recent, agency);
    at.Some? && now - at.value < WINDOW
  }

  // ----- History -----

  datatype History = History(recent: seq<Entry>, log: seq<Entry>) {
    function Publish(agency: string, now: real): History {
      if Throttled(recent, agency, now) then this
      else History(Newest(Without(recent, agency)) + [Entry(agency, now)], log + [Entry(agency, now)])
    }
  }

  const EMPTY := History([], [])

  /** Index of the last publication of an agency, or -1. */
  function Last(log: seq<Entry>, agency: string): (i: int)
    ensures -1 <= i < |log|
    ensures i >= 0 ==> log[i].agency == agency
    ensures forall j :: i < j < |log| ==> log[j].agency != agency
  {
    if log == [] then -1
    else if log[|log| - 1].agency == agency then |log| - 1
    else Last(log[..|log| - 1], agency)
  }

  /** The agencies published strictly between two positions of the log, other than the one at `i`. */
  ghost function OthersBetween(log: seq<Entry>, i: int, j: int): set<string>
    requires 0 <= i < j <= |log|
    decreases j
  {
    if i + 1 == j then {}
    else OthersBetween(log, i, j - 1) + (if log[j - 1].agency == log[i].agency then {} else {log[j - 1].agency})
  }

  lemma {:induction false} OthersHas(log: seq<Entry>, i: int, j: int, k: int)
    requires 0 <= i < k < j <= |log| && log[k].agency != log[i].agency
    ensures log[k].agency in OthersBetween(log, i, j)
    decreases j
  {
    if k < j - 1 {
      OthersHas(log, i, j - 1, k);
    }
  }

  /** A longer stretch of a longer log has at least as many others. */
  lemma {:induction false} OthersGrow(log: seq<Entry>, i: int, j: int, longer: seq<Entry>, i': int, j': int)
    requires log <= longer && 0 <= i' <= i < j <= j' <= |longer| && j <= |log|
    requires log[i].agency == longer[i'].agency
    ensures OthersBetween(log, i, j) <= OthersBetween(longer, i', j')
    ensures |OthersBetween(log, i, j)| <= |OthersBetween(longer, i', j')|
    decreases j
  {
    if i + 1 < j {
      OthersGrow(log, i, j - 1, longer, i', j');
      if log[j - 1].agency != log[i].agency {
        OthersHas(longer, i', j', j - 1);
      }
    }
    Enough(OthersBetween(log, i, j), OthersBetween(longer, i', j'));
  }

  lemma Enough(some: set<string>, all: set<string>)
    requires some <= all
    ensures |some| <= |all|
  {
    assert all == some + (all - some);
  }

  ghost predicate Ordered(s: seq<Entry>) {
    forall i, j :: 0 <= i < j < |s| ==> s[i].at <= s[j].at
  }

  /** The map holds last publications in publication order. */
  ghost predicate Tracks(h: History) {
    && (forall k :: 0 <= k < |h.recent| ==> Last(h.log, h.recent[k].agency) >= 0 && h.log[Last(h.log, h.recent[k].agency)] == h.recent[k])
    && Rising(h.recent, h.log)
  }

  ghost predicate Rising(s: seq<Entry>, log: seq<Entry>) {
    forall k, l :: 0 <= k < l < |s| ==> Last(log, s[k].agency) < Last(log, s[l].agency)
  }

  /** Only an agency with enough later ones has been forgotten. */
  ghost predicate Forgets(h: History) {
    forall i :: 0 <= i < |h.log| && Last(h.log, h.log[i].agency) == i && !Has(h.recent, h.log[i].agency)
      ==> |OthersBetween(h.log, i, |h.log|)| >= CAPACITY
  }

  /** Two publications of an agency within the window have the whole capacity between them. */
  ghost predicate Spaced(log: seq<Entry>) {
    forall i, j :: 0 <= i < j < |log| && log[i].agency == log[j].agency && log[j].at - log[i].at < WINDOW
      ==> |OthersBetween(log, i, j)| >= CAPACITY
  }

  ghost predicate Valid(h: History) {
    && |h.recent| <= CAPACITY && Ordered(h.log)
    && Tracks(h) && Forgets(h) && Spaced(h.log)
  }

  /** No publication lies in the future. */
  ghost predicate Past(h: History, now: real) {
    forall e :: e in h.log ==> e.at <= now
  }

  // ----- One publication -----

  lemma LastAppend(log: seq<Entry>, e: Entry)
    ensures forall a :: Last(log + [e], a) == if a == e.agency then |log| else Last(log, a)
  {
    assert (log + [e])[..|log|] == log;
  }

  lemma RisingCons(x: Entry, s: seq<Entry>, log: seq<Entry>)
    requires Rising(s, log) && forall e :: e in s ==> Last(log, x.agency) < Last(log, e.agency)
    ensures Rising([x] + s, log)
  {
    forall k, l | 0 <= k < l < |s| + 1
      ensures Last(log, ([x] + s)[k].agency) < Last(log, ([x] + s)[l].agency)
    {
      assert ([x] + s)[l] == s[l - 1] && s[l - 1] in s;
      assert k > 0 ==> ([x] + s)[k] == s[k - 1];
    }
  }

  lemma {:induction false} WithoutKeepsRising(recent: seq<Entry>, agency: string, log: seq<Entry>)
    requires Rising(recent, log)
    ensures Rising(Without(recent, agency), log)
  {
    if recent != [] {
      var rest := recent[1..];
      WithoutKeepsRising(rest, agency, log);
      if recent[0].agency != agency {
        forall e | e in Without(rest, agency)
          ensures Last(log, recent[0].agency) < Last(log, e.agency)
        {
          assert e in rest;
          var k :| 0 <= k < |rest| && rest[k] == e;
          assert recent[k + 1] == e;
        }
        RisingCons(recent[0], Without(rest, agency), log);
      }
    }
  }

  ghost function Agencies(s: seq<Entry>): set<string> {
    set e | e in s :: e.agency
  }

  lemma LastIsNew(s: seq<Entry>, log: seq<Entry>)
    requires s != [] && Rising(s, log)
    ensures s[|s| - 1].agency !in Agencies(s[..|s| - 1])
  {
    var front := s[..|s| - 1];
    forall e | e in front
      ensures e.agency != s[|s| - 1].agency
    {
      var k :| 0 <= k < |front| && front[k] == e;
      assert Last(log, s[k].agency) < Last(log, s[|s| - 1].agency);
    }
  }

  lemma {:induction false} DistinctAgencies(s: seq<Entry>, log: seq<Entry>)
    requires Rising(s, log)
    ensures |Agencies(s)| == |s|
  {
    if s == [] {
      assert Agencies(s) == {};
    } else {
      var front := s[..|s| - 1];
      DistinctAgencies(front, log);
      LastIsNew(s, log);
      hide Rising;
      assert Agencies(s) == Agencies(front) + {s[|s| - 1].agency};
    }
  }

  /** What an entry of the map knows about the log. */
  lemma TrackedEntry(h: History, x: Entry)
    requires Tracks(h) && x in h.recent
    ensures Last(h.log, x.agency) >= 0 && h.log[Last(h.log, x.agency)] == x
  {
    var k :| 0 <= k < |h.recent| && h.recent[k] == x;
  }

  lemma RisingAppend(s: seq<Entry>, e: Entry, log: seq<Entry>)
    requires Rising(s, log) && forall k :: 0 <= k < |s| ==> s[k].agency != e.agency
    ensures Rising(s + [e], log + [e])
  {
    LastAppend(log, e);
  }

  lemma PublishTracks(h: History, agency: string, now: real)
    requires Tracks(h) && !Throttled(h.recent, agency, now)
    ensures Tracks(h.Publish(agency, now))
  {
    var e := Entry(agency, now);
    var w := Without(h.recent, agency);
    var kept := Newest(w);
    WithoutKeepsRising(h.recent, agency, h.log);
    forall k | 0 <= k < |kept|
      ensures kept[k].agency != agency && Last(h.log, kept[k].agency) >= 0 && h.log[Last(h.log, kept[k].agency)] == kept[k]
    {
      assert kept[k] in w;
      TrackedEntry(h, kept[k]);
    }
    RisingAppend(kept, e, h.log);
    LastAppend(h.log, e);
  }

  /** A dropped entry stands before all kept ones. */
  lemma DroppedBeforeKept(w: seq<Entry>, x: Entry, log: seq<Entry>, k: nat)
    requires Rising(w, log) && x in w && !Has(Newest(w), x.agency) && k < |Newest(w)|
    ensures Last(log, x.agency) < Last(log, Newest(w)[k].agency)
    ensures |Newest(w)| == CAPACITY - 1
  {
    var gone :| 0 <= gone < |w| && w[gone] == x;
    var shift := |w| - |Newest(w)|;
    assert forall l :: 0 <= l < |Newest(w)| ==> Newest(w)[l] == w[shift + l] && Newest(w)[l] in Newest(w);
    assert gone < shift;
  }

  /** An evicted agency has the kept ones and the new one behind it. */
  lemma EvictedIsFar(h: History, agency: string, now: real, i: int)
    requires Tracks(h) && !Throttled(h.recent, agency, now)
    requires 0 <= i < |h.log| && Last(h.log, h.log[i].agency) == i && h.log[i].agency != agency
    requires Has(h.recent, h.log[i].agency) && !Has(h.Publish(agency, now).recent, h.log[i].agency)
    ensures |OthersBetween(h.Publish(agency, now).log, i, |h.log| + 1)| >= CAPACITY
  {
    var w := Without(h.recent, agency);
    var longer, kept := h.Publish(agency, now).log, Newest(w);
    assert h.log[i] in w by {
      var x :| x in h.recent && x.agency == h.log[i].agency;
      TrackedEntry(h, x);
    }
    assert !Has(kept, h.log[i].agency) by {
      assert forall y :: y in kept ==> y in h.Publish(agency, now).recent;
    }
    WithoutKeepsRising(h.recent, agency, h.log);
    FarEnough(h.log, longer, w, i, agency);
  }

  lemma EvictedMeansFull(w: seq<Entry>, x: Entry)
    requires x in w && !Has(Newest(w), x.agency)
    ensures |Newest(w)| == CAPACITY - 1
  {
  }

  lemma FarEnough(log: seq<Entry>, longer: seq<Entry>, w: seq<Entry>, i: int, agency: string)
    requires Rising(w, log) && log <= longer && |longer| == |log| + 1 && longer[|log|].agency == agency
    requires 0 <= i < |log| && Last(log, log[i].agency) == i && log[i].agency != agency
    requires log[i] in w && !Has(w, agency) && !Has(Newest(w), log[i].agency)
    ensures |OthersBetween(longer, i, |longer|)| >= CAPACITY
  {
    var kept := Newest(w);
    KeptAreOthers(log, longer, w, i);
    OthersHas(longer, i, |longer|, |log|);
    assert agency !in Agencies(kept) by {
      assert forall x :: x in kept ==> x in w;
    }
    RisingNewest(w, log);
    DistinctAgencies(kept, log);
    EvictedMeansFull(w, log[i]);
    hide Rising, Last, Newest, Has, Agencies, OthersBetween;
    assert |Agencies(kept) + {agency}| == |Agencies(kept)| + 1;
    Enough(Agencies(kept) + {agency}, OthersBetween(longer, i, |longer|));
  }

  lemma RisingNewest(w: seq<Entry>, log: seq<Entry>)
    requires Rising(w, log)
    ensures Rising(Newest(w), log)
  {
  }

  lemma LaterIsOther(log: seq<Entry>, longer: seq<Entry>, i: int, agency: string)
    requires log <= longer && log != longer && 0 <= i < Last(log, agency) && Last(log, log[i].agency) == i
    ensures agency in OthersBetween(longer, i, |longer|)
  {
    var last := Last(log, agency);
    assert longer[last] == log[last] && longer[i] == log[i];
    OthersHas(longer, i, |longer|, last);
  }

  lemma KeptAreOthers(log: seq<Entry>, longer: seq<Entry>, w: seq<Entry>, i: int)
    requires Rising(w, log) && log <= longer && log != longer
    requires 0 <= i < |log| && Last(log, log[i].agency) == i
    requires log[i] in w && !Has(Newest(w), log[i].agency)
    ensures Agencies(Newest(w)) <= OthersBetween(longer, i, |longer|)
  {
    forall k | 0 <= k < |Newest(w)|
      ensures Newest(w)[k].agency in OthersBetween(longer, i, |longer|)
    {
      DroppedBeforeKept(w, log[i], log, k);
      LaterIsOther(log, longer, i, Newest(w)[k].agency);
    }
  }

  lemma PublishForgets(h: History, agency: string, now: real)
    requires Tracks(h) && Forgets(h) && !Throttled(h.recent, agency, now)
    ensures Forgets(h.Publish(agency, now))
  {
    var next := h.Publish(agency, now);
    forall i | 0 <= i < |next.log| && Last(next.log, next.log[i].agency) == i && !Has(next.recent, next.log[i].agency)
      ensures |OthersBetween(next.log, i, |next.log|)| >= CAPACITY
    {
      ForgottenIsFar(h, agency, now, i);
    }
  }

  lemma AlreadyForgotten(h: History, i: int)
    requires Forgets(h) && 0 <= i < |h.log| && Last(h.log, h.log[i].agency) == i && !Has(h.recent, h.log[i].agency)
    ensures |OthersBetween(h.log, i, |h.log|)| >= CAPACITY
  {
    hide OthersBetween, Last, Has;
  }

  lemma NotForgottenNow(h: History, agency: string, now: real, i: int)
    requires !Throttled(h.recent, agency, now)
    requires var next := h.Publish(agency, now);
      0 <= i < |next.log| && Last(next.log, next.log[i].agency) == i && !Has(next.recent, next.log[i].agency)
    ensures var next := h.Publish(agency, now);
      && h.log <= next.log && |next.log| == |h.log| + 1 && i < |h.log| && next.log[i] == h.log[i]
      && h.log[i].agency != agency && Last(h.log, h.log[i].agency) == i
  {
    hide Throttled, Newest, Without, Last;
    var e := Entry(agency, now);
    LastAppend(h.log, e);
    assert e in h.Publish(agency, now).recent;
  }

  lemma ForgottenIsFar(h: History, agency: string, now: real, i: int)
    requires Tracks(h) && Forgets(h) && !Throttled(h.recent, agency, now)
    requires var next := h.Publish(agency, now);
      0 <= i < |next.log| && Last(next.log, next.log[i].agency) == i && !Has(next.recent, next.log[i].agency)
    ensures var next := h.Publish(agency, now); |OthersBetween(next.log, i, |next.log|)| >= CAPACITY
  {
    hide *;
    var next := h.Publish(agency, now);
    NotForgottenNow(h, agency, now, i);
    if Has(h.recent, h.log[i].agency) {
      EvictedIsFar(h, agency, now, i);
    } else {
      AlreadyForgotten(h, i);
      OthersGrow(h.log, i, |h.log|, next.log, i, |next.log|);
    }
  }

  /** An agency in the map that is not throttled was published before the window. */
  lemma TrackedIsOld(h: History, agency: string, now: real)
    requires Tracks(h) && !Throttled(h.recent, agency, now)
    ensures var last := Last(h.log, agency); Has(h.recent, agency) ==> last >= 0 && now - h.log[last].at >= WINDOW
  {
    if Has(h.recent, agency) {
      TrackedEntry(h, Entry(agency, Get(h.recent, agency).value));
    }
  }

  /** A publication follows the last one of its agency at a distance in time or in agencies. */
  lemma PublishedFar(h: History, agency: string, now: real, i: int)
    requires Tracks(h) && Forgets(h) && Ordered(h.log) && !Throttled(h.recent, agency, now)
    requires 0 <= i < |h.log| && h.log[i].agency == agency && now - h.log[i].at < WINDOW
    ensures |OthersBetween(h.log + [Entry(agency, now)], i, |h.log|)| >= CAPACITY
  {
    var last := Last(h.log, agency);
    assert i <= last && h.log[i].at <= h.log[last].at;
    TrackedIsOld(h, agency, now);
    OthersGrow(h.log, last, |h.log|, h.log + [Entry(agency, now)], i, |h.log|);
  }

  lemma PublishSpacedAt(h: History, agency: string, now: real, i: int, j: int)
    requires Valid(h) && !Throttled(h.recent, agency, now)
    requires var log := h.log + [Entry(agency, now)];
      0 <= i < j < |log| && log[i].agency == log[j].agency && log[j].at - log[i].at < WINDOW
    ensures |OthersBetween(h.log + [Entry(agency, now)], i, j)| >= CAPACITY
  {
    hide Tracks, Forgets, Ordered, Throttled;
    if j < |h.log| {
      OthersGrow(h.log, i, j, h.log + [Entry(agency, now)], i, j);
    } else {
      PublishedFar(h, agency, now, i);
    }
  }

  lemma PublishSpaced(h: History, agency: string, now: real)
    requires Valid(h) && !Throttled(h.recent, agency, now)
    ensures Spaced(h.log + [Entry(agency, now)])
  {
    var log := h.log + [Entry(agency, now)];
    forall i, j | 0 <= i < j < |log| && log[i].agency == log[j].agency && log[j].at - log[i].at < WINDOW
      ensures |OthersBetween(log, i, j)| >= CAPACITY
    {
      PublishSpacedAt(h, agency, now, i, j);
    }
  }

  lemma PublishOrdered(h: History, agency: string, now: real)
    requires Ordered(h.log) && Past(h, now)
    ensures Ordered(h.log + [Entry(agency, now)])
  {
    var log := h.log + [Entry(agency, now)];
    forall i, j | 0 <= i < j < |log|
      ensures log[i].at <= log[j].at
    {
      assert h.log[i] in h.log;
    }
  }

  /** Every call keeps the bound, the order and the spacing. */
  lemma PublishKeepsValid(h: History, agency: string, now: real)
    requires Valid(h) && Past(h, now)
    ensures Valid(h.Publish(agency, now)) && Past(h.Publish(agency, now), now)
    ensures h.log <= h.Publish(agency, now).log
  {
    if !Throttled(h.recent, agency, now) {
      PublishTracks(h, agency, now);
      PublishForgets(h, agency, now);
      PublishSpaced(h, agency, now);
      PublishOrdered(h, agency, now);
      hide Tracks, Forgets, Spaced, Ordered, Throttled, Without;
    }
  }

  // ----- Runs with commits and aborts -----

  type Delay = d: real | 0.0 <= d witness 0.0

  /** What happens to the process: time passes, `publish` is called, outside of a commit or in the context of
      one, and contexts begin, commit, abort or discard their hints.  Any number of them may be open at a
      time.  A commit publishes its deferred hints one after the other. */
  datatype Op =
    | Pass(delay: Delay)
    | Call(context: Option<nat>, agency: string, delay: Delay)
    | Begin(id: nat)
    | Commit(id: nat, delays: seq<Delay>)
    | Abort(id: nat)
    | Discard(id: nat)

  /** `deferred` holds, for every open context, the agencies that wait for its commit, each once. */
  datatype World = World(history: History, clock: real, deferred: map<nat, seq<string>>)

  /** In a context that is closed the call throws. */
  function Step(w: World, op: Op): World {
    match op
    case Pass(delay) => w.(clock := w.clock + delay)
    case Call(context, agency, delay) =>
      var now := w.clock + delay;
      if context.None? then World(w.history.Publish(agency, now), now, w.deferred)
      else if context.value !in w.deferred then w.(clock := now)
      else
        var hints := w.deferred[context.value];
        World(w.history, now, w.deferred[context.value := if agency in hints then hints else hints + [agency]])
    case Begin(id) => if id in w.deferred then w else w.(deferred := w.deferred[id := []])
    case Commit(id, delays) =>
      if id !in w.deferred then w else Flush(w.(deferred := w.deferred - {id}), w.deferred[id], delays)
    case Abort(id) => w.(deferred := w.deferred - {id})
    case Discard(id) => if id in w.deferred then w.(deferred := w.deferred[id := []]) else w
  }

  function Flush(w: World, hints: seq<string>, delays: seq<Delay>): World
    decreases |hints|
  {
    if hints == [] then w
    else
      var now := w.clock + if delays == [] then 0.0 else delays[0];
      Flush(World(w.history.Publish(hints[0], now), now, w.deferred), hints[1..], if delays == [] then [] else delays[1..])
  }

  function Run(w: World, ops: seq<Op>): World
    decreases |ops|
  {
    if ops == [] then w else Run(Step(w, ops[0]), ops[1..])
  }

  ghost predicate Sound(w: World) {
    Valid(w.history) && Past(w.history, w.clock)
  }

  lemma PublishSound(w: World, agency: string, now: real)
    requires Sound(w) && w.clock <= now
    ensures Sound(World(w.history.Publish(agency, now), now, w.deferred))
  {
    hide Valid;
    PublishKeepsValid(w.history, agency, now);
  }

  lemma {:induction false} FlushSound(w: World, hints: seq<string>, delays: seq<Delay>)
    requires Sound(w)
    ensures Sound(Flush(w, hints, delays))
    decreases |hints|
  {
    hide Sound, Without, Newest, Throttled;
    if hints != [] {
      var now := w.clock + if delays == [] then 0.0 else delays[0];
      PublishSound(w, hints[0], now);
      FlushSound(World(w.history.Publish(hints[0], now), now, w.deferred), hints[1..], if delays == [] then [] else delays[1..]);
    }
  }

  lemma StepSound(w: World, op: Op)
    requires Sound(w)
    ensures Sound(Step(w, op))
  {
    hide Valid;
    if op.Call? && op.context.None? {
      PublishKeepsValid(w.history, op.agency, w.clock + op.delay);
    } else if op.Commit? && op.id in w.deferred {
      FlushSound(w.(deferred := w.deferred - {op.id}), w.deferred[op.id], op.delays);
    }
  }

  /** On every run the map is bounded and ordered, and the log is spaced. */
  lemma {:induction false} RunSound(w: World, ops: seq<Op>)
    requires Sound(w)
    ensures Sound(Run(w, ops))
    decreases |ops|
  {
    hide Sound;
    if ops != [] {
      StepSound(w, ops[0]);
      RunSound(Step(w, ops[0]), ops[1..]);
    }
  }

  lemma RunsAreSpaced(clock: real, ops: seq<Op>)
    ensures var h := Run(World(EMPTY, clock, map[]), ops).history;
      && |h.recent| <= 1000 && Ordered(h.recent)
      && forall i, j :: 0 <= i < j < |h.log| && h.log[i].agency == h.log[j].agency && h.log[j].at - h.log[i].at < 500.0
           ==> |OthersBetween(h.log, i, j)| >= 1000
  {
    var w := World(EMPTY, clock, map[]);
    RunSound(w, ops);
    RecentOrdered(Run(w, ops).history);
  }

  lemma RecentOrdered(h: History)
    requires Tracks(h) && Ordered(h.log)
    ensures Ordered(h.recent)
  {
    forall k, l | 0 <= k < l < |h.recent|
      ensures h.recent[k].at <= h.recent[l].at
    {
      TrackedEntry(h, h.recent[k]);
      TrackedEntry(h, h.recent[l]);
    }
  }

  // ----- What is heard -----

  /** The agency was published less than the window before `time`, or later. */
  ghost predicate Heard(log: seq<Entry>, agency: string, time: real) {
    exists e :: e in log && e.agency == agency && e.at > time - 500.0
  }

  lemma PublishIsHeard(h: History, agency: string, now: real, time: real)
    requires Valid(h) && time <= now
    ensures Heard(h.Publish(agency, now).log, agency, time)
    ensures forall other :: Heard(h.log, other, time) ==> Heard(h.Publish(agency, now).log, other, time)
  {
    if Throttled(h.recent, agency, now) {
      var e := Entry(agency, Get(h.recent, agency).value);
      TrackedEntry(h, e);
      hide Valid, Throttled, Last, Get;
      assert e in h.log;
    } else {
      assert Entry(agency, now) in h.Publish(agency, now).log;
    }
  }

  lemma {:induction false} FlushIsHeard(w: World, hints: seq<string>, delays: seq<Delay>, agency: string, time: real)
    requires Sound(w) && time <= w.clock
    requires agency in hints || Heard(w.history.log, agency, time)
    ensures Heard(Flush(w, hints, delays).history.log, agency, time)
    decreases |hints|
  {
    hide Heard, Valid, Without, Newest, Throttled;
    if hints != [] {
      var now := w.clock + if delays == [] then 0.0 else delays[0];
      var next := World(w.history.Publish(hints[0], now), now, w.deferred);
      PublishIsHeard(w.history, hints[0], now, time);
      PublishSound(w, hints[0], now);
      FlushIsHeard(next, hints[1..], if delays == [] then [] else delays[1..], agency, time);
    }
  }

  /** Nothing closes the context or discards what waits for it. */
  ghost predicate LeavesOpen(ops: seq<Op>, id: nat) {
    forall op :: op in ops ==> !(op.Commit? && op.id == id) && !(op.Abort? && op.id == id) && !(op.Discard? && op.id == id)
  }

  lemma {:induction false} StaysDeferred(w: World, ops: seq<Op>, id: nat, agency: string)
    requires id in w.deferred && LeavesOpen(ops, id)
    ensures id in Run(w, ops).deferred
    ensures agency in w.deferred[id] ==> agency in Run(w, ops).deferred[id]
    decreases |ops|
  {
    if ops != [] {
      var op := ops[0];
      assert op in ops && forall o :: o in ops[1..] ==> o in ops;
      if op.Commit? && op.id in w.deferred {
        FlushKeepsDeferred(w.(deferred := w.deferred - {op.id}), w.deferred[op.id], op.delays, map[]);
      }
      hide Flush;
      StaysDeferred(Step(w, op), ops[1..], id, agency);
    }
  }

  lemma {:induction false} RunConcat(w: World, a: seq<Op>, b: seq<Op>)
    ensures Run(w, a + b) == Run(Run(w, a), b)
    decreases |a|
  {
    if a == [] {
      assert a + b == b;
    } else {
      assert (a + b)[0] == a[0] && (a + b)[1..] == a[1..] + b;
      RunConcat(Step(w, a[0]), a[1..], b);
    }
  }

  /** A call outside of a commit is heard: its agency has been published within the window. */
  lemma CallsAreHeard(clock: real, ops: seq<Op>, agency: string, delay: Delay)
    ensures var w := Run(World(EMPTY, clock, map[]), ops);
      Heard(Step(w, Call(None, agency, delay)).history.log, agency, w.clock + delay)
  {
    RunSound(World(EMPTY, clock, map[]), ops);
    var w := Run(World(EMPTY, clock, map[]), ops);
    PublishIsHeard(w.history, agency, w.clock + delay, w.clock + delay);
  }

  /** And so is one in a context that goes on to commit, at the commit. */
  lemma CommittedCallsAreHeard(clock: real, before: seq<Op>, id: nat, some: seq<Op>, agency: string, delay: Delay,
                               more: seq<Op>, delays: seq<Delay>)
    requires LeavesOpen(some, id) && LeavesOpen(more, id)
    ensures var w := Run(World(EMPTY, clock, map[]), before + [Begin(id)] + some + [Call(Some(id), agency, delay)] + more);
      Heard(Step(w, Commit(id, delays)).history.log, agency, w.clock)
  {
    var start, call := World(EMPTY, clock, map[]), Call(Some(id), agency, delay);
    var begun := before + [Begin(id)];
    var called := begun + some + [call];
    RunConcat(start, before, [Begin(id)]);
    RunConcat(start, begun, some);
    RunConcat(start, begun + some, [call]);
    RunConcat(start, called, more);
    OneStep(Run(start, before), Begin(id));
    StaysDeferred(Run(start, begun), some, id, agency);
    OneStep(Run(start, begun + some), call);
    StaysDeferred(Run(start, called), more, id, agency);
    var w := Run(start, called + more);
    RunSound(start, called + more);
    hide Run, Flush, Sound, Heard;
    var next := w.(deferred := w.deferred - {id});
    assert Sound(next) by {
      SoundAnyway(w, next);
    }
    FlushIsHeard(next, w.deferred[id], delays, agency, w.clock);
  }

  lemma OneStep(w: World, op: Op)
    ensures Run(w, [op]) == Step(w, op)
  {
    assert [op][1..] == [];
    assert Run(Step(w, op), []) == Step(w, op);
  }

  lemma SoundAnyway(w: World, next: World)
    requires Sound(w) && next.history == w.history && next.clock == w.clock
    ensures Sound(next)
  {
  }

  // ----- A context that does not commit -----

  /** The same operation without the context `id`: only its time passes. */
  function LeavingOut(op: Op, id: nat): Op {
    match op
    case Call(context, _, delay) => if context == Some(id) then Pass(delay) else op
    case Begin(i) => if i == id then Pass(0.0) else op
    case Abort(i) => if i == id then Pass(0.0) else op
    case Discard(i) => if i == id then Pass(0.0) else op
    case _ => op
  }

  function Erased(ops: seq<Op>, id: nat): seq<Op> {
    if ops == [] then [] else [LeavingOut(ops[0], id)] + Erased(ops[1..], id)
  }

  /** The worlds differ only in what waits for the context. */
  ghost predicate SameBut(a: World, b: World, id: nat) {
    a.history == b.history && a.clock == b.clock && a.deferred - {id} == b.deferred - {id}
  }

  lemma OtherContexts(a: map<nat, seq<string>>, b: map<nat, seq<string>>, id: nat)
    requires a - {id} == b - {id}
    ensures forall i :: i != id ==> ((i in a <==> i in b) && (i in a ==> a[i] == b[i]))
  {
    forall i | i != id
      ensures (i in a <==> i in b) && (i in a ==> a[i] == b[i])
    {
      assert i in a - {id} <==> i in a;
      assert i in b - {id} <==> i in b;
      if i in a {
        assert (a - {id})[i] == a[i] && (b - {id})[i] == b[i];
      }
    }
  }

  lemma {:induction false} FlushKeepsDeferred(w: World, hints: seq<string>, delays: seq<Delay>, deferred: map<nat, seq<string>>)
    ensures Flush(w, hints, delays).deferred == w.deferred
    ensures Flush(w.(deferred := deferred), hints, delays) == Flush(w, hints, delays).(deferred := deferred)
    decreases |hints|
  {
    if hints != [] {
      var now := w.clock + if delays == [] then 0.0 else delays[0];
      var next := World(w.history.Publish(hints[0], now), now, w.deferred);
      FlushKeepsDeferred(next, hints[1..], if delays == [] then [] else delays[1..], deferred);
    }
  }

  lemma StepWithout(a: World, b: World, op: Op, id: nat)
    requires SameBut(a, b, id) && !(op.Commit? && op.id == id)
    ensures SameBut(Step(a, op), Step(b, LeavingOut(op, id)), id)
  {
    OtherContexts(a.deferred, b.deferred, id);
    if op.Commit? && op.id in a.deferred {
      var next := a.(deferred := a.deferred - {op.id});
      FlushKeepsDeferred(next, a.deferred[op.id], op.delays, b.deferred - {op.id});
      assert next.(deferred := b.deferred - {op.id}) == b.(deferred := b.deferred - {op.id});
    }
    hide Flush, Without, Newest, Throttled;
  }

  /** Whatever other contexts are open meanwhile: a context that does not commit leaves no trace.  The map,
      the log, the clock and what waits for the other contexts are as if it had never been. */
  lemma {:induction false} AbortPublishesNothing(w: World, ops: seq<Op>, id: nat)
    requires forall i :: 0 <= i < |ops| ==> !(ops[i].Commit? && ops[i].id == id)
    ensures SameBut(Run(w, ops), Run(w, Erased(ops, id)), id)
  {
    ErasedFrom(w, w, ops, id);
  }

  lemma {:induction false} ErasedFrom(a: World, b: World, ops: seq<Op>, id: nat)
    requires SameBut(a, b, id) && forall i :: 0 <= i < |ops| ==> !(ops[i].Commit? && ops[i].id == id)
    ensures SameBut(Run(a, ops), Run(b, Erased(ops, id)), id)
    decreases |ops|
  {
    if ops != [] {
      StepWithout(a, b, ops[0], id);
      assert Erased(ops, id)[0] == LeavingOut(ops[0], id) && Erased(ops, id)[1..] == Erased(ops[1..], id);
      hide SameBut, Step;
      ErasedFrom(Step(a, ops[0]), Step(b, LeavingOut(ops[0], id)), ops[1..], id);
    }
  }

  /** The same operations with the calls in the context left out: only their time passes. */
  function Silenced(ops: seq<Op>, id: nat): seq<Op> {
    if ops == [] then []
    else
      [if ops[0].Call? && ops[0].context == Some(id) then Pass(ops[0].delay) else ops[0]] + Silenced(ops[1..], id)
  }

  ghost predicate SameOpen(a: World, b: World, id: nat) {
    SameBut(a, b, id) && (id in a.deferred <==> id in b.deferred)
  }

  lemma StepSilenced(a: World, b: World, op: Op, id: nat)
    requires SameOpen(a, b, id) && !(op.Commit? && op.id == id)
    ensures SameOpen(Step(a, op), Step(b, if op.Call? && op.context == Some(id) then Pass(op.delay) else op), id)
  {
    OtherContexts(a.deferred, b.deferred, id);
    if op.Commit? && op.id in a.deferred {
      var next := a.(deferred := a.deferred - {op.id});
      FlushKeepsDeferred(next, a.deferred[op.id], op.delays, b.deferred - {op.id});
      assert next.(deferred := b.deferred - {op.id}) == b.(deferred := b.deferred - {op.id});
    }
    hide Flush, Without, Newest, Throttled;
  }

  lemma {:induction false} SilencedFrom(a: World, b: World, ops: seq<Op>, id: nat)
    requires SameOpen(a, b, id) && forall i :: 0 <= i < |ops| ==> !(ops[i].Commit? && ops[i].id == id)
    ensures SameOpen(Run(a, ops), Run(b, Silenced(ops, id)), id)
    decreases |ops|
  {
    if ops != [] {
      var silent := if ops[0].Call? && ops[0].context == Some(id) then Pass(ops[0].delay) else ops[0];
      StepSilenced(a, b, ops[0], id);
      assert Silenced(ops, id)[0] == silent && Silenced(ops, id)[1..] == Silenced(ops[1..], id);
      hide SameOpen, Step;
      SilencedFrom(Step(a, ops[0]), Step(b, silent), ops[1..], id);
    }
  }

  /** An abort or a discard ends the matter: the world is then the same as if the context had not called at all,
      so that no later commit, of whatever context, can publish those calls. */
  lemma DroppedCallsAreForgotten(w: World, ops: seq<Op>, id: nat, end: Op)
    requires forall i :: 0 <= i < |ops| ==> !(ops[i].Commit? && ops[i].id == id)
    requires end == Abort(id) || end == Discard(id)
    ensures Step(Run(w, ops), end) == Step(Run(w, Silenced(ops, id)), end)
  {
    SilencedFrom(w, w, ops, id);
    var a, b := Run(w, ops), Run(w, Silenced(ops, id));
    hide Run, Silenced;
    OtherContexts(a.deferred, b.deferred, id);
    assert a.deferred[id := []] == b.deferred[id := []];
  }

  // ----- The module-level map -----

  class Hints {
    var recent: seq<Entry>
    ghost var log: seq<Entry>

    ghost function Map(): History
      reads this
    {
      History(recent, log)
    }

    constructor ()
      ensures Map() == EMPTY && Valid(Map())
    {
      recent, log := [], [];
    }

    /** The loop that deletes the oldest keys. */
    method MakeRoom()
      modifies this`recent
      ensures recent == Newest(old(recent))
    {
      hide *;
      ghost var w := recent;
      EvictionStarts(w);
      while |recent| >= CAPACITY
        invariant Evicting(w, recent)
        decreases |recent|
      {
        EvictionGoesOn(w, recent);
        recent := recent[1..];
      }
      EvictionEnds(w, recent);
    }

    /** `publish` outside a commit. */
    method Publish(agency: string, now: real) returns (published: bool)
      requires Valid(Map()) && Past(Map(), now)
      modifies this
      ensures Map() == old(Map()).Publish(agency, now)
      ensures Valid(Map()) && Past(Map(), now)
      ensures log == if published then old(log) + [Entry(agency, now)] else old(log)
      ensures published <==> forall at :: Entry(agency, at) in old(recent) ==> now - at >= 500.0
    {
      PublishKeepsValid(Map(), agency, now);
      PublishTells(Map(), agency, now);
      hide *;
      var at := Get(recent, agency);
      if at.Some? && now - at.value < WINDOW {
        return false;
      }
      recent := Without(recent, agency);
      MakeRoom();
      recent := recent + [Entry(agency, now)];
      log := log + [Entry(agency, now)];
      return true;
    }
  }

  /** The oldest entries of `w` have gone, and not more than had to. */
  ghost predicate Evicting(w: seq<Entry>, recent: seq<Entry>) {
    |recent| <= |w| && recent == w[|w| - |recent|..] && (|recent| < CAPACITY ==> recent == Newest(w))
  }

  lemma EvictionStarts(w: seq<Entry>)
    ensures Evicting(w, w)
  {
  }

  lemma EvictionGoesOn(w: seq<Entry>, recent: seq<Entry>)
    requires Evicting(w, recent) && |recent| >= CAPACITY
    ensures |recent| > 0 && Evicting(w, recent[1..])
  {
  }

  lemma EvictionEnds(w: seq<Entry>, recent: seq<Entry>)
    requires Evicting(w, recent) && |recent| < CAPACITY
    ensures recent == Newest(w)
  {
  }

  /** What a publication does to map and log. */
  lemma PublishTells(h: History, agency: string, now: real)
    requires Valid(h)
    ensures var at := Get(h.recent, agency);
      && h.Publish(agency, now) ==
           (if at.Some? && now - at.value < WINDOW then h
            else History(Newest(Without(h.recent, agency)) + [Entry(agency, now)], h.log + [Entry(agency, now)]))
      && (at.Some? && now - at.value < WINDOW <==> !forall at :: Entry(agency, at) in h.recent ==> now - at >= 500.0)
  {
    OneEntryEach(h, agency);
    hide Valid;
  }

  lemma OneEntryEach(h: History, agency: string)
    requires Valid(h)
    ensures forall at :: Entry(agency, at) in h.recent ==> Get(h.recent, agency) == Some(at)
  {
    forall at | Entry(agency, at) in h.recent
      ensures Get(h.recent, agency) == Some(at)
    {
      TrackedEntry(h, Entry(agency, at));
      TrackedEntry(h, Entry(agency, Get(h.recent, agency).value));
    }
  }
}
