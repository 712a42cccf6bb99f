/** Archiving automation deliveries into monthly aggregates: the DELETE and the upsert of
    scripts/test-support/admin-command-memory-db.js under the batch of
    src/services/automation-history-service.js.

    What an aggregate records of its deliveries (eleven counters, the first and the last finishing
    time) is a measure with a commutative, associative operation.  Conservation is proved once for
    every such measure: what the live deliveries and the aggregates of any choice of agencies and keys
    record together is the same before and after any run, committed or rolled back. */
module Archive {

  import opened Wrappers

  /** Absent texts are empty; times are instants, absent ones are `None`. */
  datatype Delivery = Delivery(
    id: string, agency: string, creator: string, moduleKey: string, actionType: string,
    originKind: string, status: string, finishedAt: Option<int>, failureCode: string,
    remoteState: string, intentAcknowledged: bool, replied: bool)

  datatype Key = Key(creator: string, moduleKey: string, actionType: string, period: int)

  datatype Column = Total | Completed | Failed | Skipped | Canceled | Sent | Replied | Followed | Unfollowed | Liked | Commented

  /** A group of deliveries, or a stored aggregate. */
  datatype Group = Group(agency: string, key: Key, counts: Column -> int, firstAt: int, lastAt: int)

  // ----- DELETE ... RETURNING -----

  predicate Deletable(d: Delivery, ids: seq<string>, before: int) {
    && d.id in ids
    && d.originKind == "AUTOMATION"
    && d.status in ["COMPLETED", "FAILED", "SKIPPED", "CANCELED"]
    && d.finishedAt.Some? && d.finishedAt.value < before
    && d.failureCode != "outcome_unresolved_do_not_retry"
    && (d.remoteState == "" || d.remoteState == "SETTLED")
    && (d.actionType != "MASS_QUEUE_CREATE" || d.intentAcknowledged)
  }

  function Returned(ds: seq<Delivery>, ids: seq<string>, before: int): (r: seq<Delivery>)
    ensures forall d :: d in r <==> d in ds && Deletable(d, ids, before)
  {
    if ds == [] then []
    else
      var d := ds[|ds| - 1];
      Returned(ds[..|ds| - 1], ids, before) + (if Deletable(d, ids, before) then [d] else [])
  }

  function Remaining(ds: seq<Delivery>, ids: seq<string>, before: int): (r: seq<Delivery>)
    ensures forall d :: d in r <==> d in ds && !Deletable(d, ids, before)
  {
    if ds == [] then []
    else
      var d := ds[|ds| - 1];
      Remaining(ds[..|ds| - 1], ids, before) + (if Deletable(d, ids, before) then [] else [d])
  }

  lemma Unfolded(ds: seq<Delivery>, ids: seq<string>, before: int)
    requires ds != []
    ensures var rest, d := ds[..|ds| - 1], ds[|ds| - 1];
      if Deletable(d, ids, before) then
        Returned(ds, ids, before) == Returned(rest, ids, before) + [d] && Remaining(ds, ids, before) == Remaining(rest, ids, before)
      else
        Returned(ds, ids, before) == Returned(rest, ids, before) && Remaining(ds, ids, before) == Remaining(rest, ids, before) + [d]
  {
    hide Deletable;
  }

  lemma SplitPushed(all: seq<Delivery>, rest: seq<Delivery>, a: seq<Delivery>, b: seq<Delivery>, d: Delivery)
    requires all != [] && rest == all[..|all| - 1] && d == all[|all| - 1]
    requires multiset(rest) == multiset(a) + multiset(b)
    ensures multiset(all) == multiset(a + [d]) + multiset(b)
    ensures multiset(all) == multiset(a) + multiset(b + [d])
  {
    assert all == rest + [d];
  }

  lemma {:induction false} DeleteSplits(ds: seq<Delivery>, ids: seq<string>, before: int)
    ensures multiset(ds) == multiset(Returned(ds, ids, before)) + multiset(Remaining(ds, ids, before))
  {
    if ds == [] {
      assert Returned(ds, ids, before) == [] && Remaining(ds, ids, before) == [];
    } else {
      hide *;
      var rest, d := ds[..|ds| - 1], ds[|ds| - 1];
      DeleteSplits(rest, ids, before);
      SplitPushed(ds, rest, Returned(rest, ids, before), Remaining(rest, ids, before), d);
      Unfolded(ds, ids, before);
    }
  }

  // ----- Grouping -----

  /** The aggregate a returned delivery belongs to; `period` gives the month of an instant. */
  function KeyOf(d: Delivery, period: int -> int): Key
    requires d.finishedAt.Some?
  {
    Key(d.creator, d.moduleKey, d.actionType, period(d.finishedAt.value))
  }

  function Contribution(d: Delivery, c: Column): int {
    var done := d.status == "COMPLETED";
    var counts := match c
      case Total => true
      case Completed => done
      case Failed => d.status == "FAILED"
      case Skipped => d.status == "SKIPPED"
      case Canceled => d.status == "CANCELED"
      case Sent => done && d.actionType == "SEND_MESSAGE"
      case Replied => d.replied
      case Followed => done && d.actionType in ["FOLLOW_BACK", "FOLLOW_FAN", "SFS_FOLLOW_TARGET"]
      case Unfollowed => done && d.actionType in ["UNFOLLOW_FAN", "SFS_UNFOLLOW_TARGET"]
      case Liked => done && d.actionType in ["LIKE_POST", "SFS_LIKE_COMMENT"]
      case Commented => done && d.actionType == "SFS_COMMENT_POST";
    if counts then 1 else 0
  }

  function Single(d: Delivery, period: int -> int): Group
    requires d.finishedAt.Some?
  {
    Group(d.agency, KeyOf(d, period), c => Contribution(d, c), d.finishedAt.value, d.finishedAt.value)
  }

  /** The aggregate behind `DO UPDATE`: counters added, first and last instants extended. */
  function Merge(row: Group, group: Group): Group {
    row.(counts := c => row.counts(c) + group.counts(c),
         firstAt := if row.firstAt < group.firstAt then row.firstAt else group.firstAt,
         lastAt := if row.lastAt > group.lastAt then row.lastAt else group.lastAt)
  }

  function FindGroup(groups: seq<Group>, agency: string, key: Key): (i: int)
    ensures -1 <= i < |groups|
    ensures i >= 0 ==> groups[i].agency == agency && groups[i].key == key
  {
    if groups == [] then -1
    else if groups[|groups| - 1].agency == agency && groups[|groups| - 1].key == key then |groups| - 1
    else FindGroup(groups[..|groups| - 1], agency, key)
  }

  /** One group per agency and key, in the order of their first deliveries. */
  function GroupAll(ds: seq<Delivery>, period: int -> int): seq<Group>
    requires forall d :: d in ds ==> d.finishedAt.Some?
  {
    if ds == [] then []
    else
      var groups := GroupAll(ds[..|ds| - 1], period);
      var single := Single(ds[|ds| - 1], period);
      var i := FindGroup(groups, single.agency, single.key);
      if i < 0 then groups + [single] else groups[i := Merge(groups[i], single)]
  }

  // ----- Upsert -----

  /** The aggregate of a key, whatever its agency. */
  function FindKey(aggregates: seq<Group>, key: Key): (i: int)
    ensures -1 <= i < |aggregates|
    ensures i >= 0 ==> aggregates[i].key == key
    ensures i < 0 ==> forall j :: 0 <= j < |aggregates| ==> aggregates[j].key != key
  {
    if aggregates == [] then -1
    else if aggregates[0].key == key then 0
    else var i := FindKey(aggregates[1..], key); if i < 0 then -1 else i + 1
  }

  /** The key is taken by an aggregate of another agency. */
  predicate Conflicts(aggregates: seq<Group>, group: Group) {
    var i := FindKey(aggregates, group.key);
    i >= 0 && aggregates[i].agency != group.agency
  }

  /** A conflicting group is skipped. */
  function Upsert(aggregates: seq<Group>, group: Group): seq<Group> {
    var i := FindKey(aggregates, group.key);
    if Conflicts(aggregates, group) then aggregates
    else if i < 0 then aggregates + [group]
    else aggregates[i := Merge(aggregates[i], group)]
  }

  /** All groups in order; `written` counts those that were not skipped. */
  function UpsertAll(aggregates: seq<Group>, groups: seq<Group>): (seq<Group>, nat)
    decreases |groups|
  {
    if groups == [] then (aggregates, 0)
    else
      var (rest, written) := UpsertAll(Upsert(aggregates, groups[0]), groups[1..]);
      (rest, if Conflicts(aggregates, groups[0]) then written else written + 1)
  }

  ghost predicate UniqueKeys(aggregates: seq<Group>) {
    forall i, j :: 0 <= i < j < |aggregates| ==> aggregates[i].key != aggregates[j].key
  }

  // ----- Measures -----

  datatype Measure<!M> = Measure(unit: M, op: (M, M) -> M, ofDelivery: Delivery -> M, ofGroup: Group -> M)

  /** A commutative monoid. */
  ghost predicate Combines<M(!new)>(m: Measure<M>) {
    && (forall a: M :: m.op(a, m.unit) == a)
    && (forall a: M, b: M :: m.op(a, b) == m.op(b, a))
    && (forall a: M, b: M, c: M :: m.op(m.op(a, b), c) == m.op(a, m.op(b, c)))
  }

  ghost predicate Lawful<M(!new)>(m: Measure<M>, period: int -> int) {
    && Combines(m)
    && (forall d: Delivery :: d.finishedAt.Some? ==> m.ofGroup(Single(d, period)) == m.ofDelivery(d))
    && (forall row: Group, group: Group :: m.ofGroup(Merge(row, group)) == m.op(m.ofGroup(row), m.ofGroup(group)))
  }

  /** `a + (b + c) == b + (a + c)` and friends, for a lawful measure. */
  lemma Shuffle<M(!new)>(m: Measure<M>, period: int -> int, a: M, b: M, c: M)
    requires Lawful(m, period)
    ensures m.op(a, m.op(b, c)) == m.op(m.op(a, b), c) == m.op(b, m.op(a, c)) == m.op(m.op(b, a), c)
    ensures m.op(m.op(a, c), b) == m.op(m.op(a, b), c)
    ensures m.op(a, b) == m.op(b, a) && m.op(a, m.unit) == a && m.op(m.unit, a) == a
  {
    assert m.op(m.op(a, b), c) == m.op(a, m.op(b, c)) && m.op(m.op(b, a), c) == m.op(b, m.op(a, c));
    assert m.op(a, b) == m.op(b, a) && m.op(m.unit, a) == m.op(a, m.unit);
    assert m.op(m.op(a, c), b) == m.op(a, m.op(c, b)) && m.op(b, c) == m.op(c, b);
  }

  /** What finished deliveries record; `pick` chooses their agencies and keys. */
  function Live<M>(m: Measure<M>, ds: seq<Delivery>, pick: (string, Key) -> bool, period: int -> int): M {
    if ds == [] then m.unit
    else
      var d := ds[|ds| - 1];
      var rest := Live(m, ds[..|ds| - 1], pick, period);
      if d.finishedAt.Some? && pick(d.agency, KeyOf(d, period)) then m.op(rest, m.ofDelivery(d)) else rest
  }

  /** What groups or aggregates record. */
  function Stored<M>(m: Measure<M>, groups: seq<Group>, pick: (string, Key) -> bool): M {
    if groups == [] then m.unit
    else
      var g := groups[|groups| - 1];
      var rest := Stored(m, groups[..|groups| - 1], pick);
      if pick(g.agency, g.key) then m.op(rest, m.ofGroup(g)) else rest
  }

  lemma StoredUnfold<M(!new)>(m: Measure<M>, groups: seq<Group>, pick: (string, Key) -> bool)
    requires groups != []
    ensures var last := |groups| - 1;
      Stored(m, groups, pick)
      == if pick(groups[last].agency, groups[last].key) then m.op(Stored(m, groups[..last], pick), m.ofGroup(groups[last]))
         else Stored(m, groups[..last], pick)
  {
  }

  lemma StoredMergeLast<M(!new)>(m: Measure<M>, period: int -> int, groups: seq<Group>, g: Group, pick: (string, Key) -> bool)
    requires Lawful(m, period) && groups != [] && groups[|groups| - 1].key == g.key && groups[|groups| - 1].agency == g.agency
    ensures Stored(m, groups[|groups| - 1 := Merge(groups[|groups| - 1], g)], pick)
         == if pick(g.agency, g.key) then m.op(Stored(m, groups, pick), m.ofGroup(g)) else Stored(m, groups, pick)
  {
    hide Merge;
    var last := |groups| - 1;
    var next := groups[last := Merge(groups[last], g)];
    MergeKey(groups[last], g);
    assert next[..last] == groups[..last];
    assert m.ofGroup(Merge(groups[last], g)) == m.op(m.ofGroup(groups[last]), m.ofGroup(g));
    hide Lawful;
    Shuffle(m, period, Stored(m, groups[..last], pick), m.ofGroup(groups[last]), m.ofGroup(g));
  }

  lemma {:induction false} StoredMerge<M(!new)>(m: Measure<M>, period: int -> int, groups: seq<Group>, i: nat, g: Group, pick: (string, Key) -> bool)
    requires Lawful(m, period) && i < |groups| && groups[i].key == g.key && groups[i].agency == g.agency
    ensures Stored(m, groups[i := Merge(groups[i], g)], pick)
         == if pick(g.agency, g.key) then m.op(Stored(m, groups, pick), m.ofGroup(g)) else Stored(m, groups, pick)
    decreases |groups|
  {
    hide Merge;
    var next, last := groups[i := Merge(groups[i], g)], |groups| - 1;
    MergeKey(groups[i], g);
    if i == last {
      StoredMergeLast(m, period, groups, g, pick);
    } else {
      hide Lawful;
      assert next[..last] == groups[..last][i := Merge(groups[i], g)];
      StoredMerge(m, period, groups[..last], i, g, pick);
      StoredUnfold(m, groups, pick);
      StoredUnfold(m, next, pick);
      hide *;
      Shuffle(m, period, Stored(m, groups[..last], pick), m.ofGroup(groups[last]), m.ofGroup(g));
    }
  }

  lemma MergeKey(row: Group, g: Group)
    ensures Merge(row, g).key == row.key && Merge(row, g).agency == row.agency
  {
  }

  // ----- Each stage records the same -----

  lemma LiveAppend<M>(m: Measure<M>, period: int -> int, ds: seq<Delivery>, d: Delivery, pick: (string, Key) -> bool)
    ensures Live(m, ds + [d], pick, period)
      == if d.finishedAt.Some? && pick(d.agency, KeyOf(d, period)) then m.op(Live(m, ds, pick, period), m.ofDelivery(d)) else Live(m, ds, pick, period)
  {
    assert (ds + [d])[..|ds|] == ds;
  }

  lemma {:induction false} LiveSplits<M(!new)>(m: Measure<M>, period: int -> int, ds: seq<Delivery>, ids: seq<string>, before: int, pick: (string, Key) -> bool)
    requires Lawful(m, period)
    ensures Live(m, ds, pick, period) == m.op(Live(m, Returned(ds, ids, before), pick, period), Live(m, Remaining(ds, ids, before), pick, period))
  {
    hide Lawful, Deletable, KeyOf;
    if ds == [] {
      Shuffle(m, period, m.unit, m.unit, m.unit);
    } else {
      var front, d := ds[..|ds| - 1], ds[|ds| - 1];
      LiveSplits(m, period, front, ids, before, pick);
      var returned, remaining := Returned(front, ids, before), Remaining(front, ids, before);
      var gone, kept := Live(m, returned, pick, period), Live(m, remaining, pick, period);
      if Deletable(d, ids, before) {
        assert Remaining(ds, ids, before) == remaining;
        LiveAppend(m, period, returned, d, pick);
        Shuffle(m, period, gone, m.ofDelivery(d), kept);
      } else {
        assert Returned(ds, ids, before) == returned;
        LiveAppend(m, period, remaining, d, pick);
      }
      Shuffle(m, period, gone, kept, m.ofDelivery(d));
    }
  }

  lemma {:induction false} GroupsRecord<M(!new)>(m: Measure<M>, period: int -> int, ds: seq<Delivery>, pick: (string, Key) -> bool)
    requires Lawful(m, period) && forall d :: d in ds ==> d.finishedAt.Some?
    ensures Stored(m, GroupAll(ds, period), pick) == Live(m, ds, pick, period)
  {
    if ds != [] {
      var front, d := ds[..|ds| - 1], ds[|ds| - 1];
      GroupsRecord(m, period, front, pick);
      var groups, single := GroupAll(front, period), Single(d, period);
      assert m.ofGroup(single) == m.ofDelivery(d);
      var i := FindGroup(groups, single.agency, single.key);
      if i < 0 {
        assert (groups + [single])[..|groups|] == groups;
      } else {
        hide Lawful, Merge;
        StoredMerge(m, period, groups, i, single, pick);
      }
    }
  }

  lemma {:induction false} StoredConcat<M(!new)>(m: Measure<M>, period: int -> int, a: seq<Group>, b: seq<Group>, pick: (string, Key) -> bool)
    requires Lawful(m, period)
    ensures Stored(m, a + b, pick) == m.op(Stored(m, a, pick), Stored(m, b, pick))
    decreases |b|
  {
    hide Lawful;
    if b == [] {
      assert a + b == a;
      Shuffle(m, period, Stored(m, a, pick), m.unit, m.unit);
    } else {
      var front := b[..|b| - 1];
      assert (a + b)[..|a + b| - 1] == a + front;
      StoredConcat(m, period, a, front, pick);
      Shuffle(m, period, Stored(m, a, pick), Stored(m, front, pick), m.ofGroup(b[|b| - 1]));
    }
  }

  lemma UpsertRecords<M(!new)>(m: Measure<M>, period: int -> int, aggregates: seq<Group>, g: Group, pick: (string, Key) -> bool)
    requires Lawful(m, period) && !Conflicts(aggregates, g)
    ensures Stored(m, Upsert(aggregates, g), pick) == m.op(Stored(m, aggregates, pick), Stored(m, [g], pick))
  {
    hide Lawful;
    var i := FindKey(aggregates, g.key);
    if i < 0 {
      StoredConcat(m, period, aggregates, [g], pick);
    } else {
      StoredMerge(m, period, aggregates, i, g, pick);
      assert [g][..0] == [];
      Shuffle(m, period, Stored(m, aggregates, pick), m.unit, m.ofGroup(g));
      Shuffle(m, period, m.ofGroup(g), m.unit, m.unit);
    }
  }

  lemma {:induction false} UpsertWritten(aggregates: seq<Group>, groups: seq<Group>)
    ensures UpsertAll(aggregates, groups).1 <= |groups|
    decreases |groups|
  {
    if groups != [] {
      UpsertWritten(Upsert(aggregates, groups[0]), groups[1..]);
    }
  }

  lemma {:induction false} UpsertAllRecords<M(!new)>(m: Measure<M>, period: int -> int, aggregates: seq<Group>, groups: seq<Group>, pick: (string, Key) -> bool)
    requires Lawful(m, period) && UpsertAll(aggregates, groups).1 == |groups|
    ensures Stored(m, UpsertAll(aggregates, groups).0, pick) == m.op(Stored(m, aggregates, pick), Stored(m, groups, pick))
    decreases |groups|
  {
    hide Lawful, Upsert, Conflicts;
    if groups == [] {
      Shuffle(m, period, Stored(m, aggregates, pick), m.unit, m.unit);
    } else {
      var next := Upsert(aggregates, groups[0]);
      UpsertWritten(next, groups[1..]);
      UpsertRecords(m, period, aggregates, groups[0], pick);
      UpsertAllRecords(m, period, next, groups[1..], pick);
      assert groups == [groups[0]] + groups[1..];
      StoredConcat(m, period, [groups[0]], groups[1..], pick);
      Shuffle(m, period, Stored(m, aggregates, pick), Stored(m, [groups[0]], pick), Stored(m, groups[1..], pick));
    }
  }

  lemma UpsertKeepsUnique(aggregates: seq<Group>, g: Group)
    requires UniqueKeys(aggregates)
    ensures UniqueKeys(Upsert(aggregates, g))
  {
    var i := FindKey(aggregates, g.key);
    if i >= 0 {
      MergeKey(aggregates[i], g);
    }
  }

  lemma {:induction false} UpsertAllKeepsUnique(aggregates: seq<Group>, groups: seq<Group>)
    requires UniqueKeys(aggregates)
    ensures UniqueKeys(UpsertAll(aggregates, groups).0)
    decreases |groups|
  {
    if groups != [] {
      UpsertKeepsUnique(aggregates, groups[0]);
      UpsertAllKeepsUnique(Upsert(aggregates, groups[0]), groups[1..]);
    }
  }

  // ----- Batches and runs -----

  datatype State = State(deliveries: seq<Delivery>, aggregates: seq<Group>)

  /** One archive transaction; `fails` when it is rolled back for a reason of its own. */
  datatype Batch = Batch(ids: seq<string>, before: int, fails: bool)

  /** The batch is rolled back when a group was skipped. */
  function Step(s: State, b: Batch, period: int -> int): State {
    var groups := GroupAll(Returned(s.deliveries, b.ids, b.before), period);
    var (aggregates, written) := UpsertAll(s.aggregates, groups);
    if b.fails || written != |groups| then s
    else State(Remaining(s.deliveries, b.ids, b.before), aggregates)
  }

  function Run(s: State, batches: seq<Batch>, period: int -> int): State
    decreases |batches|
  {
    if batches == [] then s else Run(Step(s, batches[0], period), batches[1..], period)
  }

  function Recorded<M>(m: Measure<M>, s: State, pick: (string, Key) -> bool, period: int -> int): M {
    m.op(Live(m, s.deliveries, pick, period), Stored(m, s.aggregates, pick))
  }

  lemma StepConserves<M(!new)>(m: Measure<M>, s: State, b: Batch, pick: (string, Key) -> bool, period: int -> int)
    requires Lawful(m, period)
    ensures Recorded(m, Step(s, b, period), pick, period) == Recorded(m, s, pick, period)
  {
    var returned, remaining := Returned(s.deliveries, b.ids, b.before), Remaining(s.deliveries, b.ids, b.before);
    var groups := GroupAll(returned, period);
    if !b.fails && UpsertAll(s.aggregates, groups).1 == |groups| {
      hide Lawful, Returned, Remaining, GroupAll, UpsertAll;
      LiveSplits(m, period, s.deliveries, b.ids, b.before, pick);
      GroupsRecord(m, period, returned, pick);
      UpsertAllRecords(m, period, s.aggregates, groups, pick);
      var gone, kept, stored := Live(m, returned, pick, period), Live(m, remaining, pick, period), Stored(m, s.aggregates, pick);
      Shuffle(m, period, gone, kept, stored);
      Shuffle(m, period, kept, gone, stored);
      Shuffle(m, period, gone, stored, kept);
      Shuffle(m, period, stored, gone, gone);
    }
  }

  /** Nothing is lost or counted twice, over any run of committed and rolled-back batches. */
  lemma {:induction false} RunConserves<M(!new)>(m: Measure<M>, s: State, batches: seq<Batch>, pick: (string, Key) -> bool, period: int -> int)
    requires Lawful(m, period)
    ensures Recorded(m, Run(s, batches, period), pick, period) == Recorded(m, s, pick, period)
    decreases |batches|
  {
    hide Lawful, Recorded, Step;
    if batches != [] {
      StepConserves(m, s, batches[0], pick, period);
      RunConserves(m, Step(s, batches[0], period), batches[1..], pick, period);
    }
  }

  lemma {:induction false} RunKeepsUnique(s: State, batches: seq<Batch>, period: int -> int)
    requires UniqueKeys(s.aggregates)
    ensures UniqueKeys(Run(s, batches, period).aggregates)
    decreases |batches|
  {
    hide UniqueKeys;
    if batches != [] {
      UpsertAllKeepsUnique(s.aggregates, GroupAll(Returned(s.deliveries, batches[0].ids, batches[0].before), period));
      RunKeepsUnique(Step(s, batches[0], period), batches[1..], period);
    }
  }

  // ----- What aggregates record -----

  function Sum(c: Column): Measure<int> {
    Measure(0, (a: int, b: int) => a + b, (d: Delivery) => Contribution(d, c), (g: Group) => g.counts(c))
  }

  function Min(a: Option<int>, b: Option<int>): Option<int> {
    if a.None? then b else if b.None? then a else Some(if a.value < b.value then a.value else b.value)
  }

  function Max(a: Option<int>, b: Option<int>): Option<int> {
    if a.None? then b else if b.None? then a else Some(if a.value > b.value then a.value else b.value)
  }

  const FIRST: Measure<Option<int>> := Measure(None, (a, b) => Min(a, b), (d: Delivery) => d.finishedAt, (g: Group) => Some(g.firstAt))

  const LAST: Measure<Option<int>> := Measure(None, (a, b) => Max(a, b), (d: Delivery) => d.finishedAt, (g: Group) => Some(g.lastAt))

  lemma SumLawful(c: Column, period: int -> int)
    ensures Lawful(Sum(c), period)
  {
  }

  lemma MinLaws(a: Option<int>, b: Option<int>, c: Option<int>)
    ensures Min(a, b) == Min(b, a) && Min(Min(a, b), c) == Min(a, Min(b, c))
    ensures Max(a, b) == Max(b, a) && Max(Max(a, b), c) == Max(a, Max(b, c))
  {
  }

  lemma TimesCombine()
    ensures Combines(FIRST) && Combines(LAST)
  {
    hide Min, Max;
    NoneIsUnit();
    forall a
      ensures FIRST.op(a, FIRST.unit) == a && LAST.op(a, LAST.unit) == a
    {
      assert FIRST.op(a, None) == Min(a, None) && LAST.op(a, None) == Max(a, None);
    }
    forall a, b
      ensures FIRST.op(a, b) == FIRST.op(b, a) && LAST.op(a, b) == LAST.op(b, a)
    {
      MinLaws(a, b, None);
    }
    forall a, b, c
      ensures FIRST.op(FIRST.op(a, b), c) == FIRST.op(a, FIRST.op(b, c))
      ensures LAST.op(LAST.op(a, b), c) == LAST.op(a, LAST.op(b, c))
    {
      MinLaws(a, b, c);
    }
  }

  lemma TimesLawful(period: int -> int)
    ensures Lawful(FIRST, period) && Lawful(LAST, period)
  {
    TimesCombine();
    MergeTimes();
    hide Min, Max, Combines, Merge;
  }

  lemma NoneIsUnit()
    ensures forall a :: Min(a, None) == a && Max(a, None) == a
  {
  }

  lemma MergeTimes()
    ensures forall row: Group, group: Group ::
      && Some(Merge(row, group).firstAt) == Min(Some(row.firstAt), Some(group.firstAt))
      && Some(Merge(row, group).lastAt) == Max(Some(row.lastAt), Some(group.lastAt))
  {
  }

  /** Every counter is added exactly, `firstAt` is the minimum and `lastAt` the maximum. */
  lemma CountersAndTimesConserved(s: State, batches: seq<Batch>, pick: (string, Key) -> bool, period: int -> int)
    ensures forall c :: Recorded(Sum(c), Run(s, batches, period), pick, period) == Recorded(Sum(c), s, pick, period)
    ensures Recorded(FIRST, Run(s, batches, period), pick, period) == Recorded(FIRST, s, pick, period)
    ensures Recorded(LAST, Run(s, batches, period), pick, period) == Recorded(LAST, s, pick, period)
  {
    hide Recorded, Run, Lawful, Sum, FIRST, LAST;
    TimesLawful(period);
    forall c
      ensures Recorded(Sum(c), Run(s, batches, period), pick, period) == Recorded(Sum(c), s, pick, period)
    {
      SumLawful(c, period);
      RunConserves(Sum(c), s, batches, pick, period);
    }
    RunConserves(FIRST, s, batches, pick, period);
    RunConserves(LAST, s, batches, pick, period);
  }

  function OfKey(key: Key): (string, Key) -> bool {
    (agency, k) => k == key
  }

  function OfAgency(owner: string, key: Key): (string, Key) -> bool {
    (agency, k) => agency == owner && k == key
  }

  /** In particular nothing is ever counted in an aggregate of another agency: what live deliveries and
      aggregates of one agency and key record together stays the same. */
  lemma AgenciesStayApart(s: State, batches: seq<Batch>, owner: string, key: Key, period: int -> int)
    ensures forall c ::
      Recorded(Sum(c), Run(s, batches, period), OfAgency(owner, key), period) == Recorded(Sum(c), s, OfAgency(owner, key), period)
  {
    CountersAndTimesConserved(s, batches, OfAgency(owner, key), period);
  }

  // ----- The statement and the groups, by the deliveries -----

  /** What DELETE takes, and nothing else: listed automation deliveries that have reached one of the four ends
      before the limit, whose outcome is known and settled. */
  lemma DeletedExactlyWhen(ds: seq<Delivery>, ids: seq<string>, before: int, d: Delivery)
    ensures d in Returned(ds, ids, before) <==>
      && d in ds && d.id in ids && d.originKind == "AUTOMATION"
      && (d.status == "COMPLETED" || d.status == "FAILED" || d.status == "SKIPPED" || d.status == "CANCELED")
      && (exists at :: d.finishedAt == Some(at) && at < before)
      && d.failureCode != "outcome_unresolved_do_not_retry" && (d.remoteState == "" || d.remoteState == "SETTLED")
      && (d.actionType == "MASS_QUEUE_CREATE" ==> d.intentAcknowledged)
    ensures d in Remaining(ds, ids, before) <==> d in ds && d !in Returned(ds, ids, before)
  {
  }

  function Count(ds: seq<Delivery>, p: Delivery -> bool): nat {
    if ds == [] then 0 else Count(ds[..|ds| - 1], p) + (if p(ds[|ds| - 1]) then 1 else 0)
  }

  lemma {:induction false} SameCount(ds: seq<Delivery>, p: Delivery -> bool, q: Delivery -> bool)
    requires forall d :: d in ds ==> p(d) == q(d)
    ensures Count(ds, p) == Count(ds, q)
  {
    if ds != [] {
      SameCount(ds[..|ds| - 1], p, q);
    }
  }

  /** The delivery belongs to the group: same agency, creator, module, action and month. */
  predicate Belongs(d: Delivery, agency: string, key: Key, period: int -> int) {
    && d.agency == agency && d.creator == key.creator && d.moduleKey == key.moduleKey && d.actionType == key.actionType
    && d.finishedAt.Some? && period(d.finishedAt.value) == key.period
  }

  ghost predicate DistinctGroups(groups: seq<Group>) {
    forall i, j :: 0 <= i < j < |groups| ==> groups[i].agency != groups[j].agency || groups[i].key != groups[j].key
  }

  ghost predicate HasGroup(groups: seq<Group>, agency: string, key: Key) {
    exists i :: 0 <= i < |groups| && groups[i].agency == agency && groups[i].key == key
  }

  lemma {:induction false} FindsGroup(groups: seq<Group>, agency: string, key: Key)
    ensures FindGroup(groups, agency, key) >= 0 <==> HasGroup(groups, agency, key)
  {
    if groups != [] {
      FindsGroup(groups[..|groups| - 1], agency, key);
    }
  }

  /** There is one group for each agency and key with rows, and no other. */
  lemma {:induction false} GroupsMatchRows(ds: seq<Delivery>, period: int -> int, agency: string, key: Key)
    requires forall d :: d in ds ==> d.finishedAt.Some?
    ensures DistinctGroups(GroupAll(ds, period))
    ensures HasGroup(GroupAll(ds, period), agency, key) <==> HasRow(ds, agency, key, period)
  {
    if ds != [] {
      var front, last := ds[..|ds| - 1], ds[|ds| - 1];
      var groups, single, all := GroupAll(front, period), Single(last, period), GroupAll(ds, period);
      GroupsMatchRows(front, period, agency, key);
      FindsGroup(groups, single.agency, single.key);
      var i := FindGroup(groups, single.agency, single.key);
      if i >= 0 {
        MergeKey(groups[i], single);
        assert all == groups[i := Merge(groups[i], single)];
      } else {
        assert all == groups + [single];
      }
      hide Merge;
      assert Belongs(last, agency, key, period) <==> single.agency == agency && single.key == key;
      HasGroupNext(groups, all, single, agency, key);
      assert ds == front + [last];
    }
  }

  lemma HasGroupNext(groups: seq<Group>, all: seq<Group>, single: Group, agency: string, key: Key)
    requires
      || (all == groups + [single])
      || (|all| == |groups| && HasGroup(groups, single.agency, single.key)
          && forall i :: 0 <= i < |all| ==> all[i].agency == groups[i].agency && all[i].key == groups[i].key)
    ensures HasGroup(all, agency, key) <==> HasGroup(groups, agency, key) || (single.agency == agency && single.key == key)
  {
    if all == groups + [single] {
      assert all[|groups|] == single && forall i :: 0 <= i < |groups| ==> all[i] == groups[i];
    }
  }

  lemma {:induction false} StoredNone<M(!new)>(m: Measure<M>, groups: seq<Group>, agency: string, key: Key)
    requires !HasGroup(groups, agency, key)
    ensures Stored(m, groups, OfAgency(agency, key)) == m.unit
  {
    if groups != [] {
      var front := groups[..|groups| - 1];
      assert HasGroup(front, agency, key) ==> HasGroup(groups, agency, key);
      assert groups[|groups| - 1].agency != agency || groups[|groups| - 1].key != key;
      StoredNone(m, front, agency, key);
    }
  }

  /** What is stored under an agency and key is what their one group records. */
  lemma {:induction false} StoredOne<M(!new)>(m: Measure<M>, groups: seq<Group>, i: nat)
    requires Combines(m) && DistinctGroups(groups) && i < |groups|
    ensures Stored(m, groups, OfAgency(groups[i].agency, groups[i].key)) == m.ofGroup(groups[i])
  {
    var front, last := groups[..|groups| - 1], groups[|groups| - 1];
    if i == |groups| - 1 {
      assert !HasGroup(front, last.agency, last.key);
      StoredNone(m, front, last.agency, last.key);
      assert m.op(m.unit, m.ofGroup(last)) == m.op(m.ofGroup(last), m.unit) == m.ofGroup(last);
    } else {
      StoredOne(m, front, i);
    }
  }

  lemma {:induction false} LiveCounts(c: Column, ds: seq<Delivery>, agency: string, key: Key, period: int -> int, p: Delivery -> bool)
    requires forall d :: d in ds ==> (p(d) <==> Belongs(d, agency, key, period) && Contribution(d, c) == 1)
    ensures Live(Sum(c), ds, OfAgency(agency, key), period) == Count(ds, p)
  {
    if ds != [] {
      LiveCounts(c, ds[..|ds| - 1], agency, key, period, p);
      hide Contribution;
      var d := ds[|ds| - 1];
      assert d in ds && Contribution(d, c) in {0, 1} by {
        ContributesOnce(d, c);
      }
      assert d.finishedAt.Some? && OfAgency(agency, key)(d.agency, KeyOf(d, period)) <==> Belongs(d, agency, key, period);
    }
  }

  lemma ContributesOnce(d: Delivery, c: Column)
    ensures Contribution(d, c) == 0 || Contribution(d, c) == 1
  {
  }

  /** A counter of a group is a number of its rows. */
  lemma CounterCounts(ds: seq<Delivery>, period: int -> int, i: nat, c: Column, p: Delivery -> bool)
    requires (forall d :: d in ds ==> d.finishedAt.Some?) && i < |GroupAll(ds, period)|
    requires var g := GroupAll(ds, period)[i];
      forall d :: d in ds ==> (p(d) <==> Belongs(d, g.agency, g.key, period) && Contribution(d, c) == 1)
    ensures GroupAll(ds, period)[i].counts(c) == Count(ds, p)
  {
    var groups := GroupAll(ds, period);
    var g := groups[i];
    GroupsMatchRows(ds, period, g.agency, g.key);
    SumLawful(c, period);
    StoredOne(Sum(c), groups, i);
    GroupsRecord(Sum(c), period, ds, OfAgency(g.agency, g.key));
    hide GroupAll, Lawful, Stored, Live;
    LiveCounts(c, ds, g.agency, g.key, period, p);
  }

  /** How the rows of a group are counted in its columns. */
  lemma GroupTells(ds: seq<Delivery>, period: int -> int, i: nat)
    requires (forall d :: d in ds ==> d.finishedAt.Some?) && i < |GroupAll(ds, period)|
    ensures var g := GroupAll(ds, period)[i];
      && g.counts(Total) == Count(ds, d => Belongs(d, g.agency, g.key, period))
      && g.counts(Completed) == Count(ds, d => Belongs(d, g.agency, g.key, period) && d.status == "COMPLETED")
      && g.counts(Failed) == Count(ds, d => Belongs(d, g.agency, g.key, period) && d.status == "FAILED")
      && g.counts(Skipped) == Count(ds, d => Belongs(d, g.agency, g.key, period) && d.status == "SKIPPED")
      && g.counts(Canceled) == Count(ds, d => Belongs(d, g.agency, g.key, period) && d.status == "CANCELED")
      && g.counts(Replied) == Count(ds, d => Belongs(d, g.agency, g.key, period) && d.replied)
  {
    var g := GroupAll(ds, period)[i];
    CounterCounts(ds, period, i, Total, d => Belongs(d, g.agency, g.key, period));
    CounterCounts(ds, period, i, Completed, d => Belongs(d, g.agency, g.key, period) && d.status == "COMPLETED");
    CounterCounts(ds, period, i, Failed, d => Belongs(d, g.agency, g.key, period) && d.status == "FAILED");
    CounterCounts(ds, period, i, Skipped, d => Belongs(d, g.agency, g.key, period) && d.status == "SKIPPED");
    CounterCounts(ds, period, i, Canceled, d => Belongs(d, g.agency, g.key, period) && d.status == "CANCELED");
    CounterCounts(ds, period, i, Replied, d => Belongs(d, g.agency, g.key, period) && d.replied);
  }

  /** And how its actions are: only completed ones count. */
  lemma GroupActionsTell(ds: seq<Delivery>, period: int -> int, i: nat)
    requires (forall d :: d in ds ==> d.finishedAt.Some?) && i < |GroupAll(ds, period)|
    ensures var g := GroupAll(ds, period)[i];
      && g.counts(Sent) == Count(ds, d => Belongs(d, g.agency, g.key, period) && d.status == "COMPLETED" && d.actionType == "SEND_MESSAGE")
      && g.counts(Followed) == Count(ds, d => Belongs(d, g.agency, g.key, period) && d.status == "COMPLETED"
           && (d.actionType == "FOLLOW_BACK" || d.actionType == "FOLLOW_FAN" || d.actionType == "SFS_FOLLOW_TARGET"))
      && g.counts(Unfollowed) == Count(ds, d => Belongs(d, g.agency, g.key, period) && d.status == "COMPLETED"
           && (d.actionType == "UNFOLLOW_FAN" || d.actionType == "SFS_UNFOLLOW_TARGET"))
      && g.counts(Liked) == Count(ds, d => Belongs(d, g.agency, g.key, period) && d.status == "COMPLETED"
           && (d.actionType == "LIKE_POST" || d.actionType == "SFS_LIKE_COMMENT"))
      && g.counts(Commented) == Count(ds, d => Belongs(d, g.agency, g.key, period) && d.status == "COMPLETED"
           && d.actionType == "SFS_COMMENT_POST")
  {
    hide Belongs, GroupAll, Count;
    var g := GroupAll(ds, period)[i];
    CounterCounts(ds, period, i, Sent, d => Belongs(d, g.agency, g.key, period) && d.status == "COMPLETED" && d.actionType == "SEND_MESSAGE");
    CounterCounts(ds, period, i, Followed, d => Belongs(d, g.agency, g.key, period) && d.status == "COMPLETED"
      && (d.actionType == "FOLLOW_BACK" || d.actionType == "FOLLOW_FAN" || d.actionType == "SFS_FOLLOW_TARGET"));
    CounterCounts(ds, period, i, Unfollowed, d => Belongs(d, g.agency, g.key, period) && d.status == "COMPLETED"
      && (d.actionType == "UNFOLLOW_FAN" || d.actionType == "SFS_UNFOLLOW_TARGET"));
    CounterCounts(ds, period, i, Liked, d => Belongs(d, g.agency, g.key, period) && d.status == "COMPLETED"
      && (d.actionType == "LIKE_POST" || d.actionType == "SFS_LIKE_COMMENT"));
    CounterCounts(ds, period, i, Commented, d => Belongs(d, g.agency, g.key, period) && d.status == "COMPLETED"
      && d.actionType == "SFS_COMMENT_POST");
  }

  lemma {:induction false} FourCounts(ds: seq<Delivery>, agency: string, key: Key, period: int -> int)
    requires forall d :: d in ds ==> d.status == "COMPLETED" || d.status == "FAILED" || d.status == "SKIPPED" || d.status == "CANCELED"
    ensures Count(ds, d => Belongs(d, agency, key, period)) ==
      Count(ds, d => Belongs(d, agency, key, period) && d.status == "COMPLETED")
      + Count(ds, d => Belongs(d, agency, key, period) && d.status == "FAILED")
      + Count(ds, d => Belongs(d, agency, key, period) && d.status == "SKIPPED")
      + Count(ds, d => Belongs(d, agency, key, period) && d.status == "CANCELED")
  {
    if ds != [] {
      FourCounts(ds[..|ds| - 1], agency, key, period);
      assert ds[|ds| - 1] in ds;
      hide Belongs;
    }
  }

  /** Of the rows that a DELETE returns, every one ended in one of the four ways. */
  lemma StatusesAddUp(deliveries: seq<Delivery>, ids: seq<string>, before: int, period: int -> int, i: nat)
    requires i < |GroupAll(Returned(deliveries, ids, before), period)|
    ensures var g := GroupAll(Returned(deliveries, ids, before), period)[i];
      g.counts(Total) == g.counts(Completed) + g.counts(Failed) + g.counts(Skipped) + g.counts(Canceled)
  {
    var ds := Returned(deliveries, ids, before);
    forall d | d in ds
      ensures d.status == "COMPLETED" || d.status == "FAILED" || d.status == "SKIPPED" || d.status == "CANCELED"
    {
      DeletedExactlyWhen(deliveries, ids, before, d);
    }
    var g := GroupAll(ds, period)[i];
    GroupTells(ds, period, i);
    hide *;
    FourCounts(ds, g.agency, g.key, period);
  }

  predicate Picked(d: Delivery, ds: seq<Delivery>, pick: (string, Key) -> bool, period: int -> int) {
    d in ds && d.finishedAt.Some? && pick(d.agency, KeyOf(d, period))
  }

  /** The earliest and the latest instant among the picked rows. */
  lemma {:induction false} LiveTimes(ds: seq<Delivery>, pick: (string, Key) -> bool, period: int -> int)
    ensures var first, last := Live(FIRST, ds, pick, period), Live(LAST, ds, pick, period);
      && (forall d :: Picked(d, ds, pick, period) ==> first.Some? && last.Some? && first.value <= d.finishedAt.value <= last.value)
      && (first.Some? ==> exists d :: Picked(d, ds, pick, period) && d.finishedAt == first)
      && (last.Some? ==> exists d :: Picked(d, ds, pick, period) && d.finishedAt == last)
  {
    if ds != [] {
      var front, d := ds[..|ds| - 1], ds[|ds| - 1];
      assert ds == front + [d];
      LiveTimes(front, pick, period);
      assert forall x :: Picked(x, ds, pick, period) <==> Picked(x, front, pick, period) || (x == d && Picked(d, ds, pick, period));
      hide KeyOf;
      var first, last := Live(FIRST, front, pick, period), Live(LAST, front, pick, period);
      if Picked(d, ds, pick, period) {
        assert Live(FIRST, ds, pick, period) == Min(first, d.finishedAt) && Live(LAST, ds, pick, period) == Max(last, d.finishedAt);
      } else {
        assert Live(FIRST, ds, pick, period) == first && Live(LAST, ds, pick, period) == last;
      }
      hide Picked, Live;
    }
  }

  /** A group's instants are those of its earliest and its latest row. */
  lemma GroupTimesTell(ds: seq<Delivery>, period: int -> int, i: nat)
    requires (forall d :: d in ds ==> d.finishedAt.Some?) && i < |GroupAll(ds, period)|
    ensures var g := GroupAll(ds, period)[i];
      && (forall d :: d in ds && Belongs(d, g.agency, g.key, period) ==> g.firstAt <= d.finishedAt.value <= g.lastAt)
      && (exists d :: d in ds && Belongs(d, g.agency, g.key, period) && d.finishedAt.value == g.firstAt)
      && (exists d :: d in ds && Belongs(d, g.agency, g.key, period) && d.finishedAt.value == g.lastAt)
  {
    var groups := GroupAll(ds, period);
    var g := groups[i];
    var pick := OfAgency(g.agency, g.key);
    GroupsMatchRows(ds, period, g.agency, g.key);
    TimesLawful(period);
    StoredOne(FIRST, groups, i);
    StoredOne(LAST, groups, i);
    GroupsRecord(FIRST, period, ds, pick);
    GroupsRecord(LAST, period, ds, pick);
    LiveTimes(ds, pick, period);
    hide GroupAll, Lawful, Combines, Stored, Live, DistinctGroups;
    assert FIRST.ofGroup(g) == Some(g.firstAt) && LAST.ofGroup(g) == Some(g.lastAt);
    assert forall d: Delivery :: Picked(d, ds, pick, period) <==> d in ds && Belongs(d, g.agency, g.key, period);
  }

  /** What an agency and key have: the rows counted by `p`, and the column of their aggregates. */
  function Tally(s: State, c: Column, agency: string, key: Key, p: Delivery -> bool): int {
    Count(s.deliveries, p) + Stored(Sum(c), s.aggregates, OfAgency(agency, key))
  }

  lemma TallyKept(s: State, batches: seq<Batch>, period: int -> int, c: Column, agency: string, key: Key, p: Delivery -> bool)
    requires forall d :: p(d) <==> Belongs(d, agency, key, period) && Contribution(d, c) == 1
    ensures Tally(Run(s, batches, period), c, agency, key, p) == Tally(s, c, agency, key, p)
  {
    AgenciesStayApart(s, batches, agency, key, period);
    LiveCounts(c, s.deliveries, agency, key, period, p);
    LiveCounts(c, Run(s, batches, period).deliveries, agency, key, period, p);
    hide Contribution, Stored, Live, Run, Belongs, Count;
    assert Recorded(Sum(c), s, OfAgency(agency, key), period) == Tally(s, c, agency, key, p);
  }

  /** Over any run, for every agency and key: the completed rows and the column `completed` add up to the same
      number, and so do the others. */
  lemma CountsConserved(s: State, batches: seq<Batch>, period: int -> int, agency: string, key: Key)
    ensures var after := Run(s, batches, period); var mine := (d: Delivery) => Belongs(d, agency, key, period);
      && Tally(after, Total, agency, key, mine) == Tally(s, Total, agency, key, mine)
      && Tally(after, Completed, agency, key, d => mine(d) && d.status == "COMPLETED")
         == Tally(s, Completed, agency, key, d => mine(d) && d.status == "COMPLETED")
      && Tally(after, Failed, agency, key, d => mine(d) && d.status == "FAILED")
         == Tally(s, Failed, agency, key, d => mine(d) && d.status == "FAILED")
      && Tally(after, Skipped, agency, key, d => mine(d) && d.status == "SKIPPED")
         == Tally(s, Skipped, agency, key, d => mine(d) && d.status == "SKIPPED")
      && Tally(after, Canceled, agency, key, d => mine(d) && d.status == "CANCELED")
         == Tally(s, Canceled, agency, key, d => mine(d) && d.status == "CANCELED")
      && Tally(after, Sent, agency, key, d => mine(d) && d.status == "COMPLETED" && d.actionType == "SEND_MESSAGE")
         == Tally(s, Sent, agency, key, d => mine(d) && d.status == "COMPLETED" && d.actionType == "SEND_MESSAGE")
      && Tally(after, Replied, agency, key, d => mine(d) && d.replied) == Tally(s, Replied, agency, key, d => mine(d) && d.replied)
  {
    hide Belongs, Tally, Run;
    var mine := (d: Delivery) => Belongs(d, agency, key, period);
    TallyKept(s, batches, period, Total, agency, key, mine);
    TallyKept(s, batches, period, Completed, agency, key, d => mine(d) && d.status == "COMPLETED");
    TallyKept(s, batches, period, Failed, agency, key, d => mine(d) && d.status == "FAILED");
    TallyKept(s, batches, period, Skipped, agency, key, d => mine(d) && d.status == "SKIPPED");
    TallyKept(s, batches, period, Canceled, agency, key, d => mine(d) && d.status == "CANCELED");
    TallyKept(s, batches, period, Sent, agency, key, d => mine(d) && d.status == "COMPLETED" && d.actionType == "SEND_MESSAGE");
    TallyKept(s, batches, period, Replied, agency, key, d => mine(d) && d.replied);
  }

  // ----- When a batch is archived -----

  lemma FindsKey(aggregates: seq<Group>, g: Group)
    requires UniqueKeys(aggregates)
    ensures Conflicts(aggregates, g) <==> exists j :: 0 <= j < |aggregates| && aggregates[j].key == g.key && aggregates[j].agency != g.agency
  {
  }

  /** No key belongs to two agencies, among the groups or between them and the aggregates. */
  ghost predicate Compatible(aggregates: seq<Group>, groups: seq<Group>) {
    && (forall i, j :: 0 <= i < |groups| && 0 <= j < |aggregates| && aggregates[j].key == groups[i].key ==>
          aggregates[j].agency == groups[i].agency)
    && (forall i, j :: 0 <= i < j < |groups| && groups[i].key == groups[j].key ==> groups[i].agency == groups[j].agency)
  }

  lemma CompatibleNext(aggregates: seq<Group>, groups: seq<Group>)
    requires UniqueKeys(aggregates) && groups != [] && !Conflicts(aggregates, groups[0])
    ensures Compatible(aggregates, groups) <==> Compatible(Upsert(aggregates, groups[0]), groups[1..])
  {
    FindsKey(aggregates, groups[0]);
    var g, rest, next := groups[0], groups[1..], Upsert(aggregates, groups[0]);
    var k := FindKey(aggregates, g.key);
    if k >= 0 {
      MergeKey(aggregates[k], g);
    }
    hide Merge, Conflicts, FindKey;
    assert k < 0 ==> next[|aggregates|] == g && forall j :: 0 <= j < |aggregates| ==> next[j] == aggregates[j];
    assert forall i :: 0 <= i < |rest| ==> rest[i] == groups[i + 1];
    if Compatible(next, rest) {
      forall i, j | 0 <= i < |groups| && 0 <= j < |aggregates| && aggregates[j].key == groups[i].key
        ensures aggregates[j].agency == groups[i].agency
      {
        assert next[j].key == aggregates[j].key && next[j].agency == aggregates[j].agency;
        assert i > 0 ==> groups[i] == rest[i - 1];
      }
      forall i, j | 0 <= i < j < |groups| && groups[i].key == groups[j].key
        ensures groups[i].agency == groups[j].agency
      {
        assert groups[j] == rest[j - 1] && (i > 0 ==> groups[i] == rest[i - 1]);
        var l := if k >= 0 then k else |aggregates|;
        assert next[l].key == g.key && next[l].agency == g.agency;
      }
    }
  }

  /** All groups are written exactly when no key belongs to two agencies. */
  lemma {:induction false} WrittenExactlyWhen(aggregates: seq<Group>, groups: seq<Group>)
    requires UniqueKeys(aggregates)
    ensures UpsertAll(aggregates, groups).1 == |groups| <==> Compatible(aggregates, groups)
    decreases |groups|
  {
    if groups != [] {
      var next := Upsert(aggregates, groups[0]);
      UpsertKeepsUnique(aggregates, groups[0]);
      WrittenExactlyWhen(next, groups[1..]);
      UpsertWritten(next, groups[1..]);
      if Conflicts(aggregates, groups[0]) {
        FindsKey(aggregates, groups[0]);
      } else {
        CompatibleNext(aggregates, groups);
      }
      hide Upsert, Conflicts, Compatible, UniqueKeys;
    }
  }

  /** There are rows for the agency and key. */
  ghost predicate HasRow(ds: seq<Delivery>, agency: string, key: Key, period: int -> int) {
    exists d :: d in ds && Belongs(d, agency, key, period)
  }

  /** No key belongs to two agencies, among the rows or between them and the aggregates. */
  ghost predicate OneAgencyEach(aggregates: seq<Group>, ds: seq<Delivery>, period: int -> int) {
    && (forall agency, j :: 0 <= j < |aggregates| && HasRow(ds, agency, aggregates[j].key, period) ==> aggregates[j].agency == agency)
    && (forall agency, other, key :: HasRow(ds, agency, key, period) && HasRow(ds, other, key, period) ==> agency == other)
  }

  lemma CompatibleByKey(aggregates: seq<Group>, groups: seq<Group>)
    ensures Compatible(aggregates, groups) <==>
      && (forall agency, j :: 0 <= j < |aggregates| && HasGroup(groups, agency, aggregates[j].key) ==> aggregates[j].agency == agency)
      && (forall agency, other, key :: HasGroup(groups, agency, key) && HasGroup(groups, other, key) ==> agency == other)
  {
    assert forall i :: 0 <= i < |groups| ==> HasGroup(groups, groups[i].agency, groups[i].key);
  }

  lemma CompatibleRows(aggregates: seq<Group>, ds: seq<Delivery>, period: int -> int)
    requires forall d :: d in ds ==> d.finishedAt.Some?
    ensures Compatible(aggregates, GroupAll(ds, period)) <==> OneAgencyEach(aggregates, ds, period)
  {
    var groups := GroupAll(ds, period);
    forall agency, key
      ensures HasGroup(groups, agency, key) <==> HasRow(ds, agency, key, period)
    {
      GroupsMatchRows(ds, period, agency, key);
    }
    CompatibleByKey(aggregates, groups);
    hide Compatible, HasGroup, HasRow, GroupAll;
  }

  /** A batch is archived exactly when nothing of its own fails and no key belongs to two agencies; then the
      returned rows are gone and their groups are in the aggregates, and otherwise nothing changes. */
  lemma BatchArchivesExactlyWhen(s: State, b: Batch, period: int -> int)
    requires UniqueKeys(s.aggregates)
    ensures var returned := Returned(s.deliveries, b.ids, b.before);
      Step(s, b, period) ==
        if !b.fails && OneAgencyEach(s.aggregates, returned, period) then
          State(Remaining(s.deliveries, b.ids, b.before), UpsertAll(s.aggregates, GroupAll(returned, period)).0)
        else s
  {
    var returned := Returned(s.deliveries, b.ids, b.before);
    CompatibleRows(s.aggregates, returned, period);
    WrittenExactlyWhen(s.aggregates, GroupAll(returned, period));
    hide Compatible, OneAgencyEach, UpsertAll, GroupAll, Remaining, UniqueKeys;
  }

  /** A single upsert accounts for its group exactly when the key is not taken by another agency. */
  lemma UpsertCountsUnlessConflict(aggregates: seq<Group>, g: Group, period: int -> int)
    requires g.counts(Total) != 0
    ensures Stored(Sum(Total), Upsert(aggregates, g), OfKey(g.key))
         == Stored(Sum(Total), aggregates, OfKey(g.key)) + g.counts(Total)
      <==> !Conflicts(aggregates, g)
  {
    if !Conflicts(aggregates, g) {
      UpsertRecords(Sum(Total), period, aggregates, g, OfKey(g.key));
      assert [g][..0] == [];
    }
  }

  // ----- The statements on the tables -----

  lemma {:induction false} UpsertAllAppend(aggregates: seq<Group>, groups: seq<Group>, g: Group)
    ensures var (before, written) := UpsertAll(aggregates, groups);
      UpsertAll(aggregates, groups + [g]) == (Upsert(before, g), if Conflicts(before, g) then written else written + 1)
    decreases |groups|
  {
    hide Upsert, Conflicts;
    if groups == [] {
      assert ([] + [g])[0] == g && ([] + [g])[1..] == [];
    } else {
      assert (groups + [g])[0] == groups[0] && (groups + [g])[1..] == groups[1..] + [g];
      UpsertAllAppend(Upsert(aggregates, groups[0]), groups[1..], g);
    }
  }

  /** What the loop has made of the first `n` groups. */
  ghost predicate UpsertedTo(initial: seq<Group>, groups: seq<Group>, n: nat, aggregates: seq<Group>, written: nat) {
    n <= |groups| && (aggregates, written) == UpsertAll(initial, groups[..n])
  }

  lemma UpsertNext(initial: seq<Group>, groups: seq<Group>, n: nat, aggregates: seq<Group>, written: nat)
    requires n < |groups| && UpsertedTo(initial, groups, n, aggregates, written)
    ensures var g := groups[n];
      var i := FindKey(aggregates, g.key);
      if i < 0 then UpsertedTo(initial, groups, n + 1, aggregates + [g], written + 1)
      else if aggregates[i].agency == g.agency then
        UpsertedTo(initial, groups, n + 1, aggregates[i := Merge(aggregates[i], g)], written + 1)
      else UpsertedTo(initial, groups, n + 1, aggregates, written)
  {
    UpsertAllAppend(initial, groups[..n], groups[n]);
    assert groups[..n] + [groups[n]] == groups[..n + 1];
    hide UpsertAll, Merge, FindKey;
  }

  lemma AllUpserted(initial: seq<Group>, groups: seq<Group>, aggregates: seq<Group>, written: nat)
    requires UpsertedTo(initial, groups, |groups|, aggregates, written)
    ensures (aggregates, written) == UpsertAll(initial, groups)
  {
    assert groups[..|groups|] == groups;
  }

  class Tables {
    var deliveries: seq<Delivery>
    var aggregates: seq<Group>

    /** DELETE ... RETURNING: every row is either returned or left, in its order. */
    method DeleteReturning(ids: seq<string>, before: int) returns (rows: seq<Delivery>)
      modifies this`deliveries
      ensures rows == Returned(old(deliveries), ids, before)
      ensures deliveries == Remaining(old(deliveries), ids, before)
      ensures multiset(rows) + multiset(deliveries) == multiset(old(deliveries))
    {
      rows := Returned(deliveries, ids, before);
      DeleteSplits(deliveries, ids, before);
      deliveries := Remaining(deliveries, ids, before);
    }

    /** The upsert, group by group; conflicting groups are not counted. */
    method UpsertGroups(groups: seq<Group>) returns (written: nat)
      requires UniqueKeys(aggregates)
      modifies this`aggregates
      ensures (aggregates, written) == UpsertAll(old(aggregates), groups)
      ensures UniqueKeys(aggregates)
    {
      written := 0;
      UpsertAllKeepsUnique(aggregates, groups);
      assert UpsertedTo(aggregates, groups, 0, aggregates, 0);
      hide *;
      for n := 0 to |groups|
        invariant UpsertedTo(old(aggregates), groups, n, aggregates, written)
      {
        var group := groups[n];
        UpsertNext(old(aggregates), groups, n, aggregates, written);
        var i := FindKey(aggregates, group.key);
        if i < 0 {
          aggregates := aggregates + [group];
          written := written + 1;
        } else if aggregates[i].agency == group.agency {
          aggregates := aggregates[i := Merge(aggregates[i], group)];
          written := written + 1;
        }
      }
      AllUpserted(old(aggregates), groups, aggregates, written);
    }
  }
}
