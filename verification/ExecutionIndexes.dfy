/** The execution index preflight (scripts/database/phase4-execution-indexes-online-preflight.js,
    ensureIndexes): one attempt at a session lock, one pass over the indexes, one release.

    `Next` is the control flow, driven by what each statement shows; `Preflight.EnsureIndexes` is the
    program.  Between statements others may change tables and indexes or end the session, which frees
    its lock and continues under a new number; any statement may throw. */
module ExecutionIndexes {

  import opened Wrappers

  /** What `assertIndexDefinition` compares, after its normalisation. */
  datatype Definition = Definition(table: string, method_: string, unique: bool, keys: seq<(string, int)>, partial: string)

  datatype Spec = Spec(name: string, table: string, definition: Definition)

  datatype Index = Index(valid: bool, ready: bool, definition: Definition)

  /** A row of the catalog query, with the number of the session that ran it. */
  datatype Row = Row(index: Index, pid: nat)

  datatype Error = Connection | AlreadyRunning | SessionChanged | DefinitionMismatch(k: nat) | NotReady(k: nat) | OwnershipLost

  datatype Outcome = Returned | Threw(error: Error)

  /** `lock` is the session that holds the lock; `session` is this client's. */
  datatype World = World(tables: set<string>, indexes: map<string, Index>, lock: Option<nat>, session: nat)

  datatype Event =
    | Outside(world: World)
    | Tried(granted: bool, pid: nat)
    | SawTable(k: nat, exists_: bool)
    | SawIndex(k: nat, row: Option<Row>)
    | Dropped(k: nat)
    | Created(k: nat)
    | Unlocked(released: bool, pid: nat)
    | Broke

  // ----- Control -----

  datatype Pc =
    | Start
    | Table(k: nat) | Inspect(k: nat) | Drop(k: nat) | Create(k: nat) | Recheck(k: nat)
    | Unlock(pending: Option<Error>)
    | Over(outcome: Outcome)

  datatype State = State(pc: Pc, owner: nat)

  predicate InPass(pc: Pc) {
    pc.Table? || pc.Inspect? || pc.Drop? || pc.Create? || pc.Recheck?
  }

  predicate Usable(index: Index) {
    index.valid && index.ready
  }

  function At(specs: seq<Spec>, k: nat): Pc {
    if k < |specs| then Table(k) else Unlock(None)
  }

  predicate Expected(pc: Pc, e: Event) {
    match pc
    case Start => e.Tried?
    case Table(k) => e.SawTable? && e.k == k
    case Inspect(k) => e.SawIndex? && e.k == k
    case Recheck(k) => e.SawIndex? && e.k == k
    case Drop(k) => e == Dropped(k)
    case Create(k) => e == Created(k)
    case Unlock(_) => e.Unlocked?
    case Over(_) => false
  }

  function Next(specs: seq<Spec>, s: State, e: Event): State
    requires InPass(s.pc) ==> s.pc.k < |specs|
    requires e.Outside? || (e.Broke? && !s.pc.Over?) || Expected(s.pc, e)
  {
    if e.Outside? then s
    else if e.Broke? then s.(pc := if InPass(s.pc) then Unlock(Some(Connection)) else Over(Threw(Connection)))
    else
      match s.pc
      case Start => State(if e.granted then At(specs, 0) else Over(Threw(AlreadyRunning)), e.pid)
      case Table(k) => s.(pc := if e.exists_ then Inspect(k) else At(specs, k + 1))
      case Inspect(k) =>
        s.(pc := if e.row.None? then Create(k)
                 else if e.row.value.pid != s.owner then Unlock(Some(SessionChanged))
                 else if e.row.value.index.definition != specs[k].definition then Unlock(Some(DefinitionMismatch(k)))
                 else if Usable(e.row.value.index) then At(specs, k + 1) else Drop(k))
      case Drop(k) => s.(pc := Create(k))
      case Create(k) => s.(pc := Recheck(k))
      case Recheck(k) =>
        s.(pc := if e.row.None? || !Usable(e.row.value.index) || e.row.value.pid != s.owner then Unlock(Some(NotReady(k)))
                 else if e.row.value.index.definition != specs[k].definition then Unlock(Some(DefinitionMismatch(k)))
                 else At(specs, k + 1))
      case Unlock(pending) =>
        s.(pc := Over(if !e.released || e.pid != s.owner then Threw(OwnershipLost)
                      else if pending.Some? then Threw(pending.value) else Returned))
  }

  // ----- Runs -----

  datatype Config = Config(state: State, world: World)

  function RowOf(w: World, name: string): Option<Row> {
    if name in w.indexes then Some(Row(w.indexes[name], w.session)) else None
  }

  /** Others leave this client's lock alone while its session lasts, and sessions never come back. */
  predicate Enabled(specs: seq<Spec>, c: Config, e: Event) {
    && (InPass(c.state.pc) ==> c.state.pc.k < |specs|)
    && if e.Outside? then
         && c.world.session <= e.world.session
         && (e.world.session == c.world.session ==>
               (e.world.lock == Some(e.world.session) <==> c.world.lock == Some(c.world.session)))
         && (e.world.session != c.world.session ==> e.world.lock != Some(e.world.session))
       else if e.Broke? then !c.state.pc.Over?
       else Expected(c.state.pc, e) && Shows(specs, c, e)
  }

  /** What a statement shows is what is there. */
  predicate Shows(specs: seq<Spec>, c: Config, e: Event)
    requires InPass(c.state.pc) ==> c.state.pc.k < |specs|
    requires Expected(c.state.pc, e)
  {
    match e
    case Tried(granted, pid) => pid == c.world.session && (granted <==> c.world.lock in {None, Some(pid)})
    case SawTable(k, exists_) => exists_ <==> specs[k].table in c.world.tables
    case SawIndex(k, row) => row == RowOf(c.world, specs[k].name)
    case Dropped(k) => specs[k].name in c.world.indexes
    case Created(k) => true
    case Unlocked(released, pid) => pid == c.world.session && (released <==> c.world.lock == Some(pid))
    case _ => true
  }

  function Effect(specs: seq<Spec>, w: World, e: Event): World
    requires e.Dropped? || e.Created? ==> e.k < |specs|
  {
    match e
    case Outside(world) => world
    case Tried(granted, pid) => if granted then w.(lock := Some(pid)) else w
    case Dropped(k) => w.(indexes := w.indexes - {specs[k].name})
    case Created(k) =>
      if specs[k].name in w.indexes then w
      else w.(indexes := w.indexes[specs[k].name := Index(true, true, specs[k].definition)])
    case Unlocked(released, _) => if released then w.(lock := None) else w
    case _ => w
  }

  function Step(specs: seq<Spec>, c: Config, e: Event): Config
    requires Enabled(specs, c, e)
  {
    Config(Next(specs, c.state, e), Effect(specs, c.world, e))
  }

  function Most(log: seq<Event>): seq<Event>
    requires log != []
  {
    log[..|log| - 1]
  }

  function Last(log: seq<Event>): Event
    requires log != []
  {
    log[|log| - 1]
  }

  ghost predicate IsRun(specs: seq<Spec>, w: World, log: seq<Event>)
    decreases |log|, 0
  {
    log == [] || (IsRun(specs, w, Most(log)) && Enabled(specs, After(specs, w, Most(log)), Last(log)))
  }

  ghost function After(specs: seq<Spec>, w: World, log: seq<Event>): Config
    requires IsRun(specs, w, log)
    decreases |log|, 1
  {
    if log == [] then Config(State(Start, 0), w) else Step(specs, After(specs, w, Most(log)), Last(log))
  }

  lemma Extend(specs: seq<Spec>, w: World, log: seq<Event>, e: Event)
    requires IsRun(specs, w, log) && Enabled(specs, After(specs, w, log), e)
    ensures IsRun(specs, w, log + [e]) && After(specs, w, log + [e]) == Step(specs, After(specs, w, log), e)
  {
    assert Most(log + [e]) == log && Last(log + [e]) == e;
  }

  lemma {:induction false} Prefix(specs: seq<Spec>, w: World, log: seq<Event>, k: nat)
    requires IsRun(specs, w, log) && k <= |log|
    ensures IsRun(specs, w, log[..k])
    ensures k < |log| ==> Enabled(specs, After(specs, w, log[..k]), log[k])
  {
    if k == |log| {
      assert log[..k] == log;
    } else {
      Prefix(specs, w, Most(log), k);
      assert Most(log)[..k] == log[..k];
      if k + 1 == |log| {
        assert Most(log) == log[..k];
      }
    }
  }

  // ----- What a log says -----

  function OwnAfter(own: Option<Event>, e: Event): Option<Event> {
    if e.Outside? then own else Some(e)
  }

  /** The client's last statement. */
  function LastOwn(log: seq<Event>): Option<Event> {
    if log == [] then None else OwnAfter(LastOwn(Most(log)), Last(log))
  }

  datatype Seen = Nothing | NoTable | Found(row: Option<Row>)

  function SeenAfter(seen: Seen, e: Event, k: nat): Seen {
    if e == SawTable(k, false) then NoTable
    else if e.SawIndex? && e.k == k then Found(e.row)
    else seen
  }

  /** What the client saw last of index `k`. */
  function LastSeen(log: seq<Event>, k: nat): Seen {
    if log == [] then Nothing else SeenAfter(LastSeen(Most(log), k), Last(log), k)
  }

  /** How often the lock was taken. */
  function Grants(log: seq<Event>): nat {
    if log == [] then 0 else Grants(Most(log)) + (if Last(log).Tried? && Last(log).granted then 1 else 0)
  }

  /** How often its release was attempted, answered or not. */
  ghost function Releases(specs: seq<Spec>, w: World, log: seq<Event>): nat
    requires IsRun(specs, w, log)
  {
    if log == [] then 0
    else
      Releases(specs, w, Most(log))
      + (if After(specs, w, Most(log)).state.pc.Unlock? && !Last(log).Outside? then 1 else 0)
  }

  // ----- Every run -----

  /** The index was seen in order in the owner's session, or its table does not exist. */
  predicate Checked(specs: seq<Spec>, owner: nat, seen: Seen, k: nat)
    requires k < |specs|
  {
    || seen.NoTable?
    || (&& seen.Found? && seen.row.Some? && seen.row.value.pid == owner
        && seen.row.value.index.valid && seen.row.value.index.ready && seen.row.value.index.definition == specs[k].definition)
  }

  /** How many of the indexes are done with. */
  function Passed(specs: seq<Spec>, pc: Pc): nat {
    if InPass(pc) then pc.k else if pc == Unlock(None) || pc == Over(Returned) then |specs| else 0
  }

  predicate Grounds(specs: seq<Spec>, s: State, own: Option<Event>) {
    && (InPass(s.pc) ==> s.pc.k < |specs|)
    && (s.pc.Drop? ==>
          && own.Some? && own.value.SawIndex? && own.value.k == s.pc.k && own.value.row.Some?
          && own.value.row.value.pid == s.owner && !Usable(own.value.row.value.index)
          && own.value.row.value.index.definition == specs[s.pc.k].definition)
    && (s.pc.Create? ==> own == Some(Dropped(s.pc.k)) || own == Some(SawIndex(s.pc.k, None)))
  }

  lemma StepKeepsGrounds(specs: seq<Spec>, c: Config, own: Option<Event>, e: Event)
    requires Grounds(specs, c.state, own) && Enabled(specs, c, e)
    ensures Grounds(specs, Next(specs, c.state, e), OwnAfter(own, e))
  {
  }

  lemma {:induction false} RunHasGrounds(specs: seq<Spec>, w: World, log: seq<Event>)
    requires IsRun(specs, w, log)
    ensures Grounds(specs, After(specs, w, log).state, LastOwn(log))
  {
    if log != [] {
      RunHasGrounds(specs, w, Most(log));
      StepKeepsGrounds(specs, After(specs, w, Most(log)), LastOwn(Most(log)), Last(log));
    }
  }

  /** An index is dropped only right after the lock's owner has seen it with its proper definition and
      unusable; it is created only right after it was dropped or seen to be missing. */
  lemma RebuildsOnlyItsOwn(specs: seq<Spec>, w: World, log: seq<Event>, i: nat)
    requires IsRun(specs, w, log) && i < |log| && (log[i].Dropped? || log[i].Created?)
    ensures log[i].k < |specs| && IsRun(specs, w, log[..i])
    ensures log[i].Created? ==> LastOwn(log[..i]) in {Some(Dropped(log[i].k)), Some(SawIndex(log[i].k, None))}
    ensures log[i].Dropped? ==>
              exists index: Index ::
                && !(index.valid && index.ready) && index.definition == specs[log[i].k].definition
                && LastOwn(log[..i]) == Some(SawIndex(log[i].k, Some(Row(index, After(specs, w, log[..i]).state.owner))))
  {
    Prefix(specs, w, log, i);
    RunHasGrounds(specs, w, log[..i]);
    if log[i].Dropped? {
      var index := LastOwn(log[..i]).value.row.value.index;
      assert !(index.valid && index.ready);
    }
  }

  lemma StepKeepsChecked(specs: seq<Spec>, c: Config, e: Event, seen: Seen, j: nat)
    requires Enabled(specs, c, e) && j < |specs|
    requires j < Passed(specs, c.state.pc) ==> Checked(specs, c.state.owner, seen, j)
    ensures j < Passed(specs, Next(specs, c.state, e).pc) ==>
              Checked(specs, Next(specs, c.state, e).owner, SeenAfter(seen, e, j), j)
  {
  }

  lemma {:induction false} RunChecks(specs: seq<Spec>, w: World, log: seq<Event>, j: nat)
    requires IsRun(specs, w, log) && j < |specs|
    ensures j < Passed(specs, After(specs, w, log).state.pc) ==>
              Checked(specs, After(specs, w, log).state.owner, LastSeen(log, j), j)
  {
    if log != [] {
      RunChecks(specs, w, Most(log), j);
      StepKeepsChecked(specs, After(specs, w, Most(log)), Last(log), LastSeen(Most(log), j), j);
      hide Checked, Passed, Next;
    }
  }

  /** The lock is the owner's for as long as the session lasts. */
  predicate Secured(c: Config) {
    (InPass(c.state.pc) || c.state.pc.Unlock?) ==>
      && c.state.owner <= c.world.session
      && (c.state.owner == c.world.session <==> c.world.lock == Some(c.world.session))
  }

  lemma {:induction false} RunIsSecured(specs: seq<Spec>, w: World, log: seq<Event>)
    requires IsRun(specs, w, log)
    ensures Secured(After(specs, w, log))
  {
    if log != [] {
      RunIsSecured(specs, w, Most(log));
      StepKeepsSecured(specs, After(specs, w, Most(log)), Last(log));
    }
  }

  lemma StepKeepsSecured(specs: seq<Spec>, c: Config, e: Event)
    requires Secured(c) && Enabled(specs, c, e)
    ensures Secured(Step(specs, c, e))
  {
  }

  /** A normal return: every index whose table exists was last seen, by the session that held the lock
      from the first statement to the release, usable and with its proper definition. */
  lemma ReturnMeansChecked(specs: seq<Spec>, w: World, log: seq<Event>, k: nat)
    requires IsRun(specs, w, log) && After(specs, w, log).state.pc == Over(Returned) && k < |specs|
    ensures Checked(specs, After(specs, w, log).state.owner, LastSeen(log, k), k)
  {
    RunChecks(specs, w, log, k);
  }

  predicate Balance(pc: Pc, grants: nat, releases: nat) {
    if pc.Start? then grants == 0 && releases == 0
    else if pc.Over? then grants == releases <= 1 && (pc.outcome == Threw(AlreadyRunning) ==> grants == 0)
    else grants == 1 && releases == 0 && pc != Unlock(Some(AlreadyRunning))
  }

  lemma StepKeepsBalance(specs: seq<Spec>, c: Config, e: Event, grants: nat, releases: nat)
    requires Balance(c.state.pc, grants, releases) && Enabled(specs, c, e)
    ensures Balance(Next(specs, c.state, e).pc,
                    grants + (if e.Tried? && e.granted then 1 else 0),
                    releases + (if c.state.pc.Unlock? && !e.Outside? then 1 else 0))
  {
  }

  /** Whatever throws, the lock is released exactly as often as it was taken, which is at most once. */
  lemma {:induction false} ReleasedOnce(specs: seq<Spec>, w: World, log: seq<Event>)
    requires IsRun(specs, w, log)
    ensures Balance(After(specs, w, log).state.pc, Grants(log), Releases(specs, w, log))
  {
    if log != [] {
      ReleasedOnce(specs, w, Most(log));
      StepKeepsBalance(specs, After(specs, w, Most(log)), Last(log), Grants(Most(log)), Releases(specs, w, Most(log)));
      hide Balance, Next;
    }
  }

  /** An answered release fails exactly when the session was lost on the way, and then hides the error
      that was pending. */
  lemma FailedReleaseHidesTheError(specs: seq<Spec>, w: World, log: seq<Event>, e: Event)
    requires IsRun(specs, w, log) && After(specs, w, log).state.pc.Unlock?
    requires Enabled(specs, After(specs, w, log), e) && e.Unlocked?
    ensures var c := After(specs, w, log);
            Next(specs, c.state, e).pc ==
            Over(if c.world.session != c.state.owner then Threw(OwnershipLost)
                 else if c.state.pc.pending.Some? then Threw(c.state.pc.pending.value) else Returned)
  {
    RunIsSecured(specs, w, log);
  }

  // ----- Exactly when it returns -----

  /** What the client has done. */
  function Own(log: seq<Event>): seq<Event> {
    if log == [] then [] else Own(Most(log)) + (if Last(log).Outside? then [] else [Last(log)])
  }

  /** The `n`th statement shows something that the preflight does not put up with: it throws; the lock is taken;
      an index is seen by another session than the one that took it, or with a foreign definition; one that
      was just created is missing or unusable; or the lock is not that session's to release. */
  predicate Complains(specs: seq<Spec>, own: seq<Event>, n: nat)
    requires n < |own|
  {
    match own[n]
    case Broke => true
    case Tried(granted, _) => !granted
    case SawIndex(k, row) =>
      || (row.Some? && !(own[0].Tried? && row.value.pid == own[0].pid))
      || (row.Some? && k < |specs| && row.value.index.definition != specs[k].definition)
      || (n > 0 && own[n - 1].Created? && (row.None? || !row.value.index.valid || !row.value.index.ready))
    case Unlocked(released, pid) => !released || !(own[0].Tried? && pid == own[0].pid)
    case _ => false
  }

  ghost predicate Faultless(specs: seq<Spec>, own: seq<Event>) {
    forall n :: 0 <= n < |own| ==> !Complains(specs, own, n)
  }

  ghost predicate Judged(specs: seq<Spec>, s: State, own: seq<Event>) {
    && (s.pc.Start? <==> own == [])
    && (InPass(s.pc) || s.pc.Unlock? ==> own[0].Tried? && own[0].pid == s.owner)
    && (InPass(s.pc) ==> s.pc.k < |specs| && Faultless(specs, own) && (s.pc.Recheck? <==> Last(own).Created?))
    && (s.pc.Unlock? ==> (s.pc.pending.None? <==> Faultless(specs, own)))
    && (s.pc.Over? ==> (s.pc == Over(Returned) <==> Faultless(specs, own)))
  }

  lemma FaultsNext(specs: seq<Spec>, own: seq<Event>, e: Event)
    ensures Faultless(specs, own + [e]) <==> Faultless(specs, own) && !Complains(specs, own + [e], |own|)
  {
    var next := own + [e];
    forall n | 0 <= n < |own|
      ensures Complains(specs, next, n) <==> Complains(specs, own, n)
    {
      assert next[n] == own[n] && next[0] == own[0] && (n > 0 ==> next[n - 1] == own[n - 1]);
    }
  }

  lemma StepIsJudged(specs: seq<Spec>, c: Config, own: seq<Event>, e: Event)
    requires Judged(specs, c.state, own) && Enabled(specs, c, e) && !e.Outside?
    ensures Judged(specs, Next(specs, c.state, e), own + [e])
  {
    FaultsNext(specs, own, e);
    var next := own + [e];
    assert Last(next) == e && next[|own|] == e && (own != [] ==> next[0] == own[0] && next[|own| - 1] == Last(own));
    hide Faultless, Shows;
  }

  lemma {:induction false} RunIsJudged(specs: seq<Spec>, w: World, log: seq<Event>)
    requires IsRun(specs, w, log)
    ensures Judged(specs, After(specs, w, log).state, Own(log))
  {
    if log != [] {
      var c, own := After(specs, w, Most(log)), Own(Most(log));
      RunIsJudged(specs, w, Most(log));
      assert own + [] == own;
      if !Last(log).Outside? {
        StepIsJudged(specs, c, own, Last(log));
      }
      hide Judged, Enabled, Effect;
    }
  }

  /** A run that is over has returned normally exactly when none of its statements showed anything amiss. */
  lemma ReturnsExactlyWhen(specs: seq<Spec>, w: World, log: seq<Event>)
    requires IsRun(specs, w, log) && After(specs, w, log).state.pc.Over?
    ensures After(specs, w, log).state.pc == Over(Returned) <==> Faultless(specs, Own(log))
  {
    RunIsJudged(specs, w, log);
  }

  // ----- When nobody interferes -----

  predicate Quiet(log: seq<Event>) {
    forall e :: e in log ==> !e.Outside? && !e.Broke?
  }

  ghost predicate DistinctNames(specs: seq<Spec>) {
    forall i, j :: 0 <= i < j < |specs| ==> specs[i].name != specs[j].name
  }

  /** There is no table, no such index, or an index with the proper definition. */
  predicate Fitting(w: World, spec: Spec) {
    spec.table in w.tables && spec.name in w.indexes ==> w.indexes[spec.name].definition == spec.definition
  }

  predicate Good(w: World, spec: Spec) {
    && spec.name in w.indexes && w.indexes[spec.name].valid && w.indexes[spec.name].ready
    && w.indexes[spec.name].definition == spec.definition
  }

  ghost predicate AllGood(specs: seq<Spec>, w: World, k: nat) {
    forall j :: 0 <= j < |specs| && j < k && specs[j].table in w.tables ==> Good(w, specs[j])
  }

  ghost predicate AllFitting(specs: seq<Spec>, w: World, k: nat) {
    forall j :: 0 <= j < |specs| && j < k ==> Fitting(w, specs[j])
  }

  ghost predicate Untouched(specs: seq<Spec>, w: World, now: World, k: nat) {
    forall j :: k <= j < |specs| ==> RowOf(now, specs[j].name) == RowOf(w, specs[j].name)
  }

  ghost predicate QuietInvariant(specs: seq<Spec>, w: World, c: Config) {
    var now, pc := c.world, c.state.pc;
    && now.tables == w.tables && now.session == w.session
    && (pc.Start? ==> now == w)
    && (InPass(pc) || pc.Unlock? ==> now.lock == Some(w.session) && c.state.owner == w.session)
    && (InPass(pc) ==> pc.k < |specs| && AllGood(specs, now, pc.k) && AllFitting(specs, w, pc.k))
    && (pc.Table? || pc.Inspect? ==> Untouched(specs, w, now, pc.k))
    && (pc.Drop? || pc.Create? || pc.Recheck? ==> Untouched(specs, w, now, pc.k + 1) && Fitting(w, specs[pc.k]))
    && (InPass(pc) && !pc.Table? ==> specs[pc.k].table in w.tables)
    && (pc.Create? ==> specs[pc.k].name !in now.indexes)
    && (pc.Recheck? ==> Good(now, specs[pc.k]))
    && (pc == Unlock(None) || pc == Over(Returned) ==> AllGood(specs, now, |specs|) && AllFitting(specs, w, |specs|))
    && (pc.Unlock? && pc.pending.Some? ==> IsMismatch(specs, w, pc.pending.value))
    && (pc.Over? && pc.outcome.Threw? ==> IsMismatch(specs, w, pc.outcome.error))
  }

  predicate IsMismatch(specs: seq<Spec>, w: World, error: Error) {
    error.DefinitionMismatch? && error.k < |specs| && !Fitting(w, specs[error.k])
  }

  lemma QuietInspection(specs: seq<Spec>, w: World, c: Config, e: Event)
    requires DistinctNames(specs) && (c.state.pc.Table? || c.state.pc.Inspect?)
    requires QuietInvariant(specs, w, c) && Enabled(specs, c, e) && !e.Outside? && !e.Broke?
    ensures QuietInvariant(specs, w, Step(specs, c, e))
  {
  }

  lemma QuietRebuild(specs: seq<Spec>, w: World, c: Config, e: Event)
    requires DistinctNames(specs) && (c.state.pc.Drop? || c.state.pc.Create? || c.state.pc.Recheck?)
    requires QuietInvariant(specs, w, c) && Enabled(specs, c, e) && !e.Outside? && !e.Broke?
    ensures QuietInvariant(specs, w, Step(specs, c, e))
  {
  }

  lemma QuietEnds(specs: seq<Spec>, w: World, c: Config, e: Event)
    requires w.lock in {None, Some(w.session)} && !InPass(c.state.pc)
    requires QuietInvariant(specs, w, c) && Enabled(specs, c, e) && !e.Outside? && !e.Broke?
    ensures QuietInvariant(specs, w, Step(specs, c, e))
  {
  }

  lemma QuietStep(specs: seq<Spec>, w: World, c: Config, e: Event)
    requires DistinctNames(specs) && w.lock in {None, Some(w.session)}
    requires QuietInvariant(specs, w, c) && Enabled(specs, c, e) && !e.Outside? && !e.Broke?
    ensures QuietInvariant(specs, w, Step(specs, c, e))
  {
    hide DistinctNames, QuietInvariant, Enabled;
    if c.state.pc.Table? || c.state.pc.Inspect? {
      QuietInspection(specs, w, c, e);
    } else if InPass(c.state.pc) {
      QuietRebuild(specs, w, c, e);
    } else {
      QuietEnds(specs, w, c, e);
    }
  }

  lemma {:induction false} QuietRun(specs: seq<Spec>, w: World, log: seq<Event>)
    requires DistinctNames(specs) && w.lock in {None, Some(w.session)}
    requires IsRun(specs, w, log) && Quiet(log)
    ensures QuietInvariant(specs, w, After(specs, w, log))
  {
    if log != [] {
      assert forall e :: e in Most(log) ==> e in log;
      QuietRun(specs, w, Most(log));
      assert Last(log) in log;
      QuietStep(specs, w, After(specs, w, Most(log)), Last(log));
    }
  }

  /** With the lock free and nobody interfering, the preflight succeeds exactly when no index of an
      existing table has a foreign definition; then all of them are usable and proper. */
  lemma AloneItSucceedsExactlyWhen(specs: seq<Spec>, w: World, log: seq<Event>)
    requires DistinctNames(specs) && w.lock in {None, Some(w.session)}
    requires IsRun(specs, w, log) && Quiet(log) && After(specs, w, log).state.pc.Over?
    ensures After(specs, w, log).state.pc == Over(Returned) <==> AllFitting(specs, w, |specs|)
    ensures AllFitting(specs, w, |specs|) ==> AllGood(specs, After(specs, w, log).world, |specs|)
  {
    QuietRun(specs, w, log);
  }

  // ----- The program -----

  class Preflight {
    const specs: seq<Spec>
    var world: World
    ghost const initial: World
    ghost var log: seq<Event>
    ghost var state: State

    constructor (specs: seq<Spec>, world: World)
      ensures Valid() && state == State(Start, 0) && log == []
      ensures this.specs == specs && initial == world
    {
      this.specs, this.world := specs, world;
      initial, log, state := world, [], State(Start, 0);
    }

    /** The log is a run of the control, and ends here. */
    ghost predicate Valid()
      reads this
    {
      IsRun(specs, initial, log) && After(specs, initial, log) == Config(state, world)
    }

    method Interfere()
      requires Valid() && (InPass(state.pc) ==> state.pc.k < |specs|)
      modifies this`world, this`log
      ensures Valid()
    {
      var after: World := *;
      if Enabled(specs, Config(State(Start, 0), world), Outside(after)) {
        Extend(specs, initial, log, Outside(after));
        log, world := log + [Outside(after)], after;
      }
    }

    /** A statement that is answered. */
    method Answer(e: Event)
      requires Valid() && Enabled(specs, Config(state, world), e)
      modifies this
      ensures Valid() && state == Next(specs, old(state), e)
    {
      Extend(specs, initial, log, e);
      state := Next(specs, state, e);
      world := Effect(specs, world, e);
      log := log + [e];
    }

    method TryLock() returns (r: Result<(bool, nat), Error>)
      requires Valid() && state.pc.Start?
      modifies this
      ensures Valid()
      ensures match r
              case Success((granted, pid)) =>
                state == State(if granted then At(specs, 0) else Over(Threw(AlreadyRunning)), pid)
              case Failure(error) => state.pc == Over(Threw(error))
    {
      Interfere();
      if * {
        Answer(Broke);
        return Failure(Connection);
      }
      var granted := world.lock == None || world.lock == Some(world.session);
      var pid := world.session;
      Answer(Tried(granted, pid));
      return Success((granted, pid));
    }

    method TableExists(k: nat) returns (r: Result<bool, Error>)
      requires Valid() && k < |specs| && state.pc == Table(k)
      modifies this
      ensures Valid() && state.owner == old(state.owner)
      ensures r.Success? ==> state.pc == if r.value then Inspect(k) else At(specs, k + 1)
      ensures r.Failure? ==> state.pc == Unlock(Some(r.error))
    {
      Interfere();
      if * {
        Answer(Broke);
        return Failure(Connection);
      }
      var found := specs[k].table in world.tables;
      Answer(SawTable(k, found));
      return Success(found);
    }

    method IndexState(k: nat) returns (r: Result<Option<Row>, Error>)
      requires Valid() && k < |specs| && (state.pc == Inspect(k) || state.pc == Recheck(k))
      modifies this
      ensures Valid() && state.owner == old(state.owner)
      ensures r.Success? ==> state == Next(specs, old(state), SawIndex(k, r.value))
      ensures r.Failure? ==> state.pc == Unlock(Some(r.error))
    {
      Interfere();
      if * {
        Answer(Broke);
        return Failure(Connection);
      }
      var row := RowOf(world, specs[k].name);
      Answer(SawIndex(k, row));
      return Success(row);
    }

    /** Without IF EXISTS the statement rejects when others have dropped the index. */
    method DropIndex(k: nat) returns (r: Result<(), Error>)
      requires Valid() && k < |specs| && state.pc == Drop(k)
      modifies this
      ensures Valid() && state.owner == old(state.owner)
      ensures state.pc == if r.Success? then Create(k) else Unlock(Some(r.error))
    {
      Interfere();
      if specs[k].name !in world.indexes {
        Answer(Broke);
        return Failure(Connection);
      }
      if * {
        Answer(Broke);
        return Failure(Connection);
      }
      Answer(Dropped(k));
      return Success(());
    }

    method CreateIndex(k: nat) returns (r: Result<(), Error>)
      requires Valid() && k < |specs| && state.pc == Create(k)
      modifies this
      ensures Valid() && state.owner == old(state.owner)
      ensures state.pc == if r.Success? then Recheck(k) else Unlock(Some(r.error))
    {
      Interfere();
      if * {
        Answer(Broke);
        return Failure(Connection);
      }
      Answer(Created(k));
      return Success(());
    }

    /** The body of the loop. */
    method EnsureIndex(k: nat, owner: nat) returns (r: Result<(), Error>)
      requires Valid() && k < |specs| && state == State(Table(k), owner)
      modifies this
      ensures Valid() && state.owner == owner
      ensures state.pc == if r.Success? then At(specs, k + 1) else Unlock(Some(r.error))
    {
      hide Valid;
      var exists_ :- TableExists(k);
      if !exists_ {
        return Success(());
      }
      var row :- IndexState(k);
      if row.Some? && row.value.pid != owner {
        return Failure(SessionChanged);
      }
      if row.Some? && row.value.index.definition != specs[k].definition {
        return Failure(DefinitionMismatch(k));
      }
      if row.Some? && !Usable(row.value.index) {
        var _ :- DropIndex(k);
        row := None;
      }
      if row.None? {
        var _ :- CreateIndex(k);
        row :- IndexState(k);
      }
      if row.None? || !Usable(row.value.index) || row.value.pid != owner {
        return Failure(NotReady(k));
      }
      if row.value.index.definition != specs[k].definition {
        return Failure(DefinitionMismatch(k));
      }
      return Success(());
    }

    method ReleaseLock(owner: nat) returns (r: Result<(), Error>)
      requires Valid() && state.pc.Unlock? && state.owner == owner
      modifies this
      ensures Valid()
      ensures state.pc ==
              Over(if r.Failure? then Threw(r.error)
                   else if old(state.pc.pending).Some? then Threw(old(state.pc.pending.value)) else Returned)
    {
      Interfere();
      if * {
        Answer(Broke);
        return Failure(Connection);
      }
      var pid := world.session;
      var released := world.lock == Some(pid);
      Answer(Unlocked(released, pid));
      return if !released || pid != owner then Failure(OwnershipLost) else Success(());
    }

    /** `ensureIndexes`. */
    method EnsureIndexes() returns (r: Outcome)
      requires Valid() && state.pc.Start?
      modifies this
      ensures Valid() && state.pc == Over(r)
    {
      hide Valid;
      var attempt := TryLock();
      if attempt.Failure? {
        return Threw(attempt.error);
      }
      var (granted, owner) := attempt.value;
      if !granted {
        return Threw(AlreadyRunning);
      }
      var pending: Option<Error> := None;
      var k := 0;
      while k < |specs| && pending.None?
        invariant Valid() && k <= |specs| && state.owner == owner
        invariant state.pc == if pending.Some? then Unlock(pending) else At(specs, k)
      {
        var done := EnsureIndex(k, owner);
        if done.Failure? {
          pending := Some(done.error);
        }
        k := k + 1;
      }
      var release := ReleaseLock(owner);
      if release.Failure? {
        return Threw(release.error);
      }
      return if pending.Some? then Threw(pending.value) else Returned;
    }
  }
}
