/** The online repair of the current-run lookup index
    (scripts/database/phase3-campaign-coverage-generation-online-preflight.js, ensureCurrentRunLookupIndex).

    The repair is described twice.  `Next` is a small control machine: what the next statement is,
    given what the statements so far showed.  `Session.EnsureCurrentRunLookupIndex` is the program,
    statement by statement, and is shown to follow that machine.  Between any two statements the
    rest of the world may create, drop, finish or spoil the index, start and end builds, and let
    time pass; any statement may throw. */
module IndexRepair {

  import Text
  import opened Wrappers

  // ----- The catalog -----

  datatype IndexRow = IndexRow(
    valid: bool, ready: bool, unique: bool, keyAttributeCount: int, attributeCount: int,
    accessMethod: string, partial: Option<string>, expressions: Option<string>, columns: seq<string>)

  const COLUMNS := ["creatorId", "scanRunId", "id"]

  /** The row of a finished CREATE INDEX CONCURRENTLY. */
  const BUILT := IndexRow(true, true, false, 3, 3, "btree", None, None, COLUMNS)

  /** `assertCurrentRunIndex` does not throw. */
  predicate Conforming(row: IndexRow) {
    && row.valid && row.ready
    && row.columns == COLUMNS
    && Text.Lower(row.accessMethod) == "btree"
    && row.partial.None? && row.expressions.None? && !row.unique
    && row.keyAttributeCount == 3 && row.attributeCount == 3
  }

  predicate Conforms(row: Option<IndexRow>) {
    row.Some? && Conforming(row.value)
  }

  lemma BuiltConforms()
    ensures Conforming(BUILT)
  {
    Text.LowerKeeps("btree");
  }

  // ----- The world and the events -----

  datatype World = World(index: Option<IndexRow>, builders: nat, clock: nat)

  datatype Options = Options(timeout: int, poll: int)

  datatype Event =
    | Outside(world: World)                 // anything the rest of the world does
    | SawCatalog(row: Option<IndexRow>)
    | SawProgress(building: bool)
    | SawClock(now: nat)
    | Slept
    | Dropped                               // DROP INDEX CONCURRENTLY IF EXISTS
    | Created                               // CREATE INDEX CONCURRENTLY IF NOT EXISTS
    | Threw

  /** `setTimeout` sleeps for at least a millisecond. */
  function Nap(o: Options): nat {
    if o.poll < 1 then 1 else o.poll
  }

  function Effect(o: Options, w: World, e: Event): World {
    match e
    case Outside(world) => world
    case Slept => w.(clock := w.clock + Nap(o))
    case Dropped => w.(index := None)
    case Created => if w.index.None? then w.(index := Some(BUILT)) else w
    case _ => w
  }

  // ----- The control machine -----

  /** The four places at which an active build is waited for. */
  datatype Stage = First | Repair | Build | Retry

  datatype Pc =
    | Inspect
    | Look(stage: Stage)
    | Settle(stage: Stage) | Starting(stage: Stage)
    | Testing(stage: Stage, start: nat) | Sleeping(stage: Stage, start: nat) | Polling(stage: Stage, start: nat)
    | Reread(stage: Stage)
    | Dropping(stage: Stage)
    | Creating(again: bool) | Check(again: bool)
    | Done(settled: bool) | Failed

  /** `seen` is the program's `existing`. */
  datatype State = State(pc: Pc, seen: Option<IndexRow>)

  const START := State(Inspect, None)

  /** What follows once no build is active and `row` is the row to judge. */
  function Decide(stage: Stage, row: Option<IndexRow>): Pc {
    if Conforms(row) then Done(stage.Repair? || stage.Build?)
    else if stage.First? then Look(if row.Some? then Repair else Build)
    else if stage.Build? && row.None? then Creating(false)
    else Dropping(stage)
  }

  predicate Expected(pc: Pc, e: Event) {
    match pc
    case Inspect => e.SawCatalog?
    case Reread(_) => e.SawCatalog?
    case Check(_) => e.SawCatalog?
    case Look(_) => e.SawProgress?
    case Settle(_) => e.SawProgress?
    case Polling(_, _) => e.SawProgress?
    case Starting(_) => e.SawClock?
    case Testing(_, _) => e.SawClock?
    case Sleeping(_, _) => e.Slept?
    case Dropping(_) => e.Dropped?
    case Creating(_) => e.Created?
    case _ => false
  }

  function Next(o: Options, s: State, e: Event): State
    requires e.Outside? || e.Threw? || Expected(s.pc, e)
  {
    if e.Outside? then s
    else if e.Threw? then s.(pc := Failed)
    else
      match s.pc
      case Inspect => State(Look(First), e.row)
      case Look(stage) => s.(pc := if e.building then Settle(stage) else Decide(stage, s.seen))
      case Settle(stage) => s.(pc := if e.building then Starting(stage) else Reread(stage))
      case Starting(stage) => s.(pc := Testing(stage, e.now))
      case Testing(stage, start) => s.(pc := if e.now - start >= o.timeout then Failed else Sleeping(stage, start))
      case Sleeping(stage, start) => s.(pc := Polling(stage, start))
      case Polling(stage, start) => s.(pc := if e.building then Testing(stage, start) else Reread(stage))
      case Reread(stage) => State(Decide(stage, e.row), e.row)
      case Dropping(stage) =>
        State(if stage.Repair? then Look(Build) else Creating(stage.Retry?), None)
      case Creating(again) => s.(pc := Check(again))
      case Check(again) =>
        State(if Conforms(e.row) then Done(false) else if again || e.row.None? then Failed else Look(Retry), e.row)
  }

  // ----- Runs -----

  datatype Config = Config(state: State, world: World)

  predicate Over(pc: Pc) {
    pc.Done? || pc.Failed?
  }

  /** A statement shows what is there; an ended repair issues none. */
  predicate Enabled(c: Config, e: Event) {
    if e.Outside? then e.world.clock >= c.world.clock
    else if e.Threw? then !Over(c.state.pc)
    else
      && Expected(c.state.pc, e)
      && (e.SawCatalog? ==> e.row == c.world.index)
      && (e.SawProgress? ==> (e.building <==> c.world.builders > 0))
      && (e.SawClock? ==> e.now == c.world.clock)
  }

  function Step(o: Options, c: Config, e: Event): Config
    requires Enabled(c, e)
  {
    Config(Next(o, c.state, e), Effect(o, c.world, e))
  }

  function Most(log: seq<Event>): seq<Event>
    requires log != []
  {
    log[..|log| - 1]
  }

  function Last(log: seq<Event>): Event
    requires log != []
  {
    log[|log| - 1]
  }

  ghost predicate IsRun(o: Options, w: World, log: seq<Event>)
    decreases |log|, 0
  {
    log == [] || (IsRun(o, w, Most(log)) && Enabled(After(o, w, Most(log)), Last(log)))
  }

  ghost function After(o: Options, w: World, log: seq<Event>): Config
    requires IsRun(o, w, log)
    decreases |log|, 1
  {
    if log == [] then Config(START, w) else Step(o, After(o, w, Most(log)), Last(log))
  }

  lemma Extend(o: Options, w: World, log: seq<Event>, e: Event)
    requires IsRun(o, w, log) && Enabled(After(o, w, log), e)
    ensures IsRun(o, w, log + [e]) && After(o, w, log + [e]) == Step(o, After(o, w, log), e)
  {
    assert Most(log + [e]) == log && Last(log + [e]) == e;
  }

  lemma {:induction false} Prefix(o: Options, w: World, log: seq<Event>, k: nat)
    requires IsRun(o, w, log) && k <= |log|
    ensures IsRun(o, w, log[..k])
    ensures k < |log| ==> Enabled(After(o, w, log[..k]), log[k])
  {
    if k == |log| {
      assert log[..k] == log;
    } else {
      Prefix(o, w, Most(log), k);
      assert Most(log)[..k] == log[..k];
      if k + 1 == |log| {
        assert Most(log) == log[..k];
      }
    }
  }

  // ----- What a log says -----

  function RowAfter(row: Option<Option<IndexRow>>, e: Event): Option<Option<IndexRow>> {
    if e.SawCatalog? then Some(e.row) else row
  }

  function LastRow(log: seq<Event>): Option<Option<IndexRow>> {
    if log == [] then None else RowAfter(LastRow(Most(log)), Last(log))
  }

  function ProgressAfter(building: Option<bool>, e: Event): Option<bool> {
    if e.SawProgress? then Some(e.building) else building
  }

  function LastProgress(log: seq<Event>): Option<bool> {
    if log == [] then None else ProgressAfter(LastProgress(Most(log)), Last(log))
  }

  predicate SeenAfter(seen: bool, e: Event) {
    if e.SawProgress? then seen || e.building else seen && !e.SawCatalog? && !e.Dropped?
  }

  /** A progress read since the last catalog read or DROP showed a build. */
  predicate BuildSeen(log: seq<Event>) {
    log != [] && SeenAfter(BuildSeen(Most(log)), Last(log))
  }

  function KnownAfter(known: Option<Option<IndexRow>>, e: Event): Option<Option<IndexRow>> {
    if e.SawCatalog? then Some(e.row) else if e.Dropped? then Some(None) else known
  }

  /** What the statements say of the index: the row read last, or none since the last DROP. */
  function Known(log: seq<Event>): Option<Option<IndexRow>> {
    if log == [] then None else KnownAfter(Known(Most(log)), Last(log))
  }

  /** `index` is the index before the event. */
  predicate MadeAfter(made: bool, index: Option<IndexRow>, e: Event) {
    if e.Outside? then Conforms(e.world.index) && (made || !Conforms(index)) else made && !e.SawCatalog?
  }

  /** Since the last catalog read others have taken the index from nonconforming to conforming, and have not
      taken it back. */
  ghost predicate MadeConforming(o: Options, w: World, log: seq<Event>)
    requires IsRun(o, w, log)
  {
    log != [] && MadeAfter(MadeConforming(o, w, Most(log)), After(o, w, Most(log)).world.index, Last(log))
  }

  predicate KeptAfter(kept: bool, index: Option<IndexRow>, e: Event) {
    e.SawCatalog? || (kept && (e.Outside? ==> e.world.index == index))
  }

  /** Since the last catalog read no one else has changed the index. */
  ghost predicate KeptByOthers(o: Options, w: World, log: seq<Event>)
    requires IsRun(o, w, log)
  {
    log != [] && KeptAfter(KeptByOthers(o, w, Most(log)), After(o, w, Most(log)).world.index, Last(log))
  }

  /** Others never change the index, whatever else they do: they may let time pass and build other indexes
      on the table. */
  ghost predicate Respected(o: Options, w: World, log: seq<Event>)
    requires IsRun(o, w, log)
  {
    log == []
    || (&& Respected(o, w, Most(log))
        && (Last(log).Outside? ==> Last(log).world.index == After(o, w, Most(log)).world.index))
  }

  function Drops(log: seq<Event>): nat {
    if log == [] then 0 else Drops(Most(log)) + (if Last(log).Dropped? then 1 else 0)
  }

  function Creates(log: seq<Event>): nat {
    if log == [] then 0 else Creates(Most(log)) + (if Last(log).Created? then 1 else 0)
  }

  // ----- Safety in every run -----

  predicate Waits(pc: Pc) {
    pc.Look? || pc.Settle? || pc.Starting? || pc.Testing? || pc.Sleeping? || pc.Polling? || pc.Reread?
  }

  /** The row in `seen` is the one that was read last. */
  predicate Current(pc: Pc) {
    (Waits(pc) && !pc.stage.Build?) || pc.Dropping? || pc.Done?
  }

  function DropsLeft(pc: Pc): nat {
    if Waits(pc) || pc.Dropping? then (match pc.stage case First => 3 case Repair => 3 case Build => 2 case Retry => 1)
    else if pc.Inspect? then 3
    else if pc.Creating? || pc.Check? then (if pc.again then 0 else 1)
    else 0
  }

  function CreatesLeft(pc: Pc): nat {
    if Waits(pc) || pc.Dropping? then (if pc.stage.Retry? then 1 else 2)
    else if pc.Inspect? then 2
    else if pc.Creating? then (if pc.again then 1 else 2)
    else if pc.Check? then (if pc.again then 0 else 1)
    else 0
  }

  predicate Guarded(s: State, row: Option<Option<IndexRow>>, building: Option<bool>, seen: bool, known: Option<Option<IndexRow>>) {
    && (s.pc.Look? || s.pc.Dropping? || s.pc.Creating? || s.pc.Check? || s.pc.Done? ==> !seen)
    && (Waits(s.pc) || s.pc.Dropping? || s.pc.Creating? ==> known == Some(s.seen))
    && (s.pc.Creating? ==> s.seen.None?)
    && (Current(s.pc) ==> row == Some(s.seen))
    && (s.pc.Done? ==> Conforms(s.seen))
    && (s.pc.Dropping? ==> !Conforms(s.seen))
    && (Waits(s.pc) && s.pc.stage.Build? ==> s.seen.None?)
    && (Waits(s.pc) && (s.pc.stage.Repair? || s.pc.stage.Retry?) ==> !Conforms(s.seen))
    && (s.pc.Reread? || s.pc.Dropping? || s.pc.Creating? ==> building == Some(false))
  }

  lemma StepKeepsGuarded(o: Options, c: Config, row: Option<Option<IndexRow>>, building: Option<bool>, seen: bool,
                         known: Option<Option<IndexRow>>, e: Event)
    requires Guarded(c.state, row, building, seen, known) && Enabled(c, e)
    ensures Guarded(Next(o, c.state, e), RowAfter(row, e), ProgressAfter(building, e), SeenAfter(seen, e), KnownAfter(known, e))
  {
    hide Conforming;
  }

  lemma StepSpends(o: Options, c: Config, e: Event)
    requires Enabled(c, e)
    ensures DropsLeft(Next(o, c.state, e).pc) + (if e.Dropped? then 1 else 0) <= DropsLeft(c.state.pc)
    ensures CreatesLeft(Next(o, c.state, e).pc) + (if e.Created? then 1 else 0) <= CreatesLeft(c.state.pc)
  {
    hide Conforming;
  }

  lemma {:induction false} RunIsGuarded(o: Options, w: World, log: seq<Event>)
    requires IsRun(o, w, log)
    ensures Guarded(After(o, w, log).state, LastRow(log), LastProgress(log), BuildSeen(log), Known(log))
    ensures Drops(log) + DropsLeft(After(o, w, log).state.pc) <= 3
    ensures Creates(log) + CreatesLeft(After(o, w, log).state.pc) <= 2
  {
    if log != [] {
      var c, front := After(o, w, Most(log)), Most(log);
      RunIsGuarded(o, w, front);
      StepKeepsGuarded(o, c, LastRow(front), LastProgress(front), BuildSeen(front), Known(front), Last(log));
      StepSpends(o, c, Last(log));
      hide Guarded, DropsLeft, CreatesLeft, Next, RowAfter, ProgressAfter, SeenAfter, KnownAfter;
    }
  }

  /** While `seen` is current only others can make the index differ from it. */
  predicate Tracked(c: Config, made: bool, kept: bool) {
    Current(c.state.pc) ==>
      && (kept ==> c.world.index == c.state.seen)
      && (made ==> Conforms(c.world.index))
      && (!Conforms(c.state.seen) && Conforms(c.world.index) ==> made)
  }

  lemma StepKeepsTracked(o: Options, c: Config, made: bool, kept: bool, e: Event)
    requires Tracked(c, made, kept) && Enabled(c, e)
    requires Waits(c.state.pc) && c.state.pc.stage.Build? ==> c.state.seen.None?
    ensures Tracked(Step(o, c, e), MadeAfter(made, c.world.index, e), KeptAfter(kept, c.world.index, e))
  {
    hide Conforming;
  }

  lemma {:induction false} RunIsTracked(o: Options, w: World, log: seq<Event>)
    requires IsRun(o, w, log)
    ensures Tracked(After(o, w, log), MadeConforming(o, w, log), KeptByOthers(o, w, log))
  {
    if log != [] {
      var front := Most(log);
      RunIsTracked(o, w, front);
      RunIsGuarded(o, w, front);
      StepKeepsTracked(o, After(o, w, front), MadeConforming(o, w, front), KeptByOthers(o, w, front), Last(log));
      hide Tracked, Guarded, MadeAfter, KeptAfter, Next, Effect;
    }
  }

  /** A normal return: the last catalog read was conforming, no progress read since showed a build, and so
      is the index unless someone else has changed it since. */
  lemma ReturnMeansConforming(o: Options, w: World, log: seq<Event>)
    requires IsRun(o, w, log) && After(o, w, log).state.pc.Done?
    ensures LastRow(log).Some? && LastRow(log).value.Some? && !BuildSeen(log)
    ensures var row := LastRow(log).value.value;
            && row.valid && row.ready && !row.unique && row.partial == None && row.expressions == None
            && Text.Lower(row.accessMethod) == "btree" && row.columns == ["creatorId", "scanRunId", "id"]
            && row.keyAttributeCount == row.attributeCount == 3
    ensures KeptByOthers(o, w, log) ==> After(o, w, log).world.index == LastRow(log).value
  {
    RunIsGuarded(o, w, log);
    RunIsTracked(o, w, log);
  }

  /** What a row that is not dropped looks like. */
  lemma ConformingRows(row: IndexRow)
    ensures Conforming(row) <==>
      row == IndexRow(true, true, false, 3, 3, row.accessMethod, None, None, ["creatorId", "scanRunId", "id"])
      && Text.Lower(row.accessMethod) == "btree"
  {
  }

  /** Every DROP follows a progress read without a build and a catalog read that did not conform, with no build
      seen since.  It removes a conforming index exactly when others have completed one after that read. */
  lemma DropIsGuarded(o: Options, w: World, log: seq<Event>, k: nat)
    requires IsRun(o, w, log) && k < |log| && log[k].Dropped?
    ensures LastProgress(log[..k]) == Some(false) && !BuildSeen(log[..k])
    ensures LastRow(log[..k]).Some? && !Conforms(LastRow(log[..k]).value)
    ensures IsRun(o, w, log[..k])
    ensures Conforms(After(o, w, log[..k]).world.index) <==> MadeConforming(o, w, log[..k])
  {
    Prefix(o, w, log, k);
    RunIsGuarded(o, w, log[..k]);
    RunIsTracked(o, w, log[..k]);
  }

  lemma {:induction false} RespectedPrefix(o: Options, w: World, log: seq<Event>, k: nat)
    requires IsRun(o, w, log) && Respected(o, w, log) && k <= |log|
    ensures IsRun(o, w, log[..k]) && Respected(o, w, log[..k])
  {
    if k == |log| {
      assert log[..k] == log;
    } else {
      RespectedPrefix(o, w, Most(log), k);
      assert Most(log)[..k] == log[..k];
    }
  }

  lemma {:induction false} RespectedMakesNothing(o: Options, w: World, log: seq<Event>)
    requires IsRun(o, w, log) && Respected(o, w, log)
    ensures !MadeConforming(o, w, log)
  {
    if log != [] {
      RespectedMakesNothing(o, w, Most(log));
    }
  }

  /** If others leave the index alone, every DROP meets a nonconforming index, or none: in whatever time, next
      to whatever builds and with whatever errors. */
  lemma DropsOnlyNonconforming(o: Options, w: World, log: seq<Event>, k: nat)
    requires IsRun(o, w, log) && Respected(o, w, log) && k < |log| && log[k].Dropped?
    ensures IsRun(o, w, log[..k]) && !Conforms(After(o, w, log[..k]).world.index)
  {
    RespectedPrefix(o, w, log, k);
    RespectedMakesNothing(o, w, log[..k]);
    DropIsGuarded(o, w, log, k);
  }

  /** Every CREATE follows a catalog read without an index or a DROP, and a progress read without a build, with
      no build seen since. */
  lemma CreateIsGuarded(o: Options, w: World, log: seq<Event>, k: nat)
    requires IsRun(o, w, log) && k < |log| && log[k].Created?
    ensures LastProgress(log[..k]) == Some(false) && !BuildSeen(log[..k]) && Known(log[..k]) == Some(None)
  {
    Prefix(o, w, log, k);
    RunIsGuarded(o, w, log[..k]);
  }

  lemma FewStatements(o: Options, w: World, log: seq<Event>)
    requires IsRun(o, w, log)
    ensures Drops(log) <= 3 && Creates(log) <= 2
  {
    RunIsGuarded(o, w, log);
  }

  // ----- When everyone else leaves the index alone -----

  predicate Repaired(w: World, drops: nat, creates: nat) {
    !Conforms(w.index) && drops == (if w.index.Some? then 1 else 0) && creates == 1
  }

  /** What the repair knows of an index that nobody else changes. */
  predicate Alone(s: State, index: Option<IndexRow>) {
    if Waits(s.pc) then
      match s.pc.stage
      case First => s.seen == index
      case Repair => s.seen == index && index.Some? && !Conforms(index)
      case Build => s.seen.None? && index.None?
      case Retry => false
    else
      match s.pc
      case Dropping(stage) => stage.Repair? && index.Some? && !Conforms(index)
      case Creating(again) => !again && index.None?
      case Check(again) => !again && index == Some(BUILT)
      case Done(settled) => !settled && Conforms(index)
      case _ => true
  }

  lemma AloneStep(o: Options, c: Config, e: Event)
    requires Alone(c.state, c.world.index) && Enabled(c, e)
    requires e.Outside? ==> e.world.index == c.world.index
    ensures Alone(Next(o, c.state, e), Effect(o, c.world, e).index)
    ensures Conforms(c.world.index) ==> Effect(o, c.world, e).index == c.world.index
  {
    BuiltConforms();
    hide Conforming;
  }

  predicate RespectedInvariant(w: World, c: Config, drops: nat, creates: nat) {
    var pc := c.state.pc;
    && Alone(c.state, c.world.index)
    && if pc.Inspect? || pc.Dropping? || (Waits(pc) && !pc.stage.Build?) then
         c.world.index == w.index && drops == creates == 0
       else if pc.Creating? || Waits(pc) then Repaired(w, drops, creates + 1)
       else if pc.Check? then Repaired(w, drops, creates)
       else if pc.Done? then
         if Conforms(w.index) then c.world.index == w.index && drops == creates == 0
         else c.world.index == Some(BUILT) && Repaired(w, drops, creates)
       else true
  }

  lemma RespectedStep(o: Options, w: World, c: Config, drops: nat, creates: nat, e: Event)
    requires RespectedInvariant(w, c, drops, creates) && Enabled(c, e)
    requires e.Outside? ==> e.world.index == c.world.index
    ensures RespectedInvariant(w, Step(o, c, e), drops + (if e.Dropped? then 1 else 0), creates + (if e.Created? then 1 else 0))
  {
    BuiltConforms();
    hide Conforming;
  }

  lemma {:induction false} RunIsRespected(o: Options, w: World, log: seq<Event>)
    requires IsRun(o, w, log) && Respected(o, w, log)
    ensures RespectedInvariant(w, After(o, w, log), Drops(log), Creates(log))
  {
    if log != [] {
      RunIsRespected(o, w, Most(log));
      RespectedStep(o, w, After(o, w, Most(log)), Drops(Most(log)), Creates(Most(log)), Last(log));
      hide RespectedInvariant, Enabled, Next, Effect;
    }
  }

  // ----- Why a repair fails -----

  /** What the program has done. */
  function Own(log: seq<Event>): seq<Event> {
    if log == [] then [] else Own(Most(log)) + (if Last(log).Outside? then [] else [Last(log)])
  }

  /** A clock read in a wait that has shown nothing but a build since. */
  predicate WaitingSince(own: seq<Event>, i: int) {
    0 <= i < |own| && own[i].SawClock? && forall k :: i < k < |own| ==> own[k] != SawProgress(false)
  }

  /** The program ends with two clock reads at least the timeout apart, and every progress read between them
      showed a build. */
  ghost predicate TimedOut(o: Options, own: seq<Event>) {
    && own != [] && Last(own).SawClock?
    && exists i :: WaitingSince(own, i) && i < |own| - 1 && Last(own).now - own[i].now >= o.timeout
  }

  /** The catalog read right after a CREATE shows no index, or, after the second CREATE, a nonconforming one. */
  predicate GaveUp(own: seq<Event>) {
    && |own| >= 2 && own[|own| - 2].Created? && Last(own).SawCatalog? && !Conforms(Last(own).row)
    && (Last(own).row.None? || Creates(own) >= 2)
  }

  predicate Throws(own: seq<Event>) {
    exists k :: 0 <= k < |own| && own[k].Threw?
  }

  /** The wait the program is in began at `start`; outside of a wait no clock read is left open. */
  ghost predicate Timed(c: Config, own: seq<Event>) {
    match c.state.pc
    case Testing(_, start) => TimedFrom(own, start, c.world.clock)
    case Sleeping(_, start) => TimedFrom(own, start, c.world.clock)
    case Polling(_, start) => TimedFrom(own, start, c.world.clock)
    case Failed => true
    case _ => forall i :: !WaitingSince(own, i)
  }

  ghost predicate TimedFrom(own: seq<Event>, start: nat, clock: nat) {
    && start <= clock && (exists i :: WaitingSince(own, i) && own[i].now == start)
    && forall i :: WaitingSince(own, i) ==> own[i].now >= start
  }

  /** The CREATEs so far, and which of them the next catalog read is about. */
  predicate Counted(pc: Pc, own: seq<Event>) {
    && (pc.Check? <==> own != [] && Last(own).Created?)
    && (Waits(pc) || pc.Dropping? ==> Creates(own) == if pc.stage.Retry? then 1 else 0)
    && (pc.Inspect? ==> own == [])
    && (pc.Creating? ==> Creates(own) == if pc.again then 1 else 0)
    && (pc.Check? ==> Creates(own) == if pc.again then 2 else 1)
  }

  lemma WaitingNext(own: seq<Event>, e: Event)
    ensures forall i :: WaitingSince(own + [e], i) <==>
              (i == |own| && e.SawClock?) || (WaitingSince(own, i) && e != SawProgress(false))
  {
    forall i
      ensures WaitingSince(own + [e], i) <==>
              (i == |own| && e.SawClock?) || (WaitingSince(own, i) && e != SawProgress(false))
    {
      if WaitingSince(own + [e], i) && i < |own| {
        assert forall k :: i < k < |own| ==> own[k] == (own + [e])[k];
        assert (own + [e])[|own|] == e;
      }
    }
  }

  lemma StepKeepsTimed(o: Options, c: Config, own: seq<Event>, e: Event)
    requires Timed(c, own) && Enabled(c, e) && !e.Outside? && !Over(c.state.pc)
    ensures Timed(Step(o, c, e), own + [e])
    ensures TimedOut(o, own + [e]) <==> c.state.pc.Testing? && e.SawClock? && Next(o, c.state, e).pc.Failed?
  {
    hide Conforms;
    WaitingNext(own, e);
    var next := own + [e];
    assert Last(next) == e && forall i :: 0 <= i < |own| ==> next[i] == own[i];
    if c.state.pc.Starting? && e.SawClock? {
      assert WaitingSince(next, |own|);
    }
    if c.state.pc.Testing? || c.state.pc.Sleeping? || c.state.pc.Polling? {
      var i :| WaitingSince(own, i) && own[i].now == c.state.pc.start;
      assert e != SawProgress(false) ==> WaitingSince(next, i);
    }
    hide WaitingSince;
  }

  lemma StepKeepsCounted(o: Options, c: Config, own: seq<Event>, e: Event)
    requires Counted(c.state.pc, own) && Enabled(c, e) && !e.Outside? && !Over(c.state.pc)
    ensures Counted(Next(o, c.state, e).pc, own + [e])
    ensures GaveUp(own + [e]) <==> c.state.pc.Check? && e.SawCatalog? && Next(o, c.state, e).pc.Failed?
  {
    hide Conforming;
    var next := own + [e];
    assert Most(next) == own && Last(next) == e;
    assert Creates(next) == Creates(own) + (if e.Created? then 1 else 0);
    assert own != [] ==> next[|next| - 2] == Last(own);
    hide Creates;
    assert GaveUp(next) <==>
      own != [] && Last(own).Created? && e.SawCatalog? && !Conforms(e.row) && (e.row.None? || Creates(own) >= 2);
  }

  ghost predicate Explained(o: Options, c: Config, own: seq<Event>) {
    && Timed(c, own) && Counted(c.state.pc, own)
    && (c.state.pc.Failed? <==> Throws(own) || TimedOut(o, own) || GaveUp(own))
  }

  lemma StepExplains(o: Options, c: Config, own: seq<Event>, e: Event)
    requires Explained(o, c, own) && Enabled(c, e) && !e.Outside?
    ensures Explained(o, Step(o, c, e), own + [e])
  {
    StepKeepsTimed(o, c, own, e);
    StepKeepsCounted(o, c, own, e);
    hide Timed, Counted, TimedOut, GaveUp, Conforms;
    var next := own + [e];
    assert next[|own|] == e && forall k :: 0 <= k < |own| ==> next[k] == own[k];
  }

  lemma OthersKeepExplained(o: Options, c: Config, own: seq<Event>, e: Event)
    requires Explained(o, c, own) && Enabled(c, e) && e.Outside?
    ensures Explained(o, Step(o, c, e), own)
  {
    hide WaitingSince, TimedOut, GaveUp, Throws, Counted;
  }

  lemma {:induction false} RunIsExplained(o: Options, w: World, log: seq<Event>)
    requires IsRun(o, w, log)
    ensures Explained(o, After(o, w, log), Own(log))
  {
    if log != [] {
      var c, own := After(o, w, Most(log)), Own(Most(log));
      RunIsExplained(o, w, Most(log));
      if Last(log).Outside? {
        OthersKeepExplained(o, c, own, Last(log));
      } else {
        StepExplains(o, c, own, Last(log));
      }
      hide Explained, Enabled, Next, Effect;
      assert own + [] == own;
    }
  }

  /** The repair fails exactly when a statement throws, when a wait has lasted for the timeout with nothing but
      builds to be seen, or when the catalog shows that its CREATE has come to nothing. */
  lemma FailsExactlyWhen(o: Options, w: World, log: seq<Event>)
    requires IsRun(o, w, log)
    ensures After(o, w, log).state.pc.Failed? <==> Throws(Own(log)) || TimedOut(o, Own(log)) || GaveUp(Own(log))
  {
    RunIsExplained(o, w, log);
  }

  // ----- The steps of a wait -----

  function FalseReads(own: seq<Event>): nat {
    if own == [] then 0 else FalseReads(Most(own)) + (if Last(own) == SawProgress(false) then 1 else 0)
  }

  /** It sleeps only right after a look at the clock; it looks at the clock only right after another look, after a
      read behind a sleep, or after two reads, all of which showed a build. */
  predicate InStep(own: seq<Event>, k: nat)
    requires k < |own|
  {
    && (own[k].Slept? ==> k > 0 && own[k - 1].SawClock?)
    && (own[k].SawClock? ==>
          || (k > 0 && own[k - 1].SawClock?)
          || (k > 1 && own[k - 1] == SawProgress(true) && (own[k - 2].Slept? || own[k - 2] == SawProgress(true))))
  }

  /** The last statement, but `n`. */
  function Back(own: seq<Event>, n: nat): Option<Event> {
    if n < |own| then Some(own[|own| - 1 - n]) else None
  }

  predicate Stepping(pc: Pc, own: seq<Event>) {
    && (pc.Settle? ==> Back(own, 0) == Some(SawProgress(true)))
    && (pc.Starting? ==> Back(own, 0) == Some(SawProgress(true)) == Back(own, 1))
    && (pc.Testing? ==>
          && Back(own, 0).Some?
          && (Back(own, 0).value.SawClock? || (Back(own, 0).value == SawProgress(true) && Back(own, 1) == Some(Slept))))
    && (pc.Sleeping? ==> Back(own, 0).Some? && Back(own, 0).value.SawClock?)
    && (pc.Polling? ==> Back(own, 0) == Some(Slept))
    && (pc.Reread? ==> Back(own, 0) == Some(SawProgress(false)))
    && (Waits(pc) && pc.stage.First? ==> FalseReads(own) == if pc.Reread? then 1 else 0)
    && (Waits(pc) && (pc.stage.Repair? || pc.stage.Build?) ==> FalseReads(own) >= if pc.Reread? then 2 else 1)
    && (pc.Dropping? ==> FalseReads(own) >= 1)
    && (pc.Check? ==> Back(own, 0) == Some(Created))
    && (pc.Done? ==> (pc.settled <==> Settled(own)))
  }

  /** The program ends with a wait and a catalog read, after an earlier read without a build and without a CREATE
      of its own. */
  predicate Settled(own: seq<Event>) {
    && Back(own, 0).Some? && Back(own, 0).value.SawCatalog? && Back(own, 1) == Some(SawProgress(false))
    && FalseReads(own) >= 2 && Creates(own) == 0
  }

  lemma BackNext(own: seq<Event>, e: Event)
    ensures Back(own + [e], 0) == Some(e) && Back(own + [e], 1) == Back(own, 0)
    ensures FalseReads(own + [e]) == FalseReads(own) + (if e == SawProgress(false) then 1 else 0)
    ensures Creates(own + [e]) == Creates(own) + (if e.Created? then 1 else 0)
  {
    assert Most(own + [e]) == own && Last(own + [e]) == e;
  }

  lemma StepKeepsStepping(o: Options, s: State, own: seq<Event>, e: Event)
    requires Stepping(s.pc, own) && Counted(s.pc, own) && Expected(s.pc, e)
    requires Waits(s.pc) && s.pc.stage.Build? ==> s.seen.None?
    requires Waits(s.pc) && s.pc.stage.Repair? ==> !Conforms(s.seen)
    ensures Stepping(Next(o, s, e).pc, own + [e]) && InStep(own + [e], |own|)
  {
    BackNext(own, e);
    assert FalseReads([]) == 0 && Creates([]) == 0;
    hide Conforming, FalseReads, Creates;
    assert forall k :: 0 <= k < |own| ==> (own + [e])[k] == own[k];
    assert own != [] ==> Back(own, 0) == Some(own[|own| - 1]);
    assert |own| > 1 ==> Back(own, 1) == Some(own[|own| - 2]);
  }

  ghost predicate AllInStep(own: seq<Event>) {
    forall k :: 0 <= k < |own| ==> InStep(own, k)
  }

  lemma InStepNext(own: seq<Event>, e: Event)
    requires AllInStep(own) && InStep(own + [e], |own|)
    ensures AllInStep(own + [e])
  {
    forall k | 0 <= k < |own|
      ensures InStep(own + [e], k)
    {
      InStepLater(own, e, k);
    }
    hide InStep;
  }

  lemma StepIsStepping(o: Options, c: Config, own: seq<Event>, row: Option<Option<IndexRow>>, building: Option<bool>, seen: bool,
                       known: Option<Option<IndexRow>>, e: Event)
    requires Stepping(c.state.pc, own) && AllInStep(own) && Enabled(c, e) && !e.Outside?
    requires Guarded(c.state, row, building, seen, known) && Explained(o, c, own)
    ensures Stepping(Next(o, c.state, e).pc, own + [e]) && AllInStep(own + [e])
  {
    if !e.Threw? {
      StepKeepsStepping(o, c.state, own, e);
    }
    hide Stepping, Conforms, Timed, TimedOut, GaveUp, Throws, AllInStep;
    assert e.Threw? ==> Stepping(Failed, own + [e]) && InStep(own + [e], |own|) by {
      FailedIsStepping(own, e);
    }
    InStepNext(own, e);
  }

  lemma FailedIsStepping(own: seq<Event>, e: Event)
    ensures Stepping(Failed, own + [e]) && (e.Threw? ==> InStep(own + [e], |own|))
  {
  }

  lemma {:induction false} RunIsStepping(o: Options, w: World, log: seq<Event>)
    requires IsRun(o, w, log)
    ensures Stepping(After(o, w, log).state.pc, Own(log)) && AllInStep(Own(log))
  {
    if log != [] {
      var front, e := Most(log), Last(log);
      var c, own := After(o, w, front), Own(front);
      RunIsStepping(o, w, front);
      RunIsGuarded(o, w, front);
      RunIsExplained(o, w, front);
      assert Own(log) == if e.Outside? then own else own + [e];
      hide Stepping, AllInStep, Guarded, Explained, Own;
      if !e.Outside? {
        StepIsStepping(o, c, own, LastRow(front), LastProgress(front), BuildSeen(front), Known(front), e);
      }
      hide Enabled, Effect;
    }
  }

  lemma InStepLater(own: seq<Event>, e: Event, k: nat)
    requires k < |own| && InStep(own, k)
    ensures InStep(own + [e], k)
  {
    var next := own + [e];
    assert next[k] == own[k] && (k > 0 ==> next[k - 1] == own[k - 1]) && (k > 1 ==> next[k - 2] == own[k - 2]);
  }

  /** In every run the waits take these steps, and a normal return says that it was a peer's build that settled the
      matter exactly when it ends with a wait that is not the first. */
  lemma WaitsInStep(o: Options, w: World, log: seq<Event>, k: nat)
    requires IsRun(o, w, log) && k < |Own(log)|
    ensures InStep(Own(log), k)
    ensures After(o, w, log).state.pc.Done? ==> (After(o, w, log).state.pc.settled <==> Settled(Own(log)))
  {
    RunIsStepping(o, w, log);
    hide InStep;
  }

  /** As long as it is not over, the program has a statement to issue. */
  lemma NeverStuck(c: Config)
    requires !Over(c.state.pc)
    ensures exists e: Event :: !e.Outside? && !e.Threw? && Enabled(c, e)
  {
    var found, shown, time := SawCatalog(c.world.index), SawProgress(c.world.builders > 0), SawClock(c.world.clock);
    assert Enabled(c, found) || Enabled(c, shown) || Enabled(c, time) || Enabled(c, Slept) || Enabled(c, Dropped) || Enabled(c, Created);
  }

  lemma BuiltNeverGivesUp(o: Options, w: World, c: Config, drops: nat, creates: nat, own: seq<Event>, e: Event)
    requires RespectedInvariant(w, c, drops, creates) && Explained(o, c, own) && Enabled(c, e) && !e.Outside?
    ensures !GaveUp(own + [e])
  {
    BuiltConforms();
    hide Conforming, Timed, TimedOut, Throws;
    if !Over(c.state.pc) {
      StepKeepsCounted(o, c, own, e);
    }
    hide GaveUp, Counted;
  }

  lemma {:induction false} RespectedNeverGivesUp(o: Options, w: World, log: seq<Event>)
    requires IsRun(o, w, log) && Respected(o, w, log)
    ensures !GaveUp(Own(log))
  {
    if log != [] {
      var front, e := Most(log), Last(log);
      var c, own := After(o, w, front), Own(front);
      RespectedNeverGivesUp(o, w, front);
      RunIsRespected(o, w, front);
      RunIsExplained(o, w, front);
      assert Own(log) == if e.Outside? then own else own + [e];
      hide RespectedInvariant, Explained, GaveUp, Own;
      if !e.Outside? {
        BuiltNeverGivesUp(o, w, c, Drops(front), Creates(front), own, e);
      }
    }
  }

  /** When others leave the index alone, the repair fails only if a statement throws or a build outlasts a wait.
      Where it returns, a conforming index was left untouched, and otherwise the nonconforming one was
      dropped, if there was one, and one was built. */
  lemma AloneItSucceeds(o: Options, w: World, log: seq<Event>)
    requires IsRun(o, w, log) && Respected(o, w, log) && Over(After(o, w, log).state.pc)
    ensures After(o, w, log).state.pc.Done? <==> !Throws(Own(log)) && !TimedOut(o, Own(log))
    ensures After(o, w, log).state.pc.Done? ==>
              && After(o, w, log).world.index == (if Conforms(w.index) then w.index else Some(BUILT))
              && Drops(log) == (if w.index.None? || Conforms(w.index) then 0 else 1)
              && Creates(log) == (if Conforms(w.index) then 0 else 1)
  {
    RunIsRespected(o, w, log);
    FailsExactlyWhen(o, w, log);
    RespectedNeverGivesUp(o, w, log);
  }

  /** The statements of a repair that meets no build: it looks for one before each DROP and CREATE, twice
      before it drops what it found. */
  function Path(index: Option<IndexRow>): seq<Event> {
    if Conforms(index) then [SawCatalog(index), SawProgress(false)]
    else if index.None? then
      [SawCatalog(None), SawProgress(false), SawProgress(false), Created, SawCatalog(Some(BUILT))]
    else
      [SawCatalog(index), SawProgress(false), SawProgress(false), Dropped, SawProgress(false), Created, SawCatalog(Some(BUILT))]
  }

  /** How far along it the program is. */
  function Position(index: Option<IndexRow>, pc: Pc): nat {
    match pc
    case Inspect => 0
    case Look(stage) => if stage.First? then 1 else if stage.Repair? || index.None? then 2 else 4
    case Dropping(_) => 3
    case Creating(_) => if index.None? then 3 else 5
    case Check(_) => if index.None? then 4 else 6
    case Done(_) => |Path(index)|
    case _ => 8
  }

  predicate OnPath(w: World, c: Config, own: seq<Event>) {
    Position(w.index, c.state.pc) <= |Path(w.index)| && own == Path(w.index)[..Position(w.index, c.state.pc)]
  }

  predicate Undisturbed(own: seq<Event>) {
    forall k :: 0 <= k < |own| ==> !own[k].Threw? && own[k] != SawProgress(true)
  }

  lemma StepOnPath(o: Options, w: World, c: Config, drops: nat, creates: nat, own: seq<Event>, e: Event)
    requires OnPath(w, c, own) && RespectedInvariant(w, c, drops, creates) && Enabled(c, e) && !e.Outside?
    requires !e.Threw? && e != SawProgress(true)
    ensures OnPath(w, Step(o, c, e), own + [e])
  {
    BuiltConforms();
    hide Conforming;
  }

  lemma {:induction false} RunOnPath(o: Options, w: World, log: seq<Event>)
    requires IsRun(o, w, log) && Respected(o, w, log) && Undisturbed(Own(log))
    ensures OnPath(w, After(o, w, log), Own(log))
  {
    if log != [] {
      var own, e := Own(Most(log)), Last(log);
      assert own + [] == own;
      assert forall k :: 0 <= k < |own| ==> own[k] == Own(log)[k];
      assert !e.Outside? ==> Own(log)[|own|] == e;
      RunOnPath(o, w, Most(log));
      RunIsRespected(o, w, Most(log));
      if !e.Outside? {
        StepOnPath(o, w, After(o, w, Most(log)), Drops(Most(log)), Creates(Most(log)), own, e);
      }
      hide RespectedInvariant, Next, Effect, Path, Position;
    }
  }

  /** When others leave the index alone, nothing throws and no build is met, the statements are exactly these. */
  lemma UndisturbedStatements(o: Options, w: World, log: seq<Event>)
    requires IsRun(o, w, log) && Respected(o, w, log) && Undisturbed(Own(log))
    ensures Own(log) <= Path(w.index)
    ensures After(o, w, log).state.pc.Done? <==> Own(log) == Path(w.index)
  {
    RunOnPath(o, w, log);
    RunIsRespected(o, w, log);
    hide Conforming;
  }

  // ----- The repair ends -----

  function Remaining(o: Options, start: nat, clock: nat): nat {
    if start + o.timeout <= clock then 0 else start + o.timeout - clock
  }

  /** An upper bound on one pass through a stage: the wait, and three statements around it. */
  function StageCost(o: Options): (cost: nat)
    ensures cost >= 6
  {
    3 * (if o.timeout < 0 then 0 else o.timeout) + 6
  }

  /** The statements still to come after the current stage; `cost` bounds those of a stage. */
  function Later(pc: Pc, cost: nat): nat {
    match pc
    case Inspect => 4 * cost + 9
    case Creating(again) => if again then 2 else cost + 5
    case Check(again) => if again then 1 else cost + 4
    case Done(_) => 0
    case Failed => 0
    case _ => match pc.stage case First => 3 * cost + 8 case Repair => 2 * cost + 7 case Build => cost + 6 case Retry => 3
  }

  /** The statements still to come in the current stage. */
  function Here(o: Options, pc: Pc, clock: nat): nat {
    match pc
    case Look(_) => StageCost(o)
    case Settle(_) => StageCost(o) - 1
    case Starting(_) => StageCost(o) - 2
    case Testing(_, start) => 1 + 3 * Remaining(o, start, clock)
    case Sleeping(_, start) => if Remaining(o, start, clock) == 0 then 3 else 3 * Remaining(o, start, clock)
    case Polling(_, start) => 2 + 3 * Remaining(o, start, clock)
    case Reread(_) => 1
    case _ => 0
  }

  /** Bounds the statements still to come. */
  function Rank(o: Options, c: Config): nat {
    Later(c.state.pc, StageCost(o)) + Here(o, c.state.pc, c.world.clock)
  }

  lemma WaitingRunsOut(o: Options, c: Config, e: Event)
    requires Enabled(c, e) && Waits(c.state.pc) && Waits(Next(o, c.state, e).pc)
    requires Next(o, c.state, e).pc.stage == c.state.pc.stage
    ensures !e.Outside? ==> Rank(o, Step(o, c, e)) < Rank(o, c)
    ensures e.Outside? ==> Rank(o, Step(o, c, e)) <= Rank(o, c)
  {
    hide Conforms;
  }

  lemma StagesRunOut(o: Options, c: Config, e: Event)
    requires Enabled(c, e) && !e.Outside?
    requires !(Waits(c.state.pc) && Waits(Next(o, c.state, e).pc) && Next(o, c.state, e).pc.stage == c.state.pc.stage)
    ensures Rank(o, Step(o, c, e)) < Rank(o, c)
  {
    hide Conforms, StageCost, Remaining;
  }

  lemma StatementsRunOut(o: Options, c: Config, e: Event)
    requires Enabled(c, e)
    ensures !e.Outside? ==> Rank(o, Step(o, c, e)) < Rank(o, c)
    ensures e.Outside? ==> Rank(o, Step(o, c, e)) <= Rank(o, c)
  {
    if Waits(c.state.pc) && Waits(Next(o, c.state, e).pc) && Next(o, c.state, e).pc.stage == c.state.pc.stage {
      WaitingRunsOut(o, c, e);
    } else if !e.Outside? {
      StagesRunOut(o, c, e);
    }
  }

  function Statements(log: seq<Event>): nat {
    if log == [] then 0 else Statements(Most(log)) + (if Last(log).Outside? then 0 else 1)
  }

  /** However busy the others are, the repair ends after a bounded number of statements. */
  lemma {:induction false} RunsAreShort(o: Options, w: World, log: seq<Event>)
    requires IsRun(o, w, log)
    ensures Statements(log) + Rank(o, After(o, w, log)) <= 4 * StageCost(o) + 9
  {
    if log != [] {
      RunsAreShort(o, w, Most(log));
      StatementsRunOut(o, After(o, w, Most(log)), Last(log));
    }
  }

  // ----- The stale read -----

  const UNFINISHED: Option<IndexRow> := Some(BUILT.(valid := false))

  /** The reads that others overtake. */
  function StaleReads(): seq<Event> {
    [SawCatalog(UNFINISHED)] + [Outside(World(Some(BUILT), 0, 0))] + [SawProgress(false)] + [SawProgress(false)]
  }

  lemma StaleRun(o: Options)
    ensures var w := World(UNFINISHED, 1, 0);
      && IsRun(o, w, StaleReads())
      && After(o, w, StaleReads()) == Config(State(Dropping(Repair), UNFINISHED), World(Some(BUILT), 0, 0))
  {
    var w, finished := World(UNFINISHED, 1, 0), World(Some(BUILT), 0, 0);
    assert !Conforms(UNFINISHED);
    hide Conforming;
    var log1 := [SawCatalog(UNFINISHED)];
    var log2 := log1 + [Outside(finished)];
    var log3 := log2 + [SawProgress(false)];
    assert [] + log1 == log1;
    assert IsRun(o, w, []) && After(o, w, []) == Config(START, w);
    hide IsRun, After;
    Extend(o, w, [], SawCatalog(UNFINISHED));
    assert After(o, w, log1) == Config(State(Look(First), UNFINISHED), w);
    Extend(o, w, log1, Outside(finished));
    Extend(o, w, log2, SawProgress(false));
    assert After(o, w, log3) == Config(State(Look(Repair), UNFINISHED), finished);
    Extend(o, w, log3, SawProgress(false));
  }

  /** A builder outside the authority finishes between the catalog read and the progress reads: its
      conforming index is dropped, though no build was active. */
  lemma StaleReadDropsConformingIndex(o: Options)
    ensures exists w: World, log: seq<Event> ::
              && IsRun(o, w, log) && log != [] && Last(log).Dropped?
              && LastProgress(log) == Some(false) && Conforms(After(o, w, Most(log)).world.index)
  {
    var w, stale := World(UNFINISHED, 1, 0), StaleReads();
    StaleRun(o);
    BuiltConforms();
    hide Conforming, IsRun, After;
    Extend(o, w, stale, Dropped);
    var log := stale + [Dropped];
    assert Most(log) == stale && Last(log) == Dropped;
    assert Last(stale) == SawProgress(false);
    assert LastProgress(log) == LastProgress(stale) == Some(false);
  }

  // ----- The program -----

  /** One installer's connection: what is in the database, and the log of everything that has happened. */
  class Session {
    const options: Options
    var index: Option<IndexRow>
    var builders: nat
    var clock: nat
    ghost const initial: World
    ghost var log: seq<Event>
    ghost var state: State

    constructor (options: Options, index: Option<IndexRow>, builders: nat, clock: nat)
      ensures Valid() && state == START && log == []
      ensures this.options == options && initial == World(index, builders, clock)
    {
      this.options, this.index, this.builders, this.clock := options, index, builders, clock;
      initial := World(index, builders, clock);
      log := [];
      state := START;
    }

    /** The log is a run of the control machine, and ends here. */
    ghost predicate Valid()
      reads this
    {
      && IsRun(options, initial, log)
      && After(options, initial, log) == Config(state, World(index, builders, clock))
    }

    method Interfere()
      requires Valid()
      modifies this`index, this`builders, this`clock, this`log
      ensures Valid() && clock >= old(clock)
    {
      if * {
        var later: nat :| true;
        index, builders, clock := *, *, clock + later;
        ghost var e := Outside(World(index, builders, clock));
        Extend(options, initial, log, e);
        log := log + [e];
      }
    }

    /** Before a statement others act, and the statement itself may throw. */
    method Statement() returns (r: Result<(), string>)
      requires Valid() && !Over(state.pc)
      modifies this
      ensures Valid() && clock >= old(clock)
      ensures r.Success? ==> state == old(state)
      ensures r.Failure? ==> state.pc == Failed
    {
      Interfere();
      if * {
        Extend(options, initial, log, Threw);
        log, state := log + [Threw], Next(options, state, Threw);
        return Failure("connection");
      }
      return Success(());
    }

    method CurrentRunIndex() returns (r: Result<Option<IndexRow>, string>)
      requires Valid() && (state.pc.Inspect? || state.pc.Reread? || state.pc.Check?)
      modifies this
      ensures Valid() && clock >= old(clock)
      ensures r.Success? ==> state == Next(options, old(state), SawCatalog(r.value))
      ensures r.Failure? ==> state.pc == Failed
    {
      var _ :- Statement();
      Extend(options, initial, log, SawCatalog(index));
      log, state := log + [SawCatalog(index)], Next(options, state, SawCatalog(index));
      return Success(index);
    }

    /** Whether a build is active. */
    method BuildProgress() returns (r: Result<bool, string>)
      requires Valid() && (state.pc.Look? || state.pc.Settle? || state.pc.Polling?)
      modifies this
      ensures Valid() && clock >= old(clock)
      ensures r.Success? ==> state == Next(options, old(state), SawProgress(r.value))
      ensures r.Failure? ==> state.pc == Failed
    {
      var _ :- Statement();
      Extend(options, initial, log, SawProgress(builders > 0));
      log, state := log + [SawProgress(builders > 0)], Next(options, state, SawProgress(builders > 0));
      return Success(builders > 0);
    }

    method Now() returns (now: nat)
      requires Valid() && (state.pc.Starting? || state.pc.Testing?)
      modifies this
      ensures Valid() && clock == now >= old(clock)
      ensures state == Next(options, old(state), SawClock(now))
    {
      Interfere();
      now := clock;
      Extend(options, initial, log, SawClock(clock));
      log, state := log + [SawClock(clock)], Next(options, state, SawClock(clock));
    }

    method Sleep()
      requires Valid() && state.pc.Sleeping?
      modifies this
      ensures Valid() && clock > old(clock) && clock >= old(clock) + options.poll
      ensures state == Next(options, old(state), Slept)
    {
      Interfere();
      clock := clock + Nap(options);
      Extend(options, initial, log, Slept);
      log, state := log + [Slept], Next(options, state, Slept);
    }

    method DropIndex() returns (r: Result<(), string>)
      requires Valid() && state.pc.Dropping?
      modifies this
      ensures Valid()
      ensures r.Success? ==> state == Next(options, old(state), Dropped)
      ensures r.Failure? ==> state.pc == Failed
    {
      var _ :- Statement();
      index := None;
      Extend(options, initial, log, Dropped);
      log, state := log + [Dropped], Next(options, state, Dropped);
      return Success(());
    }

    method CreateIndex() returns (r: Result<(), string>)
      requires Valid() && state.pc.Creating?
      modifies this
      ensures Valid()
      ensures r.Success? ==> state == Next(options, old(state), Created)
      ensures r.Failure? ==> state.pc == Failed
    {
      var _ :- Statement();
      if index.None? {
        index := Some(BUILT);
      }
      Extend(options, initial, log, Created);
      log, state := log + [Created], Next(options, state, Created);
      return Success(());
    }

    method WaitForPeerBuild(ghost stage: Stage) returns (r: Result<(), string>)
      requires Valid() && state.pc == Settle(stage)
      modifies this
      ensures Valid()
      ensures r.Success? ==> state == State(Reread(stage), old(state).seen)
      ensures r.Failure? ==> state.pc == Failed
    {
      var progress :- BuildProgress();
      if !progress {
        return Success(());
      }
      var startedAt := Now();
      while progress
        invariant Valid() && clock >= startedAt
        invariant state == State(if progress then Testing(stage, startedAt) else Reread(stage), old(state).seen)
        decreases progress, startedAt + options.timeout - clock
      {
        var now := Now();
        if now - startedAt >= options.timeout {
          return Failure("the peer build did not settle");
        }
        Sleep();
        progress :- BuildProgress();
      }
      return Success(());
    }

    /** The row is nonconforming: drop it, unless a build that has meanwhile settled made it conform. */
    method RepairNonconforming() returns (r: Result<bool, string>)
      requires Valid() && state.pc == Look(Repair) && state.seen.Some? && !Conforms(state.seen)
      modifies this
      ensures Valid()
      ensures r.Success? ==> if r.value then state.pc == Done(true) else state == State(Look(Build), None)
      ensures r.Failure? ==> state.pc == Failed
    {
      hide Valid, Conforming;
      var peer :- BuildProgress();
      if peer {
        var _ :- WaitForPeerBuild(Repair);
        var existing :- CurrentRunIndex();
        if existing.Some? && Conforming(existing.value) {
          return Success(true);
        }
      }
      var _ :- DropIndex();
      return Success(false);
    }

    /** There is no index: look once more for a builder, and judge what it leaves. */
    method AwaitLateBuilder() returns (r: Result<bool, string>)
      requires Valid() && state == State(Look(Build), None)
      modifies this
      ensures Valid()
      ensures r.Success? ==> state.pc == if r.value then Done(true) else Creating(false)
      ensures r.Failure? ==> state.pc == Failed
    {
      hide Valid, Conforming;
      var peer :- BuildProgress();
      if peer {
        var _ :- WaitForPeerBuild(Build);
        var existing :- CurrentRunIndex();
        if existing.Some? {
          if Conforming(existing.value) {
            return Success(true);
          }
          var _ :- DropIndex();
        }
      }
      return Success(false);
    }

    /** The index just created does not conform: repair it once. */
    method RepairAbandoned(row: Option<IndexRow>) returns (r: Result<Option<IndexRow>, string>)
      requires Valid() && state == State(Look(Retry), row) && row.Some? && !Conforms(row)
      modifies this
      ensures Valid()
      ensures r.Success? ==> state.pc == if Conforms(r.value) then Done(false) else Failed
      ensures r.Failure? ==> state.pc == Failed
    {
      hide Valid, Conforming;
      var existing := row;
      var peer :- BuildProgress();
      if peer {
        var _ :- WaitForPeerBuild(Retry);
        existing :- CurrentRunIndex();
      }
      var exactAfterPeer := existing.Some? && Conforming(existing.value);
      if !exactAfterPeer {
        var _ :- DropIndex();
        var _ :- CreateIndex();
        existing :- CurrentRunIndex();
      }
      return Success(existing);
    }

    /** `ensureCurrentRunLookupIndex`: whether a settled peer build ended the repair. */
    method EnsureCurrentRunLookupIndex() returns (r: Result<bool, string>)
      requires Valid() && state == START
      modifies this
      ensures Valid()
      ensures r.Success? ==> state.pc == Done(r.value)
      ensures r.Failure? ==> state.pc == Failed
    {
      hide Valid, Conforming;
      var existing :- CurrentRunIndex();
      var peer :- BuildProgress();
      if peer {
        var _ :- WaitForPeerBuild(First);
        existing :- CurrentRunIndex();
      }
      if existing.Some? && !Conforming(existing.value) {
        var settled :- RepairNonconforming();
        if settled {
          return Success(true);
        }
        existing := None;
      }
      if existing.None? {
        var settled :- AwaitLateBuilder();
        if settled {
          return Success(true);
        }
        var _ :- CreateIndex();
        existing :- CurrentRunIndex();
        if existing.Some? && !Conforming(existing.value) {
          existing :- RepairAbandoned(existing);
        }
      }
      if existing.None? || !Conforming(existing.value) {
        return Failure("not created");
      }
      return Success(false);
    }
  }
}
