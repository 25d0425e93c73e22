/** The Apply pipeline over durable state: one step for each write or action that a crash can
    separate from the next, with the requests that may arrive in between. */
module Pipeline {
  import opened Outcomes
  import opened Catalogs
  import opened CatalogPlans
  import opened CatalogDdl
  import opened CatalogRecovery
  import opened CatalogsSection

  datatype Stage =
    Validating | Applying | RollingOut | Verifying | Committing | RollingBack | Succeeded | Failed | Incident

  predicate Terminal(stage: Stage) {
    stage == Succeeded || stage == Failed || stage == Incident
  }

  /** Failing in one of these means the Cluster was touched. */
  predicate RolledBackFrom(stage: Stage) {
    stage == Applying || stage == RollingOut || stage == Verifying
  }

  /** The durable record of one Apply. */
  datatype Record = Record(stage: Stage, history: seq<Stage>, snapshot: Option<nat>, interrupted: bool,
      rollback: Option<bool>) {
    function Advanced(to: Stage): Record {
      this.(stage := to, history := history + [to])
    }
  }

  const STARTED := Record(Validating, [Validating], None, false, None)

  /** The Sections of a configuration: the Catalogs, and the rest as documents. */
  datatype Config = Config(catalogs: Configured, others: map<string, string>)

  const NOTHING := Config(map[], map[])

  datatype Candidate = Candidate(base: Option<nat>, config: Config)

  /** Where the work of an Apply stands: about to record a stage, doing it, or past it. */
  datatype Point = Enter(stage: Stage) | Do(stage: Stage) | Rederive | Finish
                 | Handle(reached: Stage) | Restore | Resolve | GiveUp | Declare

  /** The process: not running, resolving what a restart interrupted, or serving requests with
      or without an Apply in its background. */
  datatype Process = Down | Look | Undo(id: nat, reached: Stage) | UndoneOn(id: nat) | GiveUpOn(id: nat)
                   | DeclareOn(id: nat) | Idle | Running(id: nat, at: Point)

  datatype World = World(
    records: seq<Record>,
    candidate: Candidate,
    snapshots: seq<Config>,
    engaged: bool,
    served: Served,
    process: Process,
    desired: Config,     // what the Apply captured when it validated
    baseline: Config,    // and what it planned the change from
    foreign: Live,       // the catalogs nobody manages
    doubted: bool,       // something has happened that the code does not undo
    owed: bool,          // a rollback has failed, and no Admin has released since
    abandoned: bool      // and its incident was given up before the record said so
  )

  function LatestNumber(snapshots: seq<Config>): Option<nat> {
    if snapshots == [] then None else Some(|snapshots|)
  }

  /** The configuration a Snapshot holds, or the empty baseline when there is no such Snapshot. */
  function SectionsOf(snapshots: seq<Config>, number: Option<nat>): Config {
    match number
    case None => NOTHING
    case Some(n) => if 1 <= n <= |snapshots| then snapshots[n - 1] else NOTHING
  }

  function Latest(w: World): Config {
    SectionsOf(w.snapshots, LatestNumber(w.snapshots))
  }

  predicate InFlight(records: seq<Record>, id: nat) {
    id < |records| && !Terminal(records[id].stage)
  }

  predicate AnyInFlight(records: seq<Record>) {
    exists id | 0 <= id < |records| :: InFlight(records, id)
  }

  predicate Serves(w: World) {
    w.process.Idle? || w.process.Running?
  }

  /** Every Operator edit passes this: not in Maintenance Mode, and nothing in flight. */
  predicate GateOpen(w: World) {
    Serves(w) && !w.engaged && !AnyInFlight(w.records)
  }

  predicate CleanConfig(config: Config) {
    CleanAll(config.catalogs)
  }

  // ------------------------------------------------------------------ requests

  /** An Operator's edit, import, Reset or Full Rollback: staged, behind the gate. */
  predicate Edit(w: World, w': World) {
    GateOpen(w) && CleanConfig(w'.candidate.config) &&
    (w'.candidate.base == w.candidate.base || w'.candidate.base == LatestNumber(w.snapshots)) &&
    w' == w.(candidate := w'.candidate)
  }

  /** The Admin's import replaces the Candidate whether or not an Apply is in flight. */
  predicate AdminImport(w: World, w': World) {
    Serves(w) && !w.engaged && CleanConfig(w'.candidate.config) &&
    w'.candidate.base == LatestNumber(w.snapshots) && w' == w.(candidate := w'.candidate)
  }

  predicate StartApply(w: World, w': World) {
    GateOpen(w) && w.process.Idle? &&
    w' == w.(records := w.records + [STARTED], process := Running(|w.records|, Do(Validating)))
  }

  predicate AdminEngages(w: World, w': World) {
    Serves(w) && w' == w.(engaged := true)
  }

  predicate AdminReleases(w: World, w': World) {
    Serves(w) && w' == w.(engaged := false, owed := false, abandoned := false)
  }

  // ------------------------------------------------------------------ the stages

  predicate Runs(w: World, at: Point) {
    w.process.Running? && w.process.at == at && w.process.id < |w.records|
  }

  function Moved(w: World, at: Point): World
    requires w.process.Running?
  {
    w.(process := Running(w.process.id, at))
  }

  function Marked(w: World, stage: Stage): seq<Record>
    requires w.process.Running? && w.process.id < |w.records|
  {
    w.records[w.process.id := w.records[w.process.id].Advanced(stage)]
  }

  /** The change from the base of the Candidate passes the check against what is served now. */
  predicate Passes(w: World) {
    var desired, baseline := w.candidate.config.catalogs, SectionsOf(w.snapshots, w.candidate.base).catalogs;
    Check(PlanOf(desired, baseline), w.served.live.Keys, w.served.secret, RenderSecret(desired)) == []
  }

  /** Capture the Candidate, plan the change, and check it; or fail, having touched nothing. */
  predicate Validate(w: World, w': World) {
    Runs(w, Do(Validating)) &&
    (|| w' == Moved(w, Handle(Validating))
     || (Passes(w) &&
         w' == Moved(w, Enter(Applying)).(desired := w.candidate.config,
                                          baseline := SectionsOf(w.snapshots, w.candidate.base))))
  }

  /** Record a stage before doing it. The write may fail, having taken effect or not; when it is the
      record of COMMITTING, what was applied and verified is neither committed nor undone. */
  predicate EnterStage(w: World, w': World) {
    w.process.Running? && w.process.id < |w.records| && w.process.at.Enter? &&
    var stage := w.process.at.stage;
    var failed := Moved(w, Handle(stage)).(doubted := w.doubted || stage == Committing);
    w' == Moved(w, Do(stage)).(records := Marked(w, stage)) || w' == failed ||
      w' == failed.(records := Marked(w, stage))
  }

  /** The Sections reach the Cluster, or some of them; the coordinator may restart meanwhile. */
  ghost predicate ApplySections(w: World, w': World) {
    Runs(w, Do(Applying)) && w' == w.(process := w'.process, served := w'.served, foreign := w'.foreign) &&
    exists ok ::
      ApplyLeaves(w.served, w.foreign, w.desired.catalogs, PlanOf(w.desired.catalogs, w.baseline.catalogs),
                  w'.served, w'.foreign, ok) &&
      (|| w'.process == Running(w.process.id, Handle(Applying))
       || (ok && w'.process == Running(w.process.id, Enter(RollingOut)))
       || (ok && w'.process == Running(w.process.id, Enter(Verifying))))
  }

  ghost predicate Restarted(w: World, w': World) {
    MayRestart(w.served, w.foreign, w'.served, w'.foreign)
  }

  /** A Rollout that succeeds has restarted the coordinator; one that fails perhaps not. */
  ghost predicate RollOutCluster(w: World, w': World) {
    Runs(w, Do(RollingOut)) &&
    (|| (Restarted(w, w') && w' == Moved(w, Handle(RollingOut)).(served := w'.served, foreign := w'.foreign))
     || (Restarts(w.served, w.foreign, w'.served, w'.foreign) &&
         w' == Moved(w, Enter(Verifying)).(served := w'.served, foreign := w'.foreign)))
  }

  predicate Verify(w: World, w': World) {
    Runs(w, Do(Verifying)) &&
    (|| w' == Moved(w, Handle(Verifying))
     || (w.desired.catalogs.Keys <= w.served.live.Keys && w' == Moved(w, Enter(Committing))))
  }

  function Committed(w: World): World {
    w.(snapshots := w.snapshots + [w.desired])
  }

  function Rederived(w: World): World {
    w.(candidate := Candidate(LatestNumber(w.snapshots), Latest(w)))
  }

  /** The Snapshot goes in first. */
  predicate Commit(w: World, w': World) {
    Runs(w, Do(Committing)) && w' == Moved(Committed(w), Rederive)
  }

  /** Then the Candidate is re-derived from it. */
  predicate RederiveCandidate(w: World, w': World) {
    Runs(w, Rederive) && w' == Moved(Rederived(w), Finish)
  }

  /** Either write may fail, having taken effect or not. */
  predicate CommitFails(w: World, w': World) {
    || (Runs(w, Do(Committing)) &&
        (|| w' == Moved(w, Handle(Committing)).(doubted := true)
         || w' == Moved(Committed(w), Handle(Committing)).(doubted := true)))
    || (Runs(w, Rederive) &&
        (|| w' == Moved(w, Handle(Committing)).(doubted := true)
         || w' == Moved(Rederived(w), Handle(Committing)).(doubted := true)))
  }

  /** SUCCEEDED, once the record names the Snapshot, or a failure of either write, which may have taken
      effect all the same. */
  predicate FinishApply(w: World, w': World) {
    Runs(w, Finish) &&
    var named := w.records[w.process.id].snapshot == LatestNumber(w.snapshots);
    || (named && w' == w.(process := Idle, records := Marked(w, Succeeded)))
    || w' == Moved(w, Handle(Committing))
    || (named && w' == Moved(w, Handle(Committing)).(records := Marked(w, Succeeded)))
  }

  // ------------------------------------------------------------------ failing

  /** The record says how its rollback went. */
  predicate Says(w: World, id: nat, restored: bool) {
    id < |w.records| && w.records[id].rollback == Some(restored)
  }

  predicate HandleFailure(w: World, w': World) {
    w.process.Running? && w.process.id < |w.records| && w.process.at.Handle? &&
    if RolledBackFrom(w.process.at.reached) then w' == Moved(w, Restore).(records := Marked(w, RollingBack))
    else w' == w.(process := Idle, records := Marked(w, Failed))
  }

  /** One attempt to put a Snapshot back. Succeeding takes every Section, the restart where one is
      needed, and Verification. */
  ghost predicate Restored(snapshot: Configured, before: Served, foreign: Live, after: Served, kept: Live) {
    snapshot.Keys <= after.live.Keys &&
    exists middle, there ::
      RestoreLeaves(before, foreign, snapshot, middle, there, true) && MayRestart(middle, there, after, kept)
  }

  ghost predicate Astray(snapshot: Configured, before: Served, foreign: Live, after: Served, kept: Live) {
    exists middle, there, ok ::
      RestoreLeaves(before, foreign, snapshot, middle, there, ok) && MayRestart(middle, there, after, kept)
  }

  /** The attempt on the Cluster, from this process or from the one after it. */
  ghost predicate PutsBack(w: World, w': World) {
    Restored(Latest(w).catalogs, w.served, w.foreign, w'.served, w'.foreign)
  }

  ghost predicate FailsToPutBack(w: World, w': World) {
    Astray(Latest(w).catalogs, w.served, w.foreign, w'.served, w'.foreign)
  }

  ghost predicate RestoreCluster(w: World, w': World) {
    Runs(w, Restore) &&
    (|| (PutsBack(w, w') && w' == Moved(w, Resolve).(served := w'.served, foreign := w'.foreign))
     || (FailsToPutBack(w, w') &&
         w' == Moved(w, GiveUp).(served := w'.served, foreign := w'.foreign, doubted := true, owed := true,
             abandoned := false)))
  }

  predicate ResolveFailure(w: World, w': World) {
    Runs(w, Resolve) && Says(w, w.process.id, true) &&
    w' == w.(process := Idle, records := Marked(w, Failed))
  }

  /** Maintenance Mode first ... */
  predicate EngageMaintenance(w: World, w': World) {
    Runs(w, GiveUp) && Says(w, w.process.id, false) && w' == Moved(w, Declare).(engaged := true)
  }

  /** ... and only then does the record leave ROLLING_BACK. */
  predicate DeclareIncident(w: World, w': World) {
    Runs(w, Declare) && Says(w, w.process.id, false) && w' == w.(process := Idle, records := Marked(w, Incident))
  }

  /** What a record says besides its stage: the Snapshot committed, the outcome of the rollback,
      and that a restart interrupted it. Each is written when it is known, before the stage. */
  predicate Annotates(w: World, id: nat, note: Record)
    requires id < |w.records|
  {
    var record := w.records[id];
    match w.process
    case Running(running, at) =>
      id == running &&
      (|| (at.Finish? && note == record.(snapshot := LatestNumber(w.snapshots)))
       || (at.Resolve? && note == record.(rollback := Some(true)))
       || (at.GiveUp? && note == record.(rollback := Some(false))))
    case Look => InFlight(w.records, id) && note == record.(interrupted := true)
    case UndoneOn(undone) => id == undone && note == record.(rollback := Some(true))
    case GiveUpOn(lost) => id == lost && note == record.(rollback := Some(false))
    case _ => false
  }

  predicate Annotate(w: World, w': World) {
    exists id | 0 <= id < |w.records| ::
      id < |w'.records| && Annotates(w, id, w'.records[id]) && w' == w.(records := w.records[id := w'.records[id]])
  }

  // ------------------------------------------------------------------ crashing and recovering

  /** A rollback has failed and Maintenance Mode is about to be engaged. */
  predicate GivingUp(process: Process) {
    process.GiveUpOn? || (process.Running? && process.at.GiveUp?)
  }

  /** The same, up to where the record says INCIDENT. */
  predicate Declaring(process: Process) {
    GivingUp(process) || process.DeclareOn? || (process.Running? && process.at.Declare?)
  }

  /** Where a crash leaves recovery something it can answer for: everywhere but in the Commit writes
      and in a rollback. */
  predicate Recoverable(process: Process) {
    match process
    case Running(_, at) => at != Do(Committing) && !at.Rederive? && !at.Restore? && !at.GiveUp? && !at.Declare?
    case Undo(_, reached) => !RolledBackFrom(reached)
    case GiveUpOn(_) => false
    case DeclareOn(_) => false
    case _ => true
  }

  /** The process dies; what is durable stays. */
  predicate Crash(w: World, w': World) {
    !w.process.Down? &&
    w' == w.(process := Down, doubted := w.doubted || !Recoverable(w.process),
             abandoned := w.abandoned || Declaring(w.process))
  }

  /** A crash in the middle of the Apply stage: whatever had been issued stays issued. */
  ghost predicate CrashApplying(w: World, w': World) {
    Runs(w, Do(Applying)) && w' == w.(process := Down, served := w'.served, foreign := w'.foreign) &&
    exists ok ::
      ApplyLeaves(w.served, w.foreign, w.desired.catalogs, PlanOf(w.desired.catalogs, w.baseline.catalogs),
                  w'.served, w'.foreign, ok)
  }

  /** A crash in the middle of a rollback, likewise. */
  ghost predicate CrashRestoring(w: World, w': World) {
    (Runs(w, Restore) || (w.process.Undo? && RolledBackFrom(w.process.reached))) && FailsToPutBack(w, w') &&
    w' == w.(process := Down, served := w'.served, foreign := w'.foreign, doubted := true)
  }

  predicate Boot(w: World, w': World) {
    w.process.Down? && w' == w.(process := Look)
  }

  /** An interrupted record says so, and becomes terminal before its rollback touches the Cluster. */
  predicate Interrupt(w: World, w': World) {
    w.process.Look? &&
    exists id | 0 <= id < |w.records| ::
      InFlight(w.records, id) && w.records[id].interrupted &&
      w' == w.(process := Undo(id, w.records[id].stage),
               records := w.records[id := w.records[id].Advanced(Failed)])
  }

  predicate RecoveryDone(w: World, w': World) {
    w.process.Look? && !AnyInFlight(w.records) && w' == w.(process := Idle)
  }

  /** Recovery that cannot reach the database leaves the rest for the next start, and serves. What it
      was engaging may have been engaged. */
  predicate RecoveryAborts(w: World, w': World) {
    (w.process.Look? || w.process.Undo? || w.process.UndoneOn? || w.process.GiveUpOn? || w.process.DeclareOn?) &&
    (w'.engaged == w.engaged || (w.process.GiveUpOn? && w'.engaged)) &&
    w' == w.(process := Idle, engaged := w'.engaged,
             doubted := w.doubted || !Recoverable(w.process), abandoned := w.abandoned || Declaring(w.process))
  }

  ghost predicate UndoInterrupted(w: World, w': World) {
    w.process.Undo? && w.process.id < |w.records| &&
    if !RolledBackFrom(w.process.reached) then w' == w.(process := Look)
    else
      || (PutsBack(w, w') &&
          w' == w.(process := UndoneOn(w.process.id), served := w'.served, foreign := w'.foreign))
      || (FailsToPutBack(w, w') &&
          w' == w.(process := GiveUpOn(w.process.id), served := w'.served, foreign := w'.foreign,
                   doubted := true, owed := true, abandoned := false))
  }

  predicate LookAgain(w: World, w': World) {
    w.process.UndoneOn? && Says(w, w.process.id, true) && w' == w.(process := Look)
  }

  predicate EngageAfterRestart(w: World, w': World) {
    w.process.GiveUpOn? && Says(w, w.process.id, false) && w' == w.(process := DeclareOn(w.process.id), engaged := true)
  }

  predicate DeclareAfterRestart(w: World, w': World) {
    w.process.DeclareOn? && Says(w, w.process.id, false) &&
    w' == w.(process := Look, records := w.records[w.process.id := w.records[w.process.id].Advanced(Incident)])
  }

  /** The coordinator may restart for reasons of its own, whatever Apchi is doing. */
  ghost predicate CoordinatorRestarts(w: World, w': World) {
    Restarts(w.served, w.foreign, w'.served, w'.foreign) && w' == w.(served := w'.served, foreign := w'.foreign)
  }

  // ------------------------------------------------------------------ runs

  ghost predicate Requested(w: World, w': World) {
    Edit(w, w') || AdminImport(w, w') || StartApply(w, w') || AdminEngages(w, w')
  }

  ghost predicate Progressed(w: World, w': World) {
    Validate(w, w') || EnterStage(w, w') || ApplySections(w, w') || RollOutCluster(w, w') || Verify(w, w') ||
    Commit(w, w') || RederiveCandidate(w, w') || CommitFails(w, w') || FinishApply(w, w')
  }

  ghost predicate RolledBack(w: World, w': World) {
    Annotate(w, w') || HandleFailure(w, w') || RestoreCluster(w, w') || ResolveFailure(w, w') ||
    EngageMaintenance(w, w') || DeclareIncident(w, w')
  }

  ghost predicate Recovered(w: World, w': World) {
    Crash(w, w') || CrashApplying(w, w') || CrashRestoring(w, w') || Boot(w, w') || Interrupt(w, w') ||
      RecoveryDone(w, w') ||
    RecoveryAborts(w, w') || UndoInterrupted(w, w') || LookAgain(w, w') || EngageAfterRestart(w, w') ||
    DeclareAfterRestart(w, w') || CoordinatorRestarts(w, w')
  }

  /** Every step but an Admin's release. */
  ghost predicate Step(w: World, w': World) {
    Requested(w, w') || Progressed(w, w') || RolledBack(w, w') || Recovered(w, w')
  }

  ghost predicate Next(w: World, w': World) {
    Step(w, w') || AdminReleases(w, w')
  }

  /** Nothing applied yet. */
  predicate Untouched(w: World) {
    w.records == [] && w.snapshots == []
  }

  /** An Adoption has succeeded: one Apply, and Snapshot 1. */
  predicate JustAdopted(w: World) {
    |w.snapshots| == 1 && CleanConfig(w.snapshots[0]) && |w.records| == 1 &&
    var record := w.records[0];
    record.stage == Succeeded && record.snapshot == Some(1) && record.rollback == None && !record.interrupted &&
    record.history != [] && record.history[|record.history| - 1] == Succeeded && RollingBack !in record.history
  }

  /** A Cluster on which Apchi starts: new to it, or just adopted. */
  ghost predicate Initial(w: World) {
    (Untouched(w) || JustAdopted(w)) && w.process.Idle? && !w.doubted && !w.owed && !w.abandoned &&
    w.candidate == Candidate(LatestNumber(w.snapshots), Latest(w)) && w.desired == NOTHING && w.baseline == NOTHING &&
    InSync(w.served, Latest(w).catalogs, w.foreign)
  }

  /** A finite run, by its states. */
  ghost predicate Run(run: seq<World>) {
    run != [] && Initial(run[0]) && forall i | 0 <= i < |run| - 1 :: Next(run[i], run[i + 1])
  }

  /** Some sequence of steps leads from one state to the other. */
  ghost predicate Reaches(a: World, b: World) {
    exists path: seq<World> :: Path(path, a, b)
  }

  ghost predicate Path(path: seq<World>, a: World, b: World) {
    path != [] && path[0] == a && path[|path| - 1] == b && forall i | 0 <= i < |path| - 1 :: Stride(path, i)
  }

  ghost predicate Stride(path: seq<World>, i: nat)
    requires i < |path| - 1
  {
    Next(path[i], path[i + 1])
  }

  lemma ReachesItself(a: World)
    ensures Reaches(a, a)
  {
    assert Path([a], a, a);
  }

  lemma ReachesOneMore(a: World, b: World, c: World)
    requires Reaches(a, b) && Next(b, c)
    ensures Reaches(a, c)
  {
    hide Next;
    var path :| Path(path, a, b);
    var longer := path + [c];
    forall i | 0 <= i < |longer| - 1 ensures Stride(longer, i) {
      if i < |path| - 1 { assert Stride(path, i); }
    }
    assert Path(longer, a, c);
  }

  /** A path without its last step. */
  lemma PathShortened(path: seq<World>, a: World, b: World)
    requires Path(path, a, b) && |path| > 1
    ensures Path(path[..|path| - 1], a, path[|path| - 2])
  {
    hide Next;
    var front := path[..|path| - 1];
    forall i | 0 <= i < |front| - 1 ensures Stride(front, i) {
      assert Stride(path, i);
    }
  }
}
