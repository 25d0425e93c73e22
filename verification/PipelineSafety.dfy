/** What every step of the pipeline keeps. */
module PipelineSafety {
  import opened Outcomes
  import opened Catalogs
  import opened CatalogPlans
  import opened CatalogDdl
  import opened CatalogRecovery
  import opened CatalogRestarts
  import opened CatalogsSection
  import opened Pipeline

  // ------------------------------------------------------------------ the records

  /** Which durable stages the record can show when the work is at a point. */
  predicate StageAt(at: Point, stage: Stage) {
    match at
    case Enter(next) =>
      (next == Applying && stage == Validating) || (next == RollingOut && stage == Applying) ||
      (next == Verifying && (stage == Applying || stage == RollingOut)) || (next == Committing && stage == Verifying)
    case Do(now) => stage == now && (stage == Validating || stage == Committing || RolledBackFrom(stage))
    case Rederive => stage == Committing
    case Finish => stage == Committing
    case Handle(reached) =>
      (reached == Validating && stage == Validating) ||
      (reached == Committing && (stage == Verifying || stage == Committing || stage == Succeeded)) ||
      (RolledBackFrom(reached) && (stage == Validating || RolledBackFrom(stage)))
    case Restore => stage == RollingBack
    case Resolve => stage == RollingBack
    case GiveUp => stage == RollingBack
    case Declare => stage == RollingBack
  }

  /** The stage of the latest record; SUCCEEDED stands for there being none. */
  function LastStage(records: seq<Record>): Stage {
    if records == [] then Succeeded else records[|records| - 1].stage
  }

  /** The order the pipeline walks; only the Rollout may be passed over. */
  predicate Follows(before: Stage, after: Stage) {
    (before == Validating && after == Applying) ||
      (before == Applying && (after == RollingOut || after == Verifying)) ||
    (before == RollingOut && after == Verifying) || (before == Verifying && after == Committing)
  }

  predicate Walked(history: seq<Stage>) {
    history != [] && history[0] == Validating &&
      forall i | 0 <= i < |history| - 1 :: Follows(history[i], history[i + 1])
  }

  /** The history ends in the stage shown, and until the Apply fails it is a walk. */
  predicate WellEnded(record: Record) {
    record.history != [] && record.history[|record.history| - 1] == record.stage &&
    (record.stage == Validating || RolledBackFrom(record.stage) || record.stage == Committing ==>
        Walked(record.history))
  }

  lemma WalkedOn(history: seq<Stage>, stage: Stage)
    requires Walked(history) && Follows(history[|history| - 1], stage)
    ensures Walked(history + [stage])
  {
  }

  predicate Orderly(records: seq<Record>) {
    (forall i | 0 <= i < |records| - 1 :: Terminal(records[i].stage)) &&
    forall i | 0 <= i < |records| :: WellEnded(records[i])
  }

  predicate Matches(records: seq<Record>, process: Process) {
    match process
    case Running(id, at) => id == |records| - 1 && StageAt(at, LastStage(records))
    case Undo(id, _) => id == |records| - 1 && LastStage(records) == Failed
    case UndoneOn(id) => id == |records| - 1 && LastStage(records) == Failed
    case GiveUpOn(id) => id == |records| - 1 && LastStage(records) == Failed
    case DeclareOn(id) => id == |records| - 1 && LastStage(records) == Failed
    case _ => true
  }

  predicate Ledger(records: seq<Record>, process: Process) {
    Orderly(records) && Matches(records, process)
  }

  lemma InFlightIsLast(records: seq<Record>)
    requires Orderly(records)
    ensures AnyInFlight(records) <==> !Terminal(LastStage(records))
    ensures forall id | 0 <= id < |records| && InFlight(records, id) :: id == |records| - 1
  {
    if !Terminal(LastStage(records)) {
      assert InFlight(records, |records| - 1);
    }
  }

  lemma OneMoreRecord(records: seq<Record>)
    requires Orderly(records) && Terminal(LastStage(records))
    ensures Orderly(records + [STARTED]) && LastStage(records + [STARTED]) == Validating
  {
  }

  lemma EndedWell(record: Record, stage: Stage)
    requires Terminal(stage) || stage == RollingBack
    ensures WellEnded(record.Advanced(stage))
  {
  }

  lemma LastReplaced(records: seq<Record>, record: Record)
    requires Orderly(records) && records != [] && WellEnded(record)
    ensures Orderly(records[|records| - 1 := record]) && LastStage(records[|records| - 1 := record]) == record.stage
  {
  }

  lemma LastStageReplaced(records: seq<Record>, record: Record)
    requires records != []
    ensures LastStage(records[|records| - 1 := record]) == record.stage
  {
  }

  // ------------------------------------------------------------------ what is staged

  predicate Staged(candidate: Candidate, snapshots: seq<Config>, desired: Config, process: Process, doubted: bool) {
    CleanConfig(candidate.config) && CleanConfig(desired) &&
    (forall i | 0 <= i < |snapshots| :: CleanConfig(snapshots[i])) &&
    (doubted || candidate.base == LatestNumber(snapshots) || (process.Running? && process.at.Rederive?))
  }

  // ------------------------------------------------------------------ what the Cluster serves

  ghost predicate Safe(w: World) {
    InSync(w.served, Latest(w).catalogs, w.foreign)
  }

  /** The check was passed against the latest Snapshot. */
  ghost predicate Planned(w: World) {
    Safe(w) && w.baseline == Latest(w) && Unmanaged(w.foreign, w.desired.catalogs)
  }

  ghost predicate Applied(w: World) {
    InSync(w.served, w.desired.catalogs, w.foreign) && Unmanaged(w.foreign, Latest(w).catalogs)
  }

  ghost predicate Between(w: World) {
    Partway(w.served, Latest(w).catalogs, w.desired.catalogs, w.foreign)
  }

  ghost predicate ServedAt(w: World) {
    match w.process
    case Running(_, at) =>
      (match at
       case Enter(stage) => if stage == Applying then Planned(w) else Applied(w)
       case Do(stage) => if stage == Validating then Safe(w) else if stage == Applying then Planned(w) else Applied(w)
       case Rederive => Safe(w)
       case Finish => Safe(w)
       case Handle(reached) =>
         if RolledBackFrom(reached) && LastStage(w.records) != Validating then Between(w)
         else
           Safe(w) && (RolledBackFrom(reached) ==> Between(w)) &&
           (reached == Committing ==> LastStage(w.records) != Verifying)
       case Restore => Between(w)
       case Resolve => Safe(w)
       case GiveUp => false
       case Declare => false)
    case Undo(_, reached) => if RolledBackFrom(reached) then Between(w) else Safe(w)
    case UndoneOn(_) => Safe(w)
    case GiveUpOn(_) => false
    case DeclareOn(_) => false
    case _ => if RolledBackFrom(LastStage(w.records)) then Between(w) else Safe(w)
  }

  // ------------------------------------------------------------------ what protects it

  /** A failed rollback that is owed: about to be engaged, or engaged and about to be recorded, or
      engaged and recorded -- unless that was cut short. */
  predicate Protected(records: seq<Record>, process: Process, engaged: bool, doubted: bool, owed: bool,
                      abandoned: bool) {
    (owed ==> doubted) &&
    (owed && !abandoned ==> GivingUp(process) || (engaged && (Declaring(process) || LastStage(records) == Incident)))
  }

  // ------------------------------------------------------------------ the invariant

  predicate Books(w: World) {
    Ledger(w.records, w.process) && Staged(w.candidate, w.snapshots, w.desired, w.process, w.doubted) &&
    Protected(w.records, w.process, w.engaged, w.doubted, w.owed, w.abandoned)
  }

  ghost predicate Inv(w: World) {
    Books(w) && (!w.doubted ==> ServedAt(w))
  }

  lemma InitialBooks(w: World)
    requires Initial(w)
    ensures Books(w)
  {
    hide InSync, CleanCatalog;
    assert CleanConfig(NOTHING);
    if JustAdopted(w) { assert Latest(w) == w.snapshots[0]; }
  }

  lemma InitialInv(w: World)
    requires Initial(w)
    ensures Inv(w)
  {
    hide InSync, Books, Latest;
    InitialBooks(w);
    assert !RolledBackFrom(LastStage(w.records));
  }

  lemma LatestClean(w: World)
    requires Books(w)
    ensures CleanConfig(Latest(w))
  {
  }

  lemma AppliedIsBetween(w: World)
    ensures Applied(w) ==> Between(w)
    ensures Planned(w) ==> Between(w)
  {
    if Applied(w) {
      SyncedIsPartway(w.served, Latest(w).catalogs, w.desired.catalogs, w.foreign);
    }
  }

  /** Passing the check on a Cluster in sync means no desired name is an unmanaged one. */
  lemma CheckedIsUnmanaged(w: World, desired: Configured)
    requires Safe(w)
    requires [] == Check(PlanOf(desired, Latest(w).catalogs), w.served.live.Keys, w.served.secret,
                         RenderSecret(desired))
    ensures Unmanaged(w.foreign, desired)
  {
    CheckInSync(Latest(w).catalogs, desired, w.foreign);
  }

  lemma EditKeeps(w: World, w': World)
    requires Inv(w) && Edit(w, w')
    ensures Inv(w')
  {
    hide ApplyLeaves, RestoreLeaves, Restarts, InSync, Partway, Unmanaged, CleanConfig, Check, PlanOf, RenderSecret,
         Walked;
  }

  lemma AdminImportKeeps(w: World, w': World)
    requires Inv(w) && AdminImport(w, w')
    ensures Inv(w')
  {
    hide ApplyLeaves, RestoreLeaves, Restarts, InSync, Partway, Unmanaged, CleanConfig, Check, PlanOf, RenderSecret,
         Walked;
  }

  lemma StartApplyKeeps(w: World, w': World)
    requires Inv(w) && StartApply(w, w')
    ensures Inv(w')
  {
    hide ApplyLeaves, RestoreLeaves, Restarts, InSync, Partway, Unmanaged, CleanConfig, Check, PlanOf, RenderSecret,
         Walked;
    InFlightIsLast(w.records);
    OneMoreRecord(w.records);
  }

  lemma AdminKeeps(w: World, w': World)
    requires Inv(w) && (AdminEngages(w, w') || AdminReleases(w, w'))
    ensures Inv(w')
  {
    hide ApplyLeaves, RestoreLeaves, Restarts, InSync, Partway, Unmanaged, CleanConfig, Check, PlanOf, RenderSecret,
         Walked;
  }

  lemma ValidateKeeps(w: World, w': World)
    requires Inv(w) && Validate(w, w')
    ensures Inv(w')
  {
    hide ApplyLeaves, RestoreLeaves, Restarts, InSync, Partway, Unmanaged, CleanConfig, Check, PlanOf, RenderSecret,
         Walked;
    if !w.doubted && w'.process.at.Enter? {
      CheckedIsUnmanaged(w, w.candidate.config.catalogs);
    }
  }

  lemma EnterStageLedger(w: World, w': World)
    requires Ledger(w.records, w.process) && EnterStage(w, w')
    ensures Ledger(w'.records, w'.process) && LastStage(w.records) != Incident
  {
    var id, stage := w.process.id, w.process.at.stage;
    WalkedOn(w.records[id].history, stage);
    hide Walked;
    LastReplaced(w.records, w.records[id].Advanced(stage));
  }

  lemma EnterStageBooks(w: World, w': World)
    requires Books(w) && EnterStage(w, w')
    ensures Books(w')
  {
    hide Ledger, CleanConfig, LatestNumber;
    EnterStageLedger(w, w');
  }

  lemma EnterStageServed(w: World, w': World)
    requires Books(w) && ServedAt(w) && !w.doubted && EnterStage(w, w')
    ensures w'.doubted || ServedAt(w')
  {
    hide ApplyLeaves, RestoreLeaves, Restarts, InSync, Partway, Unmanaged, CleanConfig, Check, PlanOf, RenderSecret,
         Walked;
    LastStageReplaced(w.records, w.records[w.process.id].Advanced(w.process.at.stage));
    AppliedIsBetween(w);
  }

  lemma EnterStageKeeps(w: World, w': World)
    requires Inv(w) && EnterStage(w, w')
    ensures Inv(w')
  {
    hide ApplyLeaves, RestoreLeaves, Restarts, InSync, Partway, Unmanaged, CleanConfig, Check, PlanOf, RenderSecret,
         Walked;
    EnterStageBooks(w, w');
    if !w.doubted { EnterStageServed(w, w'); }
  }

  /** An Apply leaves the Cluster between the two configurations, wherever it stops. */
  lemma ApplyLeavesBetween(w: World, after: Served, kept: Live, ok: bool)
    requires Planned(w) && CleanConfig(Latest(w)) && CleanConfig(w.desired)
    requires ApplyLeaves(w.served, w.foreign, w.desired.catalogs, PlanOf(w.desired.catalogs, w.baseline.catalogs),
               after, kept, ok)
    ensures Partway(after, Latest(w).catalogs, w.desired.catalogs, kept)
    ensures ok ==> InSync(after, w.desired.catalogs, kept)
    ensures Unmanaged(kept, Latest(w).catalogs)
  {
    hide ApplyLeaves, CleanAll;
    CheckInSync(Latest(w).catalogs, w.desired.catalogs, w.foreign);
    ApplyFromSync(w.served, Latest(w).catalogs, w.desired.catalogs, w.foreign, after, kept, ok);
  }

  lemma ApplySectionsShape(w: World, w': World)
    requires ApplySections(w, w')
    ensures w.process.Running? && w.process.at == Do(Applying)
    ensures w'.process.Running? && w'.process.id == w.process.id
    ensures w'.process.at == Handle(Applying) || w'.process.at == Enter(RollingOut) || w'.process.at == Enter(Verifying)
    ensures w' == w.(process := w'.process, served := w'.served, foreign := w'.foreign)
  {
    hide ApplyLeaves, PlanOf;
  }

  lemma RollOutShape(w: World, w': World)
    requires RollOutCluster(w, w')
    ensures w.process.Running? && w.process.at == Do(RollingOut)
    ensures w'.process.Running? && w'.process.id == w.process.id
    ensures w'.process.at == Handle(RollingOut) || w'.process.at == Enter(Verifying)
    ensures w' == w.(process := w'.process, served := w'.served, foreign := w'.foreign)
  {
    hide Restarted, Restarts;
  }

  lemma ApplySectionsServed(w: World, w': World)
    requires ServedAt(w) && CleanConfig(Latest(w)) && CleanConfig(w.desired) && ApplySections(w, w')
    ensures Partway(w'.served, Latest(w).catalogs, w.desired.catalogs, w'.foreign) &&
            Unmanaged(w'.foreign, Latest(w).catalogs)
    ensures w'.process.Running? && !w'.process.at.Handle? ==> InSync(w'.served, w.desired.catalogs, w'.foreign)
  {
    hide ApplyLeaves, Partway, InSync, Unmanaged, PlanOf, CleanConfig;
    var desired, baseline := w.desired.catalogs, w.baseline.catalogs;
    forall ok | ApplyLeaves(w.served, w.foreign, desired, PlanOf(desired, baseline), w'.served, w'.foreign, ok)
      ensures Partway(w'.served, Latest(w).catalogs, desired, w'.foreign)
      ensures ok ==> InSync(w'.served, desired, w'.foreign)
      ensures Unmanaged(w'.foreign, Latest(w).catalogs)
    {
      ApplyLeavesBetween(w, w'.served, w'.foreign, ok);
    }
  }

  lemma ApplySectionsKeeps(w: World, w': World)
    requires Inv(w) && ApplySections(w, w')
    ensures Inv(w')
  {
    hide ApplySections, InSync, Partway, Unmanaged, CleanConfig;
    ApplySectionsShape(w, w');
    LatestClean(w);
    if !w.doubted { ApplySectionsServed(w, w'); }
  }

  // Restarts only ever lose unmanaged catalogs.

  ghost predicate Weathers(w: World, w': World) {
    Restarted(w, w') && w' == w.(served := w'.served, foreign := w'.foreign)
  }

  lemma SafeWeathers(w: World, w': World)
    requires Weathers(w, w') && CleanConfig(Latest(w))
    ensures Safe(w) ==> Safe(w')
    ensures Planned(w) ==> Planned(w')
  {
    if Safe(w) && Restarts(w.served, w.foreign, w'.served, w'.foreign) {
      RestartInSync(w.served, Latest(w).catalogs, w.foreign, w'.served, w'.foreign);
    }
  }

  lemma AppliedWeathers(w: World, w': World)
    requires Weathers(w, w') && CleanConfig(w.desired)
    ensures Applied(w) ==> Applied(w')
  {
    if Applied(w) && Restarts(w.served, w.foreign, w'.served, w'.foreign) {
      RestartInSync(w.served, w.desired.catalogs, w.foreign, w'.served, w'.foreign);
    }
  }

  lemma BetweenWeathers(w: World, w': World)
    requires Weathers(w, w') && CleanConfig(Latest(w)) && CleanConfig(w.desired)
    ensures Between(w) ==> Between(w')
  {
    if Between(w) && Restarts(w.served, w.foreign, w'.served, w'.foreign) {
      RestartPartway(w.served, Latest(w).catalogs, w.desired.catalogs, w.foreign, w'.served, w'.foreign);
    }
  }

  lemma CoordinatorRestartsKeeps(w: World, w': World)
    requires Inv(w) && CoordinatorRestarts(w, w')
    ensures Inv(w')
  {
    hide ApplyLeaves, RestoreLeaves, Restarts, InSync, Partway, Unmanaged, CleanConfig, Check, PlanOf, RenderSecret,
         Walked;
    LatestClean(w);
    SafeWeathers(w, w');
    AppliedWeathers(w, w');
    BetweenWeathers(w, w');
  }

  lemma RollOutClusterKeeps(w: World, w': World)
    requires Inv(w) && RollOutCluster(w, w')
    ensures Inv(w')
  {
    hide ApplyLeaves, RestoreLeaves, Restarts, InSync, Partway, Unmanaged, CleanConfig, Check, PlanOf, RenderSecret,
         Walked;
    var after := w.(served := w'.served, foreign := w'.foreign);
    AppliedWeathers(w, after);
    AppliedIsBetween(after);
  }

  lemma VerifyKeeps(w: World, w': World)
    requires Inv(w) && Verify(w, w')
    ensures Inv(w')
  {
    hide ApplyLeaves, RestoreLeaves, Restarts, InSync, Partway, Unmanaged, CleanConfig, Check, PlanOf, RenderSecret,
         Walked;
    AppliedIsBetween(w);
  }

  lemma CommitKeeps(w: World, w': World)
    requires Inv(w) && Commit(w, w')
    ensures Inv(w')
    ensures Latest(w') == w.desired
  {
    hide ApplyLeaves, RestoreLeaves, Restarts, InSync, Partway, Unmanaged, CleanConfig, Check, PlanOf, RenderSecret,
         Walked;
  }

  lemma CommitFailsShape(w: World, w': World)
    requires CommitFails(w, w')
    ensures Runs(w, Do(Committing)) || Runs(w, Rederive)
    ensures w'.process == Running(w.process.id, Handle(Committing)) && w'.doubted
    ensures w'.records == w.records && w'.engaged == w.engaged && w'.owed == w.owed && w'.abandoned == w.abandoned
    ensures w'.desired == w.desired && w'.served == w.served && w'.foreign == w.foreign
    ensures w'.snapshots == w.snapshots || (Runs(w, Do(Committing)) && w'.snapshots == w.snapshots + [w.desired])
    ensures || w'.candidate == w.candidate
            || (Runs(w, Rederive) && w'.candidate == Candidate(LatestNumber(w.snapshots), Latest(w)))
  {
  }

  lemma CleanStays(snapshots: seq<Config>, config: Config)
    requires (forall i | 0 <= i < |snapshots| :: CleanConfig(snapshots[i])) && CleanConfig(config)
    ensures forall i | 0 <= i < |snapshots + [config]| :: CleanConfig((snapshots + [config])[i])
  {
    hide CleanConfig;
  }

  lemma CommitFailsKeeps(w: World, w': World)
    requires Inv(w) && CommitFails(w, w')
    ensures Inv(w')
  {
    hide CommitFails, Latest, LatestNumber, ServedAt, Orderly, CleanConfig;
    CommitFailsShape(w, w');
    LatestClean(w);
    CleanStays(w.snapshots, w.desired);
  }

  lemma RederiveCandidateKeeps(w: World, w': World)
    requires Inv(w) && RederiveCandidate(w, w')
    ensures Inv(w')
  {
    hide ApplyLeaves, RestoreLeaves, Restarts, InSync, Partway, Unmanaged, CleanConfig, Check, PlanOf, RenderSecret,
         Walked;
    LatestClean(w);
  }

  lemma FinishApplyBooks(w: World, w': World)
    requires Books(w) && FinishApply(w, w')
    ensures Books(w')
  {
    hide Walked, CleanConfig;
    LastReplaced(w.records, w.records[w.process.id].Advanced(Succeeded));
  }

  lemma FinishApplyKeeps(w: World, w': World)
    requires Inv(w) && FinishApply(w, w')
    ensures Inv(w')
  {
    hide Staged, Protected, ApplyLeaves, RestoreLeaves, Restarts, InSync, Partway, Unmanaged, CleanConfig, Check,
         PlanOf, RenderSecret, Walked;
    FinishApplyBooks(w, w');
    LastStageReplaced(w.records, w.records[w.process.id].Advanced(Succeeded));
  }

  lemma HandleFailureBooks(w: World, w': World)
    requires Books(w) && HandleFailure(w, w')
    ensures Books(w')
  {
    hide Orderly, WellEnded, CleanConfig, LastStage;
    var stage := if RolledBackFrom(w.process.at.reached) then RollingBack else Failed;
    EndedWell(w.records[w.process.id], stage);
    LastReplaced(w.records, w.records[w.process.id].Advanced(stage));
  }

  lemma HandleFailureServed(w: World, w': World)
    requires Books(w) && ServedAt(w) && !w.doubted && HandleFailure(w, w')
    ensures w'.doubted || ServedAt(w')
  {
    hide ApplyLeaves, RestoreLeaves, Restarts, InSync, Partway, Unmanaged, CleanConfig, Check, PlanOf, RenderSecret,
         Walked;
    var stage := if RolledBackFrom(w.process.at.reached) then RollingBack else Failed;
    LastReplaced(w.records, w.records[w.process.id].Advanced(stage));
  }

  lemma HandleFailureKeeps(w: World, w': World)
    requires Inv(w) && HandleFailure(w, w')
    ensures Inv(w')
  {
    hide ApplyLeaves, RestoreLeaves, Restarts, InSync, Partway, Unmanaged, CleanConfig, Check, PlanOf, RenderSecret,
         Walked;
    HandleFailureBooks(w, w');
    if !w.doubted { HandleFailureServed(w, w'); }
  }

  /** A rollback that succeeds is back on the latest Snapshot. */
  lemma PutsBackIsSafe(w: World, w': World)
    requires Between(w) && CleanConfig(Latest(w)) && CleanConfig(w.desired)
    requires PutsBack(w, w') && w'.snapshots == w.snapshots
    ensures Safe(w')
  {
    hide RestoreLeaves, Partway, InSync, CleanAll, MayRestart;
    var middle, there :| RestoreLeaves(w.served, w.foreign, Latest(w).catalogs, middle, there, true) &&
                         MayRestart(middle, there, w'.served, w'.foreign);
    RestoreReturns(w.served, Latest(w).catalogs, w.desired.catalogs, w.foreign, middle, there);
    StaysInSync(middle, Latest(w).catalogs, there, w'.served, w'.foreign);
  }

  lemma RestoreClusterBooks(w: World, w': World)
    requires Books(w) && RestoreCluster(w, w')
    ensures Books(w')
  {
    hide PutsBack, FailsToPutBack, Orderly, CleanConfig, Latest;
  }

  lemma RestoreClusterServed(w: World, w': World)
    requires Books(w) && ServedAt(w) && !w.doubted && RestoreCluster(w, w')
    ensures w'.doubted || ServedAt(w')
  {
    hide ApplyLeaves, RestoreLeaves, Restarts, InSync, Partway, Unmanaged, CleanConfig, Check, PlanOf, RenderSecret,
         Walked;
    LatestClean(w);
    if PutsBack(w, w') {
      PutsBackIsSafe(w, w');
    }
  }

  lemma RestoreClusterKeeps(w: World, w': World)
    requires Inv(w) && RestoreCluster(w, w')
    ensures Inv(w')
  {
    hide ApplyLeaves, RestoreLeaves, Restarts, InSync, Partway, Unmanaged, CleanConfig, Check, PlanOf, RenderSecret,
         Walked;
    RestoreClusterBooks(w, w');
    if !w.doubted { RestoreClusterServed(w, w'); }
  }

  lemma ResolveFailureKeeps(w: World, w': World)
    requires Inv(w) && ResolveFailure(w, w')
    ensures Inv(w')
  {
    hide ApplyLeaves, RestoreLeaves, Restarts, InSync, Partway, Unmanaged, CleanConfig, Check, PlanOf, RenderSecret,
         Walked;
    var record := w.records[w.process.id].Advanced(Failed);
    LastReplaced(w.records, record);
  }

  lemma EngageMaintenanceKeeps(w: World, w': World)
    requires Inv(w) && EngageMaintenance(w, w')
    ensures Inv(w')
  {
  }

  lemma AnnotateKeeps(w: World, w': World)
    requires Inv(w) && Annotate(w, w')
    ensures Inv(w')
  {
    hide InSync, Partway, Unmanaged, CleanConfig, Annotates, LastStage, Latest, Ledger, Staged, Protected;
    var id: nat :| id < |w.records| && id < |w'.records| && Annotates(w, id, w'.records[id]) &&
                   w' == w.(records := w.records[id := w'.records[id]]);
    SameStage(w, id, w'.records[id]);
    SameBooks(w, id, w'.records[id]);
    SameLatest(w, w');
  }

  lemma SameStage(w: World, id: nat, note: Record)
    requires Books(w) && id < |w.records| && Annotates(w, id, note)
    ensures Ledger(w.records[id := note], w.process)
    ensures LastStage(w.records[id := note]) == LastStage(w.records)
  {
    hide Walked, CleanConfig, LatestNumber, Staged, Protected;
    InFlightIsLast(w.records);
  }

  lemma SameLatest(w: World, w': World)
    requires w'.snapshots == w.snapshots
    ensures Latest(w') == Latest(w)
  {
  }

  lemma SameBooks(w: World, id: nat, note: Record)
    requires Books(w) && id < |w.records| && Annotates(w, id, note)
    ensures Books(w.(records := w.records[id := note]))
  {
    hide Ledger, Staged, Annotates, LastStage;
    SameStage(w, id, note);
  }

  lemma DeclareIncidentKeeps(w: World, w': World)
    requires Inv(w) && DeclareIncident(w, w')
    ensures Inv(w')
  {
    hide ApplyLeaves, RestoreLeaves, Restarts, InSync, Partway, Unmanaged, CleanConfig, Check, PlanOf, RenderSecret,
         Walked;
    LastReplaced(w.records, w.records[w.process.id].Advanced(Incident));
  }

  // ------------------------------------------------------------------ crashing and recovering

  lemma CrashKeeps(w: World, w': World)
    requires Inv(w) && Crash(w, w')
    ensures Inv(w')
  {
    hide ApplyLeaves, RestoreLeaves, Restarts, InSync, Partway, Unmanaged, CleanConfig, Check, PlanOf, RenderSecret,
         Walked;
    AppliedIsBetween(w);
  }

  lemma CrashApplyingBetween(w: World, w': World)
    requires ServedAt(w) && CleanConfig(Latest(w)) && CleanConfig(w.desired) && CrashApplying(w, w')
    ensures Between(w')
  {
    hide ApplyLeaves, InSync, Partway, Unmanaged, CleanConfig, PlanOf;
    var ok :| ApplyLeaves(w.served, w.foreign, w.desired.catalogs, PlanOf(w.desired.catalogs, w.baseline.catalogs),
                          w'.served, w'.foreign, ok);
    ApplyLeavesBetween(w, w'.served, w'.foreign, ok);
  }

  lemma CrashApplyingKeeps(w: World, w': World)
    requires Inv(w) && CrashApplying(w, w')
    ensures Inv(w')
  {
    hide ApplyLeaves, RestoreLeaves, Restarts, InSync, Partway, Unmanaged, CleanConfig, Check, PlanOf, RenderSecret,
         Walked;
    LatestClean(w);
    if !w.doubted { CrashApplyingBetween(w, w'); }
  }

  lemma CrashRestoringKeeps(w: World, w': World)
    requires Inv(w) && CrashRestoring(w, w')
    ensures Inv(w')
  {
    hide FailsToPutBack, InSync, Partway, Unmanaged, CleanConfig, Walked;
  }

  lemma StartupKeeps(w: World, w': World)
    requires Inv(w) && (Boot(w, w') || RecoveryDone(w, w') || RecoveryAborts(w, w'))
    ensures Inv(w')
  {
    hide ApplyLeaves, RestoreLeaves, Restarts, InSync, Partway, Unmanaged, CleanConfig, Check, PlanOf, RenderSecret,
         Walked;
  }

  lemma InterruptBooks(w: World, w': World)
    requires Books(w) && Interrupt(w, w')
    ensures Books(w')
  {
    hide ApplyLeaves, RestoreLeaves, Restarts, InSync, Partway, Unmanaged, CleanConfig, Check, PlanOf, RenderSecret,
         Walked;
    var id: nat :| id < |w.records| && InFlight(w.records, id) &&
              w' == w.(process := Undo(id, w.records[id].stage),
                       records := w.records[id := w.records[id].Advanced(Failed)]);
    InFlightIsLast(w.records);
    LastReplaced(w.records, w.records[id].Advanced(Failed));
  }

  lemma InterruptServed(w: World, w': World)
    requires Books(w) && ServedAt(w) && !w.doubted && Interrupt(w, w')
    ensures w'.doubted || ServedAt(w')
  {
    hide ApplyLeaves, RestoreLeaves, Restarts, InSync, Partway, Unmanaged, CleanConfig, Check, PlanOf, RenderSecret,
         Walked;
    InFlightIsLast(w.records);
  }

  lemma InterruptKeeps(w: World, w': World)
    requires Inv(w) && Interrupt(w, w')
    ensures Inv(w')
  {
    hide ApplyLeaves, RestoreLeaves, Restarts, InSync, Partway, Unmanaged, CleanConfig, Check, PlanOf, RenderSecret,
         Walked;
    InterruptBooks(w, w');
    if !w.doubted { InterruptServed(w, w'); }
  }

  lemma UndoInterruptedBooks(w: World, w': World)
    requires Books(w) && UndoInterrupted(w, w')
    ensures Books(w')
  {
    hide PutsBack, FailsToPutBack, Walked, CleanConfig;
  }

  lemma UndoInterruptedServed(w: World, w': World)
    requires Books(w) && ServedAt(w) && !w.doubted && UndoInterrupted(w, w')
    ensures w'.doubted || ServedAt(w')
  {
    hide ApplyLeaves, RestoreLeaves, Restarts, InSync, Partway, Unmanaged, CleanConfig, Check, PlanOf, RenderSecret,
         Walked;
    LatestClean(w);
    if RolledBackFrom(w.process.reached) && PutsBack(w, w') {
      PutsBackIsSafe(w, w');
    }
  }

  lemma UndoInterruptedKeeps(w: World, w': World)
    requires Inv(w) && UndoInterrupted(w, w')
    ensures Inv(w')
  {
    hide ApplyLeaves, RestoreLeaves, Restarts, InSync, Partway, Unmanaged, CleanConfig, Check, PlanOf, RenderSecret,
         Walked;
    UndoInterruptedBooks(w, w');
    if !w.doubted { UndoInterruptedServed(w, w'); }
  }

  lemma EngageAfterRestartKeeps(w: World, w': World)
    requires Inv(w) && EngageAfterRestart(w, w')
    ensures Inv(w')
  {
  }

  lemma LookAgainKeeps(w: World, w': World)
    requires Inv(w) && LookAgain(w, w')
    ensures Inv(w')
  {
  }

  lemma DeclareAfterRestartKeeps(w: World, w': World)
    requires Inv(w) && DeclareAfterRestart(w, w')
    ensures Inv(w')
  {
    hide ApplyLeaves, RestoreLeaves, Restarts, InSync, Partway, Unmanaged, CleanConfig, Check, PlanOf, RenderSecret,
         Walked;
    var record := w.records[w.process.id].Advanced(Incident);
    LastReplaced(w.records, record);
  }

  // ------------------------------------------------------------------ every step

  lemma RequestedKeeps(w: World, w': World)
    requires Inv(w) && (Requested(w, w') || AdminReleases(w, w'))
    ensures Inv(w')
  {
    hide Inv, Edit, AdminImport, StartApply, AdminEngages, AdminReleases;
    if Edit(w, w') { EditKeeps(w, w'); }
    else if AdminImport(w, w') { AdminImportKeeps(w, w'); }
    else if StartApply(w, w') { StartApplyKeeps(w, w'); }
    else { AdminKeeps(w, w'); }
  }

  lemma ProgressedKeeps(w: World, w': World)
    requires Inv(w) && Progressed(w, w')
    ensures Inv(w')
  {
    hide Inv, Validate, EnterStage, ApplySections, RollOutCluster, Verify, Commit, RederiveCandidate, CommitFails,
         FinishApply;
    if Validate(w, w') { ValidateKeeps(w, w'); }
    else if EnterStage(w, w') { EnterStageKeeps(w, w'); }
    else if ApplySections(w, w') { ApplySectionsKeeps(w, w'); }
    else if RollOutCluster(w, w') { RollOutClusterKeeps(w, w'); }
    else if Verify(w, w') { VerifyKeeps(w, w'); }
    else if Commit(w, w') { CommitKeeps(w, w'); }
    else if RederiveCandidate(w, w') { RederiveCandidateKeeps(w, w'); }
    else if CommitFails(w, w') { CommitFailsKeeps(w, w'); }
    else { FinishApplyKeeps(w, w'); }
  }

  lemma RolledBackKeeps(w: World, w': World)
    requires Inv(w) && RolledBack(w, w')
    ensures Inv(w')
  {
    hide Inv, Annotate, HandleFailure, RestoreCluster, ResolveFailure, EngageMaintenance, DeclareIncident;
    if Annotate(w, w') { AnnotateKeeps(w, w'); }
    else if HandleFailure(w, w') { HandleFailureKeeps(w, w'); }
    else if RestoreCluster(w, w') { RestoreClusterKeeps(w, w'); }
    else if ResolveFailure(w, w') { ResolveFailureKeeps(w, w'); }
    else if EngageMaintenance(w, w') { EngageMaintenanceKeeps(w, w'); }
    else { DeclareIncidentKeeps(w, w'); }
  }

  lemma RecoveredKeeps(w: World, w': World)
    requires Inv(w) && Recovered(w, w')
    ensures Inv(w')
  {
    hide Inv, Crash, CrashApplying, CrashRestoring, Boot, Interrupt, RecoveryDone, RecoveryAborts, UndoInterrupted,
         LookAgain, EngageAfterRestart, DeclareAfterRestart, CoordinatorRestarts;
    if Crash(w, w') { CrashKeeps(w, w'); }
    else if CrashApplying(w, w') { CrashApplyingKeeps(w, w'); }
    else if CrashRestoring(w, w') { CrashRestoringKeeps(w, w'); }
    else if Interrupt(w, w') { InterruptKeeps(w, w'); }
    else if UndoInterrupted(w, w') { UndoInterruptedKeeps(w, w'); }
    else if LookAgain(w, w') { LookAgainKeeps(w, w'); }
    else if EngageAfterRestart(w, w') { EngageAfterRestartKeeps(w, w'); }
    else if DeclareAfterRestart(w, w') { DeclareAfterRestartKeeps(w, w'); }
    else if CoordinatorRestarts(w, w') { CoordinatorRestartsKeeps(w, w'); }
    else { StartupKeeps(w, w'); }
  }

  /** Every step keeps the invariant. */
  lemma NextKeeps(w: World, w': World)
    requires Inv(w) && Next(w, w')
    ensures Inv(w')
  {
    hide Inv, Requested, Progressed, RolledBack, Recovered, AdminReleases;
    if Progressed(w, w') { ProgressedKeeps(w, w'); }
    else if RolledBack(w, w') { RolledBackKeeps(w, w'); }
    else if Recovered(w, w') { RecoveredKeeps(w, w'); }
    else { RequestedKeeps(w, w'); }
  }

  /** So it holds at every instant of every run. */
  lemma {:induction false} RunsKeep(run: seq<World>, i: nat)
    requires Run(run) && i < |run|
    ensures Inv(run[i])
  {
    hide Inv, Initial, Next;
    if i == 0 {
      InitialInv(run[0]);
    } else {
      RunsKeep(run, i - 1);
      NextKeeps(run[i - 1], run[i]);
    }
  }
}
