/** What the pipeline promises of whole runs: of every instant, and across instants. */
module PipelineTheorems {
  import opened Outcomes
  import opened Catalogs
  import opened CatalogPlans
  import opened CatalogDdl
  import opened CatalogRecovery
  import opened CatalogRestarts
  import opened CatalogsSection
  import opened Pipeline
  import opened PipelineSafety

  // ------------------------------------------------------------------ what goes wrong

  ghost predicate FailsRollback(w: World, w': World) {
    || (RestoreCluster(w, w') && w'.process.Running? && w'.process.at.GiveUp?)
    || (UndoInterrupted(w, w') && w'.process.GiveUpOn?)
  }

  /** What the code does not undo: a rollback that fails, a Commit write that fails, the record of
      COMMITTING included, and a process that dies, or a recovery that gives up, in either. What each
      leaves is proved by itself. */
  ghost predicate Breaks(w: World, w': World) {
    || FailsRollback(w, w')
    || CommitFails(w, w')
    || (EnterStage(w, w') && w.process.at == Enter(Committing) && w'.process.at.Handle?)
    || ((Crash(w, w') || RecoveryAborts(w, w')) && !Recoverable(w.process))
    || CrashRestoring(w, w')
  }

  /** Between a failed rollback and the engaging of Maintenance Mode, or engaged. */
  predicate Guarded(w: World) {
    GivingUp(w.process) || w.engaged
  }

  /** The process dies, or its recovery does, before Maintenance Mode is engaged. */
  predicate Unguarded(w: World, w': World) {
    (Crash(w, w') || RecoveryAborts(w, w')) && GivingUp(w.process) && !w'.engaged
  }

  /** The declaring of an incident is cut short. */
  predicate CutShort(w: World, w': World) {
    (Crash(w, w') || RecoveryAborts(w, w')) && Declaring(w.process)
  }

  // ------------------------------------------------------------------ what steps do and do not do

  /** Past validation, and before the Candidate has been re-derived. */
  predicate Capturing(process: Process) {
    process.Running? && (process.at.Enter? || process.at.Rederive? ||
        (process.at.Do? && process.at.stage != Validating))
  }

  /** A Snapshot is added while committing, and nothing else changes with it. */
  predicate AddsSnapshot(w: World, w': World) {
    Runs(w, Do(Committing)) && w'.snapshots == w.snapshots + [w.desired] &&
    w'.records == w.records && w'.served == w.served && w'.foreign == w.foreign
  }

  /** Getting past validation captures the Candidate; being past it keeps what was captured. */
  predicate Captures(w: World, w': World) {
    Capturing(w'.process) ==>
      w.process.Running? && w'.process.id == w.process.id && w'.candidate == w.candidate &&
      if w.process.at == Do(Validating) then Validate(w, w') && w'.desired == w.candidate.config && w'.process.at.Enter?
      else
        Capturing(w.process) && w'.desired == w.desired &&
        (w'.process.at.Rederive? ==> w'.snapshots == w.snapshots + [w.desired])
  }

  /** A step of the Apply itself. */
  predicate Shape(w: World, w': World) {
    w.process.Running? && !Declaring(w.process) && w'.engaged == w.engaged && w'.owed == w.owed &&
      w'.abandoned == w.abandoned &&
    (w'.snapshots == w.snapshots || AddsSnapshot(w, w')) && Captures(w, w')
  }

  lemma ValidateShape(w: World, w': World)
    requires Validate(w, w')
    ensures Shape(w, w') && w'.doubted == w.doubted
  {
    hide Check, PlanOf, RenderSecret, SectionsOf;
  }

  lemma EnterStageShape(w: World, w': World)
    requires EnterStage(w, w')
    ensures Shape(w, w')
  {
  }

  lemma RunStagesShape(w: World, w': World)
    requires ApplySections(w, w') || RollOutCluster(w, w') || Verify(w, w')
    ensures Shape(w, w') && w'.doubted == w.doubted
  {
    hide RollOutCluster, ApplySections;
    if ApplySections(w, w') { ApplySectionsShape(w, w'); }
    else if RollOutCluster(w, w') { RollOutShape(w, w'); }
  }

  lemma CommitShape(w: World, w': World)
    requires Commit(w, w') || RederiveCandidate(w, w')
    ensures Shape(w, w') && w'.doubted == w.doubted
  {
    hide Latest, LatestNumber, Validate;
  }

  lemma FinishShape(w: World, w': World)
    requires FinishApply(w, w')
    ensures Shape(w, w') && w'.doubted == w.doubted
  {
    hide LatestNumber, Validate, Marked;
  }

  lemma FailedCommitShape(w: World, w': World)
    requires CommitFails(w, w')
    ensures Shape(w, w')
  {
    hide CommitFails, Latest, LatestNumber;
    CommitFailsShape(w, w');
    CommitAdds(w, w');
  }

  lemma ProgressShape(w: World, w': World)
    requires Progressed(w, w')
    ensures Shape(w, w')
    ensures w'.doubted ==> w.doubted || CommitFails(w, w') || EnterStage(w, w')
  {
    hide Shape, Validate, EnterStage, ApplySections, RollOutCluster, Verify, Commit, RederiveCandidate, CommitFails,
         FinishApply;
    if Validate(w, w') { ValidateShape(w, w'); }
    else if EnterStage(w, w') { EnterStageShape(w, w'); }
    else if CommitFails(w, w') { FailedCommitShape(w, w'); }
    else if FinishApply(w, w') { FinishShape(w, w'); }
    else if Commit(w, w') || RederiveCandidate(w, w') { CommitShape(w, w'); }
    else { RunStagesShape(w, w'); }
  }

  /** Any other step. */
  predicate Aside(w: World, w': World) {
    w'.snapshots == w.snapshots && w'.desired == w.desired && (Capturing(w'.process) ==> w'.process == w.process)
  }

  lemma RequestAside(w: World, w': World)
    requires Requested(w, w') || AdminReleases(w, w')
    ensures Aside(w, w') && w'.doubted == w.doubted
    ensures Requested(w, w') ==> (w.engaged ==> w'.engaged) && w'.owed == w.owed && w'.abandoned == w.abandoned
    ensures w'.candidate == w.candidate || Edit(w, w') || AdminImport(w, w')
    ensures GivingUp(w.process) ==> GivingUp(w'.process)
  {
    hide AnyInFlight, CleanConfig, LatestNumber;
  }

  lemma AnnotateAside(w: World, w': World)
    requires Annotate(w, w')
    ensures w' == w.(records := w'.records)
  {
  }

  /** A step of handling a failure. */
  ghost predicate Handles(w: World, w': World) {
    Aside(w, w') && w'.candidate == w.candidate && (w.engaged ==> w'.engaged) && (w.owed ==> w'.owed) &&
    (w'.abandoned ==> w.abandoned) && (GivingUp(w.process) ==> GivingUp(w'.process) || w'.engaged) &&
    (w'.doubted ==> w.doubted || FailsRollback(w, w'))
  }

  lemma FailureHandles(w: World, w': World)
    requires HandleFailure(w, w') || ResolveFailure(w, w')
    ensures Handles(w, w')
  {
    hide FailsRollback, Marked;
    if HandleFailure(w, w') {
      hide ResolveFailure;
    }
  }

  lemma IncidentHandles(w: World, w': World)
    requires EngageMaintenance(w, w') || DeclareIncident(w, w')
    ensures Handles(w, w')
  {
    hide FailsRollback, Marked;
  }

  lemma AnnotateHandles(w: World, w': World)
    requires Annotate(w, w')
    ensures Handles(w, w')
  {
    hide Annotate, FailsRollback;
    AnnotateAside(w, w');
  }

  lemma RestoreHandles(w: World, w': World)
    requires RestoreCluster(w, w')
    ensures Handles(w, w')
  {
    hide PutsBack, FailsToPutBack, UndoInterrupted;
  }

  lemma RollbackAside(w: World, w': World)
    requires RolledBack(w, w')
    ensures Handles(w, w')
  {
    hide Handles, RestoreCluster, HandleFailure, ResolveFailure, EngageMaintenance, DeclareIncident, Annotate;
    if RestoreCluster(w, w') { RestoreHandles(w, w'); }
    else if Annotate(w, w') { AnnotateHandles(w, w'); }
    else if HandleFailure(w, w') || ResolveFailure(w, w') { FailureHandles(w, w'); }
    else { IncidentHandles(w, w'); }
  }

  lemma InterruptAside(w: World, w': World)
    requires Interrupt(w, w')
    ensures w' == w.(process := w'.process, records := w'.records) && w.process.Look? && w'.process.Undo?
  {
  }

  /** A step of a process that stops, starts or recovers, or of the coordinator. */
  ghost predicate Recovers(w: World, w': World) {
    Aside(w, w') && w'.candidate == w.candidate && (w.engaged ==> w'.engaged) && (w.owed ==> w'.owed) &&
    (w'.abandoned ==> w.abandoned || CutShort(w, w')) &&
    (GivingUp(w.process) ==> GivingUp(w'.process) || w'.engaged || Unguarded(w, w')) &&
    (w'.doubted ==> w.doubted || Breaks(w, w'))
  }

  lemma StoppingRecovers(w: World, w': World)
    requires Crash(w, w') || RecoveryAborts(w, w')
    ensures Recovers(w, w')
  {
    hide CommitFails, EnterStage, FailsRollback, CrashRestoring;
  }

  lemma CrashingRecovers(w: World, w': World)
    requires CrashApplying(w, w') || CrashRestoring(w, w')
    ensures Recovers(w, w')
  {
    hide FailsToPutBack, ApplyLeaves, CommitFails, EnterStage, FailsRollback, PlanOf;
  }

  lemma UndoingRecovers(w: World, w': World)
    requires UndoInterrupted(w, w')
    ensures Recovers(w, w')
  {
    hide PutsBack, FailsToPutBack, CommitFails, EnterStage, RestoreCluster, CrashRestoring;
  }

  lemma StartingRecovers(w: World, w': World)
    requires Boot(w, w') || RecoveryDone(w, w') || LookAgain(w, w') || EngageAfterRestart(w, w') ||
             DeclareAfterRestart(w, w') ||
             CoordinatorRestarts(w, w') || Interrupt(w, w')
    ensures Recovers(w, w')
  {
    hide Restarts, Interrupt, AnyInFlight, CommitFails, EnterStage, FailsRollback, CrashRestoring, Breaks;
    if Interrupt(w, w') { InterruptAside(w, w'); }
  }

  lemma RecoveryAside(w: World, w': World)
    requires Recovered(w, w')
    ensures Recovers(w, w')
  {
    hide Recovers, Crash, RecoveryAborts, CrashApplying, CrashRestoring, UndoInterrupted, Boot, RecoveryDone,
         LookAgain, EngageAfterRestart, DeclareAfterRestart, CoordinatorRestarts, Interrupt;
    if Crash(w, w') || RecoveryAborts(w, w') { StoppingRecovers(w, w'); }
    else if CrashApplying(w, w') || CrashRestoring(w, w') { CrashingRecovers(w, w'); }
    else if UndoInterrupted(w, w') { UndoingRecovers(w, w'); }
    else { StartingRecovers(w, w'); }
  }

  // ------------------------------------------------------------------ the Cluster

  /** Whenever nothing is in flight: unless something has happened that the code does not undo, the
      Cluster is on the latest Snapshot; and while a failed rollback is owed, the last Apply is an
      INCIDENT and Maintenance Mode is engaged. */
  lemma QuietMeansInSync(run: seq<World>, i: nat)
    requires Run(run) && i < |run|
    requires Serves(run[i]) && !AnyInFlight(run[i].records)
    ensures var w := run[i];
            (!w.doubted ==> InSync(w.served, Latest(w).catalogs, w.foreign)) &&
            (w.owed && !w.abandoned ==> w.engaged && LastStage(w.records) == Incident)
  {
    hide Run, InSync;
    RunsKeep(run, i);
    QuietInv(run[i]);
  }

  lemma QuietInv(w: World)
    requires Inv(w) && Serves(w) && !AnyInFlight(w.records)
    ensures !w.doubted ==> InSync(w.served, Latest(w).catalogs, w.foreign)
    ensures w.owed && !w.abandoned ==> w.engaged && LastStage(w.records) == Incident
  {
    hide InSync, Partway, Walked, Staged;
    InFlightIsLast(w.records);
  }

  lemma DoubtHasACause(w: World, w': World)
    requires Next(w, w') && !w.doubted && w'.doubted
    ensures Breaks(w, w')
  {
    hide Requested, Progressed, RolledBack, Recovered, AdminReleases, Aside, Shape, CommitFails;
    if Progressed(w, w') {
      ProgressShape(w, w');
      if EnterStage(w, w') { OnlyCommittingDoubts(w, w'); }
    } else if RolledBack(w, w') { RollbackAside(w, w'); }
    else if Recovered(w, w') { RecoveryAside(w, w'); }
    else { RequestAside(w, w'); }
  }

  lemma OnlyCommittingDoubts(w: World, w': World)
    requires EnterStage(w, w') && !w.doubted && w'.doubted
    ensures w.process.at == Enter(Committing) && w'.process.Running? && w'.process.at.Handle?
  {
  }

  /** So as long as nothing of that kind has happened in a run, whatever else failed in it, the
      Cluster is on the latest Snapshot whenever nothing is in flight. */
  lemma {:induction false} InSyncUnlessBroken(run: seq<World>, i: nat)
    requires Run(run) && i < |run|
    requires forall k | 0 <= k < i :: !Breaks(run[k], run[k + 1])
    ensures !run[i].doubted
    ensures Serves(run[i]) && !AnyInFlight(run[i].records) ==>
            InSync(run[i].served, Latest(run[i]).catalogs, run[i].foreign)
  {
    hide Breaks, InSync, Next, Latest, Serves, AnyInFlight;
    if i > 0 {
      InSyncUnlessBroken(run, i - 1);
      RunStep(run, i);
      assert !Breaks(run[i - 1], run[i - 1 + 1]);
      if run[i].doubted { DoubtHasACause(run[i - 1], run[i]); }
    }
    if Serves(run[i]) && !AnyInFlight(run[i].records) { QuietMeansInSync(run, i); }
  }

  /** The durable stage is written ahead: a record that still says VALIDATING has touched nothing. */
  lemma ValidatingHasTouchedNothing(run: seq<World>, i: nat)
    requires Run(run) && i < |run| && !run[i].doubted
    requires run[i].records != [] && LastStage(run[i].records) == Validating
    ensures InSync(run[i].served, Latest(run[i]).catalogs, run[i].foreign)
  {
    hide Run, InSync, Partway, Unmanaged, Latest;
    RunsKeep(run, i);
    ValidatingServed(run[i]);
  }

  lemma ValidatingServed(w: World)
    requires Inv(w) && !w.doubted && w.records != [] && LastStage(w.records) == Validating
    ensures Safe(w)
  {
    hide InSync, Partway, Unmanaged, Orderly, Staged;
  }

  /** Wherever an Apply was cut short between APPLYING and VERIFYING, also in the middle of issuing its
      statements, the rollback of the next process puts the Cluster back if it completes. */
  lemma InterruptedIsUndone(run: seq<World>, i: nat, after: World)
    requires Run(run) && i < |run| && !run[i].doubted
    requires run[i].process.Down? && RolledBackFrom(LastStage(run[i].records))
    requires PutsBack(run[i], after) && after.snapshots == run[i].snapshots
    ensures InSync(after.served, Latest(run[i]).catalogs, after.foreign)
  {
    hide Run, InSync, PutsBack, CleanConfig;
    RunsKeep(run, i);
    LatestClean(run[i]);
    PutsBackIsSafe(run[i], after);
  }

  // ------------------------------------------------------------------ the freeze

  /** What is staged is what was captured. */
  predicate Frozen(w: World) {
    Capturing(w.process) ==> w.candidate.config == w.desired
  }

  lemma CapturingIsInFlight(w: World)
    requires Books(w) && Capturing(w.process)
    ensures AnyInFlight(w.records)
  {
    hide Staged, Protected, Orderly;
    assert InFlight(w.records, |w.records| - 1);
  }

  /** A step to past validation: it validates now, or was past it before and captured the same. */
  lemma CapturesOnce(w: World, w': World)
    requires Next(w, w') && Capturing(w'.process)
    ensures || (Validate(w, w') && w.process == Running(w'.process.id, Do(Validating)) &&
              w'.desired == w.candidate.config)
            || (Capturing(w.process) && w.process.id == w'.process.id && w'.desired == w.desired)
  {
    hide Requested, Progressed, RolledBack, Recovered, AdminReleases, Validate;
    if Progressed(w, w') { ProgressShape(w, w'); }
    else if RolledBack(w, w') { RollbackAside(w, w'); }
    else if Recovered(w, w') { RecoveryAside(w, w'); }
    else { RequestAside(w, w'); }
  }

  lemma StepKeepsFrozen(w: World, w': World)
    requires Inv(w) && Frozen(w) && Next(w, w') && !AdminImport(w, w')
    ensures Frozen(w')
  {
    hide Requested, Progressed, RolledBack, Recovered, AdminReleases, AdminImport, Validate, ServedAt, Ledger, Staged,
         Protected, AnyInFlight;
    if Capturing(w.process) { CapturingIsInFlight(w); }
    if Progressed(w, w') { ProgressShape(w, w'); }
    else if RolledBack(w, w') { RollbackAside(w, w'); }
    else if Recovered(w, w') { RecoveryAside(w, w'); }
    else { RequestAside(w, w'); }
  }

  /** From validation on the Candidate stays what was captured, unless an Admin imports one. */
  lemma {:induction false} FrozenSince(run: seq<World>, i: nat, j: nat)
    requires Run(run) && i < j < |run| && Validate(run[i], run[i + 1])
    requires forall k | i < k < j :: !AdminImport(run[k], run[k + 1])
    ensures Frozen(run[j])
  {
    hide Inv, Next, Frozen, AdminImport, Validate;
    if j == i + 1 {
      ValidatingFreezes(run[i], run[j]);
    } else {
      FrozenSince(run, i, j - 1);
      RunsKeep(run, j - 1);
      RunStep(run, j);
      assert !AdminImport(run[j - 1], run[j - 1 + 1]);
      StepKeepsFrozen(run[j - 1], run[j]);
    }
  }

  lemma ValidatingFreezes(w: World, w': World)
    requires Validate(w, w')
    ensures Frozen(w')
  {
    hide Check, PlanOf, RenderSecret;
  }

  /** The validation that an Apply past it went through, and that it has been past it ever since. */
  lemma {:induction false} ValidatedBefore(run: seq<World>, j: nat) returns (i: nat)
    requires Run(run) && j < |run| && Capturing(run[j].process)
    ensures i < j && Validate(run[i], run[i + 1]) && run[i].process == Running(run[j].process.id, Do(Validating))
    ensures run[j].desired == run[i].candidate.config
    ensures forall k | i < k <= j :: Capturing(run[k].process) && run[k].process.id == run[j].process.id
  {
    hide Next, Validate;
    RunStep(run, j);
    CapturesOnce(run[j - 1], run[j]);
    if Capturing(run[j - 1].process) && run[j - 1].process.id == run[j].process.id &&
        run[j].desired == run[j - 1].desired {
      i := ValidatedBefore(run, j - 1);
    } else {
      i := j - 1;
    }
  }

  lemma SnapshotsAreCommitted(w: World, w': World)
    requires Next(w, w') && w'.snapshots != w.snapshots
    ensures AddsSnapshot(w, w')
  {
    hide Requested, Progressed, RolledBack, Recovered, AdminReleases, AddsSnapshot, Captures;
    if Progressed(w, w') { ProgressShape(w, w'); }
    else if RolledBack(w, w') { RollbackAside(w, w'); }
    else if Recovered(w, w') { RecoveryAside(w, w'); }
    else { RequestAside(w, w'); }
  }

  /** Every Snapshot that is ever added is the Candidate its own Apply validated; unless an Admin has
      imported another since, it is still the Candidate. */
  lemma CommitsWhatWasValidated(run: seq<World>, j: nat) returns (i: nat)
    requires Run(run) && j + 1 < |run| && run[j + 1].snapshots != run[j].snapshots
    ensures i < j && Validate(run[i], run[i + 1]) && run[j].process.Running?
    ensures run[i].process == Running(run[j].process.id, Do(Validating))
    ensures run[j + 1].snapshots == run[j].snapshots + [run[i].candidate.config]
    ensures (forall k | i < k < j :: !AdminImport(run[k], run[k + 1])) ==>
            run[j].candidate.config == run[i].candidate.config
  {
    hide Next, Validate, AdminImport;
    RunStep(run, j + 1);
    SnapshotsAreCommitted(run[j], run[j + 1]);
    i := ValidatedBefore(run, j);
    if forall k | i < k < j :: !AdminImport(run[k], run[k + 1]) { FrozenSince(run, i, j); }
  }

  predicate Rederiving(process: Process) {
    process.Running? && process.at.Rederive?
  }

  lemma RederivingStep(w: World, w': World)
    requires Next(w, w') && Rederiving(w'.process)
    ensures || Latest(w') == w'.desired
            || (Rederiving(w.process) && w'.snapshots == w.snapshots && w'.desired == w.desired)
  {
    hide Requested, Progressed, RolledBack, Recovered, AdminReleases, Validate;
    if Progressed(w, w') { ProgressShape(w, w'); }
    else if RolledBack(w, w') { RollbackAside(w, w'); }
    else if Recovered(w, w') { RecoveryAside(w, w'); }
    else { RequestAside(w, w'); }
  }

  lemma {:induction false} LatestWhileRederiving(run: seq<World>, j: nat)
    requires Run(run) && j < |run| && Rederiving(run[j].process)
    ensures Latest(run[j]) == run[j].desired
  {
    hide Next;
    RunStep(run, j);
    RederivingStep(run[j - 1], run[j]);
    if Latest(run[j]) != run[j].desired { LatestWhileRederiving(run, j - 1); }
  }

  /** Re-deriving the Candidate gives back what the Apply validated. It loses what an Admin imported
      since, and no other edit. */
  lemma RederivesWhatWasValidated(run: seq<World>, j: nat) returns (i: nat)
    requires Run(run) && j + 1 < |run| && RederiveCandidate(run[j], run[j + 1])
    ensures i < j && Validate(run[i], run[i + 1]) && run[i].process == Running(run[j].process.id, Do(Validating))
    ensures run[j + 1].candidate.config == run[i].candidate.config
    ensures (forall k | i < k < j :: !AdminImport(run[k], run[k + 1])) ==>
              run[j + 1].candidate.config == run[j].candidate.config
  {
    hide Run, Validate, AdminImport, Latest;
    LatestWhileRederiving(run, j);
    i := ValidatedBefore(run, j);
    if forall k | i < k < j :: !AdminImport(run[k], run[k + 1]) { FrozenSince(run, i, j); }
  }

  /** Nothing broken, what is committed is what the Cluster serves at that moment; its record is a walk
      from VALIDATING through VERIFYING; it takes the next number. */
  lemma CommitsWhatIsServed(run: seq<World>, i: nat)
    requires Run(run) && i + 1 < |run| && run[i + 1].snapshots != run[i].snapshots
    ensures run[i + 1].snapshots == run[i].snapshots + [run[i].desired]
    ensures LatestNumber(run[i + 1].snapshots) == Some(|run[i].snapshots| + 1)
    ensures Latest(run[i + 1]) == run[i].desired
    ensures !run[i].doubted ==> InSync(run[i + 1].served, Latest(run[i + 1]).catalogs, run[i + 1].foreign)
    ensures run[i].process.Running? && run[i].process.id < |run[i].records| &&
            var history := run[i].records[run[i].process.id].history;
            Walked(history) && |history| >= 4 && history[|history| - 2] == Verifying
  {
    hide Next, Initial, InSync, Unmanaged, Walked, Staged, Protected;
    var w := run[i];
    RunsKeep(run, i);
    RunStep(run, i + 1);
    SnapshotsAreCommitted(w, run[i + 1]);
    WalkLength(w.records[w.process.id].history);
  }

  lemma WalkLength(history: seq<Stage>)
    requires Walked(history) && history[|history| - 1] == Committing
    ensures |history| >= 4 && history[|history| - 2] == Verifying
  {
    var n := |history|;
    assert n > 1 && Follows(history[n - 2], history[n - 1]);
    assert n > 2 && Follows(history[n - 3], history[n - 2]);
    assert history[n - 3] != Validating;
    assert n > 3;
  }

  // ------------------------------------------------------------------ what never changes back

  /** Snapshots are only ever added; records are only ever added; histories only grow; and what
      is terminal stays terminal. */
  ghost predicate Grows(w: World, w': World) {
    w.snapshots <= w'.snapshots && |w.records| <= |w'.records| &&
    forall id | 0 <= id < |w.records| :: RecordGrows(w.records[id], w'.records[id])
  }

  predicate RecordGrows(before: Record, after: Record) {
    before.history <= after.history && (Terminal(before.stage) ==> Terminal(after.stage))
  }

  lemma GrowsTransitive(a: World, b: World, c: World)
    requires Grows(a, b) && Grows(b, c)
    ensures Grows(a, c)
  {
    forall id | 0 <= id < |a.records| ensures RecordGrows(a.records[id], c.records[id]) {
      assert RecordGrows(a.records[id], b.records[id]);
      assert RecordGrows(b.records[id], c.records[id]);
    }
  }

  lemma ReplacedGrows(w: World, w': World, id: nat, record: Record)
    requires id < |w.records| && RecordGrows(w.records[id], record)
    requires w'.records == w.records[id := record] && w'.snapshots == w.snapshots
    ensures Grows(w, w')
  {
  }

  lemma AddedGrows(w: World, w': World)
    requires w'.records == w.records && w.snapshots <= w'.snapshots
    ensures Grows(w, w')
  {
  }

  lemma RequestGrows(w: World, w': World)
    requires Requested(w, w') || AdminReleases(w, w')
    ensures Grows(w, w')
  {
  }

  lemma EnterStageGrows(w: World, w': World)
    requires EnterStage(w, w') && Ledger(w.records, w.process)
    ensures Grows(w, w')
  {
    if w'.records != w.records {
      ReplacedGrows(w, w', w.process.id, w.records[w.process.id].Advanced(w.process.at.stage));
    }
  }

  lemma FinishApplyGrows(w: World, w': World)
    requires FinishApply(w, w')
    ensures Grows(w, w')
  {
    if w'.records != w.records {
      ReplacedGrows(w, w', w.process.id, w.records[w.process.id].Advanced(Succeeded));
    }
  }

  lemma ValidateAdds(w: World, w': World)
    requires Validate(w, w') || Verify(w, w') || RederiveCandidate(w, w')
    ensures w'.records == w.records && w'.snapshots == w.snapshots && w'.owed == w.owed
  {
    hide Check, PlanOf, RenderSecret;
  }

  lemma RollOutAdds(w: World, w': World)
    requires RollOutCluster(w, w')
    ensures w'.records == w.records && w'.snapshots == w.snapshots && w'.owed == w.owed
  {
    hide RollOutCluster;
    RollOutShape(w, w');
  }

  lemma CommitAdds(w: World, w': World)
    requires Commit(w, w') || CommitFails(w, w')
    ensures w'.records == w.records && w.snapshots <= w'.snapshots && w'.owed == w.owed
  {
    hide Latest, LatestNumber;
  }

  lemma ProgressGrows(w: World, w': World)
    requires Ledger(w.records, w.process) && Progressed(w, w')
    ensures Grows(w, w')
  {
    hide Ledger, EnterStage, FinishApply, Grows, ApplySections, RollOutCluster, Validate, Verify, RederiveCandidate,
         Commit, CommitFails;
    if EnterStage(w, w') {
      EnterStageGrows(w, w');
    } else if FinishApply(w, w') {
      FinishApplyGrows(w, w');
    } else {
      if ApplySections(w, w') { ApplySectionsShape(w, w'); }
      else if RollOutCluster(w, w') { RollOutAdds(w, w'); }
      else if Commit(w, w') || CommitFails(w, w') { CommitAdds(w, w'); }
      else { ValidateAdds(w, w'); }
      AddedGrows(w, w');
    }
  }

  lemma HandleFailureGrows(w: World, w': World)
    requires Ledger(w.records, w.process) && HandleFailure(w, w')
    ensures Grows(w, w')
  {
    ReplacedGrows(w, w', w.process.id,
                  w.records[w.process.id].Advanced(if RolledBackFrom(w.process.at.reached) then RollingBack
                      else Failed));
  }

  lemma AnnotateGrows(w: World, w': World)
    requires Annotate(w, w')
    ensures Grows(w, w')
  {
    var id: nat :| id < |w.records| && id < |w'.records| && Annotates(w, id, w'.records[id]) &&
                   w' == w.(records := w.records[id := w'.records[id]]);
    ReplacedGrows(w, w', id, w'.records[id]);
  }

  lemma ResolvedGrows(w: World, w': World)
    requires Ledger(w.records, w.process) && (ResolveFailure(w, w') || DeclareIncident(w, w'))
    ensures Grows(w, w')
  {
    hide Grows;
    var record := w.records[w.process.id].Advanced(if w.process.at.Resolve? then Failed else Incident);
    ReplacedGrows(w, w', w.process.id, record);
  }

  lemma RollbackGrows(w: World, w': World)
    requires Ledger(w.records, w.process) && RolledBack(w, w')
    ensures Grows(w, w')
  {
    hide Ledger, Annotate, HandleFailure, Grows, PutsBack, FailsToPutBack;
    if Annotate(w, w') {
      AnnotateGrows(w, w');
    } else if HandleFailure(w, w') {
      HandleFailureGrows(w, w');
    } else if ResolveFailure(w, w') || DeclareIncident(w, w') {
      ResolvedGrows(w, w');
    } else {
      AddedGrows(w, w');
    }
  }

  lemma InterruptGrows(w: World, w': World)
    requires Interrupt(w, w')
    ensures Grows(w, w')
  {
    var id: nat :| id < |w.records| && InFlight(w.records, id) &&
              w' == w.(process := Undo(id, w.records[id].stage),
                       records := w.records[id := w.records[id].Advanced(Failed)]);
    ReplacedGrows(w, w', id, w.records[id].Advanced(Failed));
  }

  lemma RecoveryGrows(w: World, w': World)
    requires Recovered(w, w')
    ensures Grows(w, w')
  {
    hide PutsBack, FailsToPutBack, Interrupt, ApplyLeaves, Restarts, Grows;
    if Interrupt(w, w') {
      InterruptGrows(w, w');
    } else if DeclareAfterRestart(w, w') {
      ReplacedGrows(w, w', w.process.id, w.records[w.process.id].Advanced(Incident));
    } else {
      AddedGrows(w, w');
    }
  }

  lemma NextGrows(w: World, w': World)
    requires Inv(w) && Next(w, w')
    ensures Grows(w, w')
  {
    hide Ledger, Requested, Progressed, RolledBack, Recovered, AdminReleases, Grows, ServedAt, Staged, Protected;
    if Progressed(w, w') { ProgressGrows(w, w'); }
    else if RolledBack(w, w') { RollbackGrows(w, w'); }
    else if Recovered(w, w') { RecoveryGrows(w, w'); }
    else { RequestGrows(w, w'); }
  }

  lemma SameGrows(w: World)
    ensures Grows(w, w)
  {
  }

  lemma RunStep(run: seq<World>, j: nat)
    requires Run(run) && 0 < j < |run|
    ensures Next(run[j - 1], run[j])
  {
    hide Next, Initial;
    assert Next(run[j - 1], run[j - 1 + 1]);
  }

  /** Across any stretch of a run: no Snapshot is ever changed or lost, no history rewritten, and
      a record that is terminal stays so -- also when recovery turns FAILED into INCIDENT. */
  lemma {:induction false} RunsGrow(run: seq<World>, i: nat, j: nat)
    requires Run(run) && i <= j < |run|
    ensures Grows(run[i], run[j])
  {
    hide Inv, Next, Grows, Run;
    if i < j {
      RunsGrow(run, i, j - 1);
      RunsKeep(run, j - 1);
      RunStep(run, j);
      NextGrows(run[j - 1], run[j]);
      GrowsTransitive(run[i], run[j - 1], run[j]);
    } else {
      SameGrows(run[i]);
    }
  }

  // ------------------------------------------------------------------ who stages

  lemma RecordingKeepsCandidate(w: World, w': World)
    requires EnterStage(w, w') || FinishApply(w, w')
    ensures w'.candidate == w.candidate
  {
    hide LatestNumber, Marked;
  }

  lemma RunningKeepsCandidate(w: World, w': World)
    requires Validate(w, w') || RollOutCluster(w, w') || Verify(w, w') || Commit(w, w')
    ensures w'.candidate == w.candidate
  {
    hide Passes, Restarted, Restarts, SectionsOf;
  }

  lemma ProgressKeepsCandidate(w: World, w': World)
    requires Progressed(w, w')
    ensures w'.candidate == w.candidate ||
            (Runs(w, Rederive) && w'.candidate == Candidate(LatestNumber(w.snapshots), Latest(w)))
  {
    hide Validate, EnterStage, ApplySections, RollOutCluster, Verify, Commit, CommitFails, FinishApply, LatestNumber,
         Latest;
    if ApplySections(w, w') { ApplySectionsShape(w, w'); }
    else if CommitFails(w, w') { CommitFailsShape(w, w'); }
    else if EnterStage(w, w') || FinishApply(w, w') { RecordingKeepsCandidate(w, w'); }
    else if !RederiveCandidate(w, w') { RunningKeepsCandidate(w, w'); }
  }

  /** The Candidate is changed by the Apply that re-derives it, and otherwise only by a request that Maintenance
      Mode stops. While an Apply is in flight that is an Admin's import, which starts from the latest Snapshot. */
  lemma WhoChangesTheCandidate(w: World, w': World)
    requires Next(w, w') && w'.candidate != w.candidate
    ensures || (Runs(w, Rederive) && w'.candidate == Candidate(LatestNumber(w.snapshots), Latest(w)))
            || (Serves(w) && !w.engaged && w' == w.(candidate := w'.candidate) &&
                (AnyInFlight(w.records) ==> w'.candidate.base == LatestNumber(w.snapshots)))
  {
    hide Requested, Progressed, RolledBack, Recovered, AdminReleases, AnyInFlight, LatestNumber, Latest, CleanConfig,
         Aside;
    if Progressed(w, w') { ProgressKeepsCandidate(w, w'); }
    else if RolledBack(w, w') { RollbackAside(w, w'); }
    else if Recovered(w, w') { RecoveryAside(w, w'); }
    else { RequestAside(w, w'); }
  }

  // ------------------------------------------------------------------ what comes from outside

  /** Requests that arrive: an Operator's while the gate is open, an Admin's import unless Maintenance Mode is
      engaged, and an Admin's hand on Maintenance Mode whenever Apchi serves. */
  lemma RequestsArrive(w: World, config: Config)
    requires w.process.Idle? || w.process.Running?
    ensures CleanConfig(config) && !w.engaged ==>
              Next(w, w.(candidate := Candidate(LatestNumber(w.snapshots), config))) &&
              (!AnyInFlight(w.records) ==> Next(w, w.(candidate := w.candidate.(config := config))))
    ensures !w.engaged && !AnyInFlight(w.records) && w.process.Idle? ==>
              Next(w, w.(records := w.records + [Record(Validating, [Validating], None, false, None)],
                         process := Running(|w.records|, Do(Validating))))
    ensures Next(w, w.(engaged := true)) && Next(w, w.(engaged := false, owed := false, abandoned := false))
  {
    hide Progressed, RolledBack, Recovered, AnyInFlight, CleanConfig, LatestNumber;
    var imported := w.(candidate := Candidate(LatestNumber(w.snapshots), config));
    var edited := w.(candidate := w.candidate.(config := config));
    assert CleanConfig(config) && !w.engaged ==> AdminImport(w, imported);
    assert CleanConfig(config) && !w.engaged && !AnyInFlight(w.records) ==> Edit(w, edited);
    assert AdminEngages(w, w.(engaged := true));
  }

  /** The process may die at any moment and start again, and so may the coordinator. */
  lemma AnythingMayStop(w: World, after: Served, kept: Live)
    ensures !w.process.Down? ==> exists doubted, abandoned ::
                Next(w, w.(process := Down, doubted := doubted, abandoned := abandoned))
    ensures w.process.Down? ==> Next(w, w.(process := Look))
    ensures Restarts(w.served, w.foreign, after, kept) ==> Next(w, w.(served := after, foreign := kept))
  {
    hide Requested, Progressed, RolledBack, Interrupt, RecoveryDone, RecoveryAborts, UndoInterrupted, LookAgain,
         EngageAfterRestart, DeclareAfterRestart, AdminReleases, Restarts, CrashApplying, CrashRestoring, Recoverable,
         Declaring;
    var died := w.(process := Down, doubted := w.doubted || !Recoverable(w.process),
                   abandoned := w.abandoned || Declaring(w.process));
    assert !w.process.Down? ==> Crash(w, died);
    if Restarts(w.served, w.foreign, after, kept) {
      assert CoordinatorRestarts(w, w.(served := after, foreign := kept));
    }
  }

  /** And what an Apply or a rollback was doing on the Cluster then stays half done. */
  lemma WorkMayBeCutShort(w: World, after: Served, kept: Live, ok: bool)
    requires w.process.Running? && w.process.id < |w.records|
    ensures w.process.at == Do(Applying) &&
            ApplyLeaves(w.served, w.foreign, w.desired.catalogs, PlanOf(w.desired.catalogs, w.baseline.catalogs), after,
                        kept, ok) ==>
              Next(w, w.(process := Down, served := after, foreign := kept))
    ensures w.process.at == Restore && Astray(Latest(w).catalogs, w.served, w.foreign, after, kept) ==>
              Next(w, w.(process := Down, served := after, foreign := kept, doubted := true))
  {
    hide Requested, Progressed, RolledBack, Crash, Boot, Interrupt, RecoveryDone, RecoveryAborts, UndoInterrupted,
         LookAgain, EngageAfterRestart, DeclareAfterRestart, AdminReleases, CoordinatorRestarts, ApplyLeaves, Astray,
         Latest;
    var half := w.(process := Down, served := after, foreign := kept);
    if w.process.at == Do(Applying) &&
       ApplyLeaves(w.served, w.foreign, w.desired.catalogs, PlanOf(w.desired.catalogs, w.baseline.catalogs), after,
                   kept, ok) {
      assert CrashApplying(w, half);
    }
    if w.process.at == Restore && Astray(Latest(w).catalogs, w.served, w.foreign, after, kept) {
      assert CrashRestoring(w, half.(doubted := true));
    }
  }

  /** COMMITTING is reached only by a Verification that sees every desired catalog live. */
  lemma OnlyVerifiedIsCommitted(w: World, w': World)
    requires Next(w, w') && w'.process != w.process
    requires w'.process.Running? && w'.process.at == Enter(Committing)
    ensures w.process == Running(w'.process.id, Do(Verifying)) && w.desired.catalogs.Keys <= w.served.live.Keys
    ensures w'.served == w.served && w'.desired == w.desired && w'.records == w.records
  {
    hide Requested, Progressed, RolledBack, Recovered, AdminReleases;
    if Progressed(w, w') { ProgressToCommitting(w, w'); }
    else if RolledBack(w, w') { RollbackAside(w, w'); }
    else if Recovered(w, w') { RecoveryAside(w, w'); }
    else { RequestAside(w, w'); }
  }

  lemma RecordingLeadsOn(w: World, w': World)
    requires EnterStage(w, w') || FinishApply(w, w')
    ensures w'.process.Running? ==> !w'.process.at.Enter?
  {
    hide LatestNumber, Marked;
  }

  lemma RunningLeadsOn(w: World, w': World)
    requires Validate(w, w') || RollOutCluster(w, w') || Commit(w, w') || RederiveCandidate(w, w')
    ensures w'.process.Running? && w'.process.at != Enter(Committing)
  {
    hide Passes, Restarted, Restarts, SectionsOf, LatestNumber, Latest;
  }

  lemma ProgressToCommitting(w: World, w': World)
    requires Progressed(w, w') && w'.process.Running? && w'.process.at == Enter(Committing)
    ensures Verify(w, w')
  {
    hide Validate, EnterStage, ApplySections, RollOutCluster, Verify, Commit, RederiveCandidate, CommitFails,
         FinishApply;
    if ApplySections(w, w') { ApplySectionsShape(w, w'); }
    else if CommitFails(w, w') { CommitFailsShape(w, w'); }
    else if EnterStage(w, w') || FinishApply(w, w') { RecordingLeadsOn(w, w'); }
    else if !Verify(w, w') { RunningLeadsOn(w, w'); }
  }

  // ------------------------------------------------------------------ protection

  lemma StaysGuarded(w: World, w': World)
    requires Guarded(w) && Step(w, w') && !Unguarded(w, w')
    ensures Guarded(w')
  {
    hide Requested, Progressed, RolledBack, Recovered, Aside, Captures, Unguarded;
    if Progressed(w, w') { ProgressShape(w, w'); }
    else if RolledBack(w, w') { RollbackAside(w, w'); }
    else if Recovered(w, w') { RecoveryAside(w, w'); }
    else { RequestAside(w, w'); }
  }

  lemma GuardedIsClosed(w: World)
    requires Inv(w) && Guarded(w)
    ensures !GateOpen(w)
  {
    hide Staged, Protected, ServedAt;
    InFlightIsLast(w.records);
  }

  /** From the moment a rollback fails, no Operator edit passes the gate until an Admin releases
      Maintenance Mode: it is engaged before the record stops being in flight. The one way out is a
      process that dies in between, or a recovery that gives up there, and what follows then is proved
      with the other crashes. */
  lemma {:induction false} ClosedUntilReleased(run: seq<World>, i: nat, j: nat)
    requires Run(run) && i < j < |run| && FailsRollback(run[i], run[i + 1])
    requires forall k | i < k < j :: Step(run[k], run[k + 1]) && !Unguarded(run[k], run[k + 1])
    ensures Guarded(run[j]) && !GateOpen(run[j])
  {
    hide Step, GateOpen, Inv, Next, Unguarded, FailsRollback;
    if j == i + 1 {
      FailingGuards(run[i], run[j]);
    } else {
      ClosedUntilReleased(run, i, j - 1);
      assert Step(run[j - 1], run[j - 1 + 1]) && !Unguarded(run[j - 1], run[j - 1 + 1]);
      StaysGuarded(run[j - 1], run[j]);
    }
    RunsKeep(run, j);
    GuardedIsClosed(run[j]);
  }

  lemma FailingGuards(w: World, w': World)
    requires FailsRollback(w, w')
    ensures Guarded(w') && w'.owed && !w'.abandoned
  {
    hide PutsBack, FailsToPutBack;
  }

  lemma StaysOwed(w: World, w': World)
    requires w.owed && !w.abandoned && Step(w, w') && !CutShort(w, w')
    ensures w'.owed && !w'.abandoned
  {
    hide Requested, Progressed, RolledBack, Recovered, Aside, Captures, CutShort;
    if Progressed(w, w') { ProgressShape(w, w'); }
    else if RolledBack(w, w') { RollbackAside(w, w'); }
    else if Recovered(w, w') { RecoveryAside(w, w'); }
    else { RequestAside(w, w'); }
  }

  lemma {:induction false} OwedUntilReleased(run: seq<World>, i: nat, j: nat)
    requires Run(run) && i < j < |run| && FailsRollback(run[i], run[i + 1])
    requires forall k | i < k < j :: Step(run[k], run[k + 1]) && !CutShort(run[k], run[k + 1])
    ensures run[j].owed && !run[j].abandoned
  {
    hide Step, Next, CutShort, FailsRollback;
    if j == i + 1 {
      FailingGuards(run[i], run[j]);
    } else {
      OwedUntilReleased(run, i, j - 1);
      assert Step(run[j - 1], run[j - 1 + 1]) && !CutShort(run[j - 1], run[j - 1 + 1]);
      StaysOwed(run[j - 1], run[j]);
    }
  }

  /** A failed rollback ends as an incident: as long as no Admin has released and the process that
      declares it lives, whenever nothing is in flight the last Apply is an INCIDENT and Maintenance
      Mode is engaged. */
  lemma FailedRollbackIsAnIncident(run: seq<World>, i: nat, j: nat)
    requires Run(run) && i < j < |run| && FailsRollback(run[i], run[i + 1])
    requires forall k | i < k < j :: Step(run[k], run[k + 1]) && !CutShort(run[k], run[k + 1])
    requires Serves(run[j]) && !AnyInFlight(run[j].records)
    ensures run[j].engaged && LastStage(run[j].records) == Incident
  {
    hide Step, CutShort, FailsRollback, Serves, AnyInFlight;
    OwedUntilReleased(run, i, j);
    QuietMeansInSync(run, j);
  }

  // ------------------------------------------------------------------ recovery

  /** Recovery has made every record terminal before it touches the Cluster. */
  lemma TerminalBeforeTouching(run: seq<World>, i: nat)
    requires Run(run) && i + 1 < |run|
    requires UndoInterrupted(run[i], run[i + 1])
    ensures !AnyInFlight(run[i].records)
  {
    RunsKeep(run, i);
    InFlightIsLast(run[i].records);
  }

  /** When recovery is done nothing is in flight; unless something has happened that the code does not
      undo the Cluster is on the latest Snapshot; and a failed rollback stands as an incident. */
  lemma RecoveryEnds(run: seq<World>, i: nat)
    requires Run(run) && i + 1 < |run| && RecoveryDone(run[i], run[i + 1])
    ensures var w := run[i + 1];
            !AnyInFlight(w.records) &&
            (!w.doubted ==> InSync(w.served, Latest(w).catalogs, w.foreign)) &&
            (w.owed && !w.abandoned ==> w.engaged && LastStage(w.records) == Incident)
  {
    QuietMeansInSync(run, i + 1);
  }
}
