/** What a crash leaves that recovery does not undo, in the Commit writes, in a rollback, and between a
    failed rollback and the engaging of Maintenance Mode; and what a recovery leaves that gives up. */
module PipelineCrashes {
  import opened Outcomes
  import opened Catalogs
  import opened CatalogPlans
  import opened CatalogDdl
  import opened CatalogRecovery
  import opened CatalogRestarts
  import opened CatalogsSection
  import opened Pipeline
  import opened PipelineSafety
  import opened PipelineTheorems

  function Interrupted(record: Record): Record {
    record.(interrupted := true)
  }

  /** What the next process makes of what it finds, when it rolls nothing back: a record in flight is
      marked and failed, and that is all. */
  function AfterRestart(w: World): World {
    if Terminal(LastStage(w.records)) then w.(process := Idle)
    else
      var last := |w.records| - 1;
      w.(process := Idle, records := w.records[last := Interrupted(w.records[last]).Advanced(Failed)])
  }

  lemma NothingLeftInFlight(w: World)
    requires Orderly(w.records)
    ensures Orderly(AfterRestart(w).records) && !AnyInFlight(AfterRestart(w).records)
    ensures Terminal(LastStage(w.records)) || LastStage(AfterRestart(w).records) == Failed
  {
    hide Walked;
    InFlightIsLast(w.records);
    if !Terminal(LastStage(w.records)) {
      EndedWell(Interrupted(w.records[|w.records| - 1]), Failed);
      LastReplaced(w.records, Interrupted(w.records[|w.records| - 1]).Advanced(Failed));
    }
    InFlightIsLast(AfterRestart(w).records);
  }

  lemma MarksOne(w: World, marked: World, id: nat)
    requires w.process.Look? && InFlight(w.records, id)
    requires marked == w.(records := w.records[id := Interrupted(w.records[id])])
    ensures Annotate(w, marked) && Next(w, marked)
  {
    hide Requested, Progressed, Recovered, AdminReleases, HandleFailure, RestoreCluster;
    assert Annotates(w, id, marked.records[id]);
  }

  lemma InterruptsMarked(marked: World, undoing: World, id: nat)
    requires marked.process.Look? && InFlight(marked.records, id) && marked.records[id].interrupted
    requires undoing == marked.(process := Undo(id, marked.records[id].stage),
                                records := marked.records[id := marked.records[id].Advanced(Failed)])
    ensures Interrupt(marked, undoing) && Next(marked, undoing)
  {
    hide Requested, Progressed, RolledBack, AdminReleases, UndoInterrupted, CrashApplying, CrashRestoring,
         CoordinatorRestarts;
  }

  lemma GoesOn(undoing: World, after: World)
    requires undoing.process.Undo? && undoing.process.id < |undoing.records| && !RolledBackFrom(undoing.process.reached)
    requires after == undoing.(process := Look)
    ensures Next(undoing, after)
  {
    hide Requested, Progressed, RolledBack, AdminReleases, Crash, CrashApplying, CrashRestoring, Boot, Interrupt,
         RecoveryDone, RecoveryAborts, LookAgain, EngageAfterRestart, DeclareAfterRestart, CoordinatorRestarts,
         PutsBack, FailsToPutBack;
    assert UndoInterrupted(undoing, after);
  }

  /** Interrupting and not undoing. */
  lemma PassesOver(w: World)
    requires Orderly(w.records) && w.process.Look? && !Terminal(LastStage(w.records)) &&
             !RolledBackFrom(LastStage(w.records))
    ensures Reaches(w, AfterRestart(w).(process := Look))
  {
    hide Next, Walked, Path, Reaches;
    var id: nat := |w.records| - 1;
    var marked := w.(records := w.records[id := Interrupted(w.records[id])]);
    var undoing := AfterRestart(w).(process := Undo(id, LastStage(w.records)));
    ReachesItself(w);
    MarksOne(w, marked, id);
    InterruptsMarked(marked, undoing, id);
    GoesOn(undoing, AfterRestart(w).(process := Look));
    ReachesOneMore(w, w, marked);
    ReachesOneMore(w, marked, undoing);
    ReachesOneMore(w, undoing, AfterRestart(w).(process := Look));
  }

  lemma Starts(w: World)
    requires w.process.Down?
    ensures Next(w, w.(process := Look))
  {
    hide Requested, Progressed, RolledBack, AdminReleases, Crash, CrashApplying, CrashRestoring, Interrupt,
         RecoveryDone, RecoveryAborts, UndoInterrupted, LookAgain, EngageAfterRestart, DeclareAfterRestart,
         CoordinatorRestarts;
    assert Boot(w, w.(process := Look));
  }

  lemma Settles(w: World)
    requires w.process.Look? && !AnyInFlight(w.records)
    ensures Next(w, w.(process := Idle))
  {
    hide Requested, Progressed, RolledBack, AdminReleases, Crash, CrashApplying, CrashRestoring, Boot, Interrupt,
         RecoveryAborts, UndoInterrupted, LookAgain, EngageAfterRestart, DeclareAfterRestart, CoordinatorRestarts,
         AnyInFlight;
    assert RecoveryDone(w, w.(process := Idle));
  }

  /** That is where a restart leads, from any stage that is not rolled back from. */
  lemma LeavesAsFound(w: World)
    requires Orderly(w.records) && w.process.Down? && !RolledBackFrom(LastStage(w.records))
    ensures Reaches(w, AfterRestart(w)) && !AnyInFlight(AfterRestart(w).records)
  {
    hide Reaches, Path, Next, Orderly, AnyInFlight;
    var looking, done := w.(process := Look), AfterRestart(w).(process := Look);
    NothingLeftInFlight(w);
    ReachesItself(w);
    Starts(w);
    ReachesOneMore(w, w, looking);
    if !Terminal(LastStage(w.records)) {
      PassesOver(looking);
      ReachesBoth(w, looking, done);
    }
    Settles(done);
    ReachesOneMore(w, done, AfterRestart(w));
  }

  lemma {:induction false} ReachesAlong(path: seq<World>, a: World, b: World, c: World)
    requires Reaches(a, b) && Path(path, b, c)
    ensures Reaches(a, c)
    decreases |path|
  {
    hide Next, Reaches;
    if |path| > 1 {
      var front, before := path[..|path| - 1], path[|path| - 2];
      PathShortened(path, b, c);
      ReachesAlong(front, a, b, before);
      assert Stride(path, |path| - 2);
      ReachesOneMore(a, before, c);
    }
  }

  lemma ReachesBoth(a: World, b: World, c: World)
    requires Reaches(a, b) && Reaches(b, c)
    ensures Reaches(a, c)
  {
    var path :| Path(path, b, c);
    ReachesAlong(path, a, b, c);
  }

  // ------------------------------------------------------------------ every such crash

  /** Nothing of the Cluster, the Candidate or the Snapshots is touched, and the gate opens exactly when
      Maintenance Mode is not engaged. */
  ghost predicate LeftAlone(w: World, after: World) {
    after.served == w.served && after.foreign == w.foreign && after.snapshots == w.snapshots &&
      after.candidate == w.candidate &&
    after.engaged == w.engaged && after.owed == w.owed && !AnyInFlight(after.records) &&
      (GateOpen(after) <==> !w.engaged)
  }

  /** A process that dies where recovery does not roll back, whether a record is in flight or is already
      FAILED and its rollback was under way. */
  lemma CrashIsLeftAlone(w: World, w': World)
    requires Inv(w) && Crash(w, w') && !RolledBackFrom(LastStage(w.records))
    ensures Reaches(w', AfterRestart(w')) && LeftAlone(w, AfterRestart(w'))
  {
    hide Reaches, Orderly, Staged, Protected, ServedAt, AnyInFlight;
    LeavesAsFound(w');
  }

  /** And one that dies in the middle of a rollback leaves whatever it had issued by then. */
  lemma CrashWhileRestoringIsLeftAlone(w: World, w': World)
    requires Inv(w) && CrashRestoring(w, w')
    ensures Reaches(w', AfterRestart(w')) && LeftAlone(w', AfterRestart(w'))
    ensures w'.engaged == w.engaged && w'.owed == w.owed && w'.snapshots == w.snapshots
  {
    hide Reaches, Orderly, Staged, Protected, ServedAt, AnyInFlight, FailsToPutBack;
    LeavesAsFound(w');
  }

  /** The hand-off fails here: a process that dies after its rollback failed and before Maintenance Mode
      is engaged leaves the gate open, with the failed rollback owed and the Cluster as it was left. */
  lemma CrashBeforeEngagingOpensTheGate(w: World, w': World)
    requires Inv(w) && Crash(w, w') && GivingUp(w.process) && w.owed && !w.engaged
    ensures Reaches(w', AfterRestart(w'))
    ensures GateOpen(AfterRestart(w')) && AfterRestart(w').owed && AfterRestart(w').served == w.served
  {
    hide Reaches, Orderly, Staged, Protected, ServedAt, AnyInFlight, GateOpen;
    CrashIsLeftAlone(w, w');
  }

  /** So it is in every run in which a rollback fails and the process then dies: whether the gate opens
      depends on nothing but whether Maintenance Mode was engaged already. */
  lemma DyingAfterAFailedRollback(run: seq<World>, i: nat)
    requires Run(run) && i + 2 < |run| && FailsRollback(run[i], run[i + 1]) && Crash(run[i + 1], run[i + 2])
    ensures var after := AfterRestart(run[i + 2]);
            Reaches(run[i + 2], after) && after.owed && after.served == run[i + 1].served &&
            (GateOpen(after) <==> !run[i].engaged)
  {
    hide Reaches, Next, Initial, Inv, Crash, GateOpen, LeftAlone;
    RunsKeep(run, i + 1);
    FailedStage(run[i], run[i + 1]);
    CrashIsLeftAlone(run[i + 1], run[i + 2]);
    OwedAndAlone(run[i + 1], AfterRestart(run[i + 2]));
  }

  lemma OwedAndAlone(w: World, after: World)
    requires LeftAlone(w, after)
    ensures after.owed == w.owed && after.served == w.served && (GateOpen(after) <==> !w.engaged)
  {
  }

  lemma FailedStage(w: World, w': World)
    requires Inv(w') && FailsRollback(w, w')
    ensures !RolledBackFrom(LastStage(w'.records)) && w'.owed && w'.engaged == w.engaged
  {
    hide PutsBack, FailsToPutBack, Staged, Protected, ServedAt, Orderly;
  }

  /** Once it is engaged the gate stays closed, though the record says FAILED and never INCIDENT. */
  lemma CrashAfterEngagingKeepsItClosed(w: World, w': World)
    requires Inv(w) && Crash(w, w') && Declaring(w.process) && !GivingUp(w.process) && w.owed && !w.abandoned
    requires LastStage(w.records) != Incident
    ensures Reaches(w', AfterRestart(w'))
    ensures !GateOpen(AfterRestart(w')) && AfterRestart(w').owed && LastStage(AfterRestart(w').records) == Failed
  {
    hide Reaches, Orderly, Staged, ServedAt, AnyInFlight, GateOpen;
    CrashIsLeftAlone(w, w');
    NothingLeftInFlight(w');
  }

  /** A process that dies about to roll back, or a recovery that does: the Cluster stays where the Apply
      left it, which is the latest Snapshot exactly when a rollback would have found nothing to undo. */
  lemma CrashBeforeRestoringIsNotUndone(w: World, w': World)
    requires Inv(w) && !w.doubted && Crash(w, w')
    requires Runs(w, Restore) || (w.process.Undo? && RolledBackFrom(w.process.reached))
    ensures var after := AfterRestart(w');
            Reaches(w', after) && (GateOpen(after) <==> !w.engaged) &&
            (InSync(after.served, Latest(after).catalogs, after.foreign) <==> !Differs(w.served, Latest(w).catalogs))
  {
    hide Reaches, Orderly, Protected, AnyInFlight, InSync, Partway, Differs, CleanConfig;
    CrashIsLeftAlone(w, w');
    LatestClean(w);
    CleanIsUnambiguous(Latest(w), w.desired);
    NothingDiffersExactlyInSync(w.served, Latest(w).catalogs, w.desired.catalogs, w.foreign);
  }

  lemma CleanIsUnambiguous(a: Config, b: Config)
    requires CleanConfig(a) && CleanConfig(b)
    ensures Unambiguous(a.catalogs, b.catalogs)
  {
    hide CleanAll, Unambiguous;
    CleanUnambiguous(a.catalogs, b.catalogs);
  }

  /** A process that dies once its rollback has succeeded has lost nothing. */
  lemma CrashAfterRestoringIsHarmless(w: World, w': World)
    requires Inv(w) && !w.doubted && Crash(w, w') && (Runs(w, Resolve) || w.process.UndoneOn?)
    ensures var after := AfterRestart(w');
            Reaches(w', after) && InSync(after.served, Latest(after).catalogs, after.foreign) && !after.doubted
  {
    hide Reaches, Orderly, Protected, AnyInFlight, InSync, GateOpen;
    CrashIsLeftAlone(w, w');
  }

  /** A crash in COMMITTING, before the Snapshot is written: recovery fails the record, opens the gate,
      and leaves the Cluster on the new configuration. That is the latest Snapshot exactly when the two
      configurations are served and recorded alike. */
  lemma CrashWhileCommittingIsNotUndone(w: World, w': World)
    requires Inv(w) && !w.doubted && Runs(w, Do(Committing)) && Crash(w, w')
    ensures var after := AfterRestart(w');
            Reaches(w', after) && (GateOpen(after) <==> !w.engaged) &&
            (InSync(after.served, Latest(after).catalogs, after.foreign) <==>
                SameOnTheCluster(w.foreign, Latest(w), w.desired))
  {
    hide Reaches, InSync, Serving, RenderSecret, Unmanaged, Orderly, Staged, AnyInFlight, GateOpen, SameOnTheCluster;
    CrashIsLeftAlone(w, w');
    TwoConfigurations(w.served, w.desired, Latest(w), w.foreign);
  }

  /** And the same when the write of the Snapshot fails without effect, in a process that lives. */
  lemma FailedCommitIsNotUndone(w: World, w': World, after: World)
    requires Inv(w) && !w.doubted && Runs(w, Do(Committing))
    requires CommitFails(w, w') && w'.snapshots == w.snapshots && HandleFailure(w', after)
    ensures LastStage(after.records) == Failed && (GateOpen(after) <==> !w.engaged)
    ensures InSync(after.served, Latest(after).catalogs, after.foreign) <==>
            SameOnTheCluster(w.foreign, Latest(w), w.desired)
  {
    hide InSync, Serving, RenderSecret, Unmanaged, Orderly, Staged, GateOpen, SameOnTheCluster, CommitFails;
    CommitFailsShape(w, w');
    FailedNow(w', after);
    TwoConfigurations(w.served, w.desired, Latest(w), w.foreign);
  }

  lemma FailedNow(w: World, after: World)
    requires Ledger(w.records, w.process) && w.process.Running? && w.process.at == Handle(Committing) &&
             HandleFailure(w, after)
    ensures LastStage(after.records) == Failed && (GateOpen(after) <==> !w.engaged)
    ensures after.served == w.served && after.foreign == w.foreign && after.snapshots == w.snapshots
    ensures after.candidate == w.candidate
  {
    hide Walked;
    EndedWell(w.records[w.process.id], Failed);
    LastReplaced(w.records, w.records[w.process.id].Advanced(Failed));
    InFlightIsLast(after.records);
  }

  /** The write of the record of COMMITTING is one of them: it may fail with the configuration applied and
      verified, and then that is FAILED and neither committed nor undone. */
  lemma FailedEntryIsNotUndone(w: World, w': World, after: World)
    requires Inv(w) && !w.doubted && w.process.Running? && w.process.at == Enter(Committing)
    requires EnterStage(w, w') && w'.process.at.Handle? && HandleFailure(w', after)
    ensures LastStage(after.records) == Failed && (GateOpen(after) <==> !w.engaged)
    ensures InSync(after.served, Latest(after).catalogs, after.foreign) <==>
            SameOnTheCluster(w.foreign, Latest(w), w.desired)
  {
    hide InSync, Serving, RenderSecret, Unmanaged, Orderly, Staged, Protected, GateOpen, SameOnTheCluster;
    EnterStageLedger(w, w');
    FailedNow(w', after);
    TwoConfigurations(w.served, w.desired, Latest(w), w.foreign);
  }

  /** Once the Snapshot is in, a Commit write that fails leaves the Cluster on the latest Snapshot. Only
      what the Candidate derives from may be out of date. */
  lemma FailingAfterTheSnapshotStaysInSync(w: World, w': World, after: World)
    requires Inv(w) && !w.doubted && CommitFails(w, w') && (w'.snapshots != w.snapshots || Runs(w, Rederive))
    requires HandleFailure(w', after)
    ensures LastStage(after.records) == Failed && (GateOpen(after) <==> !w.engaged)
    ensures InSync(after.served, Latest(after).catalogs, after.foreign)
    ensures after.candidate == w.candidate || after.candidate == Candidate(LatestNumber(after.snapshots), Latest(after))
  {
    hide InSync, Orderly, Staged, Protected, GateOpen, CommitFails;
    CommitFailsShape(w, w');
    FailedNow(w', after);
  }

  /** And so does a process that dies there. */
  lemma CrashAfterTheSnapshotStaysInSync(w: World, w': World)
    requires Inv(w) && !w.doubted && Runs(w, Rederive) && Crash(w, w')
    ensures var after := AfterRestart(w');
            Reaches(w', after) && (GateOpen(after) <==> !w.engaged) && after.candidate == w.candidate &&
            InSync(after.served, Latest(after).catalogs, after.foreign)
  {
    hide Reaches, Orderly, Staged, Protected, AnyInFlight, InSync, GateOpen;
    CrashIsLeftAlone(w, w');
  }

  // ------------------------------------------------------------------ recovery that gives up

  /** Recovery that raises is over: what it had not done stays undone, in a process that lives and serves.
      Nothing is touched, and the gate is open unless Maintenance Mode is engaged or a record is still in
      flight. */
  lemma AbortedRecoveryIsLeftAlone(w: World, w': World)
    requires Inv(w) && RecoveryAborts(w, w')
    ensures w'.served == w.served && w'.foreign == w.foreign && w'.snapshots == w.snapshots
    ensures w'.candidate == w.candidate && w'.records == w.records && w'.owed == w.owed
    ensures GateOpen(w') <==> !w'.engaged && Terminal(LastStage(w.records))
  {
    hide Staged, Protected, ServedAt;
    InFlightIsLast(w.records);
  }

  lemma RecoversOnTerminal(w: World)
    requires Inv(w) && (w.process.Undo? || w.process.UndoneOn? || w.process.GiveUpOn? || w.process.DeclareOn?)
    ensures Terminal(LastStage(w.records))
  {
    hide Staged, Protected, ServedAt, Orderly;
  }

  /** With its rollback failed and Maintenance Mode not engaged, it leaves the gate open at once: no
      process has died, and the record says FAILED already. */
  lemma AbortingBeforeEngagingOpensTheGate(w: World, w': World)
    requires Inv(w) && RecoveryAborts(w, w') && w.process.GiveUpOn? && w.owed && !w'.engaged
    ensures GateOpen(w') && w'.owed && w'.served == w.served
  {
    hide Inv, RecoveryAborts, GateOpen;
    AbortedRecoveryIsLeftAlone(w, w');
    RecoversOnTerminal(w);
  }

  /** One that gives up about to roll back leaves the Cluster where the interrupted Apply did, which is the
      latest Snapshot exactly when a rollback would have found nothing to undo. */
  lemma AbortingBeforeRestoringIsNotUndone(w: World, w': World)
    requires Inv(w) && !w.doubted && RecoveryAborts(w, w') && w.process.Undo? && RolledBackFrom(w.process.reached)
    ensures GateOpen(w') <==> !w.engaged
    ensures InSync(w'.served, Latest(w').catalogs, w'.foreign) <==> !Differs(w.served, Latest(w).catalogs)
  {
    hide Orderly, Protected, AnyInFlight, InSync, Partway, Differs, CleanConfig, GateOpen;
    AbortedRecoveryIsLeftAlone(w, w');
    RecoversOnTerminal(w);
    LatestClean(w);
    CleanIsUnambiguous(Latest(w), w.desired);
    NothingDiffersExactlyInSync(w.served, Latest(w).catalogs, w.desired.catalogs, w.foreign);
  }

  /** Over runs: a recovery whose rollback fails and which then gives up opens the gate exactly when
      Maintenance Mode is not engaged, with the failed rollback owed. */
  lemma AbortingAfterAFailedRollback(run: seq<World>, i: nat)
    requires Run(run) && i + 2 < |run| && FailsRollback(run[i], run[i + 1]) && RecoveryAborts(run[i + 1], run[i + 2])
    ensures run[i + 2].owed && run[i + 2].served == run[i + 1].served
    ensures GateOpen(run[i + 2]) <==> !run[i + 2].engaged
  {
    hide Next, Initial, Inv, GateOpen;
    RunsKeep(run, i + 1);
    FailedInRecovery(run[i], run[i + 1], run[i + 2]);
    AbortedRecoveryIsLeftAlone(run[i + 1], run[i + 2]);
    RecoversOnTerminal(run[i + 1]);
  }

  lemma FailedInRecovery(w: World, w': World, after: World)
    requires FailsRollback(w, w') && RecoveryAborts(w', after)
    ensures w'.process.GiveUpOn? && w'.owed
  {
    hide PutsBack, FailsToPutBack;
  }

  /** However a declaring is cut short, and however much later than the rollback that failed: the failed
      rollback stays owed, and whoever serves next has the gate open exactly when Maintenance Mode is not
      engaged by then. With the process and its recovery alive the gate stays closed instead. */
  lemma CutShortExactly(run: seq<World>, i: nat, j: nat)
    requires Run(run) && i < j && j + 1 < |run| && FailsRollback(run[i], run[i + 1])
    requires forall k | i < k < j :: Step(run[k], run[k + 1]) && !CutShort(run[k], run[k + 1])
    requires CutShort(run[j], run[j + 1])
    ensures var after := if run[j + 1].process.Down? then AfterRestart(run[j + 1]) else run[j + 1];
            Reaches(run[j + 1], after) && after.owed && after.served == run[j].served &&
            (GateOpen(after) <==> !run[j + 1].engaged)
  {
    hide Next, Step, Initial, Inv, FailsRollback, GateOpen, LeftAlone, Reaches, Crash, RecoveryAborts;
    OwedUntilReleased(run, i, j);
    RunsKeep(run, j);
    if Crash(run[j], run[j + 1]) {
      DeclaringStage(run[j]);
      CrashIsLeftAlone(run[j], run[j + 1]);
      CrashGoesDown(run[j], run[j + 1]);
      OwedAndAlone(run[j], AfterRestart(run[j + 1]));
    } else {
      AbortedWhileDeclaring(run[j], run[j + 1]);
      AbortedRecoveryIsLeftAlone(run[j], run[j + 1]);
      RecoversOnTerminal(run[j]);
      ReachesItself(run[j + 1]);
    }
  }

  lemma DeclaringStage(w: World)
    requires Inv(w) && Declaring(w.process)
    ensures !RolledBackFrom(LastStage(w.records))
  {
    hide Staged, Protected, ServedAt, Orderly;
  }

  lemma CrashGoesDown(w: World, w': World)
    requires Crash(w, w')
    ensures w'.process.Down? && w'.engaged == w.engaged
  {
  }

  lemma AbortedWhileDeclaring(w: World, w': World)
    requires RecoveryAborts(w, w') && Declaring(w.process)
    ensures w'.process.Idle? && (w.process.GiveUpOn? || w.process.DeclareOn?)
  {
  }

  // ------------------------------------------------------------------ one configuration or another

  /** Two configurations that a Cluster cannot tell apart. */
  predicate SameOnTheCluster(foreign: Live, a: Config, b: Config) {
    Serving(foreign, a.catalogs) == Serving(foreign, b.catalogs) && RenderSecret(a.catalogs) == RenderSecret(b.catalogs)
  }

  lemma TwoConfigurations(state: Served, a: Config, b: Config, foreign: Live)
    requires InSync(state, a.catalogs, foreign) && Unmanaged(foreign, b.catalogs)
    ensures InSync(state, b.catalogs, foreign) <==> SameOnTheCluster(foreign, b, a)
  {
  }
}
