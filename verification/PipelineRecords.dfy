/** What the record of an Apply says, over whole runs: that there was at most one rollback, how it
    went, and that a restart interrupted it. */
module PipelineRecords {
  import opened Outcomes
  import opened CatalogsSection
  import opened Pipeline
  import opened PipelineSafety
  import opened PipelineTheorems

  /** A rollback for the record is attempted in this step, by the process that ran the Apply or by the
      one after it, which may die in the middle of it. */
  ghost predicate Attempts(w: World, w': World, id: nat) {
    (RestoreCluster(w, w') || CrashRestoring(w, w') ||
     (UndoInterrupted(w, w') && RolledBackFrom(w.process.reached))) && w.process.id == id
  }

  /** The process knows how the attempt went, and is about to say so on the record. */
  predicate Knows(process: Process, id: nat, restored: bool) {
    if restored then process == Running(id, Resolve) || process == UndoneOn(id)
    else process == Running(id, GiveUp) || process == GiveUpOn(id)
  }

  /** An attempt that ends so. */
  ghost predicate Ends(w: World, w': World, id: nat, restored: bool) {
    Attempts(w, w', id) && Knows(w'.process, id, restored) &&
    if restored then PutsBack(w, w') else FailsToPutBack(w, w')
  }

  predicate Recovering(process: Process) {
    process.Look? || process.Undo? || process.UndoneOn? || process.GiveUpOn? || process.DeclareOn?
  }

  /** The process may still attempt a rollback for the record. */
  predicate MayAttempt(process: Process, id: nat) {
    match process
    case Running(running, at) => running == id && !at.Resolve? && !at.GiveUp? && !at.Declare?
    case Undo(interrupted, reached) => interrupted == id && RolledBackFrom(reached)
    case _ => false
  }

  /** Recovery is at this record. */
  predicate Resolving(process: Process, id: nat) {
    match process
    case Undo(resolved, _) => resolved == id
    case UndoneOn(resolved) => resolved == id
    case GiveUpOn(resolved) => resolved == id
    case DeclareOn(resolved) => resolved == id
    case _ => false
  }

  /** The Snapshot is in. */
  predicate PastTheSnapshot(process: Process) {
    process.Running? && (process.at.Rederive? || process.at.Finish?)
  }

  // ------------------------------------------------------------------ every step

  /** The next stage a record may show. */
  predicate MayShow(w: World, id: nat, stage: Stage) {
    match w.process
    case Running(running, at) =>
      running == id &&
      (match at
       case Enter(next) => stage == next
       case Finish => stage == Succeeded && id < |w.records| && w.records[id].snapshot == LatestNumber(w.snapshots)
       case Handle(reached) => stage == if RolledBackFrom(reached) then RollingBack else Failed
       case Resolve => stage == Failed && Says(w, id, true)
       case Declare => stage == Incident && Says(w, id, false)
       case _ => false)
    case Look => stage == Failed && InFlight(w.records, id) && w.records[id].interrupted
    case DeclareOn(lost) => lost == id && stage == Incident && Says(w, id, false)
    case _ => false
  }

  /** What a step makes of a record: nothing, a note, or its next stage; or it is new. */
  predicate Becomes(w: World, w': World, id: nat) {
    id < |w'.records| &&
    if id >= |w.records| then w'.records[id] == STARTED
    else
      var before, after := w.records[id], w'.records[id];
      after == before || Annotates(w, id, after) ||
      (after == before.Advanced(after.stage) && MayShow(w, id, after.stage))
  }

  /** Where the process stands, by where it stood. */
  ghost predicate Proceeds(w: World, w': World, id: nat, restored: bool) {
    (Knows(w'.process, id, restored) ==> Knows(w.process, id, restored) || Ends(w, w', id, restored)) &&
    (Recovering(w'.process) ==> Recovering(w.process) || Boot(w, w')) &&
    (Recovering(w'.process) ==> |w'.records| == |w.records|) &&
    (Resolving(w'.process, id) ==>
       Resolving(w.process, id) || (w.process.Look? && id < |w.records| && w.records[id].interrupted)) &&
    (PastTheSnapshot(w'.process) ==> PastTheSnapshot(w.process) || w'.snapshots != []) &&
    (MayAttempt(w'.process, id) ==>
       MayAttempt(w.process, id) || id == |w.records| ||
       (w.process.Look? && InFlight(w.records, id) && RolledBackFrom(w.records[id].stage)))
  }

  ghost predicate Accounted(w: World, w': World, id: nat, restored: bool) {
    (id < |w.records| ==> id < |w'.records|) && (id < |w'.records| ==> Becomes(w, w', id)) &&
    Proceeds(w, w', id, restored)
  }

  /** A step from one point of an Apply to another, or out of it. */
  predicate Carries(w: World, w': World) {
    w.process.Running? && !Recovering(w'.process) &&
    (PastTheSnapshot(w'.process) ==> PastTheSnapshot(w.process) || w'.snapshots != []) &&
    (w'.process.Running? ==> w'.process.id == w.process.id && (MayAttempt(w'.process, w.process.id) ==>
                                                                MayAttempt(w.process, w.process.id)) &&
                             !w'.process.at.Resolve? && !w'.process.at.GiveUp?) &&
    (w'.records == w.records ||
     (w.process.id < |w.records| && exists stage :: MayShow(w, w.process.id, stage) && w'.records == Marked(w, stage)))
  }

  lemma CarriesAccounts(w: World, w': World, id: nat, restored: bool)
    requires Carries(w, w')
    ensures Accounted(w, w', id, restored)
  {
    hide Ends, Boot;
  }

  lemma RequestedAccounts(w: World, w': World, id: nat, restored: bool)
    requires Requested(w, w') || AdminReleases(w, w')
    ensures Accounted(w, w', id, restored)
  {
    hide Ends, CleanConfig, LatestNumber, AnyInFlight, Latest, SectionsOf, Boot, MayShow, Annotates;
  }

  lemma EnterCarries(w: World, w': World)
    requires EnterStage(w, w')
    ensures Carries(w, w')
  {
    hide LatestNumber, Says, InFlight, Marked;
    assert MayShow(w, w.process.id, w.process.at.stage);
  }

  lemma FinishCarries(w: World, w': World)
    requires FinishApply(w, w')
    ensures Carries(w, w')
  {
    hide LatestNumber, Marked, InFlight;
    if w'.records != w.records { assert MayShow(w, w.process.id, Succeeded); }
  }

  lemma HandleCarries(w: World, w': World)
    requires HandleFailure(w, w')
    ensures Carries(w, w')
  {
    hide LatestNumber, Marked, InFlight, Says;
    assert MayShow(w, w.process.id, if RolledBackFrom(w.process.at.reached) then RollingBack else Failed);
  }

  lemma CommitCarries(w: World, w': World)
    requires Commit(w, w') || RederiveCandidate(w, w') || CommitFails(w, w')
    ensures Carries(w, w')
  {
    hide LatestNumber, Latest, MayShow, CommitFails;
    if CommitFails(w, w') { CommitFailsShape(w, w'); }
  }

  lemma SameCarries(w: World, w': World)
    requires w.process.Running? && w'.process.Running? && w'.process.id == w.process.id && w'.records == w.records
    requires w'.process.at.Handle? || w'.process.at.Enter?
    requires MayAttempt(w.process, w.process.id)
    ensures Carries(w, w')
  {
    hide MayShow;
  }

  lemma RunCarries(w: World, w': World)
    requires Validate(w, w') || ApplySections(w, w') || RollOutCluster(w, w') || Verify(w, w')
    ensures Carries(w, w')
  {
    hide Passes, RollOutCluster, ApplySections, MayShow, Carries;
    if ApplySections(w, w') { ApplySectionsShape(w, w'); }
    else if RollOutCluster(w, w') { RollOutShape(w, w'); }
    SameCarries(w, w');
  }

  lemma CloseCarries(w: World, w': World)
    requires ResolveFailure(w, w') || EngageMaintenance(w, w') || DeclareIncident(w, w')
    ensures Carries(w, w')
  {
    hide LatestNumber, Marked, InFlight;
    if ResolveFailure(w, w') { assert MayShow(w, w.process.id, Failed); }
    else if DeclareIncident(w, w') { assert MayShow(w, w.process.id, Incident); }
  }

  lemma ProgressedAccounts(w: World, w': World, id: nat, restored: bool)
    requires Progressed(w, w')
    ensures Accounted(w, w', id, restored)
  {
    hide Accounted, Carries, Validate, EnterStage, ApplySections, RollOutCluster, Verify, Commit, RederiveCandidate,
         CommitFails, FinishApply;
    if EnterStage(w, w') { EnterCarries(w, w'); }
    else if FinishApply(w, w') { FinishCarries(w, w'); }
    else if Commit(w, w') || RederiveCandidate(w, w') || CommitFails(w, w') { CommitCarries(w, w'); }
    else { RunCarries(w, w'); }
    CarriesAccounts(w, w', id, restored);
  }

  lemma AnnotateAccounts(w: World, w': World, id: nat, restored: bool)
    requires Annotate(w, w')
    ensures Accounted(w, w', id, restored)
  {
    hide Ends, LatestNumber, MayShow, Boot, Annotates;
  }

  lemma RestoreAccounts(w: World, w': World, id: nat, restored: bool)
    requires RestoreCluster(w, w')
    ensures Accounted(w, w', id, restored)
  {
    hide PutsBack, FailsToPutBack, MayShow, Annotates;
  }

  lemma RolledBackAccounts(w: World, w': World, id: nat, restored: bool)
    requires RolledBack(w, w')
    ensures Accounted(w, w', id, restored)
  {
    hide Accounted, Carries, Annotate, HandleFailure, RestoreCluster, ResolveFailure, EngageMaintenance,
         DeclareIncident;
    if Annotate(w, w') { AnnotateAccounts(w, w', id, restored); }
    else if RestoreCluster(w, w') { RestoreAccounts(w, w', id, restored); }
    else {
      if HandleFailure(w, w') { HandleCarries(w, w'); } else { CloseCarries(w, w'); }
      CarriesAccounts(w, w', id, restored);
    }
  }

  lemma UndoAccounts(w: World, w': World, id: nat, restored: bool)
    requires UndoInterrupted(w, w')
    ensures Accounted(w, w', id, restored)
  {
    hide PutsBack, FailsToPutBack, MayShow, Annotates;
  }

  lemma StopsAccount(w: World, w': World, id: nat, restored: bool)
    requires Crash(w, w') || CrashApplying(w, w') || CrashRestoring(w, w') || RecoveryAborts(w, w') ||
             RecoveryDone(w, w') || CoordinatorRestarts(w, w') || Boot(w, w')
    ensures Accounted(w, w', id, restored)
  {
    hide Ends, Recoverable, ApplyLeaves, FailsToPutBack, Restarts, AnyInFlight, MayShow, Annotates;
  }

  lemma InterruptAccounts(w: World, w': World, id: nat, restored: bool)
    requires Interrupt(w, w')
    ensures Accounted(w, w', id, restored)
  {
    hide Ends, Annotates;
  }

  lemma ResolvesAccount(w: World, w': World, id: nat, restored: bool)
    requires LookAgain(w, w') || EngageAfterRestart(w, w') || DeclareAfterRestart(w, w')
    ensures Accounted(w, w', id, restored)
  {
    hide Ends, Annotates;
  }

  lemma RecoveredAccounts(w: World, w': World, id: nat, restored: bool)
    requires Recovered(w, w')
    ensures Accounted(w, w', id, restored)
  {
    hide Accounted, Crash, CrashApplying, CrashRestoring, Boot, Interrupt, RecoveryDone, RecoveryAborts,
         UndoInterrupted, LookAgain, EngageAfterRestart, DeclareAfterRestart, CoordinatorRestarts;
    if UndoInterrupted(w, w') { UndoAccounts(w, w', id, restored); }
    else if Interrupt(w, w') { InterruptAccounts(w, w', id, restored); }
    else if LookAgain(w, w') || EngageAfterRestart(w, w') || DeclareAfterRestart(w, w') {
      ResolvesAccount(w, w', id, restored);
    } else { StopsAccount(w, w', id, restored); }
  }

  lemma NextAccounts(w: World, w': World, id: nat, restored: bool)
    requires Next(w, w')
    ensures Accounted(w, w', id, restored)
  {
    hide Accounted, Requested, Progressed, RolledBack, Recovered, AdminReleases;
    if Progressed(w, w') { ProgressedAccounts(w, w', id, restored); }
    else if RolledBack(w, w') { RolledBackAccounts(w, w', id, restored); }
    else if Recovered(w, w') { RecoveredAccounts(w, w', id, restored); }
    else { RequestedAccounts(w, w', id, restored); }
  }

  // ------------------------------------------------------------------ what it says happened

  lemma SaysSince(w: World, w': World, id: nat, restored: bool)
    requires Becomes(w, w', id) && Says(w', id, restored)
    ensures Says(w, id, restored) || Knows(w.process, id, restored)
  {
    hide MayShow, LatestNumber;
  }

  /** An attempt for this record has ended so, before this instant. */
  ghost predicate Ended(run: seq<World>, i: nat, id: nat, restored: bool)
    requires i < |run|
  {
    exists j: nat | j < i :: Ends(run[j], run[j + 1], id, restored)
  }

  /** What a record says of its rollback is how an attempt ended: SUCCEEDED only after one that put the
      latest Snapshot back, and FAILED only after one that did not. */
  lemma {:induction false} WhatItSaysHappened(run: seq<World>, i: nat, id: nat, restored: bool)
    requires Run(run) && i < |run|
    ensures Says(run[i], id, restored) || Knows(run[i].process, id, restored) ==> Ended(run, i, id, restored)
  {
    hide Next, Ends, InSync, Becomes;
    if i == 0 {
      assert !Says(run[0], id, restored);
    } else {
      WhatItSaysHappened(run, i - 1, id, restored);
      RunStep(run, i);
      NextAccounts(run[i - 1], run[i], id, restored);
      if Says(run[i], id, restored) { SaysSince(run[i - 1], run[i], id, restored); }
      assert run[i] == run[i - 1 + 1];
    }
  }

  lemma InterruptedSince(w: World, w': World, id: nat)
    requires Becomes(w, w', id)
    ensures w'.records[id].interrupted ==>
              id < |w.records| && (w.records[id].interrupted || (w.process.Look? && InFlight(w.records, id)))
    ensures InFlight(w'.records, id) && id < |w.records| && Recovering(w.process) ==> InFlight(w.records, id)
  {
    hide LatestNumber;
  }

  /** The process has started and found the record in flight, before this instant. */
  ghost predicate Found(run: seq<World>, i: nat, id: nat)
    requires i < |run|
  {
    exists j: nat | j < i :: Boot(run[j], run[j + 1]) && InFlight(run[j].records, id)
  }

  /** What says that a restart interrupted it was in flight when the process started. */
  lemma {:induction false} InterruptedByARestart(run: seq<World>, i: nat, id: nat)
    requires Run(run) && i < |run|
    ensures id < |run[i].records| && run[i].records[id].interrupted ==> Found(run, i, id)
    ensures Recovering(run[i].process) && InFlight(run[i].records, id) ==> Found(run, i, id)
  {
    hide Next, Ends, InSync, Becomes;
    if i > 0 {
      InterruptedByARestart(run, i - 1, id);
      RunStep(run, i);
      NextAccounts(run[i - 1], run[i], id, true);
      if id < |run[i].records| { InterruptedSince(run[i - 1], run[i], id); }
      assert run[i] == run[i - 1 + 1];
    }
  }

  // ------------------------------------------------------------------ one attempt, and no retry

  /** The attempt for the record has been made, or there will be none. */
  predicate Spent(w: World, id: nat) {
    id < |w.records| && (Terminal(w.records[id].stage) || w.records[id].stage == RollingBack) &&
    !MayAttempt(w.process, id)
  }

  lemma SpentStays(w: World, w': World, id: nat)
    requires Spent(w, id) && Next(w, w')
    ensures Spent(w', id)
  {
    hide Next, Ends, LatestNumber;
    NextAccounts(w, w', id, true);
  }

  lemma RollingBackNow(w: World, id: nat)
    requires Inv(w) && MayAttempt(w.process, id) && (w.process.Running? ==> w.process.at.Restore?)
    ensures id < |w.records| && (Terminal(w.records[id].stage) || w.records[id].stage == RollingBack)
  {
    hide ServedAt, Staged, Protected, Orderly;
  }

  lemma AttemptEnds(w: World, w': World, id: nat)
    requires Attempts(w, w', id)
    ensures MayAttempt(w.process, id) && (w.process.Running? ==> w.process.at.Restore?)
    ensures w'.records == w.records && !MayAttempt(w'.process, id)
  {
    hide PutsBack, FailsToPutBack;
  }

  lemma AttemptSpends(w: World, w': World, id: nat)
    requires Inv(w) && Attempts(w, w', id)
    ensures Spent(w', id)
  {
    hide Attempts, Inv;
    AttemptEnds(w, w', id);
    RollingBackNow(w, id);
  }

  lemma SpentIsSpent(w: World, w': World, id: nat)
    requires Spent(w, id)
    ensures !Attempts(w, w', id)
  {
    hide PutsBack, FailsToPutBack;
  }

  lemma {:induction false} SpentForGood(run: seq<World>, j: nat, k: nat, id: nat)
    requires Run(run) && j <= k < |run| && Spent(run[j], id)
    ensures Spent(run[k], id)
  {
    hide Spent, Next, Run;
    if j < k {
      SpentForGood(run, j, k - 1, id);
      RunStep(run, k);
      SpentStays(run[k - 1], run[k], id);
    }
  }

  /** However often the process dies and starts again, an Apply is rolled back at most once. */
  lemma OneAttempt(run: seq<World>, j: nat, k: nat, id: nat)
    requires Run(run) && j < k < |run| - 1 && Attempts(run[j], run[j + 1], id)
    ensures !Attempts(run[k], run[k + 1], id)
  {
    hide Spent, Next, Run, Attempts, Inv;
    RunsKeep(run, j);
    AttemptSpends(run[j], run[j + 1], id);
    SpentForGood(run, j + 1, k, id);
    SpentIsSpent(run[k], run[k + 1], id);
  }

  /** So a record never says two things of its rollback. */
  lemma TheVerdictIsFinal(run: seq<World>, i: nat, k: nat, id: nat, first: bool, second: bool)
    requires Run(run) && i < |run| && k < |run| && Says(run[i], id, first) && Says(run[k], id, second)
    ensures first == second
  {
    hide Run, Ends, Attempts, Says;
    WhatItSaysHappened(run, i, id, first);
    WhatItSaysHappened(run, k, id, second);
    var a: nat :| a < i && Ends(run[a], run[a + 1], id, first);
    var b: nat :| b < k && Ends(run[b], run[b + 1], id, second);
    EndsOnce(run[a], run[a + 1], id, first);
    EndsOnce(run[b], run[b + 1], id, second);
    if a < b { OneAttempt(run, a, b, id); }
    if b < a { OneAttempt(run, b, a, id); }
  }

  lemma EndsOnce(w: World, w': World, id: nat, restored: bool)
    requires Ends(w, w', id, restored)
    ensures Attempts(w, w', id) && Knows(w'.process, id, restored)
  {
    hide Attempts, Knows, PutsBack, FailsToPutBack;
  }

  // ------------------------------------------------------------------ what a stage goes with

  /** A success names its Snapshot. There is an outcome of a rollback only where one was attempted: a
      failed one on every INCIDENT, a completed one on whatever left ROLLING_BACK as FAILED. */
  predicate Telling(record: Record, committed: nat) {
    (record.stage == Succeeded ==> record.snapshot.Some? && 1 <= record.snapshot.value <= committed) &&
    (record.stage == Incident ==> record.rollback == Some(false)) &&
    (record.stage == Failed && RollingBack in record.history && !record.interrupted ==>
       record.rollback == Some(true)) &&
    (record.stage == Failed || record.stage == Incident || record.stage == RollingBack ||
       (record.rollback == None && RollingBack !in record.history)) &&
    (record.rollback.Some? ==> record.interrupted || RollingBack in record.history)
  }

  /** What recovery is at was interrupted. */
  predicate Tells(w: World, id: nat) {
    id < |w.records| && Telling(w.records[id], |w.snapshots|) &&
    (Resolving(w.process, id) ==> w.records[id].interrupted)
  }

  lemma NoteTells(w: World, id: nat, note: Record)
    requires Inv(w) && Tells(w, id) && Annotates(w, id, note)
    ensures Telling(note, |w.snapshots|)
  {
    hide ServedAt, Staged, Protected, InFlight;
    assert WellEnded(w.records[id]);
  }

  lemma NextStageTells(w: World, id: nat, stage: Stage)
    requires Inv(w) && Tells(w, id) && MayShow(w, id, stage) && (PastTheSnapshot(w.process) ==> w.snapshots != [])
    ensures Telling(w.records[id].Advanced(stage), |w.snapshots|)
  {
    hide ServedAt, Staged, Protected, Orderly;
  }

  lemma NewsTells(w: World, w': World, id: nat)
    requires Inv(w) && Becomes(w, w', id) && |w.snapshots| <= |w'.snapshots|
    requires (id < |w.records| ==> Tells(w, id)) && (PastTheSnapshot(w.process) ==> w.snapshots != [])
    ensures Telling(w'.records[id], |w'.snapshots|)
    ensures id < |w.records| && w.records[id].interrupted ==> w'.records[id].interrupted
  {
    hide Inv, MayShow, LatestNumber;
    if id < |w.records| && w'.records[id] != w.records[id] {
      if Annotates(w, id, w'.records[id]) { NoteTells(w, id, w'.records[id]); }
      else { NextStageTells(w, id, w'.records[id].stage); }
    }
  }

  lemma {:induction false} TheSnapshotIsIn(run: seq<World>, i: nat)
    requires Run(run) && i < |run|
    ensures PastTheSnapshot(run[i].process) ==> run[i].snapshots != []
  {
    hide Next, Becomes, Inv, InSync, CleanConfig, Ends;
    if i > 0 {
      TheSnapshotIsIn(run, i - 1);
      RunStep(run, i);
      NextAccounts(run[i - 1], run[i], 0, true);
      RunsKeep(run, i - 1);
      NextGrows(run[i - 1], run[i]);
    }
  }

  /** Every record tells so at every instant. */
  lemma {:induction false} RecordsTell(run: seq<World>, i: nat, id: nat)
    requires Run(run) && i < |run| && id < |run[i].records|
    ensures Tells(run[i], id)
  {
    hide Next, Becomes, Telling, Inv, InSync, CleanConfig, Ends, MayAttempt, Knows;
    if i == 0 {
      AdoptedTells(run[0], id);
    } else {
      if id < |run[i - 1].records| { RecordsTell(run, i - 1, id); }
      RunStep(run, i);
      NextAccounts(run[i - 1], run[i], id, true);
      RunsKeep(run, i - 1);
      NextGrows(run[i - 1], run[i]);
      TheSnapshotIsIn(run, i - 1);
      NewsTells(run[i - 1], run[i], id);
    }
  }

  lemma AdoptedTells(w: World, id: nat)
    requires Initial(w) && id < |w.records|
    ensures Tells(w, id)
  {
    hide InSync, CleanConfig;
  }
}
