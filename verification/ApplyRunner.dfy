/** The process that drives an Apply through its stages, and the one that resolves what a restart
    interrupted: loops over durable state, every write of which is a step of the pipeline. */
module ApplyRunner {
  import opened Outcomes
  import opened Catalogs
  import opened CatalogPlans
  import opened CatalogDdl
  import opened CatalogRecovery
  import opened CatalogsSection
  import opened Pipeline
  import opened PipelineSafety

  lemma StepReaches(a: World, b: World, c: World)
    requires Reaches(a, b) && (Requested(b, c) || RolledBack(b, c) || Recovered(b, c))
    ensures Reaches(a, c)
  {
    hide Requested, RolledBack, Recovered, Reaches;
    ReachesOneMore(a, b, c);
  }

  lemma RestoreReaches(a: World, b: World, c: World)
    requires Reaches(a, b) && RestoreCluster(b, c)
    ensures Reaches(a, c)
  {
    hide Reaches, Annotate, HandleFailure, RestoreCluster, ResolveFailure, EngageMaintenance, DeclareIncident;
    StepReaches(a, b, c);
  }

  lemma UndoReaches(a: World, b: World, c: World)
    requires Reaches(a, b) && UndoInterrupted(b, c)
    ensures Reaches(a, c)
  {
    hide Reaches, Crash, CrashApplying, CrashRestoring, Boot, Interrupt, RecoveryDone, RecoveryAborts, UndoInterrupted,
         LookAgain, EngageAfterRestart, DeclareAfterRestart, CoordinatorRestarts;
    StepReaches(a, b, c);
  }

  lemma AbortReaches(a: World, b: World, c: World)
    requires Reaches(a, b) && RecoveryAborts(b, c)
    ensures Reaches(a, c)
  {
    hide Reaches, Crash, CrashApplying, CrashRestoring, Boot, Interrupt, RecoveryDone, RecoveryAborts, UndoInterrupted,
         LookAgain, EngageAfterRestart, DeclareAfterRestart, CoordinatorRestarts;
    StepReaches(a, b, c);
  }

  lemma EngageReaches(a: World, b: World, c: World)
    requires Reaches(a, b) && EngageAfterRestart(b, c)
    ensures Reaches(a, c)
  {
    hide Reaches, Crash, CrashApplying, CrashRestoring, Boot, Interrupt, RecoveryDone, RecoveryAborts, UndoInterrupted,
         LookAgain, EngageAfterRestart, DeclareAfterRestart, CoordinatorRestarts;
    StepReaches(a, b, c);
  }

  lemma EntryReaches(a: World, b: World, c: World)
    requires Reaches(a, b) && EnterStage(b, c)
    ensures Reaches(a, c)
  {
    hide Reaches, Validate, EnterStage, ApplySections, RollOutCluster, Verify, Commit, RederiveCandidate,
         CommitFails, FinishApply;
    ProgressReaches(a, b, c);
  }

  lemma ProgressReaches(a: World, b: World, c: World)
    requires Reaches(a, b) && Progressed(b, c)
    ensures Reaches(a, c)
  {
    hide Progressed, Reaches;
    ReachesOneMore(a, b, c);
  }

  /** What every step keeps, whatever it is, is kept all the way. */
  ghost predicate KeptByEveryStep(holds: World -> bool) {
    forall w, w' | holds(w) && Next(w, w') :: holds(w')
  }

  lemma {:induction false} PathKeeps(holds: World -> bool, path: seq<World>, a: World, b: World)
    requires KeptByEveryStep(holds) && Path(path, a, b) && holds(a)
    ensures holds(b)
    decreases |path|
  {
    hide Next;
    if |path| > 1 {
      var before := path[..|path| - 1];
      PathShortened(path, a, b);
      PathKeeps(holds, before, a, path[|path| - 2]);
      assert Stride(path, |path| - 2);
    }
  }

  lemma ReachesKeeps(holds: World -> bool, a: World, b: World)
    requires KeptByEveryStep(holds) && Reaches(a, b) && holds(a)
    ensures holds(b)
  {
    hide KeptByEveryStep, Path;
    var path :| Path(path, a, b);
    PathKeeps(holds, path, a, b);
  }

  /** The invariant is such a thing. */
  lemma InvReaches(a: World, b: World)
    requires Reaches(a, b) && Inv(a)
    ensures Inv(b)
  {
    hide Inv, Next, Reaches;
    forall w, w' | Inv(w) && Next(w, w') ensures Inv(w') { NextKeeps(w, w'); }
    ReachesKeeps(w => Inv(w), a, b);
  }

  const STAGES: seq<Stage> := [Validating, Applying, RollingOut, Verifying, Committing]

  /** Where the Apply stands before the stage at an index, once it is known whether to roll out. */
  function PointBefore(i: nat, rollout: bool): Point {
    if i == 0 then Do(Validating)
    else if i == 1 then Enter(Applying)
    else if i == 2 && rollout then Enter(RollingOut)
    else if i <= 3 then Enter(Verifying)
    else if i == 4 then Enter(Committing)
    else Finish
  }

  /** What is recorded before the stage at an index; VALIDATING is from the start. */
  function RecordedBefore(i: nat, rollout: bool): seq<Stage>
    requires i <= |STAGES|
  {
    if i <= 1 then []
    else RecordedBefore(i - 1, rollout) + if STAGES[i - 1] == RollingOut && !rollout then [] else [STAGES[i - 1]]
  }

  lemma RecordedAll(rollout: bool)
    ensures RecordedBefore(|STAGES|, rollout) ==
            if rollout then [Applying, RollingOut, Verifying, Committing] else [Applying, Verifying, Committing]
  {
    assert RecordedBefore(1, rollout) == [] && RecordedBefore(2, rollout) == [Applying];
    assert RecordedBefore(3, rollout) == if rollout then [Applying, RollingOut] else [Applying];
    assert RecordedBefore(4, rollout) == RecordedBefore(3, rollout) + [Verifying];
    assert RecordedBefore(5, rollout) == RecordedBefore(4, rollout) + [Committing];
  }

  lemma NothingRecorded(rollout: bool)
    ensures RecordedBefore(0, rollout) == []
  {
  }

  lemma RecordedOn(before: seq<Stage>, at: seq<Stage>, after: seq<Stage>, i: nat, rollout: bool)
    requires i < |STAGES| && at == before + RecordedBefore(i, rollout)
    requires if STAGES[i] == RollingOut && !rollout then after == at
             else after == at + if i == 0 then [] else [STAGES[i]]
    ensures after == before + RecordedBefore(i + 1, rollout)
  {
  }

  lemma ThenSucceeded(history: seq<Stage>, rollout: bool)
    ensures history + RecordedBefore(|STAGES|, rollout) + [Succeeded] ==
            history + (if rollout then [Applying, RollingOut, Verifying, Committing, Succeeded]
                       else [Applying, Verifying, Committing, Succeeded])
  {
    RecordedAll(rollout);
  }

  function CountInFlight(records: seq<Record>): nat {
    if records == [] then 0
    else CountInFlight(records[..|records| - 1]) + if Terminal(records[|records| - 1].stage) then 0 else 1
  }

  lemma {:induction false} CountAfter(records: seq<Record>, id: nat, record: Record)
    requires id < |records| && !Terminal(records[id].stage) && Terminal(record.stage)
    ensures CountInFlight(records[id := record]) == CountInFlight(records) - 1
  {
    var front := records[..|records| - 1];
    if id == |records| - 1 {
      assert records[id := record][..|records| - 1] == front;
    } else {
      CountAfter(front, id, record);
      assert records[id := record][..|records| - 1] == front[id := record];
    }
  }

  lemma {:induction false} CountUnchanged(records: seq<Record>, id: nat, record: Record)
    requires id < |records| && (Terminal(records[id].stage) <==> Terminal(record.stage))
    ensures CountInFlight(records[id := record]) == CountInFlight(records)
  {
    var front := records[..|records| - 1];
    if id == |records| - 1 {
      assert records[id := record][..|records| - 1] == front;
    } else {
      CountUnchanged(front, id, record);
      assert records[id := record][..|records| - 1] == front[id := record];
    }
  }

  // ------------------------------------------------------------------ where nothing stands in the way

  /** The statements of the change that was planned are accepted, one after the other. */
  predicate Applicable(w: World) {
    var data := RenderSecret(w.desired.catalogs);
    AcceptsAll(w.served.live, Statements(w.desired.catalogs,
        Settled(PlanOf(w.desired.catalogs, w.baseline.catalogs), w.served.live.Keys, w.served.secret, data)))
  }

  /** The statements of a rollback are, and a coordinator that restarts after it comes back. */
  predicate Restorable(snapshot: Configured, at: Served) {
    AcceptsAll(at.live, Statements(snapshot, RollbackPlan(snapshot, at.live.Keys, at.secret,
                                                          RenderSecret(snapshot)))) &&
    Loaded(RenderSecret(snapshot)).Some?
  }

  lemma CleanLoads(catalogs: Configured)
    requires CleanAll(catalogs)
    ensures Loaded(RenderSecret(catalogs)).Some?
  {
    hide CleanCatalog, Loaded, RenderSecret, Seeds;
    SecretSeedsConfiguration(catalogs, Contents(catalogs));
    SeedsLoaded(RenderSecret(catalogs), Contents(catalogs));
  }

  /** Whatever an Apply left, a rollback is accepted. */
  lemma BetweenIsRestorable(w: World)
    requires Between(w) && CleanConfig(Latest(w)) && CleanConfig(w.desired)
    ensures Restorable(Latest(w).catalogs, w.served)
  {
    hide CleanAll, Partway, Loaded, RenderSecret, Statements, RollbackPlan, AcceptsAll, IssueAccepted, Unambiguous;
    CleanUnambiguous(Latest(w).catalogs, w.desired.catalogs);
    RollbackIsAccepted(w.served, Latest(w).catalogs, w.desired.catalogs, w.foreign);
    CleanLoads(Latest(w).catalogs);
  }

  lemma PlannedIsApplicable(w: World)
    requires Planned(w)
    ensures Applicable(w)
  {
    hide RenderSecret, Statements, Settled, AcceptsAll, IssueAccepted, PlanOf, Serving, Check;
    CheckInSync(w.baseline.catalogs, w.desired.catalogs, w.foreign);
    CheckedApplyIsAccepted(w.served, w.baseline.catalogs, w.desired.catalogs, w.foreign);
  }

  /** What a stage after VALIDATING needs to succeed. */
  predicate Ready(w: World, stage: Stage) {
    match stage
    case Applying => Applicable(w)
    case RollingOut => Loaded(w.served.secret).Some?
    case Verifying => w.desired.catalogs.Keys <= w.served.live.Keys
    case _ => true
  }

  lemma ReadyInside(w: World, stage: Stage)
    requires Inv(w) && !w.doubted && Runs(w, Do(stage)) && stage != Validating
    ensures Ready(w, stage)
  {
    hide Applicable, Planned, CleanCatalog, Loaded, RenderSecret, Ledger, Protected;
    if stage == Applying {
      PlannedIsApplicable(w);
    } else if stage == RollingOut {
      CleanLoads(w.desired.catalogs);
    }
  }

  lemma RestorableInside(w: World)
    requires Inv(w) && !w.doubted
    requires Runs(w, Restore) || (w.process.Undo? && RolledBackFrom(w.process.reached))
    ensures Restorable(Latest(w).catalogs, w.served)
  {
    hide Restorable, Between, CleanAll, Ledger, Protected;
    LatestClean(w);
    BetweenIsRestorable(w);
  }

  lemma RunningIsLast(w: World)
    requires Inv(w) && w.process.Running?
    ensures w.process.id == |w.records| - 1
  {
    hide ServedAt, Staged, Protected, Orderly;
  }

  lemma RestsInSync(w: World)
    requires Inv(w) && !w.doubted && w.process.Idle? && Terminal(LastStage(w.records))
    ensures InSync(w.served, Latest(w).catalogs, w.foreign)
  {
    hide Between, InSync, Latest, Staged, Protected, Ledger;
  }

  /** The invariant gives every stage what it needs ... */
  lemma ReadyFrom(start: World, at: World, stage: Stage)
    requires Reaches(start, at) && Runs(at, Do(stage)) && stage != Validating
    ensures Inv(start) && !at.doubted ==> Ready(at, stage)
  {
    hide Inv, Reaches, Ready;
    if Inv(start) && !at.doubted {
      InvReaches(start, at);
      ReadyInside(at, stage);
    }
  }

  /** ... and a rollback what it needs. */
  lemma RestorableFrom(start: World, at: World)
    requires Reaches(start, at) && (Runs(at, Restore) || (at.process.Undo? && RolledBackFrom(at.process.reached)))
    ensures Inv(start) && !at.doubted ==> Restorable(Latest(at).catalogs, at.served)
  {
    hide Inv, Reaches, Restorable;
    if Inv(start) && !at.doubted {
      InvReaches(start, at);
      RestorableInside(at);
    }
  }

  /** An Apply that is over, beyond doubt, leaves the latest Snapshot served. */
  lemma OverInSync(start: World, before: World, after: World)
    requires Reaches(start, before) && Reaches(start, after)
    requires before.process.Running? && after.process.Idle? && |after.records| == |before.records|
    requires before.process.id < |after.records| && Terminal(after.records[before.process.id].stage)
    ensures Inv(start) && !after.doubted ==> InSync(after.served, Latest(after).catalogs, after.foreign)
  {
    hide Inv, Reaches, InSync, Latest;
    if Inv(start) && !after.doubted {
      InvReaches(start, before);
      RunningIsLast(before);
      InvReaches(start, after);
      RestsInSync(after);
    }
  }

  /** And so does recovery that has nothing more to resolve. */
  lemma RecoveredInSync(start: World, after: World)
    requires Reaches(start, after) && after.process.Idle? && !AnyInFlight(after.records)
    ensures Inv(start) && !after.doubted ==> InSync(after.served, Latest(after).catalogs, after.foreign)
  {
    hide Inv, Reaches, InSync, Latest, AnyInFlight;
    if Inv(start) && !after.doubted {
      InvReaches(start, after);
      NothingInFlight(after);
      RestsInSync(after);
    }
  }

  lemma NothingInFlight(w: World)
    requires Inv(w) && !AnyInFlight(w.records)
    ensures Terminal(LastStage(w.records))
  {
    hide ServedAt, Staged, Protected, AnyInFlight;
    InFlightIsLast(w.records);
  }

  /** The catalogs of the latest Snapshot. */
  function Newest(snapshots: seq<Config>): Configured {
    SectionsOf(snapshots, LatestNumber(snapshots)).catalogs
  }

  lemma NewestAdded(snapshots: seq<Config>, config: Config)
    ensures Newest(snapshots + [config]) == config.catalogs
  {
  }

  // ------------------------------------------------------------------ what becomes of a record

  /** No other record is different. */
  ghost predicate Only(before: seq<Record>, after: seq<Record>, id: nat) {
    |after| == |before| && id < |after| && forall k | 0 <= k < |after| && k != id :: after[k] == before[k]
  }

  lemma OnlyNone(records: seq<Record>, id: nat)
    requires id < |records|
    ensures Only(records, records, id) && SameNotes(records[id], records[id])
  {
  }

  lemma OnlyOne(a: seq<Record>, b: seq<Record>, c: seq<Record>, id: nat)
    requires Only(a, b, id) && Only(b, c, id)
    ensures Only(a, c, id)
  {
  }

  lemma CountDrops(before: seq<Record>, after: seq<Record>, id: nat)
    requires Only(before, after, id) && !Terminal(before[id].stage) && Terminal(after[id].stage)
    ensures CountInFlight(after) < CountInFlight(before)
  {
    CountAfter(before, id, after[id]);
    assert after == before[id := after[id]];
  }

  /** Nothing but the stage and the history is different. */
  predicate SameNotes(before: Record, after: Record) {
    after == before.(stage := after.stage, history := after.history)
  }

  lemma NotesKeptOn(a: Record, b: Record, c: Record)
    requires SameNotes(a, b) && SameNotes(b, c)
    ensures SameNotes(a, c)
  {
  }

  /** What a rollback makes of the record of an Apply that failed. */
  function RolledBackTo(record: Record, restored: bool): Record {
    record.Advanced(RollingBack).(rollback := Some(restored)).Advanced(if restored then Failed else Incident)
  }

  /** What becomes of a record once its Apply is over: it says which Snapshot a success committed, and
      how a rollback went if there was one. */
  predicate Concluded(before: Record, after: Record, committed: nat) {
    after.interrupted == before.interrupted &&
    match after.stage
    case Succeeded => after.rollback == before.rollback && after.snapshot == Some(committed)
    case Incident => after.rollback == Some(false)
    case Failed => after.rollback == before.rollback || after.rollback == Some(true)
    case _ => false
  }

  lemma ConcludedAfter(a: Record, b: Record, c: Record, committed: nat)
    requires SameNotes(a, b)
    ensures Concluded(b, c, committed) ==> Concluded(a, c, committed)
    ensures c.rollback == b.rollback ==> c.rollback == a.rollback
  {
  }

  /** What recovery makes of a record that was in flight ... */
  function InterruptedTo(record: Record): Record {
    record.(interrupted := true).Advanced(Failed)
  }

  /** ... and of one whose Apply had touched the Cluster. */
  function UndoneTo(record: Record, restored: bool): Record {
    if restored then record.(rollback := Some(true)) else record.(rollback := Some(false)).Advanced(Incident)
  }

  /** A record that was over stays as it is; one that was in flight says that it was interrupted, and
      is FAILED. Only when its Apply had touched the Cluster does it say how the rollback went, and then
      one that failed is an INCIDENT under Maintenance Mode. */
  predicate Resolved(before: Record, after: Record, engaged: bool) {
    if Terminal(before.stage) then after == before
    else if !RolledBackFrom(before.stage) then after == InterruptedTo(before)
    else after == UndoneTo(InterruptedTo(before), true) ||
         (after == UndoneTo(InterruptedTo(before), false) && engaged)
  }

  ghost predicate Pending(first: seq<Record>, now: seq<Record>, engaged: bool) {
    |now| == |first| && forall k | 0 <= k < |now| :: now[k] == first[k] || Resolved(first[k], now[k], engaged)
  }

  lemma OneResolved(first: seq<Record>, before: seq<Record>, was: bool, after: seq<Record>, engaged: bool, id: nat)
    requires Pending(first, before, was) && InFlight(before, id) && Only(before, after, id) && (was ==> engaged)
    requires Resolved(before[id], after[id], engaged)
    ensures Pending(first, after, engaged)
  {
    forall k | 0 <= k < |after| ensures after[k] == first[k] || Resolved(first[k], after[k], engaged) {
      assert before[k] == first[k] || Resolved(first[k], before[k], was);
    }
  }

  lemma AllResolved(first: seq<Record>, now: seq<Record>, engaged: bool)
    requires Pending(first, now, engaged) && !AnyInFlight(now)
    ensures forall k | 0 <= k < |now| :: Resolved(first[k], now[k], engaged)
  {
    forall k | 0 <= k < |now| ensures Resolved(first[k], now[k], engaged) {
      assert !InFlight(now, k);
    }
  }

  class Apchi {
    var records: seq<Record>
    var candidate: Candidate
    var snapshots: seq<Config>
    var engaged: bool
    var desired: Config
    var baseline: Config
    const cluster: Cluster
    var calm: bool   // the stores answer, and what an Apply does besides the Catalogs succeeds
    ghost var process: Process
    ghost var doubted: bool
    ghost var owed: bool
    ghost var abandoned: bool

    constructor (cluster: Cluster, calm: bool)
      ensures this.cluster == cluster && this.calm == calm
      ensures InSync(cluster.State(), NOTHING.catalogs, cluster.unmanaged) ==> Initial(State())
    {
      this.cluster, this.calm := cluster, calm;
      records, snapshots, engaged := [], [], false;
      candidate, desired, baseline := Candidate(None, NOTHING), NOTHING, NOTHING;
      process, doubted, owed, abandoned := Idle, false, false, false;
    }

    ghost function State(): World
      reads this, cluster
    {
      World(records, candidate, snapshots, engaged, cluster.State(), process, desired, baseline, cluster.unmanaged,
            doubted, owed, abandoned)
    }

    /** Nothing fails by itself, neither here nor on the Cluster. */
    predicate Undisturbed()
      reads this`calm, cluster`calm
    {
      calm && cluster.calm
    }

    /** Something that fails only when disturbed. */
    method Fortune() returns (good: bool)
      ensures calm ==> good
    {
      good := *;
      good := good || calm;
    }

    /** A write to the record store. It may fail, having taken effect or not. */
    method Advance(id: nat, stage: Stage) returns (ok: bool, ghost taken: bool)
      requires id < |records|
      modifies this`records
      ensures ok ==> taken
      ensures records == if taken then old(records)[id := old(records)[id].Advanced(stage)] else old(records)
      ensures calm ==> ok
    {
      var reached := Fortune();
      var answered := Fortune();
      ok, taken := reached && answered, reached;
      if reached {
        records := records[id := records[id].Advanced(stage)];
      }
    }

    method Note(id: nat, note: Record) returns (ok: bool)
      requires id < |records|
      modifies this`records
      ensures ok ==> records == old(records)[id := note]
      ensures records == old(records) || records == old(records)[id := note]
      ensures calm ==> ok
    {
      var reached := Fortune();
      var answered := Fortune();
      ok := reached && answered;
      if reached {
        records := records[id := note];
      }
    }

    // ---------------------------------------------------------------- the engine's stages

    method ValidateStage(id: nat) returns (ok: bool)
      requires process == Running(id, Do(Validating)) && id < |records|
      modifies this`process, this`desired, this`baseline
      ensures Validate(old(State()), State())
      ensures ok ==> desired == candidate.config
      ensures process == Running(id, if ok then Enter(Applying) else Handle(Validating))
      ensures Undisturbed() ==> (ok <==> Passes(old(State())))
    {
      hide Check, PlanOf, RenderSecret, SectionsOf;
      var want, from := candidate.config, SectionsOf(snapshots, candidate.base);
      var plan := MakePlan(want.catalogs, from.catalogs);
      var names := cluster.ShowCatalogs();
      var durable := cluster.ReadSecret();
      var others := Fortune();
      ok := names.Some? && durable.Some? && others &&
            Check(plan, names.value, durable.value, RenderSecret(want.catalogs)) == [];
      if ok {
        desired, baseline := want, from;
      }
      process := Running(id, if ok then Enter(Applying) else Handle(Validating));
    }

    method ApplyStage(id: nat, next: Stage) returns (ok: bool)
      requires process == Running(id, Do(Applying)) && id < |records|
      requires next == RollingOut || next == Verifying
      modifies this`process, cluster`live, cluster`secret, cluster`unmanaged
      ensures ApplySections(old(State()), State())
      ensures process == Running(id, if ok then Enter(next) else Handle(Applying))
      ensures Undisturbed() ==> (ok <==> Applicable(old(State())))
    {
      hide PlanOf, ApplyLeaves, Statements, AcceptsAll, Settled, RenderSecret, IssueAccepted;
      var plan := MakePlan(desired.catalogs, baseline.catalogs);
      var applied := cluster.Apply(desired.catalogs, plan);
      var others := Fortune();
      ok := applied && others;
      process := Running(id, if ok then Enter(next) else Handle(Applying));
    }

    method RollOutStage(id: nat) returns (ok: bool)
      requires process == Running(id, Do(RollingOut)) && id < |records|
      modifies this`process, cluster`live, cluster`unmanaged
      ensures RollOutCluster(old(State()), State())
      ensures process == Running(id, if ok then Enter(Verifying) else Handle(RollingOut))
      ensures ok ==> Restarts(old(cluster.State()), old(cluster.unmanaged), cluster.State(), cluster.unmanaged)
      ensures Undisturbed() ==> (ok <==> Loaded(cluster.secret).Some?)
    {
      hide Loaded, Restarts;
      ok := cluster.Restart();
      process := Running(id, if ok then Enter(Verifying) else Handle(RollingOut));
    }

    method VerifyStage(id: nat) returns (ok: bool)
      requires process == Running(id, Do(Verifying)) && id < |records|
      modifies this`process
      ensures Verify(old(State()), State())
      ensures process == Running(id, if ok then Enter(Committing) else Handle(Verifying))
      ensures ok ==> desired.catalogs.Keys <= cluster.live.Keys
      ensures Undisturbed() && desired.catalogs.Keys <= cluster.live.Keys ==> ok
    {
      var names := cluster.ShowCatalogs();
      var others := Fortune();
      ok := others && names.Some? && desired.catalogs.Keys <= names.value;
      process := Running(id, if ok then Enter(Committing) else Handle(Verifying));
    }

    /** Two writes, and the Snapshot goes in first. Either may fail, having taken effect or not. */
    method CommitStage(id: nat, ghost start: World) returns (ok: bool)
      requires process == Running(id, Do(Committing)) && id < |records| && Reaches(start, State())
      modifies this`process, this`snapshots, this`candidate, this`doubted
      ensures Reaches(start, State())
      ensures process == Running(id, if ok then Finish else Handle(Committing))
      ensures snapshots == old(snapshots) || snapshots == old(snapshots) + [desired]
      ensures ok ==> snapshots == old(snapshots) + [desired] && candidate == Candidate(Some(|snapshots|), desired)
      ensures (ok ==> doubted == old(doubted)) && (calm ==> ok)
    {
      hide Reaches;
      ok := InsertSnapshot(id, start);
      if ok { ok := ResetCandidate(id, start); }
    }

    method InsertSnapshot(id: nat, ghost start: World) returns (ok: bool)
      requires process == Running(id, Do(Committing)) && id < |records| && Reaches(start, State())
      modifies this`process, this`snapshots, this`doubted
      ensures Reaches(start, State())
      ensures process == Running(id, if ok then Rederive else Handle(Committing))
      ensures snapshots == old(snapshots) || snapshots == old(snapshots) + [desired]
      ensures ok ==> snapshots == old(snapshots) + [desired]
      ensures (ok ==> doubted == old(doubted)) && (calm ==> ok)
    {
      hide Reaches, Latest, LatestNumber, Validate, EnterStage, ApplySections, RollOutCluster, Verify,
           RederiveCandidate, FinishApply;
      ghost var before := State();
      var reached := Fortune();
      var answered := Fortune();
      ok := reached && answered;
      if reached { snapshots := snapshots + [desired]; }
      process, doubted := Running(id, if ok then Rederive else Handle(Committing)), doubted || !ok;
      assert if ok then Commit(before, State()) else CommitFails(before, State());
      ProgressReaches(start, before, State());
    }

    method ResetCandidate(id: nat, ghost start: World) returns (ok: bool)
      requires process == Running(id, Rederive) && id < |records| && snapshots != [] && Reaches(start, State())
      modifies this`process, this`candidate, this`doubted
      ensures Reaches(start, State())
      ensures process == Running(id, if ok then Finish else Handle(Committing))
      ensures ok ==> candidate == Candidate(Some(|snapshots|), snapshots[|snapshots| - 1])
      ensures (ok ==> doubted == old(doubted)) && (calm ==> ok)
    {
      hide Reaches, Progressed, Latest, SectionsOf, LatestNumber;
      ghost var before := State();
      var reached := Fortune();
      var answered := Fortune();
      ok := reached && answered;
      var number := LatestNumber(snapshots);
      NewestOf(before);
      if reached { candidate := Candidate(number, SectionsOf(snapshots, number)); }
      process, doubted := Running(id, if ok then Finish else Handle(Committing)), doubted || !ok;
      Rederives(before, State(), ok, reached);
      ProgressReaches(start, before, State());
    }

    /** The work of one stage, from having recorded it to being past it. Undisturbed, it succeeds when
        it has what it needs. */
    method Perform(id: nat, stage: Stage, rollout: bool, ghost start: World) returns (ok: bool)
      requires process == Running(id, Do(stage)) && id < |records| && stage in STAGES
      requires Reaches(start, State())
      modifies this`process, this`desired, this`baseline, this`snapshots, this`candidate, this`doubted
      modifies cluster`live, cluster`secret, cluster`unmanaged
      ensures Reaches(start, State())
      ensures process == Running(id, if !ok then Handle(stage) else PointBefore(IndexOf(stage) + 1, rollout))
      ensures stage != Committing ==> snapshots == old(snapshots) && candidate == old(candidate)
      ensures stage == Validating && ok ==> desired == old(candidate).config
      ensures stage != Validating ==> desired == old(desired)
      ensures stage == Committing ==> snapshots == old(snapshots) || snapshots == old(snapshots) + [desired]
      ensures stage == Committing && ok ==>
                snapshots == old(snapshots) + [desired] && candidate == Candidate(Some(|snapshots|), desired)
      ensures stage == Validating || stage == Verifying || stage == Committing ==>
                cluster.State() == old(cluster.State()) && cluster.unmanaged == old(cluster.unmanaged)
      ensures ok ==> doubted == old(doubted)
      ensures stage != Committing ==> doubted == old(doubted)
      ensures Undisturbed() ==>
                (ok <==> if stage == Validating then Passes(old(State())) else Ready(old(State()), stage))
    {
      hide Reaches, Validate, ApplySections, RollOutCluster, Verify, Passes, Applicable, Loaded;
      ghost var before := State();
      match stage
      case Validating =>
        ok := ValidateStage(id);
        ProgressReaches(start, before, State());
      case Applying =>
        ok := ApplyStage(id, if rollout then RollingOut else Verifying);
        ProgressReaches(start, before, State());
      case RollingOut =>
        ok := RollOutStage(id);
        ProgressReaches(start, before, State());
      case Verifying =>
        ok := VerifyStage(id);
        ProgressReaches(start, before, State());
      case Committing =>
        ok := CommitStage(id, start);
    }

    /** Record the stage; a failure here is a failure in that stage. */
    method EnterRecord(id: nat, stage: Stage, ghost start: World) returns (ok: bool)
      requires process == Running(id, Enter(stage)) && id < |records|
      requires Reaches(start, State())
      modifies this`process, this`records, this`doubted
      ensures Reaches(start, State())
      ensures process == Running(id, if ok then Do(stage) else Handle(stage))
      ensures || records == old(records)[id := old(records)[id].Advanced(stage)]
              || (!ok && records == old(records))
      ensures (ok ==> doubted == old(doubted)) && (calm ==> ok)
    {
      hide Reaches, EnterStage;
      ghost var before := State();
      ghost var taken;
      ok, taken := Advance(id, stage);
      Recorded(id, stage, ok, taken, before, start);
    }

    /** What having recorded the stage, or not, means for the process. */
    ghost method Recorded(id: nat, stage: Stage, ok: bool, taken: bool, before: World, start: World)
      requires before.process == Running(id, Enter(stage)) && id < |before.records| && (ok ==> taken)
      requires Reaches(start, before)
      requires State() == before.(records := if taken then before.records[id := before.records[id].Advanced(stage)]
                                             else before.records)
      modifies this`process, this`doubted
      ensures Reaches(start, State()) && (ok ==> doubted == old(doubted))
      ensures process == Running(id, if ok then Do(stage) else Handle(stage))
    {
      hide Reaches, EnterStage;
      process := Running(id, if ok then Do(stage) else Handle(stage));
      doubted := doubted || (!ok && stage == Committing);
      Entered(before, State(), id, stage, ok, taken);
      EntryReaches(start, before, State());
    }

    /** Drives the Apply through its stages. A success has committed exactly one Snapshot, the Candidate
        as it was when it was captured, and names it; an incident has Maintenance Mode engaged. `over` is
        false when the record could not be made terminal, or nobody knows whether it was. Undisturbed, an
        Apply that passes its check succeeds, and one that does not leaves the Cluster alone. */
    method Run(id: nat, rollout: bool) returns (over: bool)
      requires process == Running(id, Do(Validating)) && id < |records|
      modifies this`process, this`records, this`candidate, this`snapshots, this`engaged, this`desired, this`baseline,
               this`doubted, this`owed, this`abandoned
      modifies cluster`live, cluster`secret, cluster`unmanaged
      ensures Reaches(old(State()), State())
      ensures id < |records| && Only(old(records), records, id)
      ensures over ==> process.Idle? && Concluded(old(records)[id], records[id], |snapshots|)
      ensures over && records[id].stage == Succeeded ==>
                snapshots == old(snapshots) + [old(candidate).config] &&
                candidate == Candidate(Some(|snapshots|), old(candidate).config) &&
                records[id].history ==
                old(records)[id].history + (if rollout then [Applying, RollingOut, Verifying, Committing, Succeeded]
                                            else [Applying, Verifying, Committing, Succeeded])
      ensures over && records[id].stage == Incident ==> engaged && snapshots == old(snapshots)
      ensures snapshots == old(snapshots) || snapshots == old(snapshots) + [old(candidate).config]
      ensures Undisturbed() ==> over
      ensures Undisturbed() && Inv(old(State())) && !old(doubted) ==>
                if Passes(old(State())) then
                  records[id].stage == Succeeded && !doubted && engaged == old(engaged) &&
                  InSync(cluster.State(), old(candidate).config.catalogs, cluster.unmanaged)
                else
                  records[id].stage == Failed && records[id].rollback == old(records)[id].rollback && !doubted &&
                  cluster.State() == old(cluster.State()) && snapshots == old(snapshots) && engaged == old(engaged)
    {
      hide Reaches, Inv, Passes, InSync, LatestNumber, SectionsOf, Only, SameNotes, Newest, Concluded, RecordedBefore;
      ghost var start := State();
      ReachesItself(start);
      var reached, raised := Walk(id, rollout, start);
      ghost var walked := records;
      over := Conclude(id, reached, raised, start);
      OnlyOne(old(records), walked, records, id);
      ConcludedAfter(old(records)[id], walked[id], records[id], |snapshots|);
      ThenSucceeded(old(records)[id].history, rollout);
      NewestAdded(old(snapshots), old(candidate).config);
    }

    /** SUCCEEDED, or the failure and what it takes. */
    method Conclude(id: nat, reached: Stage, raised: bool, ghost start: World) returns (over: bool)
      requires process == Running(id, if raised then Handle(reached) else Finish) && id < |records|
      requires (raised || snapshots != []) && Reaches(start, State())
      modifies this`process, this`records, this`doubted, this`owed, this`abandoned, this`engaged
      modifies cluster`live, cluster`secret, cluster`unmanaged
      ensures Reaches(start, State()) && id < |records| && Only(old(records), records, id)
      ensures over ==> process.Idle? && Concluded(old(records)[id], records[id], |snapshots|)
      ensures over && records[id].stage == Succeeded ==>
                !raised && records[id].history == old(records)[id].history + [Succeeded]
      ensures over && records[id].stage == Incident ==> raised && RolledBackFrom(reached) && engaged
      ensures calm ==> over && (!raised ==> records[id].stage == Succeeded)
      ensures Undisturbed() && Inv(start) && !old(doubted) ==>
                !doubted && engaged == old(engaged) && InSync(cluster.State(), Newest(snapshots), cluster.unmanaged) &&
                (raised ==> records[id].stage == Failed)
      ensures raised && !RolledBackFrom(reached) ==>
                cluster.State() == old(cluster.State()) &&
                (over ==> records[id].rollback == old(records)[id].rollback)
    {
      hide Reaches, Inv, InSync, Restored, LatestNumber, SectionsOf;
      ghost var before := State();
      var at := reached;
      if !raised {
        over := Succeed(id, start);
        if over {
          OverInSync(start, before, State());
          return;
        }
        at := Committing;
      }
      ghost var restored;
      over, restored := Fail(id, at, start);
    }

    /** The stages one after the other, passing over a Rollout that is not needed, until one raises:
        nothing is committed before COMMITTING, and then it is the captured Candidate. */
    method Walk(id: nat, rollout: bool, ghost start: World) returns (reached: Stage, raised: bool)
      requires process == Running(id, Do(Validating)) && id < |records| && Reaches(start, State())
      modifies this`process, this`records, this`desired, this`baseline, this`snapshots, this`candidate, this`doubted
      modifies cluster`live, cluster`secret, cluster`unmanaged
      ensures Reaches(start, State()) && id < |records|
      ensures Only(old(records), records, id) && SameNotes(old(records)[id], records[id])
      ensures process == Running(id, if raised then Handle(reached) else Finish)
      ensures raised && reached != Committing ==> snapshots == old(snapshots)
      ensures snapshots == old(snapshots) || snapshots == old(snapshots) + [old(candidate).config]
      ensures !raised ==> snapshots == old(snapshots) + [old(candidate).config] &&
                          candidate == Candidate(Some(|snapshots|), old(candidate).config) &&
                          records[id].history == old(records)[id].history + RecordedBefore(|STAGES|, rollout)
      ensures raised && reached == Validating ==>
                cluster.State() == old(cluster.State()) && cluster.unmanaged == old(cluster.unmanaged)
      ensures Undisturbed() && Inv(start) && !old(doubted) ==>
                !doubted && if Passes(old(State())) then !raised else raised && reached == Validating
    {
      hide Reaches, Inv, Passes, Only, SameNotes, RecordedBefore;
      reached, raised := Validating, false;
      NothingRecorded(rollout);
      OnlyNone(records, id);
      var i := 0;
      while i < |STAGES| && !raised
        invariant 0 <= i <= |STAGES| && id < |records|
        invariant Reaches(start, State())
        invariant process == Running(id, if raised then Handle(reached) else PointBefore(i, rollout))
        invariant Only(old(records), records, id) && SameNotes(old(records)[id], records[id])
        invariant !raised ==> records[id].history == old(records)[id].history + RecordedBefore(i, rollout)
        invariant 0 < i && !raised ==> desired == old(candidate).config
        invariant i < |STAGES| || (raised && reached != Committing) ==> snapshots == old(snapshots)
        invariant snapshots == old(snapshots) || snapshots == old(snapshots) + [old(candidate).config]
        invariant i == |STAGES| && !raised ==>
                    snapshots == old(snapshots) + [desired] && candidate == Candidate(Some(|snapshots|), desired)
        invariant i == 0 ==> State() == old(State())
        invariant raised && reached == Validating ==>
                    cluster.State() == old(cluster.State()) && cluster.unmanaged == old(cluster.unmanaged)
        invariant Undisturbed() && Inv(start) && !old(doubted) ==>
                    !doubted && (raised ==> reached == Validating && !Passes(old(State()))) &&
                    (0 < i && !raised ==> Passes(old(State())))
      {
        var stage := STAGES[i];
        ghost var before := records;
        if stage == RollingOut && !rollout {
          RecordedOn(old(records)[id].history, before[id].history, records[id].history, i, rollout);
          i := i + 1;
          continue;
        }
        reached := stage;
        raised := WalkOne(id, i, rollout, start);
        if !raised { RecordedOn(old(records)[id].history, before[id].history, records[id].history, i, rollout); }
        OnlyOne(old(records), before, records, id);
        NotesKeptOn(old(records)[id], before[id], records[id]);
        i := i + 1;
      }
    }

    /** One stage: recorded, and then done. */
    method WalkOne(id: nat, i: nat, rollout: bool, ghost start: World) returns (raised: bool)
      requires i < |STAGES| && process == Running(id, PointBefore(i, rollout)) && id < |records|
      requires (STAGES[i] == RollingOut ==> rollout) && Reaches(start, State())
      modifies this`process, this`records, this`desired, this`baseline, this`snapshots, this`candidate, this`doubted
      modifies cluster`live, cluster`secret, cluster`unmanaged
      ensures Reaches(start, State()) && id < |records|
      ensures Only(old(records), records, id) && SameNotes(old(records)[id], records[id])
      ensures process == Running(id, if raised then Handle(STAGES[i]) else PointBefore(i + 1, rollout))
      ensures !raised ==>
                records[id].history == old(records)[id].history + if i == 0 then [] else [STAGES[i]]
      ensures i < 4 ==> snapshots == old(snapshots)
      ensures 0 < i < 4 ==> candidate == old(candidate)
      ensures snapshots == old(snapshots) || snapshots == old(snapshots) + [desired]
      ensures if i == 0 then !raised ==> desired == old(candidate).config else desired == old(desired)
      ensures i == 4 && !raised ==>
                snapshots == old(snapshots) + [desired] && candidate == Candidate(Some(|snapshots|), desired)
      ensures i == 0 ==> cluster.State() == old(cluster.State()) && cluster.unmanaged == old(cluster.unmanaged)
      ensures Undisturbed() && Inv(start) && !old(doubted) ==>
                !doubted && (raised <==> i == 0 && !Passes(old(State())))
    {
      hide Reaches, Inv, Passes, Ready;
      var stage := STAGES[i];
      raised := false;
      if i > 0 {
        var recorded := EnterRecord(id, stage, start);
        raised := !recorded;
      }
      if !raised {
        if stage != Validating { ReadyFrom(start, State(), stage); }
        var done := Perform(id, stage, rollout, start);
        raised := !done;
      }
    }

    /** The Snapshot's number, and then SUCCEEDED. */
    method Succeed(id: nat, ghost start: World) returns (ok: bool)
      requires process == Running(id, Finish) && id < |records| && snapshots != [] && Reaches(start, State())
      modifies this`process, this`records
      ensures Reaches(start, State())
      ensures Only(old(records), records, id)
      ensures records[id].rollback == old(records)[id].rollback &&
              records[id].interrupted == old(records)[id].interrupted
      ensures ok ==> process.Idle? && records[id].stage == Succeeded && records[id].snapshot == Some(|snapshots|) &&
                     records[id].history == old(records)[id].history + [Succeeded]
      ensures !ok ==> process == Running(id, Handle(Committing))
      ensures calm ==> ok
    {
      hide Reaches, Validate, EnterStage, ApplySections, RollOutCluster, Verify, Commit, RederiveCandidate,
           CommitFails;
      ok := Annotated(id, records[id].(snapshot := LatestNumber(snapshots)), start);
      ghost var before := State();
      if ok {
        ghost var taken;
        ok, taken := Advance(id, Succeeded);
      }
      process := if ok then Idle else Running(id, Handle(Committing));
      assert FinishApply(before, State());
      ProgressReaches(start, before, State());
    }

    method Annotated(id: nat, note: Record, ghost start: World) returns (ok: bool)
      requires id < |records| && Annotates(State(), id, note) && Reaches(start, State())
      modifies this`records
      ensures Reaches(start, State())
      ensures ok ==> records == old(records)[id := note]
      ensures records == old(records) || records == old(records)[id := note]
      ensures calm ==> ok
    {
      ghost var before := State();
      ok := Note(id, note);
      if records != before.records {
        assert Annotate(before, State());
        ReachesOneMore(start, before, State());
      }
    }

    /** One attempt to put the Cluster back: every Section, the restart if one is needed, and
        Verification. Anything that raises makes the attempt a failure. */
    method PutBack(rollout: bool) returns (ok: bool)
      modifies cluster`live, cluster`secret, cluster`unmanaged
      ensures if ok then
                Restored(Newest(snapshots), old(cluster.State()), old(cluster.unmanaged),
                         cluster.State(), cluster.unmanaged)
              else Astray(Newest(snapshots), old(cluster.State()), old(cluster.unmanaged),
                          cluster.State(), cluster.unmanaged)
      ensures ok && rollout ==> exists middle, there ::
                  RestoreLeaves(old(cluster.State()), old(cluster.unmanaged), Newest(snapshots), middle, there, true) &&
                  Restarts(middle, there, cluster.State(), cluster.unmanaged)
      ensures Undisturbed() && Restorable(Newest(snapshots), old(cluster.State())) ==> ok
    {
      hide RestoreLeaves, Restarts, Statements, AcceptsAll, RollbackPlan, RenderSecret, IssueAccepted, Loaded, Differs,
           Newest;
      var restored, changed := cluster.Restore(Newest(snapshots));
      ghost var middle, there := cluster.State(), cluster.unmanaged;
      var others := Fortune();
      ok := restored && others;
      if ok && rollout {
        ok := cluster.Restart();
      }
      assert RestoreLeaves(old(cluster.State()), old(cluster.unmanaged), Newest(snapshots), middle, there, restored);
      assert MayRestart(middle, there, cluster.State(), cluster.unmanaged);
      if ok {
        ok := Verified();
        PutBackServesAll(Newest(snapshots), old(cluster.State()), middle, there, cluster.State(), cluster.unmanaged);
      }
    }

    /** Verification after a rollback: every catalog of the Snapshot is live. */
    method Verified() returns (ok: bool)
      ensures ok ==> Newest(snapshots).Keys <= cluster.live.Keys
      ensures Undisturbed() && Newest(snapshots).Keys <= cluster.live.Keys ==> ok
    {
      var names := cluster.ShowCatalogs();
      var others := Fortune();
      ok := others && names.Some? && Newest(snapshots).Keys <= names.value;
    }

    /** A failure: of a stage that touched the Cluster, one rollback and no retry; of any other,
        the record and nothing else. */
    method Fail(id: nat, reached: Stage, ghost start: World) returns (over: bool, ghost restored: bool)
      requires process == Running(id, Handle(reached)) && id < |records| && Reaches(start, State())
      modifies this`process, this`records, this`doubted, this`owed, this`abandoned, this`engaged
      modifies cluster`live, cluster`secret, cluster`unmanaged
      ensures Reaches(start, State()) && Only(old(records), records, id)
      ensures over ==> process.Idle? &&
                       records[id] == if RolledBackFrom(reached) then RolledBackTo(old(records)[id], restored)
                                      else old(records)[id].Advanced(Failed)
      ensures over && RolledBackFrom(reached) ==>
                if restored then
                  Restored(Newest(snapshots), old(cluster.State()), old(cluster.unmanaged),
                           cluster.State(), cluster.unmanaged)
                else engaged
      ensures !RolledBackFrom(reached) ==>
                cluster.State() == old(cluster.State()) && cluster.unmanaged == old(cluster.unmanaged) &&
                engaged == old(engaged) && doubted == old(doubted)
      ensures calm ==> over
      ensures Undisturbed() && Inv(start) && !old(doubted) ==>
                (RolledBackFrom(reached) ==> restored) && !doubted && engaged == old(engaged) &&
                InSync(cluster.State(), Newest(snapshots), cluster.unmanaged)
    {
      hide Reaches, Restored, Restorable, SectionsOf, Inv, InSync;
      ghost var before := State();
      over := StartFailing(id, reached, start);
      restored := false;
      if over && RolledBackFrom(reached) {
        RestorableFrom(start, State());
        over, restored := RollBack(id, start);
      }
      if over { OverInSync(start, before, State()); }
    }

    /** The record says ROLLING_BACK, or FAILED. */
    method StartFailing(id: nat, reached: Stage, ghost start: World) returns (ok: bool)
      requires process == Running(id, Handle(reached)) && id < |records| && Reaches(start, State())
      modifies this`process, this`records
      ensures Reaches(start, State())
      ensures || records == old(records)[id := old(records)[id].Advanced(if RolledBackFrom(reached) then RollingBack
                                                                          else Failed)]
              || (!ok && records == old(records))
      ensures ok ==> process == if RolledBackFrom(reached) then Running(id, Restore) else Idle
      ensures calm ==> ok
    {
      hide Reaches;
      ghost var before := State();
      ghost var taken;
      ok, taken := Advance(id, if RolledBackFrom(reached) then RollingBack else Failed);
      if taken {
        process := if RolledBackFrom(reached) then Running(id, Restore) else Idle;
        assert HandleFailure(before, State());
        StepReaches(start, before, State());
      }
    }

    /** The attempt itself, and what it means for the process. */
    method Attempt(id: nat, ghost start: World) returns (restored: bool)
      requires process == Running(id, Restore) && id < |records| && Reaches(start, State())
      modifies this`process, this`doubted, this`owed, this`abandoned, cluster`live, cluster`secret, cluster`unmanaged
      ensures Reaches(start, State())
      ensures process == Running(id, if restored then Resolve else GiveUp)
      ensures restored ==>
                Restored(Newest(snapshots), old(cluster.State()), old(cluster.unmanaged),
                         cluster.State(), cluster.unmanaged) &&
                doubted == old(doubted)
      ensures Undisturbed() && Restorable(Newest(snapshots), old(cluster.State())) ==> restored
    {
      hide Restored, Astray, Newest, Reaches, Restorable, RestoreCluster, RestoreLeaves, Restarts;
      ghost var before := State();
      var rollout: bool := *;
      restored := PutBack(rollout);
      Tried(id, restored, before, start);
    }

    /** What the attempt means for the process. */
    ghost method Tried(id: nat, restored: bool, before: World, start: World)
      requires before.process == Running(id, Restore) && id < |before.records| && Reaches(start, before)
      requires State() == before.(served := cluster.State(), foreign := cluster.unmanaged)
      requires if restored then
                 Restored(Newest(snapshots), before.served, before.foreign, cluster.State(), cluster.unmanaged)
               else Astray(Newest(snapshots), before.served, before.foreign, cluster.State(), cluster.unmanaged)
      modifies this`process, this`doubted, this`owed, this`abandoned
      ensures Reaches(start, State()) && (restored ==> doubted == old(doubted))
      ensures process == Running(id, if restored then Resolve else GiveUp)
    {
      hide Restored, Astray, Newest, Reaches, RestoreCluster;
      process := Running(id, if restored then Resolve else GiveUp);
      doubted, owed, abandoned := doubted || !restored, owed || !restored, abandoned && restored;
      AttemptIs(before, State(), restored);
      RestoreReaches(start, before, State());
    }

    /** The attempt and its outcome on the record: FAILED after a restored Cluster; otherwise an
        INCIDENT, and not before Maintenance Mode is engaged. */
    method RollBack(id: nat, ghost start: World) returns (over: bool, ghost restored: bool)
      requires process == Running(id, Restore) && id < |records| && Reaches(start, State())
      modifies this`process, this`records, this`doubted, this`owed, this`abandoned, this`engaged
      modifies cluster`live, cluster`secret, cluster`unmanaged
      ensures Reaches(start, State()) && Only(old(records), records, id)
      ensures over ==> process.Idle? &&
                       records[id] == old(records)[id].(rollback := Some(restored)).Advanced(if restored then Failed
                                                                                             else Incident)
      ensures if restored then
                Restored(Newest(snapshots), old(cluster.State()), old(cluster.unmanaged),
                         cluster.State(), cluster.unmanaged) &&
                doubted == old(doubted) && engaged == old(engaged)
              else over ==> engaged
      ensures calm ==> over
      ensures Undisturbed() && Restorable(Newest(snapshots), old(cluster.State())) ==> restored
    {
      hide Reaches, Restored, Restorable, SectionsOf;
      var good := Attempt(id, start);
      restored := good;
      over := Annotated(id, records[id].(rollback := Some(good)), start);
      if !over { return; }
      if !good {
        over := Engage(id, start);
        if !over { return; }
      }
      over := Close(id, good, start);
    }

    /** FAILED, or an INCIDENT. */
    method Close(id: nat, restored: bool, ghost start: World) returns (ok: bool)
      requires process == Running(id, if restored then Resolve else Declare) && id < |records|
      requires records[id].rollback == Some(restored) && Reaches(start, State())
      modifies this`process, this`records
      ensures Reaches(start, State())
      ensures || records == old(records)[id := old(records)[id].Advanced(if restored then Failed else Incident)]
              || (!ok && records == old(records))
      ensures (ok ==> process.Idle?) && (calm ==> ok)
    {
      hide Reaches;
      ghost var before := State();
      ghost var taken;
      ok, taken := Advance(id, if restored then Failed else Incident);
      if taken {
        process := Idle;
        assert if restored then ResolveFailure(before, State()) else DeclareIncident(before, State());
        StepReaches(start, before, State());
      }
    }

    /** Maintenance Mode, which is persisted. If this raises, the record stays in flight, whether or not
        it is engaged. */
    method Engage(id: nat, ghost start: World) returns (ok: bool)
      requires process == Running(id, GiveUp) && id < |records| && records[id].rollback == Some(false)
      requires Reaches(start, State())
      modifies this`process, this`engaged
      ensures Reaches(start, State())
      ensures process == Running(id, if ok then Declare else GiveUp) && (ok ==> engaged)
      ensures calm ==> ok
    {
      hide Reaches;
      ghost var before := State();
      var reached := Fortune();
      var answered := Fortune();
      ok := reached && answered;
      if reached {
        engaged := true;
        if ok { process := Running(id, Declare); }
        assert if ok then EngageMaintenance(before, State()) else AdminEngages(before, State());
        StepReaches(start, before, State());
      }
    }

    // ---------------------------------------------------------------- startup recovery

    method FindInFlight() returns (found: Option<nat>)
      ensures found.Some? ==> InFlight(records, found.value)
      ensures found.None? ==> !AnyInFlight(records)
    {
      for i := 0 to |records|
        invariant forall id | 0 <= id < i :: !InFlight(records, id)
      {
        if !Terminal(records[i].stage) { return Some(i); }
      }
      found := None;
    }

    /** Marks a record interrupted and makes it FAILED. */
    method InterruptOne(id: nat, ghost start: World) returns (ok: bool)
      requires process.Look? && InFlight(records, id) && Reaches(start, State())
      modifies this`process, this`records, this`doubted, this`abandoned
      ensures Reaches(start, State()) && Only(old(records), records, id)
      ensures if ok then
                process == Undo(id, old(records)[id].stage) && records[id] == InterruptedTo(old(records)[id]) &&
                doubted == old(doubted)
              else process.Idle?
      ensures calm ==> ok
    {
      hide Reaches;
      ok := Annotated(id, records[id].(interrupted := true), start);
      if ok { ok := FailInterrupted(id, start); }
      if !ok { Abort(start); }
    }

    method FailInterrupted(id: nat, ghost start: World) returns (ok: bool)
      requires process.Look? && InFlight(records, id) && records[id].interrupted && Reaches(start, State())
      modifies this`process, this`records
      ensures Reaches(start, State()) && Only(old(records), records, id)
      ensures if ok then records[id] == old(records)[id].Advanced(Failed) else process.Look? || process.Undo?
      ensures ok ==> process == Undo(id, old(records)[id].stage)
      ensures calm ==> ok
    {
      hide Reaches;
      ghost var before := State();
      ghost var taken;
      ok, taken := Advance(id, Failed);
      if taken {
        process := Undo(id, before.records[id].stage);
        InterruptOf(before, State(), id);
        StepReaches(start, before, State());
      }
    }

    /** The store cannot be reached: recovery stops where it is, and Apchi serves. */
    method Abort(ghost start: World)
      requires process.Look? || process.Undo? || process.UndoneOn? || process.GiveUpOn? || process.DeclareOn?
      requires Reaches(start, State())
      modifies this`process, this`doubted, this`abandoned
      ensures Reaches(start, State()) && process.Idle?
    {
      hide Reaches;
      ghost var before := State();
      doubted, abandoned := doubted || !Recoverable(process), abandoned || Declaring(process);
      process := Idle;
      AbortReaches(start, before, State());
    }

    /** Resolves every record a restart left in flight, and terminates: each pass makes one more
        record terminal, before its rollback touches the Cluster. What was over already is not touched.
        `done` is false when the record store could not be written, and then what is left stays as it is.
        Undisturbed, everything is resolved, and the Cluster is back on the latest Snapshot. */
    method RecoverInterrupted() returns (done: bool)
      requires process.Look?
      modifies this`process, this`records, this`doubted, this`owed, this`abandoned, this`engaged
      modifies cluster`live, cluster`secret, cluster`unmanaged
      ensures Reaches(old(State()), State())
      ensures process.Idle? && (done ==> !AnyInFlight(records))
      ensures |records| == |old(records)|
      ensures done ==> forall k | 0 <= k < |records| :: Resolved(old(records)[k], records[k], engaged)
      ensures Undisturbed() ==> done
      ensures Undisturbed() && Inv(old(State())) && !old(doubted) ==>
                !doubted && engaged == old(engaged) &&
                InSync(cluster.State(), Newest(snapshots), cluster.unmanaged)
    {
      hide Reaches, Inv, Restorable, Resolved, AnyInFlight, CountInFlight, InSync, SectionsOf, Only;
      ghost var start := State();
      ReachesItself(start);
      while true
        invariant process.Look? && Reaches(start, State()) && Pending(start.records, records, engaged)
        invariant Undisturbed() && Inv(start) && !start.doubted ==> !doubted && engaged == start.engaged
        decreases CountInFlight(records)
      {
        var found := FindInFlight();
        if found.None? {
          done := LookedEverywhere(start);
          RecoveredInSync(start, State());
          AllResolved(start.records, records, engaged);
          return;
        }
        done := ResolveOne(found.value, start);
        if !done { return; }
      }
    }

    /** One record: interrupted first, and then its rollback. */
    method ResolveOne(id: nat, ghost start: World) returns (ok: bool)
      requires process.Look? && InFlight(records, id) && Reaches(start, State())
      modifies this`process, this`records, this`doubted, this`owed, this`abandoned, this`engaged
      modifies cluster`live, cluster`secret, cluster`unmanaged
      ensures Reaches(start, State()) && Only(old(records), records, id)
      ensures |records| == old(|records|) && process == if ok then Look else Idle
      ensures ok ==> Resolved(old(records)[id], records[id], engaged)
      ensures ok ==> CountInFlight(records) < old(CountInFlight(records))
      ensures ok ==> forall first | Pending(first, old(records), old(engaged)) :: Pending(first, records, engaged)
      ensures calm ==> ok
      ensures Undisturbed() && Inv(start) && !old(doubted) ==> !doubted && engaged == old(engaged)
    {
      hide Reaches, Inv, Restorable, CountInFlight, SectionsOf, Restored, Pending;
      var reached := records[id].stage;
      ok := InterruptOne(id, start);
      if !ok { return; }
      if RolledBackFrom(reached) { RestorableFrom(start, State()); }
      ghost var restored;
      ok, restored := UndoOne(id, reached, start);
      if ok {
        CountDrops(old(records), records, id);
        forall first | Pending(first, old(records), old(engaged)) ensures Pending(first, records, engaged) {
          OneResolved(first, old(records), old(engaged), records, engaged, id);
        }
      }
    }

    method LookedEverywhere(ghost start: World) returns (done: bool)
      requires process.Look? && !AnyInFlight(records) && Reaches(start, State())
      modifies this`process
      ensures Reaches(start, State()) && process.Idle? && done
    {
      hide Reaches;
      ghost var before := State();
      process := Idle;
      assert RecoveryDone(before, State());
      StepReaches(start, before, State());
      done := true;
    }

    /** Rolls the Cluster back for a record that had touched it, and for no other, and says on the record
        how that went; if it fails, engages Maintenance Mode before the record says INCIDENT. */
    method UndoOne(id: nat, reached: Stage, ghost start: World) returns (ok: bool, ghost restored: bool)
      requires process == Undo(id, reached) && id < |records| && Reaches(start, State())
      modifies this`process, this`records, this`doubted, this`owed, this`abandoned, this`engaged
      modifies cluster`live, cluster`secret, cluster`unmanaged
      ensures Reaches(start, State()) && Only(old(records), records, id)
      ensures process == if ok then Look else Idle
      ensures ok ==> records[id] == if RolledBackFrom(reached) then UndoneTo(old(records)[id], restored)
                                    else old(records)[id]
      ensures if !RolledBackFrom(reached) then
                ok && restored && cluster.State() == old(cluster.State()) && cluster.unmanaged == old(cluster.unmanaged)
              else if restored then
                Restored(Newest(snapshots), old(cluster.State()), old(cluster.unmanaged),
                         cluster.State(), cluster.unmanaged)
              else ok ==> engaged
      ensures old(engaged) ==> engaged
      ensures ok && restored ==> doubted == old(doubted) && engaged == old(engaged)
      ensures calm ==> ok
      ensures Undisturbed() && Restorable(Newest(snapshots), old(cluster.State())) ==> restored
    {
      hide Reaches, Restored, Restorable, SectionsOf;
      var good := AttemptAfterRestart(id, reached, start);
      restored := good;
      if !RolledBackFrom(reached) {
        ok := true;
        return;
      }
      ok := SayUndone(id, good, start);
    }

    /** How the rollback went, and what that takes. */
    method SayUndone(id: nat, restored: bool, ghost start: World) returns (ok: bool)
      requires process == (if restored then UndoneOn(id) else GiveUpOn(id)) && id < |records| && Reaches(start, State())
      modifies this`process, this`records, this`doubted, this`abandoned, this`engaged
      ensures Reaches(start, State()) && Only(old(records), records, id)
      ensures process == if ok then Look else Idle
      ensures ok ==> records[id] == UndoneTo(old(records)[id], restored)
      ensures ok ==> if restored then doubted == old(doubted) && engaged == old(engaged) else engaged
      ensures (old(engaged) ==> engaged) && (calm ==> ok)
    {
      hide Reaches;
      ok := Annotated(id, records[id].(rollback := Some(restored)), start);
      if !ok {
        Abort(start);
      } else if restored {
        LookOn(start);
      } else {
        ok := DeclareAfter(id, start);
      }
    }

    method LookOn(ghost start: World)
      requires process.UndoneOn? && process.id < |records| && records[process.id].rollback == Some(true)
      requires Reaches(start, State())
      modifies this`process
      ensures Reaches(start, State()) && process == Look
    {
      hide Reaches;
      ghost var before := State();
      process := Look;
      assert LookAgain(before, State());
      StepReaches(start, before, State());
    }

    method AttemptAfterRestart(id: nat, reached: Stage, ghost start: World) returns (restored: bool)
      requires process == Undo(id, reached) && id < |records| && Reaches(start, State())
      modifies this`process, this`doubted, this`owed, this`abandoned, cluster`live, cluster`secret, cluster`unmanaged
      ensures Reaches(start, State())
      ensures process == if !restored then GiveUpOn(id) else if RolledBackFrom(reached) then UndoneOn(id) else Look
      ensures !RolledBackFrom(reached) ==>
                restored && cluster.State() == old(cluster.State()) && cluster.unmanaged == old(cluster.unmanaged)
      ensures RolledBackFrom(reached) && restored ==>
                Restored(Newest(snapshots), old(cluster.State()), old(cluster.unmanaged),
                         cluster.State(), cluster.unmanaged)
      ensures restored ==> doubted == old(doubted)
      ensures Undisturbed() && Restorable(Newest(snapshots), old(cluster.State())) ==> restored
    {
      hide Restored, Astray, Newest, Reaches, Restorable, UndoInterrupted, RestoreLeaves, Restarts;
      ghost var before := State();
      restored := true;
      if RolledBackFrom(reached) {
        var rollout: bool := *;
        restored := PutBack(rollout);
        process := if restored then UndoneOn(id) else GiveUpOn(id);
        doubted, owed, abandoned := doubted || !restored, owed || !restored, abandoned && restored;
      } else {
        process := Look;
      }
      UndoIs(before, State(), restored);
      UndoReaches(start, before, State());
    }

    /** Maintenance Mode, and then the record; either write may fail, having taken effect or not. */
    method DeclareAfter(id: nat, ghost start: World) returns (ok: bool)
      requires process == GiveUpOn(id) && id < |records| && records[id].rollback == Some(false)
      requires Reaches(start, State())
      modifies this`process, this`records, this`engaged, this`doubted, this`abandoned
      ensures Reaches(start, State()) && process == if ok then Look else Idle
      ensures || (records == old(records)[id := old(records)[id].Advanced(Incident)] && engaged)
              || (!ok && records == old(records))
      ensures (old(engaged) ==> engaged) && (calm ==> ok)
    {
      hide Reaches;
      ok := EngageAfter(id, start);
      if !ok { return; }
      ok := SayIncident(id, start);
      if !ok { Abort(start); }
    }

    method SayIncident(id: nat, ghost start: World) returns (ok: bool)
      requires process == DeclareOn(id) && id < |records| && records[id].rollback == Some(false)
      requires Reaches(start, State())
      modifies this`process, this`records
      ensures Reaches(start, State()) && (ok ==> process == Look) && (process == Look || process == old(process))
      ensures || records == old(records)[id := old(records)[id].Advanced(Incident)]
              || (!ok && records == old(records))
      ensures calm ==> ok
    {
      hide Reaches;
      ghost var before := State();
      ghost var taken;
      ok, taken := Advance(id, Incident);
      if taken {
        process := Look;
        assert DeclareAfterRestart(before, State());
        StepReaches(start, before, State());
      }
    }

    method EngageAfter(id: nat, ghost start: World) returns (ok: bool)
      requires process == GiveUpOn(id) && id < |records| && records[id].rollback == Some(false)
      requires Reaches(start, State())
      modifies this`process, this`engaged, this`doubted, this`abandoned
      ensures Reaches(start, State()) && process == if ok then DeclareOn(id) else Idle
      ensures (ok ==> engaged) && (old(engaged) ==> engaged) && (calm ==> ok)
    {
      hide Reaches;
      ghost var before := State();
      var reached := Fortune();
      var answered := Fortune();
      ok := reached && answered;
      engaged := engaged || reached;
      if ok {
        process := DeclareOn(id);
        EngageReaches(start, before, State());
      } else {
        doubted, abandoned := true, true;
        process := Idle;
        AbortReaches(start, before, State());
      }
    }
  }

  function IndexOf(stage: Stage): nat {
    match stage case Validating => 0 case Applying => 1 case RollingOut => 2 case Verifying => 3 case _ => 4
  }

  lemma Entered(before: World, after: World, id: nat, stage: Stage, ok: bool, taken: bool)
    requires before.process == Running(id, Enter(stage)) && id < |before.records| && (ok ==> taken)
    requires after == before.(
               process := Running(id, if ok then Do(stage) else Handle(stage)),
               records := if taken then before.records[id := before.records[id].Advanced(stage)] else before.records,
               doubted := before.doubted || (!ok && stage == Committing))
    ensures EnterStage(before, after)
  {
  }

  lemma NewestOf(w: World)
    requires w.snapshots != []
    ensures LatestNumber(w.snapshots) == Some(|w.snapshots|)
    ensures SectionsOf(w.snapshots, LatestNumber(w.snapshots)) == w.snapshots[|w.snapshots| - 1] == Latest(w)
  {
  }

  lemma Rederives(before: World, after: World, ok: bool, taken: bool)
    requires Runs(before, Rederive) && (ok ==> taken)
    requires after == Moved(if taken then Rederived(before) else before, if ok then Finish else Handle(Committing)).(
               doubted := before.doubted || !ok)
    ensures Progressed(before, after)
  {
    hide Validate, EnterStage, ApplySections, RollOutCluster, Verify, Commit, FinishApply, LatestNumber, Latest;
    assert if ok then RederiveCandidate(before, after) else CommitFails(before, after);
  }

  /** An undisturbed rollback that was accepted passes its Verification, restarted or not. */
  lemma PutBackServesAll(snapshot: Configured, before: Served, middle: Served, there: Live, after: Served, kept: Live)
    requires (after == middle && kept == there) || Restarts(middle, there, after, kept)
    ensures var statements := Statements(snapshot, RollbackPlan(snapshot, before.live.Keys, before.secret,
                                                                RenderSecret(snapshot)));
            AcceptsAll(before.live, statements) &&
            middle == Served(IssueAccepted(before.live, statements), RenderSecret(snapshot)) ==>
              snapshot.Keys <= after.live.Keys
  {
    hide Statements, AcceptsAll, RollbackPlan, RenderSecret, IssueAccepted, Restarts;
    var statements := Statements(snapshot, RollbackPlan(snapshot, before.live.Keys, before.secret,
                                                        RenderSecret(snapshot)));
    if AcceptsAll(before.live, statements) &&
       middle == Served(IssueAccepted(before.live, statements), RenderSecret(snapshot)) {
      RollbackServesAll(before.live, before.secret, snapshot);
      if Restarts(middle, there, after, kept) { RestartServesAll(middle, there, after, kept, snapshot); }
    }
  }

  lemma AttemptIs(before: World, after: World, restored: bool)
    requires Runs(before, Restore)
    requires if restored then
               Restored(Newest(before.snapshots), before.served, before.foreign, after.served, after.foreign)
             else Astray(Newest(before.snapshots), before.served, before.foreign, after.served, after.foreign)
    requires after == Moved(before, if restored then Resolve else GiveUp).(served := after.served,
               foreign := after.foreign, doubted := before.doubted || !restored, owed := before.owed || !restored,
               abandoned := before.abandoned && restored)
    ensures RestoreCluster(before, after)
  {
    hide Restored, Astray, SectionsOf, LatestNumber;
  }

  lemma UndoIs(before: World, after: World, restored: bool)
    requires before.process.Undo? && before.process.id < |before.records|
    requires var id, reached := before.process.id, before.process.reached;
             if !RolledBackFrom(reached) then after == before.(process := Look)
             else
               (if restored then
                  Restored(Newest(before.snapshots), before.served, before.foreign, after.served, after.foreign)
                else Astray(Newest(before.snapshots), before.served, before.foreign, after.served, after.foreign)) &&
               after == before.(process := if restored then UndoneOn(id) else GiveUpOn(id), served := after.served,
                                foreign := after.foreign, doubted := before.doubted || !restored,
                                owed := before.owed || !restored, abandoned := before.abandoned && restored)
    ensures UndoInterrupted(before, after)
  {
    hide Restored, Astray, SectionsOf, LatestNumber;
  }

  lemma InterruptOf(before: World, after: World, id: nat)
    requires before.process.Look? && InFlight(before.records, id) && before.records[id].interrupted
    requires after == before.(process := Undo(id, before.records[id].stage),
               records := before.records[id := before.records[id].Advanced(Failed)])
    ensures Interrupt(before, after)
  {
  }
}
