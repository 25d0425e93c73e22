/** The Catalogs Section acting on a Cluster: the Secret first, then the DDL, any of which may
    fail, having taken effect or not. */
module CatalogsSection {
  import opened Outcomes
  import opened Ordering
  import opened Slices
  import opened Catalogs
  import opened CatalogPlans
  import opened CatalogDdl
  import opened CatalogRecovery
  import opened CatalogRestarts

  /** The catalogs of a Cluster: what the coordinator serves, and the Secret it starts from. */
  datatype Served = Served(live: Live, secret: SecretData)

  /** A restart: the coordinator serves what its Secret seeds, and unmanaged catalogs that have
      a file of their own. */
  ghost predicate Restarts(before: Served, foreign: Live, after: Served, kept: Live) {
    after.secret == before.secret && Fewer(foreign, kept) && Reloads(before.secret, after.live, kept)
  }

  /** Nothing happened, or the coordinator restarted. */
  ghost predicate MayRestart(before: Served, foreign: Live, after: Served, kept: Live) {
    (after == before && kept == foreign) || Restarts(before, foreign, after, kept)
  }

  /** Some of the statements have been issued, each accepted when it was, with restarts in between;
      on success all of them. */
  ghost predicate IssuedAmid(secret: SecretData, live: Live, foreign: Live, statements: seq<Statement>,
                             after: Live, kept: Live, ok: bool) {
    exists rest :: Leads(secret, Issuing(live, foreign, statements), Issuing(after, kept, rest)) && (ok ==> rest == [])
  }

  /** What writing a Secret and issuing statements can leave, having succeeded or not: nothing done,
      or the new Secret and some of the statements issued. */
  ghost predicate Written(before: Served, foreign: Live, data: SecretData, statements: seq<Statement>,
                          after: Served, kept: Live, ok: bool) {
    || (!ok && after == before && kept == foreign)
    || (after.secret == data && IssuedAmid(data, before.live, foreign, statements, after.live, kept, ok))
  }

  /** What one Apply of the Section can leave. The coordinator may restart at any moment, also before
      the Secret is written. */
  ghost predicate ApplyLeaves(before: Served, foreign: Live, desired: Configured, plan: Plan,
                              after: Served, kept: Live, ok: bool) {
    exists at: Served, there: Live :: MayRestart(before, foreign, at, there) &&
      Written(at, there, RenderSecret(desired),
              Statements(desired, Settled(plan, before.live.Keys, before.secret, RenderSecret(desired))),
              after, kept, ok)
  }

  /** What a rollback can leave. The coordinator may restart at any moment once the Secret is written. */
  ghost predicate RestoreLeaves(before: Served, foreign: Live, snapshot: Configured, after: Served, kept: Live,
                                ok: bool) {
    Written(before, foreign, RenderSecret(snapshot),
            Statements(snapshot, RollbackPlan(snapshot, before.live.Keys, before.secret, RenderSecret(snapshot))),
            after, kept, ok)
  }

  /** Whether a rollback finds anything to undo. */
  predicate Differs(state: Served, snapshot: Configured) {
    state.secret != RenderSecret(snapshot) ||
    !RollbackPlan(snapshot, state.live.Keys, state.secret, RenderSecret(snapshot)).Empty()
  }

  lemma CreateNext(desired: Configured, plan: Plan, i: nat)
    requires i < |plan.created|
    ensures i < |Statements(desired, plan)|
    ensures Statements(desired, plan)[i] == Create(plan.created[i], Wanted(desired, plan.created[i]))
  {
    PhaseLengths(desired, plan);
    var names := plan.created;
    CreatesPrefix(desired, names, i + 1);
    assert Creates(desired, names)[i] == Creates(desired, names)[..i + 1][i];
    CreatesPrefix(desired, names[..i + 1], i);
    assert names[..i + 1][|names[..i + 1]| - 1] == names[i];
  }

  lemma RecreatesLast(desired: Configured, names: seq<string>)
    requires names != []
    ensures |Recreates(desired, names)| == 2 * |names|
    ensures Recreates(desired, names)[2 * |names| - 2] == Drop(names[|names| - 1])
    ensures Recreates(desired, names)[2 * |names| - 1] ==
            Create(names[|names| - 1], Wanted(desired, names[|names| - 1]))
  {
    RecreatesPrefix(desired, names[..|names| - 1], 0);
  }

  lemma RecreatesAt(desired: Configured, names: seq<string>, j: nat)
    requires j < |names|
    ensures |Recreates(desired, names)| == 2 * |names|
    ensures Recreates(desired, names)[2 * j] == Drop(names[j])
    ensures Recreates(desired, names)[2 * j + 1] == Create(names[j], Wanted(desired, names[j]))
  {
    RecreatesPrefix(desired, names, 2 * j + 2);
    RecreatesLast(desired, names[..j + 1]);
    var all, some := Recreates(desired, names), Recreates(desired, names[..j + 1]);
    assert all[..2 * j + 2] == some;
    assert all[2 * j] == some[2 * j] && all[2 * j + 1] == some[2 * j + 1];
  }

  lemma MiddleAt<T>(a: seq<T>, b: seq<T>, c: seq<T>, i: nat)
    requires i < |b|
    ensures |a| + i < |a + b + c| && (a + b + c)[|a| + i] == b[i]
  {
  }

  lemma RecreateNext(desired: Configured, plan: Plan, j: nat)
    requires j < |plan.replaced|
    ensures |plan.created| + 2 * j + 1 < |Statements(desired, plan)|
    ensures Statements(desired, plan)[|plan.created| + 2 * j] == Drop(plan.replaced[j])
    ensures Statements(desired, plan)[|plan.created| + 2 * j + 1] ==
            Create(plan.replaced[j], Wanted(desired, plan.replaced[j]))
  {
    PhaseLengths(desired, plan);
    RecreatesAt(desired, plan.replaced, j);
    var c, r, d := Creates(desired, plan.created), Recreates(desired, plan.replaced), Drops(plan.dropped);
    MiddleAt(c, r, d, 2 * j);
    MiddleAt(c, r, d, 2 * j + 1);
  }

  lemma DropNext(desired: Configured, plan: Plan, m: nat)
    requires m < |plan.dropped|
    ensures |plan.created| + 2 * |plan.replaced| + m < |Statements(desired, plan)|
    ensures Statements(desired, plan)[|plan.created| + 2 * |plan.replaced| + m] == Drop(plan.dropped[m])
  {
    PhaseLengths(desired, plan);
    var names := plan.dropped;
    DropsPrefix(names, m + 1);
    assert Drops(names)[m] == Drops(names)[..m + 1][m];
    DropsPrefix(names[..m + 1], m);
    assert names[..m + 1][|names[..m + 1]| - 1] == names[m];
  }

  /** One more accepted statement leads on. */
  lemma IssuedOneMore(secret: SecretData, start: Issuing, statements: seq<Statement>, k: nat, live: Live, foreign: Live)
    requires k < |statements| && Leads(secret, start, Issuing(live, foreign, statements[k..]))
    requires Accepts(live, statements[k])
    ensures Leads(secret, start, Issuing(Issue(live, statements[k]), foreign, statements[k + 1..]))
  {
    hide Leads;
    var a, b := Issuing(live, foreign, statements[k..]),
      Issuing(Issue(live, statements[k]), foreign, statements[k + 1..]);
    assert a.rest[1..] == b.rest;
    assert Moves(secret, a, b);
    LeadsOn(secret, start, a, b);
  }

  lemma RestartedOnce(secret: SecretData, start: Issuing, rest: seq<Statement>, live: Live, foreign: Live,
                      after: Live, kept: Live)
    requires Leads(secret, start, Issuing(live, foreign, rest))
    requires MayRestart(Served(live, secret), foreign, Served(after, secret), kept)
    ensures Leads(secret, start, Issuing(after, kept, rest))
  {
    hide Leads, Reloads;
    if !(after == live && kept == foreign) {
      assert Moves(secret, Issuing(live, foreign, rest), Issuing(after, kept, rest));
      LeadsOn(secret, start, Issuing(live, foreign, rest), Issuing(after, kept, rest));
    }
  }

  class Cluster {
    var live: Live
    var secret: SecretData
    var unmanaged: Live   // the catalogs with a file of their own in the coordinator's store
    var calm: bool        // every request is answered, and the coordinator restarts only when told to

    /** Something that only a calm Cluster promises. */
    method Fortune() returns (good: bool)
      ensures calm ==> good
    {
      good := *;
      good := good || calm;
    }

    function State(): Served
      reads this
    {
      Served(live, secret)
    }

    /** The outcome of a request is the coordinator's and the network's to decide: refused, done,
        or done with the answer lost. */
    method Request(statement: Statement) returns (ok: bool)
      modifies this`live
      ensures ok ==> Accepts(old(live), statement) && live == Issue(old(live), statement)
      ensures live == old(live) || (Accepts(old(live), statement) && live == Issue(old(live), statement))
      ensures calm ==> ok == Accepts(old(live), statement) && (!ok ==> live == old(live))
    {
      var reached := Fortune();
      var answered := Fortune();
      ok := reached && answered && Accepts(live, statement);
      if reached && Accepts(live, statement) {
        live := Issue(live, statement);
      }
    }

    method CreateCatalog(name: string, content: Content) returns (ok: bool)
      modifies this`live
      ensures ok ==> Accepts(old(live), Create(name, content)) && live == Issue(old(live), Create(name, content))
      ensures live == old(live) || (Accepts(old(live), Create(name, content)) &&
                live == Issue(old(live), Create(name, content)))
      ensures calm ==> ok == Accepts(old(live), Create(name, content)) && (!ok ==> live == old(live))
    {
      ok := Request(Create(name, content));
    }

    method DropCatalog(name: string) returns (ok: bool)
      modifies this`live
      ensures ok ==> Accepts(old(live), Drop(name)) && live == Issue(old(live), Drop(name))
      ensures live == old(live) || (Accepts(old(live), Drop(name)) && live == Issue(old(live), Drop(name)))
      ensures calm ==> ok == Accepts(old(live), Drop(name)) && (!ok ==> live == old(live))
    {
      ok := Request(Drop(name));
    }

    method ShowCatalogs() returns (answer: Option<set<string>>)
      ensures answer.Some? ==> answer.value == live.Keys
      ensures calm ==> answer.Some?
    {
      var answered := Fortune();
      answer := if answered then Some(live.Keys) else None;
    }

    method ReadSecret() returns (answer: Option<SecretData>)
      ensures answer.Some? ==> answer.value == secret
      ensures calm ==> answer.Some?
    {
      var answered := Fortune();
      answer := if answered then Some(secret) else None;
    }

    /** Afterwards the Secret's contents are exactly the data, or, when this fails, perhaps not. */
    method WriteSecret(data: SecretData) returns (ok: bool)
      modifies this`secret
      ensures ok ==> secret == data
      ensures secret == data || secret == old(secret)
      ensures calm ==> ok
    {
      var reached := Fortune();
      var answered := Fortune();
      ok := reached && answered;
      if reached {
        secret := data;
      }
    }

    /** A Rollout: the pod is replaced and loads what it finds. It may not come back, and a
        Secret that does not read is one it does not come back on. */
    method Restart() returns (ok: bool)
      modifies this`live, this`unmanaged
      ensures ok ==> Restarts(old(State()), old(unmanaged), State(), unmanaged)
      ensures MayRestart(old(State()), old(unmanaged), State(), unmanaged)
      ensures calm ==> ok == Loaded(secret).Some?
    {
      var happens := Fortune();
      var answered := Fortune();
      var gone: set<string> := *;
      LoadedSeeds(secret);
      match Loaded(secret)
      case None =>
        ok := false;
      case Some(loaded) =>
        ok := happens && answered;
        if happens {
          unmanaged := unmanaged - gone;
          live := unmanaged + loaded;
        }
    }

    /** The coordinator may restart for reasons of its own, at any moment. */
    method Unrest()
      modifies this`live, this`unmanaged
      ensures MayRestart(old(State()), old(unmanaged), State(), unmanaged)
      ensures calm ==> live == old(live) && unmanaged == old(unmanaged)
    {
      var quiet := Fortune();
      if !quiet { var came := Restart(); }
    }

    method Meanwhile(ghost start: Issuing, ghost rest: seq<Statement>)
      requires Leads(secret, start, Issuing(live, unmanaged, rest))
      modifies this`live, this`unmanaged
      ensures Leads(secret, start, Issuing(live, unmanaged, rest))
      ensures calm ==> live == old(live) && unmanaged == old(unmanaged)
    {
      hide Leads, Reloads, Fewer;
      ghost var before, foreign := live, unmanaged;
      Unrest();
      RestartedOnce(secret, start, rest, before, foreign, live, unmanaged);
    }

    /** Issues one statement; whether it was taken shows in what is live. */
    method IssueNext(statement: Statement, ghost start: Issuing, ghost statements: seq<Statement>, ghost k: nat)
      returns (ok: bool)
      requires k < |statements| && statement == statements[k]
      requires Leads(secret, start, Issuing(live, unmanaged, statements[k..]))
      modifies this`live, this`unmanaged
      ensures ok ==> Leads(secret, start, Issuing(live, unmanaged, statements[k + 1..]))
      ensures IssuedSome(secret, start, live, unmanaged)
      ensures calm ==> ok == Accepts(old(live), statement) && unmanaged == old(unmanaged) &&
                       live == if ok then Issue(old(live), statement) else old(live)
    {
      hide Leads;
      Meanwhile(start, statements[k..]);
      ghost var at := live;
      match statement {
        case Create(name, content) => ok := CreateCatalog(name, content);
        case Drop(name) => ok := DropCatalog(name);
      }
      if Accepts(at, statement) { IssuedOneMore(secret, start, statements, k, at, unmanaged); }
      SomeIssued(secret, start, statements[k..], at, unmanaged);
      if Accepts(at, statement) { SomeIssued(secret, start, statements[k + 1..], Issue(at, statement), unmanaged); }
    }

    /** Issues the plan, stopping at the first statement that fails. */
    method Execute(desired: Configured, plan: Plan) returns (ok: bool)
      modifies this`live, this`unmanaged
      ensures IssuedAmid(secret, old(live), old(unmanaged), Statements(desired, plan), live, unmanaged, ok)
      ensures calm ==> ok == AcceptsAll(old(live), Statements(desired, plan)) && unmanaged == old(unmanaged) &&
                       live == IssueAccepted(old(live), Statements(desired, plan))
    {
      hide Leads, IssuedSome, Statements, Accepts, Issue;
      ghost var start, statements := Issuing(live, unmanaged, Statements(desired, plan)), Statements(desired, plan);
      ghost var k := 0;
      Lengths(desired, plan);
      LeadsNowhere(secret, start);
      assert statements[0..] == statements;
      for i := 0 to |plan.created|
        invariant k == i && k <= |statements| && Leads(secret, start, Issuing(live, unmanaged, statements[k..]))
        invariant calm ==> unmanaged == old(unmanaged) && SameFrom(old(live), statements, live, statements[k..])
      {
        CreateNext(desired, plan, i);
        ghost var at := live;
        ok := IssueNext(Create(plan.created[i], Wanted(desired, plan.created[i])), start, statements, k);
        if calm { SameOnceMore(old(live), statements, at, k); }
        if !ok { StoppedSomewhere(secret, start, live, unmanaged); return; }
        k := k + 1;
      }
      for j := 0 to |plan.replaced|
        invariant k == |plan.created| + 2 * j && k <= |statements|
        invariant Leads(secret, start, Issuing(live, unmanaged, statements[k..]))
        invariant calm ==> unmanaged == old(unmanaged) && SameFrom(old(live), statements, live, statements[k..])
      {
        RecreateNext(desired, plan, j);
        ghost var at := live;
        ok := IssueNext(Drop(plan.replaced[j]), start, statements, k);
        if calm { SameOnceMore(old(live), statements, at, k); }
        if !ok { StoppedSomewhere(secret, start, live, unmanaged); return; }
        k := k + 1;
        at := live;
        ok := IssueNext(Create(plan.replaced[j], Wanted(desired, plan.replaced[j])), start, statements, k);
        if calm { SameOnceMore(old(live), statements, at, k); }
        if !ok { StoppedSomewhere(secret, start, live, unmanaged); return; }
        k := k + 1;
      }
      for m := 0 to |plan.dropped|
        invariant k == |plan.created| + 2 * |plan.replaced| + m && k <= |statements|
        invariant Leads(secret, start, Issuing(live, unmanaged, statements[k..]))
        invariant calm ==> unmanaged == old(unmanaged) && SameFrom(old(live), statements, live, statements[k..])
      {
        DropNext(desired, plan, m);
        ghost var at := live;
        ok := IssueNext(Drop(plan.dropped[m]), start, statements, k);
        if calm { SameOnceMore(old(live), statements, at, k); }
        if !ok { StoppedSomewhere(secret, start, live, unmanaged); return; }
        k := k + 1;
      }
      assert statements[k..] == [];
      ok := true;
    }

    /** Writes a Secret and issues a plan, whatever the coordinator does meanwhile. */
    method WriteThenExecute(target: Configured, plan: Plan) returns (ok: bool)
      modifies this`live, this`secret, this`unmanaged
      ensures Written(old(State()), old(unmanaged), RenderSecret(target), Statements(target, plan), State(), unmanaged,
                ok)
      ensures calm ==>
                ok == AcceptsAll(old(live), Statements(target, plan)) && unmanaged == old(unmanaged) &&
                State() == Served(IssueAccepted(old(live), Statements(target, plan)), RenderSecret(target))
    {
      hide IssuedAmid, Statements, RenderSecret;
      var data := RenderSecret(target);
      ghost var before := State();
      ok := WriteSecret(data);
      if !ok {
        WrittenOrNot(data, before, unmanaged, Statements(target, plan), State());
        return false;
      }
      ok := Execute(target, plan);
    }

    /** The Secret, then the DDL. What is already settled is read before anything is written. */
    method Apply(desired: Configured, plan: Plan) returns (ok: bool)
      modifies this`live, this`secret, this`unmanaged
      ensures ApplyLeaves(old(State()), old(unmanaged), desired, plan, State(), unmanaged, ok)
      ensures calm ==>
                var settled := Settled(plan, old(live).Keys, old(secret), RenderSecret(desired));
                ok == AcceptsAll(old(live), Statements(desired, settled)) && unmanaged == old(unmanaged) &&
                State() == Served(IssueAccepted(old(live), Statements(desired, settled)), RenderSecret(desired))
    {
      hide Statements, RenderSecret, IssuedAmid, Restarts, Settled;
      ghost var before, foreign := State(), unmanaged;
      var data := RenderSecret(desired);
      var names := ShowCatalogs();
      var durable := ReadSecret();
      if names.None? || durable.None? {
        assert MayRestart(before, foreign, before, foreign);
        return false;
      }
      var settled := Settled(plan, names.value, durable.value, data);
      Unrest();
      ghost var at, there := State(), unmanaged;
      ok := WriteThenExecute(desired, settled);
      assert MayRestart(before, foreign, at, there);
    }

    /** The rollback, planned before anything is written; and whether anything was undone. */
    method Restore(snapshot: Configured) returns (ok: bool, changed: bool)
      modifies this`live, this`secret, this`unmanaged
      ensures RestoreLeaves(old(State()), old(unmanaged), snapshot, State(), unmanaged, ok)
      ensures ok ==> (changed <==> Differs(old(State()), snapshot))
      ensures calm ==>
                var plan := RollbackPlan(snapshot, old(live).Keys, old(secret), RenderSecret(snapshot));
                ok == AcceptsAll(old(live), Statements(snapshot, plan)) && unmanaged == old(unmanaged) &&
                State() == Served(IssueAccepted(old(live), Statements(snapshot, plan)), RenderSecret(snapshot))
    {
      hide Statements, RenderSecret, IssuedAmid, RollbackPlan;
      changed := false;
      var data := RenderSecret(snapshot);
      var durable := ReadSecret();
      if durable.None? { return false, false; }
      var names := ShowCatalogs();
      if names.None? { return false, false; }
      var rollback := RollbackPlan(snapshot, names.value, durable.value, data);
      ok := WriteThenExecute(snapshot, rollback);
      changed := durable.value != data || !rollback.Empty();
    }
  }

  /** Issuing the rest from here comes to the same as issuing all from there. */
  ghost predicate SameFrom(start: Live, all: seq<Statement>, live: Live, rest: seq<Statement>) {
    (AcceptsAll(start, all) <==> AcceptsAll(live, rest)) && IssueAccepted(start, all) == IssueAccepted(live, rest)
  }

  lemma SameOnceMore(start: Live, all: seq<Statement>, live: Live, k: nat)
    requires k < |all| && SameFrom(start, all, live, all[k..])
    ensures if Accepts(live, all[k]) then SameFrom(start, all, Issue(live, all[k]), all[k + 1..])
            else !AcceptsAll(start, all) && IssueAccepted(start, all) == live
  {
    assert all[k..][0] == all[k] && all[k..][1..] == all[k + 1..];
  }

  /** Something of what was to be issued has been. */
  ghost predicate IssuedSome(secret: SecretData, start: Issuing, live: Live, foreign: Live) {
    exists rest :: Leads(secret, start, Issuing(live, foreign, rest))
  }

  lemma SomeIssued(secret: SecretData, start: Issuing, rest: seq<Statement>, live: Live, foreign: Live)
    ensures Leads(secret, start, Issuing(live, foreign, rest)) ==> IssuedSome(secret, start, live, foreign)
  {
  }

  lemma StoppedSomewhere(secret: SecretData, start: Issuing, live: Live, foreign: Live)
    requires IssuedSome(secret, start, live, foreign)
    ensures IssuedAmid(secret, start.live, start.foreign, start.rest, live, foreign, false)
  {
  }

  /** A write that failed has taken effect or not, and nothing is issued after it. */
  lemma WrittenOrNot(data: SecretData, at: Served, there: Live, statements: seq<Statement>, after: Served)
    requires after.live == at.live && (after.secret == at.secret || after.secret == data)
    ensures after == at || (after.secret == data &&
              IssuedAmid(data, at.live, there, statements, after.live, there, false))
  {
    LeadsNowhere(data, Issuing(at.live, there, statements));
  }

  // ------------------------------------------------------------------ the Section as a whole

  /** The Cluster serves a configuration, and its Secret says the same. */
  ghost predicate InSync(state: Served, catalogs: Configured, foreign: Live) {
    Unmanaged(foreign, catalogs) && state == Served(Serving(foreign, catalogs), RenderSecret(catalogs))
  }

  /** Between two configurations: untouched, or the new Secret over a mixture. */
  ghost predicate Partway(state: Served, snapshot: Configured, desired: Configured, foreign: Live) {
    Unmanaged(foreign, snapshot) && Unmanaged(foreign, desired) &&
    (InSync(state, snapshot, foreign) || (state.secret == RenderSecret(desired) &&
        Mixture(snapshot, desired, foreign, state.live)))
  }

  /** An Apply that passed its check leaves the Cluster partway, and on success all the way, however
      often the coordinator restarts while it is under way. */
  lemma ApplyFromSync(before: Served, snapshot: Configured, desired: Configured, foreign: Live,
                      after: Served, kept: Live, ok: bool)
    requires InSync(before, snapshot, foreign) && CleanAll(snapshot) && CleanAll(desired)
    requires Check(PlanOf(desired, snapshot), before.live.Keys, before.secret, RenderSecret(desired)) == []
    requires ApplyLeaves(before, foreign, desired, PlanOf(desired, snapshot), after, kept, ok)
    ensures Fewer(foreign, kept) && Partway(after, snapshot, desired, kept)
    ensures ok ==> InSync(after, desired, kept)
  {
    hide CleanAll, Statements, PlanOf, RenderSecret, IssuedAmid, Restarts, Mixture, Serving;
    CheckInSync(snapshot, desired, foreign);
    var all := Statements(desired, PlanOf(desired, snapshot));
    var at, there :| MayRestart(before, foreign, at, there) &&
      Written(at, there, RenderSecret(desired), all, after, kept, ok);
    StaysInSync(before, snapshot, foreign, at, there);
    StillUnmanaged(before, foreign, desired, at, there);
    if after.secret == RenderSecret(desired) &&
        IssuedAmid(RenderSecret(desired), at.live, there, all, after.live, kept, ok) {
      IssuedFromSync(at, snapshot, desired, there, after, kept, ok);
      FewerStill(foreign, there, kept);
    }
  }

  lemma StillUnmanaged(before: Served, foreign: Live, catalogs: Configured, after: Served, kept: Live)
    requires Unmanaged(foreign, catalogs) && MayRestart(before, foreign, after, kept)
    ensures Unmanaged(kept, catalogs) && Fewer(foreign, kept)
  {
  }

  lemma IssuedFromSync(at: Served, snapshot: Configured, desired: Configured, foreign: Live, after: Served,
                       kept: Live, ok: bool)
    requires InSync(at, snapshot, foreign) && Unmanaged(foreign, desired) && CleanAll(snapshot) && CleanAll(desired)
    requires after.secret == RenderSecret(desired)
    requires IssuedAmid(RenderSecret(desired), at.live, foreign, Statements(desired, PlanOf(desired, snapshot)),
               after.live, kept, ok)
    ensures Fewer(foreign, kept) && Partway(after, snapshot, desired, kept)
    ensures ok ==> InSync(after, desired, kept)
  {
    hide CleanAll, Statements, PlanOf, RenderSecret, Leads, Mixture, Serving, Restores;
    var all := Statements(desired, PlanOf(desired, snapshot));
    var rest :| Leads(RenderSecret(desired), Issuing(at.live, foreign, all), Issuing(after.live, kept, rest)) &&
      (ok ==> rest == []);
    UndoneAtEveryInstant(snapshot, desired, foreign, Issuing(after.live, kept, rest));
    FewerUnmanaged(foreign, kept, snapshot);
    FewerUnmanaged(foreign, kept, desired);
    if ok {
      ApplyBrings(snapshot, desired, foreign);
      CompletedServesTheTarget(at.live, all, desired, foreign, Issuing(after.live, kept, rest));
    }
  }

  lemma ApplyBrings(snapshot: Configured, desired: Configured, foreign: Live)
    requires Unmanaged(foreign, snapshot) && Unmanaged(foreign, desired)
    ensures Bring(Serving(foreign, snapshot), Statements(desired, PlanOf(desired, snapshot)), desired, foreign)
  {
    hide Statements, PlanOf, IssueAll, AcceptsAll;
    ApplyReachesDesired(snapshot, desired, foreign);
    forall s | s in Statements(desired, PlanOf(desired, snapshot)) ensures s.name !in foreign {
      ApplyIsOurs(snapshot, desired, foreign, s);
    }
  }

  lemma StaysInSync(before: Served, catalogs: Configured, foreign: Live, after: Served, kept: Live)
    requires InSync(before, catalogs, foreign) && MayRestart(before, foreign, after, kept) && CleanAll(catalogs)
    ensures InSync(after, catalogs, kept)
  {
    if Restarts(before, foreign, after, kept) { RestartInSync(before, catalogs, foreign, after, kept); }
  }

  /** A restart at any instant of an Apply serves one configuration or the other, whole: the one
      whose Secret is written. */
  lemma RestartServesOneConfiguration(before: Served, snapshot: Configured, desired: Configured, foreign: Live,
                                      during: Served, there: Live, ok: bool, after: Served, kept: Live)
    requires InSync(before, snapshot, foreign) && CleanAll(snapshot) && CleanAll(desired)
    requires Check(PlanOf(desired, snapshot), before.live.Keys, before.secret, RenderSecret(desired)) == []
    requires ApplyLeaves(before, foreign, desired, PlanOf(desired, snapshot), during, there, ok)
    requires Restarts(during, there, after, kept)
    ensures during.secret == RenderSecret(snapshot) || during.secret == RenderSecret(desired)
    ensures InSync(after, if during.secret == RenderSecret(snapshot) then snapshot else desired, kept)
  {
    hide CleanAll, PlanOf, RenderSecret, ApplyLeaves, Restarts, Mixture, Serving, Check;
    ApplyFromSync(before, snapshot, desired, foreign, during, there, ok);
    if during.secret == RenderSecret(snapshot) {
      RestartOnNew(during, snapshot, there, after, kept);
    } else {
      RestartOnNew(during, desired, there, after, kept);
    }
  }

  lemma SyncedIsPartway(state: Served, snapshot: Configured, desired: Configured, foreign: Live)
    requires Unmanaged(foreign, snapshot) && InSync(state, desired, foreign)
    ensures Partway(state, snapshot, desired, foreign)
  {
    forall name | name in state.live && name !in foreign
      ensures name in desired && state.live[name] == ContentOf(desired[name])
    {
    }
  }

  /** Nothing to undo: the rollback of a Cluster in sync is empty. */
  lemma UndoingNothing(catalogs: Configured, foreign: Live)
    requires Unmanaged(foreign, catalogs)
    ensures RollbackPlan(catalogs, Serving(foreign, catalogs).Keys, RenderSecret(catalogs),
              RenderSecret(catalogs)).Empty()
  {
    var live := Serving(foreign, catalogs).Keys;
    var plan := RollbackPlan(catalogs, live, RenderSecret(catalogs), RenderSecret(catalogs));
    forall name ensures name !in plan.created && name !in plan.replaced && name !in plan.dropped {
      RollbackMembers(catalogs, live, RenderSecret(catalogs), RenderSecret(catalogs), name);
      SecretRecords(catalogs, name);
    }
    EmptyOrNot(plan.created);
    EmptyOrNot(plan.replaced);
    EmptyOrNot(plan.dropped);
  }

  lemma EmptyOrNot(names: seq<string>)
    ensures names == [] || exists name :: name in names
  {
    if names != [] {
      assert names[0] in names;
    }
  }

  /** The statements of a rollback from partway bring the Cluster to the Snapshot. */
  lemma RollbackBrings(state: Served, snapshot: Configured, desired: Configured, foreign: Live)
    requires Partway(state, snapshot, desired, foreign) && Unambiguous(snapshot, desired)
    ensures Bring(state.live,
                  Statements(snapshot,
                             RollbackPlan(snapshot, state.live.Keys, state.secret, RenderSecret(snapshot))),
                  snapshot, foreign)
  {
    hide Unambiguous, Mixture;
    var statements := Statements(snapshot,
        RollbackPlan(snapshot, state.live.Keys, state.secret, RenderSecret(snapshot)));
    if InSync(state, snapshot, foreign) {
      UndoingNothing(snapshot, foreign);
      assert statements == [];
    } else {
      MixturesAreRestored(snapshot, desired, foreign, state.live);
    }
    forall s | s in statements ensures s.name !in foreign {
      RollbackNames(snapshot, state.live.Keys, state.secret, RenderSecret(snapshot), s);
      SecretRecords(snapshot, s.name);
      SecretRecords(desired, s.name);
    }
  }

  /** Undisturbed, an Apply that passed its check is accepted to the end, and serves what was desired. */
  lemma CheckedApplyIsAccepted(before: Served, snapshot: Configured, desired: Configured, foreign: Live)
    requires InSync(before, snapshot, foreign)
    requires Check(PlanOf(desired, snapshot), before.live.Keys, before.secret, RenderSecret(desired)) == []
    ensures var settled := Settled(PlanOf(desired, snapshot), before.live.Keys, before.secret, RenderSecret(desired));
            AcceptsAll(before.live, Statements(desired, settled)) &&
            IssueAccepted(before.live, Statements(desired, settled)) == Serving(foreign, desired)
  {
    hide Statements, Settled, AcceptsAll, IssueAll, IssueAccepted, PlanOf, RenderSecret, Check, Serving;
    CheckInSync(snapshot, desired, foreign);
    ApplyReachesDesired(snapshot, desired, foreign);
    AllAccepted(before.live, Statements(desired, PlanOf(desired, snapshot)));
  }

  /** Undisturbed, a rollback from anywhere an Apply can stop is accepted to the end, and serves the Snapshot. */
  lemma RollbackIsAccepted(state: Served, snapshot: Configured, desired: Configured, foreign: Live)
    requires Partway(state, snapshot, desired, foreign) && Unambiguous(snapshot, desired)
    ensures var plan := RollbackPlan(snapshot, state.live.Keys, state.secret, RenderSecret(snapshot));
            AcceptsAll(state.live, Statements(snapshot, plan)) &&
            IssueAccepted(state.live, Statements(snapshot, plan)) == Serving(foreign, snapshot)
  {
    hide Unambiguous, Mixture, Statements, AcceptsAll, IssueAll, IssueAccepted, RollbackPlan, RenderSecret, Serving;
    var plan := RollbackPlan(snapshot, state.live.Keys, state.secret, RenderSecret(snapshot));
    if InSync(state, snapshot, foreign) {
      UndoingNothing(snapshot, foreign);
      NoStatements(snapshot, plan, state.live);
    } else {
      MixturesAreRestored(snapshot, desired, foreign, state.live);
    }
    AllAccepted(state.live, Statements(snapshot, plan));
  }

  /** Whatever was live, a rollback that is accepted to the end leaves every catalog of the Snapshot live. */
  lemma RollbackServesAll(live: Live, secret: SecretData, snapshot: Configured)
    requires AcceptsAll(live, Statements(snapshot,
                                         RollbackPlan(snapshot, live.Keys, secret, RenderSecret(snapshot))))
    ensures snapshot.Keys <= IssueAccepted(live, Statements(snapshot,
              RollbackPlan(snapshot, live.Keys, secret, RenderSecret(snapshot)))).Keys
  {
    hide Statements, AcceptsAll, IssueAll, IssueAccepted, RollbackPlan, RenderSecret, Outcome, Recorded;
    var plan := RollbackPlan(snapshot, live.Keys, secret, RenderSecret(snapshot));
    RollbackDistinct(snapshot, live.Keys, secret, RenderSecret(snapshot));
    forall name
      ensures (name in plan.created ==> name !in plan.replaced && name !in plan.dropped) &&
              (name in plan.replaced ==> name !in plan.dropped)
      ensures name in snapshot ==> name in Outcome(live, snapshot, plan)
    {
      RollbackMembers(snapshot, live.Keys, secret, RenderSecret(snapshot), name);
      OutcomeAt(live, snapshot, plan, name);
    }
    PlanRun(live, snapshot, plan);
    AllAccepted(live, Statements(snapshot, plan));
  }

  /** And so does a coordinator that starts from the Snapshot's Secret. */
  lemma RestartServesAll(before: Served, foreign: Live, after: Served, kept: Live, snapshot: Configured)
    requires Restarts(before, foreign, after, kept) && before.secret == RenderSecret(snapshot)
    ensures snapshot.Keys <= after.live.Keys
  {
    hide RenderSecret;
    var loaded :| Seeds(before.secret, loaded) && after.live == kept + loaded;
    forall name | name in snapshot ensures name in loaded {
      SecretRecords(snapshot, name);
      assert Recorded(before.secret, name).Some?;
    }
  }

  /** A completed rollback from anywhere an Apply can stop is back in sync with the Snapshot, also when
      the coordinator restarts while it is under way. */
  lemma RestoreReturns(before: Served, snapshot: Configured, desired: Configured, foreign: Live, after: Served,
                       kept: Live)
    requires Partway(before, snapshot, desired, foreign) && CleanAll(snapshot) && CleanAll(desired)
    requires RestoreLeaves(before, foreign, snapshot, after, kept, true)
    ensures Fewer(foreign, kept) && InSync(after, snapshot, kept)
  {
    hide CleanAll, Statements, RollbackPlan, RenderSecret, Leads, Mixture, Serving, Unambiguous;
    CleanUnambiguous(snapshot, desired);
    RollbackBrings(before, snapshot, desired, foreign);
    var all := Statements(snapshot, RollbackPlan(snapshot, before.live.Keys, before.secret, RenderSecret(snapshot)));
    var rest :| Leads(RenderSecret(snapshot), Issuing(before.live, foreign, all), Issuing(after.live, kept, rest)) &&
      rest == [];
    CompletedServesTheTarget(before.live, all, snapshot, foreign, Issuing(after.live, kept, rest));
    FewerUnmanaged(foreign, kept, snapshot);
  }

  // A rollback reads what is live, and then writes the Secret. A restart between the two serves the
  // new configuration, behind the back of a plan made from what was live before.

  /** The rollback planned before such a restart, issued after it. */
  function Overtaken(snapshot: Configured, desired: Configured, live: Live): seq<Statement> {
    Statements(snapshot, Undoing(snapshot, desired, live))
  }

  lemma OvertakenAt(snapshot: Configured, desired: Configured, foreign: Live, live: Live, name: string)
    requires Unmanaged(foreign, snapshot) && Unmanaged(foreign, desired) && Unambiguous(snapshot, desired)
    requires Mixture(snapshot, desired, foreign, live)
    requires Fits(Serving(foreign, desired), Undoing(snapshot, desired, live))
    ensures var outcome := Outcome(Serving(foreign, desired), snapshot, Undoing(snapshot, desired, live));
            if name in desired && name !in snapshot && name !in live then name in outcome &&
                name !in Serving(foreign, snapshot)
            else (name in outcome <==> name in Serving(foreign, snapshot)) &&
                 (name in outcome ==> outcome[name] == Serving(foreign, snapshot)[name])
  {
    hide Mixture;
    UndoingAt(snapshot, desired, live, name);
    OutcomeAt(Serving(foreign, desired), snapshot, Undoing(snapshot, desired, live), name);
  }

  /** If its statements are accepted nevertheless, the rollback has restored the Snapshot exactly when
      every catalog that was only to be added was already live when the plan was made. */
  lemma OvertakenRestoresExactly(snapshot: Configured, desired: Configured, foreign: Live, live: Live)
    requires Unmanaged(foreign, snapshot) && Unmanaged(foreign, desired) && Unambiguous(snapshot, desired)
    requires Mixture(snapshot, desired, foreign, live)
    requires AcceptsAll(Serving(foreign, desired), Overtaken(snapshot, desired, live))
    ensures IssueAll(Serving(foreign, desired), Overtaken(snapshot, desired, live)) == Serving(foreign, snapshot) <==>
            forall name | name in desired && name !in snapshot :: name in live
  {
    hide Mixture, Statements, Outcome, Undoing, Serving, IssueAll, AcceptsAll;
    var plan := Undoing(snapshot, desired, live);
    UndoingFits(snapshot, desired, live);
    PlanRun(Serving(foreign, desired), snapshot, plan);
    var outcome := Outcome(Serving(foreign, desired), snapshot, plan);
    forall name
      ensures if name in desired && name !in snapshot && name !in live then name in outcome &&
              name !in Serving(foreign, snapshot)
              else (name in outcome <==> name in Serving(foreign, snapshot)) &&
                   (name in outcome ==> outcome[name] == Serving(foreign, snapshot)[name])
    {
      OvertakenAt(snapshot, desired, foreign, live, name);
    }
    if forall name | name in desired && name !in snapshot ::
        name in live { SameLive(outcome, Serving(foreign, snapshot)); }
  }

  /** And so it happens: an Apply that only adds and replaces, stopped once its Secret was written, and
      a restart before the rollback's. Every statement is accepted, and what was to be added stays. */
  lemma SomeRollbacksAreOvertaken(snapshot: Configured, desired: Configured, foreign: Live)
    requires Unmanaged(foreign, snapshot) && Unmanaged(foreign, desired) && Unambiguous(snapshot, desired)
    requires snapshot.Keys < desired.Keys
    ensures var live := Serving(foreign, snapshot);
            AcceptsAll(Serving(foreign, desired), Overtaken(snapshot, desired, live)) &&
            IssueAll(Serving(foreign, desired), Overtaken(snapshot, desired, live)) != Serving(foreign, snapshot)
  {
    hide Mixture, Statements, Outcome, Undoing, IssueAll, AcceptsAll, Unambiguous;
    var live := Serving(foreign, snapshot);
    var plan := Undoing(snapshot, desired, live);
    UndoingFits(snapshot, desired, live);
    forall name
      ensures name !in plan.created && name !in plan.dropped &&
              (name in plan.replaced ==> name in Serving(foreign, desired))
    {
      UndoingAt(snapshot, desired, live, name);
    }
    PlanRun(Serving(foreign, desired), snapshot, plan);
    ServingIsMixture(snapshot, desired, foreign);
    OvertakenRestoresExactly(snapshot, desired, foreign, live);
    var name :| name in desired && name !in snapshot;
    assert name !in live;
  }

  /** From partway, a rollback finds nothing to undo exactly when the Cluster is in sync; and then
      reports that nothing changed. */
  lemma NothingDiffersExactlyInSync(state: Served, snapshot: Configured, desired: Configured, foreign: Live)
    requires Partway(state, snapshot, desired, foreign) && Unambiguous(snapshot, desired)
    ensures Differs(state, snapshot) <==> !InSync(state, snapshot, foreign)
  {
    hide Unambiguous, Mixture, RenderSecret, Serving;
    if InSync(state, snapshot, foreign) {
      UndoingNothing(snapshot, foreign);
    } else if !Differs(state, snapshot) {
      RollbackBrings(state, snapshot, desired, foreign);
      NoStatements(snapshot, RollbackPlan(snapshot, state.live.Keys, state.secret, RenderSecret(snapshot)), state.live);
    }
  }

  lemma NoStatements(desired: Configured, plan: Plan, live: Live)
    requires plan.Empty()
    ensures AcceptsAll(live, Statements(desired, plan)) && IssueAll(live, Statements(desired, plan)) == live
  {
  }

  lemma RestartInSync(before: Served, catalogs: Configured, foreign: Live, after: Served, kept: Live)
    requires InSync(before, catalogs, foreign) && Restarts(before, foreign, after, kept)
    requires CleanAll(catalogs)
    ensures InSync(after, catalogs, kept)
  {
    RestartOnNew(before, catalogs, foreign, after, kept);
  }

  lemma RestartPartway(before: Served, snapshot: Configured, desired: Configured, foreign: Live, after: Served,
                       kept: Live)
    requires Partway(before, snapshot, desired, foreign) && Restarts(before, foreign, after, kept)
    requires CleanAll(snapshot) && CleanAll(desired)
    ensures Partway(after, snapshot, desired, kept)
  {
    if InSync(before, snapshot, foreign) {
      RestartInSync(before, snapshot, foreign, after, kept);
    } else {
      RestartOnNew(before, desired, foreign, after, kept);
      SyncedIsPartway(after, snapshot, desired, kept);
    }
  }

  lemma RestartOnNew(before: Served, catalogs: Configured, foreign: Live, after: Served, kept: Live)
    requires Unmanaged(foreign, catalogs) && before.secret == RenderSecret(catalogs)
    requires Restarts(before, foreign, after, kept)
    requires CleanAll(catalogs)
    ensures InSync(after, catalogs, kept)
  {
    ReloadsTarget(catalogs, after.live, kept);
  }

  // ------------------------------------------------------------------ adopting a Cluster

  // Adoption finds catalogs live, records them in the Secret, and applies the same. There is no Snapshot
  // yet, so the baseline is empty, and so is what a rollback puts back.

  /** The Apply that adopts finds everything settled: it passes its check and has nothing to issue. */
  lemma AdoptedIsSettled(adopted: Configured, foreign: Live)
    requires Unmanaged(foreign, adopted)
    ensures var live := Serving(foreign, adopted).Keys;
            Check(PlanOf(adopted, map[]), live, RenderSecret(adopted), RenderSecret(adopted)) == [] &&
            Settled(PlanOf(adopted, map[]), live, RenderSecret(adopted), RenderSecret(adopted)).Empty()
  {
    hide PlanOf, Check, RenderSecret;
    var live, data := Serving(foreign, adopted).Keys, RenderSecret(adopted);
    var plan := PlanOf(adopted, map[]);
    PlanMembers(adopted, map[]);
    SettledMembers(plan, live, data, data);
    CheckPasses(plan, live, data, data);
    var settled := Settled(plan, live, data, data);
    forall name ensures name !in settled.created && name !in settled.replaced && name !in settled.dropped {
      assert name in plan.created ==> name in live;
    }
    EmptyOrNot(settled.created);
    EmptyOrNot(settled.replaced);
    EmptyOrNot(settled.dropped);
  }

  lemma NoneToIssue(desired: Configured, plan: Plan)
    requires plan.Empty()
    ensures Statements(desired, plan) == []
  {
  }

  /** Wherever it stops, and whenever the coordinator restarts, it leaves the Cluster as adopted. */
  lemma AdoptingChangesNothing(before: Served, adopted: Configured, foreign: Live, after: Served, kept: Live, ok: bool)
    requires InSync(before, adopted, foreign) && CleanAll(adopted)
    requires ApplyLeaves(before, foreign, adopted, PlanOf(adopted, map[]), after, kept, ok)
    ensures Fewer(foreign, kept) && InSync(after, adopted, kept)
  {
    hide CleanAll, PlanOf, Settled, RenderSecret, Serving, IssuedAmid, Restarts, Statements;
    AdoptedIsSettled(adopted, foreign);
    var all := Statements(adopted, Settled(PlanOf(adopted, map[]), before.live.Keys, before.secret,
                                           RenderSecret(adopted)));
    var at, there :| MayRestart(before, foreign, at, there) &&
      Written(at, there, RenderSecret(adopted), all, after, kept, ok);
    StaysInSync(before, adopted, foreign, at, there);
    StillUnmanaged(before, foreign, adopted, at, there);
    if !(after == at && kept == there) {
      NoneToIssue(adopted, Settled(PlanOf(adopted, map[]), before.live.Keys, before.secret, RenderSecret(adopted)));
      OnlyRestarts(at.live, adopted, there, after.live, kept, ok);
      FewerStill(foreign, there, kept);
    }
  }

  lemma OnlyRestarts(live: Live, catalogs: Configured, foreign: Live, after: Live, kept: Live, ok: bool)
    requires Unmanaged(foreign, catalogs) && CleanAll(catalogs) && live == Serving(foreign, catalogs)
    requires IssuedAmid(RenderSecret(catalogs), live, foreign, [], after, kept, ok)
    ensures Fewer(foreign, kept) && Unmanaged(kept, catalogs) && after == Serving(kept, catalogs)
  {
    hide CleanAll, RenderSecret, Serving, Moves;
    var rest :| Leads(RenderSecret(catalogs), Issuing(live, foreign, []), Issuing(after, kept, rest));
    var path :| Interleaving(RenderSecret(catalogs), path, Issuing(live, foreign, []), Issuing(after, kept, rest));
    assert [] == [] + Issuing(live, foreign, []).rest;
    OnTheWayAlong(live, [], catalogs, foreign, path, Issuing(live, foreign, []), Issuing(after, kept, rest));
    assert rest == [];
    FewerUnmanaged(foreign, kept, catalogs);
  }

  /** Without a Snapshot a rollback drops exactly what is live and recorded in the Secret, whichever Apply,
      or nobody, put it there. */
  lemma RollbackWithoutSnapshot(live: Live, secret: SecretData)
    ensures var statements := Statements(map[], RollbackPlan(map[], live.Keys, secret, RenderSecret(map[])));
            AcceptsAll(live, statements) && IssueAll(live, statements) == live - NamesIn(secret)
  {
    hide Statements, AcceptsAll, IssueAll, RollbackPlan, RenderSecret, NamesIn;
    var plan := RollbackPlan(map[], live.Keys, secret, RenderSecret(map[]));
    RollbackDistinct(map[], live.Keys, secret, RenderSecret(map[]));
    forall name
      ensures name !in plan.created && name !in plan.replaced
      ensures name in plan.dropped <==> name in live && name in NamesIn(secret)
    {
      RollbackMembers(map[], live.Keys, secret, RenderSecret(map[]), name);
      NamesInAre(secret, name);
    }
    PlanRun(live, map[], plan);
    forall name
      ensures name in Outcome(live, map[], plan) <==> name in live - NamesIn(secret)
      ensures name in Outcome(live, map[], plan) ==> Outcome(live, map[], plan)[name] == live[name]
    {
      OutcomeAt(live, map[], plan, name);
    }
    SameLive(Outcome(live, map[], plan), live - NamesIn(secret));
  }

  /** So a failed adoption that is rolled back is back where it was exactly when nothing was adopted.
      Otherwise every adopted catalog is gone, from the Cluster and from the Secret. */
  lemma AdoptingIsUndoneExactlyWhenNothingWasAdopted(before: Served, adopted: Configured, foreign: Live,
                                                     failed: Served, there: Live, ok: bool, after: Served, kept: Live)
    requires InSync(before, adopted, foreign) && CleanAll(adopted)
    requires ApplyLeaves(before, foreign, adopted, PlanOf(adopted, map[]), failed, there, ok)
    requires RestoreLeaves(failed, there, map[], after, kept, true)
    ensures InSync(after, map[], kept) && after.live == kept
    ensures InSync(after, adopted, kept) <==> adopted == map[]
  {
    hide ApplyLeaves, RestoreLeaves, PlanOf, Mixture, InSync, Partway, Serving, RenderSecret, CleanCatalog;
    AdoptingChangesNothing(before, adopted, foreign, failed, there, ok);
    assert CleanAll(map[]) && Unmanaged(there, map[]);
    SyncedIsPartway(failed, map[], adopted, there);
    RestoreReturns(failed, map[], adopted, there, after, kept);
    NothingServed(after, adopted, kept);
  }

  lemma NothingServed(state: Served, catalogs: Configured, foreign: Live)
    requires InSync(state, map[], foreign)
    ensures state.live == foreign && (InSync(state, catalogs, foreign) <==> catalogs == map[])
  {
    hide RenderSecret;
    if name :| name in catalogs {
      assert name in Serving(foreign, catalogs) && (name !in foreign ==> name !in Serving(foreign, map[]));
    } else {
      assert catalogs == map[];
    }
    SameLive(Serving(foreign, map[]), foreign);
  }
}
