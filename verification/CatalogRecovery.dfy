/** What holds of the Cluster's catalogs at every point where an Apply can stop: what is still
    served, what a rollback puts back, what a retry completes, and what a restart loads. */
module CatalogRecovery {
  import opened Outcomes
  import opened Ordering
  import opened Slices
  import opened PropertiesFile
  import opened Catalogs
  import opened CatalogPlans
  import opened CatalogDdl

  /** The catalogs nobody manages, and a configuration on top of them. */
  function Serving(foreign: Live, catalogs: Configured): Live {
    foreign + Contents(catalogs)
  }

  ghost predicate Unmanaged(foreign: Live, catalogs: Configured) {
    forall name | name in foreign :: name !in catalogs
  }

  /** Every managed catalog that is live has its old or its new content, what is in both
      configurations alike never goes away, and unmanaged catalogs are as they were. */
  ghost predicate Mixture(snapshot: Configured, desired: Configured, foreign: Live, live: Live) {
    (forall name | name in foreign :: name in live && live[name] == foreign[name]) &&
    (forall name | name in live && name !in foreign ::
       (name in snapshot && live[name] == ContentOf(snapshot[name])) ||
         (name in desired && live[name] == ContentOf(desired[name]))) &&
    forall name | name in snapshot && name in desired && snapshot[name] == desired[name] :: name in live
  }

  /** A statement of an Apply: it creates what is desired, and drops nothing that is to stay. */
  ghost predicate Ours(snapshot: Configured, desired: Configured, foreign: Live, statement: Statement) {
    statement.name !in foreign &&
    match statement
    case Create(name, content) => name in desired && content == ContentOf(desired[name])
    case Drop(name) => name in snapshot && !(name in desired && snapshot[name] == desired[name])
  }

  lemma MixtureKept(snapshot: Configured, desired: Configured, foreign: Live, live: Live, statement: Statement)
    requires Mixture(snapshot, desired, foreign, live) && Ours(snapshot, desired, foreign, statement)
    ensures Mixture(snapshot, desired, foreign, Issue(live, statement))
  {
  }

  lemma {:induction false} MixtureKeptByAll(snapshot: Configured, desired: Configured, foreign: Live, live: Live,
                                            statements: seq<Statement>)
    requires Mixture(snapshot, desired, foreign, live)
    requires forall statement | statement in statements :: Ours(snapshot, desired, foreign, statement)
    ensures Mixture(snapshot, desired, foreign, IssueAll(live, statements))
    decreases |statements|
  {
    if statements != [] {
      MixtureKept(snapshot, desired, foreign, live, statements[0]);
      MixtureKeptByAll(snapshot, desired, foreign, Issue(live, statements[0]), statements[1..]);
    }
  }

  // ------------------------------------------------------------------ what statements name

  ghost predicate OfPlan(desired: Configured, plan: Plan, statement: Statement) {
    match statement
    case Create(name, content) => (name in plan.created || name in plan.replaced) && content == Wanted(desired, name)
    case Drop(name) => name in plan.replaced || name in plan.dropped
  }

  lemma {:induction false} CreatesAre(desired: Configured, names: seq<string>, statement: Statement)
    requires statement in Creates(desired, names)
    ensures statement.Create? && statement.name in names && statement.content == Wanted(desired, statement.name)
  {
    var last := names[|names| - 1];
    if statement != Create(last, Wanted(desired, last)) {
      CreatesAre(desired, names[..|names| - 1], statement);
    }
  }

  lemma {:induction false} RecreatesAre(desired: Configured, names: seq<string>, statement: Statement)
    requires statement in Recreates(desired, names)
    ensures statement.name in names && (statement.Create? ==> statement.content == Wanted(desired, statement.name))
  {
    var last := names[|names| - 1];
    if statement !in [Drop(last), Create(last, Wanted(desired, last))] {
      RecreatesAre(desired, names[..|names| - 1], statement);
    }
  }

  lemma {:induction false} DropsAre(names: seq<string>, statement: Statement)
    requires statement in Drops(names)
    ensures statement.Drop? && statement.name in names
  {
    var last := names[|names| - 1];
    if statement != Drop(last) {
      DropsAre(names[..|names| - 1], statement);
    }
  }

  lemma StatementsAre(desired: Configured, plan: Plan, statement: Statement)
    requires statement in Statements(desired, plan)
    ensures OfPlan(desired, plan, statement)
  {
    if statement in Creates(desired, plan.created) { CreatesAre(desired, plan.created, statement); }
    else if statement in Recreates(desired, plan.replaced) { RecreatesAre(desired, plan.replaced, statement); }
    else { DropsAre(plan.dropped, statement); }
  }

  /** An Apply's statements name only catalogs of the two configurations. */
  lemma ApplyIsOurs(snapshot: Configured, desired: Configured, foreign: Live, statement: Statement)
    requires Unmanaged(foreign, snapshot) && Unmanaged(foreign, desired)
    requires statement in Statements(desired, PlanOf(desired, snapshot))
    ensures Ours(snapshot, desired, foreign, statement)
  {
    PlanMembers(desired, snapshot);
    StatementsAre(desired, PlanOf(desired, snapshot), statement);
  }

  /** A rollback's statements name only the Snapshot's catalogs, or a catalog that the Secret
      records -- never one that Apchi did not put there. */
  lemma RollbackNames(snapshot: Configured, live: set<string>, durable: SecretData, rendering: SecretData,
                      statement: Statement)
    requires statement in Statements(snapshot, RollbackPlan(snapshot, live, durable, rendering))
    ensures statement.name in snapshot || (statement.name in live && Recorded(durable, statement.name).Some?)
    ensures statement.Create? ==> statement.name in snapshot && statement.content == ContentOf(snapshot[statement.name])
  {
    RollbackMembers(snapshot, live, durable, rendering, statement.name);
    StatementsAre(snapshot, RollbackPlan(snapshot, live, durable, rendering), statement);
  }

  // ------------------------------------------------------------------ where an Apply can stop

  /** Live after some prefix of the statements, every one of which was accepted. */
  ghost predicate StoppedAt(before: Live, statements: seq<Statement>, live: Live) {
    exists k: nat :: k <= |statements| && Reached(before, statements, k, live)
  }

  ghost predicate Reached(before: Live, statements: seq<Statement>, k: nat, live: Live)
    requires k <= |statements|
  {
    AcceptsAll(before, statements[..k]) && live == IssueAll(before, statements[..k])
  }

  lemma ServingIsMixture(snapshot: Configured, desired: Configured, foreign: Live)
    requires Unmanaged(foreign, snapshot)
    ensures Mixture(snapshot, desired, foreign, Serving(foreign, snapshot))
  {
  }

  /** Wherever an Apply stops, it leaves a mixture. */
  lemma StopsAreMixtures(snapshot: Configured, desired: Configured, foreign: Live, live: Live)
    requires Unmanaged(foreign, snapshot) && Unmanaged(foreign, desired)
    requires StoppedAt(Serving(foreign, snapshot), Statements(desired, PlanOf(desired, snapshot)), live)
    ensures Mixture(snapshot, desired, foreign, live)
  {
    var before, statements := Serving(foreign, snapshot), Statements(desired, PlanOf(desired, snapshot));
    var k: nat :| k <= |statements| && Reached(before, statements, k, live);
    ServingIsMixture(snapshot, desired, foreign);
    forall statement | statement in statements[..k] ensures Ours(snapshot, desired, foreign, statement) {
      ApplyIsOurs(snapshot, desired, foreign, statement);
    }
    MixtureKeptByAll(snapshot, desired, foreign, before, statements[..k]);
  }

  // ------------------------------------------------------------------ the plan against a Cluster in sync

  lemma PlanFits(snapshot: Configured, desired: Configured, foreign: Live)
    requires Unmanaged(foreign, snapshot) && Unmanaged(foreign, desired)
    ensures Apart(PlanOf(desired, snapshot)) && Fits(Serving(foreign, snapshot), PlanOf(desired, snapshot))
  {
    PlanMembers(desired, snapshot);
    PlanDistinct(desired, snapshot);
  }

  lemma PlanOutcomeAt(snapshot: Configured, desired: Configured, foreign: Live, live: Live, name: string)
    requires Unmanaged(foreign, snapshot) && Unmanaged(foreign, desired)
    requires Mixture(snapshot, desired, foreign, live)
    ensures var outcome := Outcome(live, desired, PlanOf(desired, snapshot));
            (name in outcome <==> name in Serving(foreign, desired)) &&
            (name in outcome ==> outcome[name] == Serving(foreign, desired)[name])
  {
    PlanMembers(desired, snapshot);
    OutcomeAt(live, desired, PlanOf(desired, snapshot), name);
  }

  lemma SameLive(a: Live, b: Live)
    requires forall name :: name in a <==> name in b
    requires forall name | name in a :: a[name] == b[name]
    ensures a == b
  {
  }

  /** From a Cluster in sync, every statement of an Apply is accepted and together they leave
      exactly the desired catalogs, beside those nobody manages. */
  lemma ApplyReachesDesired(snapshot: Configured, desired: Configured, foreign: Live)
    requires Unmanaged(foreign, snapshot) && Unmanaged(foreign, desired)
    ensures var statements := Statements(desired, PlanOf(desired, snapshot));
            AcceptsAll(Serving(foreign, snapshot), statements) &&
            IssueAll(Serving(foreign, snapshot), statements) == Serving(foreign, desired)
  {
    var before, plan := Serving(foreign, snapshot), PlanOf(desired, snapshot);
    PlanFits(snapshot, desired, foreign);
    PlanRun(before, desired, plan);
    ServingIsMixture(snapshot, desired, foreign);
    forall name
      ensures name in Outcome(before, desired, plan) <==> name in Serving(foreign, desired)
      ensures name in Outcome(before, desired, plan) ==>
              Outcome(before, desired, plan)[name] == Serving(foreign, desired)[name]
    {
      PlanOutcomeAt(snapshot, desired, foreign, before, name);
    }
    SameLive(Outcome(before, desired, plan), Serving(foreign, desired));
  }

  // ------------------------------------------------------------------ rolling back

  /** A name whose two contents differ is written differently in the two Secrets. */
  ghost predicate Unambiguous(snapshot: Configured, desired: Configured) {
    forall name | name in snapshot && name in desired && Rendered(snapshot[name]) == Rendered(desired[name]) ::
      ContentOf(snapshot[name]) == ContentOf(desired[name])
  }

  /** Clean catalogs are unambiguous. */
  lemma CleanUnambiguous(snapshot: Configured, desired: Configured)
    requires CleanAll(snapshot) && CleanAll(desired)
    ensures Unambiguous(snapshot, desired)
  {
    forall name | name in snapshot && name in desired && Rendered(snapshot[name]) == Rendered(desired[name])
      ensures ContentOf(snapshot[name]) == ContentOf(desired[name])
    {
      CleanRenderingIdentifies(snapshot[name].connector, Effective(snapshot[name]), desired[name].connector,
          Effective(desired[name]));
    }
  }

  /** The rollback planned when the Secret already holds the new configuration. */
  function Undoing(snapshot: Configured, desired: Configured, live: Live): Plan {
    RollbackPlan(snapshot, live.Keys, RenderSecret(desired), RenderSecret(snapshot))
  }

  lemma UndoingAt(snapshot: Configured, desired: Configured, live: Live, name: string)
    ensures name in Undoing(snapshot, desired, live).created <==> name in snapshot && name !in live
    ensures name in Undoing(snapshot, desired, live).replaced <==>
            name in snapshot && name in live &&
              !(name in desired && Rendered(snapshot[name]) == Rendered(desired[name]))
    ensures name in Undoing(snapshot, desired, live).dropped <==> name in live && name !in snapshot && name in desired
  {
    RollbackMembers(snapshot, live.Keys, RenderSecret(desired), RenderSecret(snapshot), name);
    SecretRecords(snapshot, name);
    SecretRecords(desired, name);
  }

  lemma UndoingFits(snapshot: Configured, desired: Configured, live: Live)
    ensures Apart(Undoing(snapshot, desired, live)) && Fits(live, Undoing(snapshot, desired, live))
  {
    RollbackDistinct(snapshot, live.Keys, RenderSecret(desired), RenderSecret(snapshot));
    forall name
      ensures name in Undoing(snapshot, desired, live).created ==> name !in live
      ensures name in Undoing(snapshot, desired, live).replaced ==>
              name in live && name !in Undoing(snapshot, desired, live).dropped
      ensures name in Undoing(snapshot, desired, live).dropped ==> name in live
    {
      UndoingAt(snapshot, desired, live, name);
    }
  }

  lemma UndoneAt(snapshot: Configured, desired: Configured, foreign: Live, live: Live, name: string)
    requires Unmanaged(foreign, snapshot) && Unmanaged(foreign, desired)
    requires Mixture(snapshot, desired, foreign, live) && Unambiguous(snapshot, desired)
    ensures var outcome := Outcome(live, snapshot, Undoing(snapshot, desired, live));
            (name in outcome <==> name in Serving(foreign, snapshot)) &&
            (name in outcome ==> outcome[name] == Serving(foreign, snapshot)[name])
  {
    var plan := Undoing(snapshot, desired, live);
    UndoingAt(snapshot, desired, live, name);
    OutcomeAt(live, snapshot, plan, name);
    if name in snapshot && name !in plan.created && name !in plan.replaced {
      assert live[name] == ContentOf(snapshot[name]);
    }
  }

  /** The rollback is accepted to the end and leaves exactly what the Snapshot serves. */
  ghost predicate Restores(snapshot: Configured, desired: Configured, foreign: Live, live: Live) {
    var statements := Statements(snapshot, Undoing(snapshot, desired, live));
    AcceptsAll(live, statements) && IssueAll(live, statements) == Serving(foreign, snapshot)
  }

  /** From any mixture, and so also after a restart, one rollback puts the Cluster back. */
  lemma MixturesAreRestored(snapshot: Configured, desired: Configured, foreign: Live, live: Live)
    requires Unmanaged(foreign, snapshot) && Unmanaged(foreign, desired)
    requires Mixture(snapshot, desired, foreign, live) && Unambiguous(snapshot, desired)
    ensures Restores(snapshot, desired, foreign, live)
  {
    var plan := Undoing(snapshot, desired, live);
    UndoingFits(snapshot, desired, live);
    PlanRun(live, snapshot, plan);
    forall name
      ensures name in Outcome(live, snapshot, plan) <==> name in Serving(foreign, snapshot)
      ensures name in Outcome(live, snapshot, plan) ==>
              Outcome(live, snapshot, plan)[name] == Serving(foreign, snapshot)[name]
    {
      UndoneAt(snapshot, desired, foreign, live, name);
    }
    SameLive(Outcome(live, snapshot, plan), Serving(foreign, snapshot));
  }

  /** An ambiguous name is a change that no rollback sees. */
  lemma AmbiguityIsInvisible(snapshot: Configured, desired: Configured, foreign: Live, name: string)
    requires Unmanaged(foreign, snapshot) && Unmanaged(foreign, desired)
    requires name in snapshot && name in desired && Rendered(snapshot[name]) == Rendered(desired[name])
    requires ContentOf(snapshot[name]) != ContentOf(desired[name])
    ensures !Restores(snapshot, desired, foreign, Serving(foreign, desired))
  {
    var live := Serving(foreign, desired);
    var plan := Undoing(snapshot, desired, live);
    UndoingFits(snapshot, desired, live);
    PlanRun(live, snapshot, plan);
    UndoingAt(snapshot, desired, live, name);
    OutcomeAt(live, snapshot, plan, name);
    assert Outcome(live, snapshot, plan)[name] == ContentOf(desired[name]);
    assert Serving(foreign, snapshot)[name] == ContentOf(snapshot[name]);
  }

  /** Whatever the point where the Apply stops, the rollback restores. */
  ghost predicate AlwaysRestored(snapshot: Configured, desired: Configured, foreign: Live) {
    forall live | StoppedAt(Serving(foreign, snapshot), Statements(desired, PlanOf(desired, snapshot)), live) ::
      Restores(snapshot, desired, foreign, live)
  }

  lemma CompletionIsAStop(before: Live, statements: seq<Statement>)
    requires AcceptsAll(before, statements)
    ensures StoppedAt(before, statements, IssueAll(before, statements))
  {
    assert statements[..|statements|] == statements;
    assert Reached(before, statements, |statements|, IssueAll(before, statements));
  }

  lemma StopsAtTheEnd(snapshot: Configured, desired: Configured, foreign: Live)
    requires Unmanaged(foreign, snapshot) && Unmanaged(foreign, desired)
    ensures StoppedAt(Serving(foreign, snapshot), Statements(desired, PlanOf(desired, snapshot)),
              Serving(foreign, desired))
  {
    ApplyReachesDesired(snapshot, desired, foreign);
    CompletionIsAStop(Serving(foreign, snapshot), Statements(desired, PlanOf(desired, snapshot)));
  }

  /** The rollback restores the Snapshot from every point where the Apply can stop exactly when
      no catalog changes its content without changing its rendering. */
  lemma RollbackRestoresExactlyWhenUnambiguous(snapshot: Configured, desired: Configured, foreign: Live)
    requires Unmanaged(foreign, snapshot) && Unmanaged(foreign, desired)
    ensures AlwaysRestored(snapshot, desired, foreign) <==> Unambiguous(snapshot, desired)
  {
    if Unambiguous(snapshot, desired) {
      forall live | StoppedAt(Serving(foreign, snapshot), Statements(desired, PlanOf(desired, snapshot)), live)
        ensures Restores(snapshot, desired, foreign, live)
      {
        StopsAreMixtures(snapshot, desired, foreign, live);
        MixturesAreRestored(snapshot, desired, foreign, live);
      }
    } else {
      var name :| name in snapshot && name in desired && Rendered(snapshot[name]) == Rendered(desired[name]) &&
                  ContentOf(snapshot[name]) != ContentOf(desired[name]);
      StopsAtTheEnd(snapshot, desired, foreign);
      AmbiguityIsInvisible(snapshot, desired, foreign, name);
    }
  }

  // ------------------------------------------------------------------ where a rollback can stop

  ghost predicate Keeps(foreign: Live, live: Live) {
    forall name | name in foreign :: name in live && live[name] == foreign[name]
  }

  lemma {:induction false} UnnamedStays(foreign: Live, live: Live, statements: seq<Statement>)
    requires Keeps(foreign, live) && forall statement | statement in statements :: statement.name !in foreign
    ensures Keeps(foreign, IssueAll(live, statements))
    decreases |statements|
  {
    if statements != [] { UnnamedStays(foreign, Issue(live, statements[0]), statements[1..]); }
  }

  /** Every managed catalog that is live has the Snapshot's content. Some may be missing. */
  ghost predicate NothingElse(snapshot: Configured, foreign: Live, live: Live) {
    forall name | name in live && name !in foreign :: name in snapshot && live[name] == ContentOf(snapshot[name])
  }

  lemma RepeatedAt(snapshot: Configured, live: Live, name: string)
    ensures var outcome := Outcome(live, snapshot, Undoing(snapshot, snapshot, live));
            (name in outcome <==> name in live || name in snapshot) &&
            (name in outcome ==> outcome[name] == if name in live then live[name] else ContentOf(snapshot[name]))
  {
    hide Undoing, Rendered;
    UndoingAt(snapshot, snapshot, live, name);
    OutcomeAt(live, snapshot, Undoing(snapshot, snapshot, live), name);
  }

  /** A rollback of what is on the Snapshot's own Secret creates what is missing, and sees nothing else. */
  lemma RepeatedRollback(snapshot: Configured, foreign: Live, live: Live)
    requires Unmanaged(foreign, snapshot) && Keeps(foreign, live)
    ensures Restores(snapshot, snapshot, foreign, live) <==> NothingElse(snapshot, foreign, live)
  {
    hide Statements, IssueAll, AcceptsAll, Undoing, Outcome;
    var plan := Undoing(snapshot, snapshot, live);
    UndoingFits(snapshot, snapshot, live);
    PlanRun(live, snapshot, plan);
    var outcome := Outcome(live, snapshot, plan);
    forall name
      ensures name in outcome <==> name in live || name in snapshot
      ensures name in outcome ==> outcome[name] == if name in live then live[name] else ContentOf(snapshot[name])
    {
      RepeatedAt(snapshot, live, name);
    }
    if NothingElse(snapshot, foreign, live) {
      SameLive(outcome, Serving(foreign, snapshot));
    } else {
      var name :| name in live && name !in foreign && !(name in snapshot && live[name] == ContentOf(snapshot[name]));
      assert name in outcome && outcome[name] == live[name];
    }
  }

  /** A rollback writes the Snapshot's Secret first, and its plan is read from the Secret. So one that
      stops among its statements is finished by another exactly when everything that is not the
      Snapshot's was gone already. */
  lemma StoppedRollbackIsFinishedExactly(snapshot: Configured, desired: Configured, foreign: Live, start: Live,
                                         live: Live)
    requires Unmanaged(foreign, snapshot) && Unmanaged(foreign, desired)
    requires Mixture(snapshot, desired, foreign, start)
    requires StoppedAt(start, Statements(snapshot, Undoing(snapshot, desired, start)), live)
    ensures Restores(snapshot, snapshot, foreign, live) <==> NothingElse(snapshot, foreign, live)
  {
    hide Restores, Statements, RollbackPlan, NothingElse;
    var statements := Statements(snapshot, Undoing(snapshot, desired, start));
    var k: nat :| k <= |statements| && Reached(start, statements, k, live);
    forall statement | statement in statements[..k] ensures statement.name !in foreign {
      RollbackNames(snapshot, start.Keys, RenderSecret(desired), RenderSecret(snapshot), statement);
      SecretRecords(desired, statement.name);
    }
    UnnamedStays(foreign, start, statements[..k]);
    RepeatedRollback(snapshot, foreign, live);
  }

  /** So an Apply that changed or added a catalog and was complete, and whose rollback stopped right after
      its Secret, is never undone by another rollback. */
  lemma SomeRollbacksCannotBeRepeated(snapshot: Configured, desired: Configured, foreign: Live, name: string)
    requires Unmanaged(foreign, snapshot) && Unmanaged(foreign, desired)
    requires name in desired && !(name in snapshot && ContentOf(snapshot[name]) == ContentOf(desired[name]))
    ensures var start := Serving(foreign, desired);
            StoppedAt(start, Statements(snapshot, Undoing(snapshot, desired, start)), start) &&
            !Restores(snapshot, snapshot, foreign, start)
  {
    hide Restores, Statements, RollbackPlan;
    var start := Serving(foreign, desired);
    var statements := Statements(snapshot, Undoing(snapshot, desired, start));
    assert Reached(start, statements, 0, start);
    RepeatedRollback(snapshot, foreign, start);
    assert name in start && name !in foreign;
  }

  // Ambiguous pairs: a user name that goes on after a line break, and the two properties it looks like.

  const USER := "connection-user"
  const BATCH := "write.batch-size"

  function SplitProperties(url: string, user: string, size: string): map<string, string> {
    map[URL := url, USER := user + ['\n'] + PropertyLine(BATCH, size)]
  }

  function TwoProperties(url: string, user: string, size: string): map<string, string> {
    map[URL := url, USER := user, BATCH := size]
  }

  function SplitValue(url: string, user: string, size: string): Catalog {
    Stored(WIRED, SplitProperties(url, user, size), None)
  }

  function TwoValues(url: string, user: string, size: string): Catalog {
    Stored(WIRED, TwoProperties(url, user, size), None)
  }

  predicate Plain(text: string) {
    '$' !in text
  }

  lemma EffectiveSplit(url: string, user: string, size: string)
    requires Plain(url) && Plain(user) && Plain(size)
    ensures Effective(SplitValue(url, user, size)) == SplitProperties(url, user, size)
    ensures Effective(TwoValues(url, user, size)) == TwoProperties(url, user, size)
  {
    hide ExpandAll;
    assert Plain(PropertyLine(BATCH, size)) && Plain(user + ['\n'] + PropertyLine(BATCH, size));
    PlainProperties(SplitProperties(url, user, size));
    PlainProperties(TwoProperties(url, user, size));
  }

  lemma UnlinesCons(line: string, rest: seq<string>)
    ensures Unlines([line] + rest) == line + ['\n'] + Unlines(rest)
  {
    assert ([line] + rest)[1..] == rest;
  }

  lemma UnlinesSplit(first: string, second: string, a: string, b: string)
    ensures Unlines([first, second, a + ['\n'] + b]) == Unlines([first, second, a, b])
  {
    UnlinesCons(a + ['\n'] + b, []);
    UnlinesCons(b, []);
    UnlinesCons(a, [b]);
    UnlinesCons(second, [a + ['\n'] + b]);
    UnlinesCons(second, [a, b]);
    UnlinesCons(first, [second, a + ['\n'] + b]);
    UnlinesCons(first, [second, a, b]);
    assert [a] + [b] == [a, b];
    assert [second] + [a, b] == [second, a, b];
    assert [second] + [a + ['\n'] + b] == [second, a + ['\n'] + b];
    assert [first] + [second, a, b] == [first, second, a, b];
    assert [first] + [second, a + ['\n'] + b] == [first, second, a + ['\n'] + b];
    assert [a + ['\n'] + b] + [] == [a + ['\n'] + b];
    assert [b] + [] == [b];
    assert a + ['\n'] + b + ['\n'] + "" == a + ['\n'] + (b + ['\n'] + "");
  }

  lemma KeysAscend()
    ensures Less(URL, USER) && Less(URL, BATCH) && Less(USER, BATCH)
  {
    LessAfter("connection-u", "rl", "ser");
    assert "connection-u" + "rl" == URL && "connection-u" + "ser" == USER;
  }

  lemma SplitKeys(url: string, user: string, size: string)
    ensures Sorted(SplitProperties(url, user, size).Keys) == [URL, USER]
    ensures Sorted(TwoProperties(url, user, size).Keys) == [URL, USER, BATCH]
  {
    hide Less, Sorted;
    KeysAscend();
    SortedTwo(URL, USER);
    SortedThree(URL, USER, BATCH);
    assert SplitProperties(url, user, size).Keys == {URL, USER};
    assert TwoProperties(url, user, size).Keys == {URL, USER, BATCH};
  }

  lemma SplitLine(user: string, size: string)
    ensures PropertyLine(USER, user + ['\n'] + PropertyLine(BATCH, size)) ==
            PropertyLine(USER, user) + ['\n'] + PropertyLine(BATCH, size)
  {
    hide PropertyLine;
    Associates(USER + "=", user + ['\n'], PropertyLine(BATCH, size));
    Associates(USER + "=", user, ['\n']);
    LineOf(USER, user);
    LineOf(USER, user + ['\n'] + PropertyLine(BATCH, size));
  }

  lemma LineOf(key: string, value: string)
    ensures PropertyLine(key, value) == key + "=" + value
  {
  }

  lemma DistinctKeys()
    ensures URL != USER && URL != BATCH && USER != BATCH
  {
    KeysAscend();
    LessTotal(URL, USER);
    LessTotal(URL, BATCH);
    LessTotal(USER, BATCH);
  }

  lemma RenderedLinesSplit(url: string, user: string, size: string)
    ensures RenderedLines(WIRED, SplitProperties(url, user, size)) ==
            [PropertyLine(CONNECTOR_KEY, WIRED), PropertyLine(URL, url),
                PropertyLine(USER, user) + ['\n'] + PropertyLine(BATCH, size)]
    ensures RenderedLines(WIRED, TwoProperties(url, user, size)) ==
            [PropertyLine(CONNECTOR_KEY, WIRED), PropertyLine(URL, url), PropertyLine(USER, user),
                PropertyLine(BATCH, size)]
  {
    hide Sorted, PropertyLine;
    SplitKeys(url, user, size);
    DistinctKeys();
    SplitLine(user, size);
  }

  /** The condition is not idle: for every connection URL and user there are two catalogs for a
      curated connector, each property one of its own, that are rendered alike and served differently. */
  lemma SomeCatalogsAreAmbiguous(name: string, url: string, user: string, size: string)
    requires Plain(url) && Plain(user) && Plain(size)
    ensures !Unambiguous(map[name := SplitValue(url, user, size)], map[name := TwoValues(url, user, size)])
  {
    hide Unlines, RenderedLines, PropertyLine, Effective;
    EffectiveSplit(url, user, size);
    RenderedLinesSplit(url, user, size);
    UnlinesSplit(PropertyLine(CONNECTOR_KEY, WIRED), PropertyLine(URL, url), PropertyLine(USER, user),
        PropertyLine(BATCH, size));
    DistinctKeys();
    var snapshot: Configured, desired: Configured := map[name := SplitValue(url, user, size)],
      map[name := TwoValues(url, user, size)];
    assert name in snapshot && name in desired && Rendered(snapshot[name]) == Rendered(desired[name]);
    assert BATCH !in ContentOf(snapshot[name]).properties;
    assert BATCH in ContentOf(desired[name]).properties;
  }

  // ------------------------------------------------------------------ before anything is issued

  lemma NothingRecordedYet(snapshot: Configured, desired: Configured, live: set<string>)
    ensures Satisfied(PlanOf(desired, snapshot), live, RenderSecret(snapshot), RenderSecret(desired)) == {}
  {
    PlanMembers(desired, snapshot);
    forall name | name in PlanOf(desired, snapshot).created
      ensures Recorded(RenderSecret(snapshot), name) != Recorded(RenderSecret(desired), name)
    {
      SecretRecords(snapshot, name);
      SecretRecords(desired, name);
    }
  }

  lemma {:induction false} SelectEverything(names: seq<string>, keep: set<string>)
    requires forall name | name in names :: name in keep
    ensures Select(names, keep) == names
  {
    if names != [] {
      SelectEverything(names[..|names| - 1], keep);
      assert names == names[..|names| - 1] + [names[|names| - 1]];
    }
  }

  /** On a Cluster in sync, nothing is settled, and the check passes exactly when no desired
      catalog has the name of one that nobody manages. */
  lemma CheckInSync(snapshot: Configured, desired: Configured, foreign: Live)
    requires Unmanaged(foreign, snapshot)
    ensures var live := Serving(foreign, snapshot).Keys;
            var plan := PlanOf(desired, snapshot);
            Settled(plan, live, RenderSecret(snapshot), RenderSecret(desired)) == plan &&
            (Check(plan, live, RenderSecret(snapshot), RenderSecret(desired)) == [] <==> Unmanaged(foreign, desired))
  {
    var live, plan := Serving(foreign, snapshot).Keys, PlanOf(desired, snapshot);
    NothingRecordedYet(snapshot, desired, live);
    SelectEverything(plan.created, Elements(plan.created) - {});
    CheckPasses(plan, live, RenderSecret(snapshot), RenderSecret(desired));
    PlanMembers(desired, snapshot);
  }

  // ------------------------------------------------------------------ retrying

  /** The plan of a retry: the same Candidate and base, against the Secret already written. */
  function Resuming(snapshot: Configured, desired: Configured, live: Live): Plan {
    Settled(PlanOf(desired, snapshot), live.Keys, RenderSecret(desired), RenderSecret(desired))
  }

  lemma ResumingAt(snapshot: Configured, desired: Configured, live: Live, name: string)
    ensures var plan := Resuming(snapshot, desired, live);
            && (name in plan.created <==> name in desired && name !in snapshot && name !in live)
            && (name in plan.replaced <==> name in desired && name in snapshot && desired[name] != snapshot[name])
            && (name in plan.dropped <==> name in snapshot && name !in desired)
  {
    PlanMembers(desired, snapshot);
    SettledMembers(PlanOf(desired, snapshot), live.Keys, RenderSecret(desired), RenderSecret(desired));
  }

  /** Nothing that the Apply replaces or drops has gone missing. */
  ghost predicate NothingGone(snapshot: Configured, desired: Configured, live: Live) {
    forall name | name in snapshot && (name !in desired || snapshot[name] != desired[name]) :: name in live
  }

  lemma ResumedAt(snapshot: Configured, desired: Configured, foreign: Live, live: Live, name: string)
    requires Unmanaged(foreign, snapshot) && Unmanaged(foreign, desired)
    requires Mixture(snapshot, desired, foreign, live)
    ensures var outcome := Outcome(live, desired, Resuming(snapshot, desired, live));
            (name in outcome <==> name in Serving(foreign, desired)) &&
            (name in outcome ==> outcome[name] == Serving(foreign, desired)[name])
  {
    ResumingAt(snapshot, desired, live, name);
    OutcomeAt(live, desired, Resuming(snapshot, desired, live), name);
    if name in desired && name in snapshot && desired[name] == snapshot[name] {
      assert live[name] == ContentOf(desired[name]);
    }
  }

  lemma ResumingApart(snapshot: Configured, desired: Configured, live: Live)
    ensures Apart(Resuming(snapshot, desired, live))
    ensures Fits(live, Resuming(snapshot, desired, live)) <==> NothingGone(snapshot, desired, live)
  {
    hide PlanOf, RenderSecret;
    PlanDistinct(desired, snapshot);
    SettledMembers(PlanOf(desired, snapshot), live.Keys, RenderSecret(desired), RenderSecret(desired));
    forall name
      ensures name in Resuming(snapshot, desired, live).created <==>
              name in desired && name !in snapshot && name !in live
      ensures name in Resuming(snapshot, desired, live).replaced <==>
              name in desired && name in snapshot && desired[name] != snapshot[name]
      ensures name in Resuming(snapshot, desired, live).dropped <==> name in snapshot && name !in desired
    {
      ResumingAt(snapshot, desired, live, name);
    }
  }

  /** Wherever the first attempt stopped, the retry passes the collision check and creates no
      name that is live. All of its statements are accepted exactly when nothing it replaces or
      drops is gone already, and then it leaves exactly the desired catalogs. */
  lemma RetryCompletesExactlyWhenNothingIsGone(snapshot: Configured, desired: Configured, foreign: Live, live: Live)
    requires Unmanaged(foreign, snapshot) && Unmanaged(foreign, desired)
    requires Mixture(snapshot, desired, foreign, live)
    ensures Check(PlanOf(desired, snapshot), live.Keys, RenderSecret(desired), RenderSecret(desired)) == []
    ensures AcceptsAll(live, Statements(desired, Resuming(snapshot, desired, live))) <==>
            NothingGone(snapshot, desired, live)
    ensures IssueAll(live, Statements(desired, Resuming(snapshot, desired, live))) == Serving(foreign, desired)
  {
    var plan := Resuming(snapshot, desired, live);
    SettledMembers(PlanOf(desired, snapshot), live.Keys, RenderSecret(desired), RenderSecret(desired));
    CheckPasses(PlanOf(desired, snapshot), live.Keys, RenderSecret(desired), RenderSecret(desired));
    ResumingApart(snapshot, desired, live);
    PlanRun(live, desired, plan);
    forall name
      ensures name in Outcome(live, desired, plan) <==> name in Serving(foreign, desired)
      ensures name in Outcome(live, desired, plan) ==>
              Outcome(live, desired, plan)[name] == Serving(foreign, desired)[name]
    {
      ResumedAt(snapshot, desired, foreign, live, name);
    }
    SameLive(Outcome(live, desired, plan), Serving(foreign, desired));
  }

  /** Applying the same once more when all of it is served already, because its Snapshot was not
      written, or the Candidate not re-derived from it: every statement is accepted exactly when the
      Candidate dropped nothing. */
  lemma RepeatCompletesExactlyWithoutDrops(snapshot: Configured, desired: Configured, foreign: Live)
    requires Unmanaged(foreign, snapshot) && Unmanaged(foreign, desired)
    ensures var live := Serving(foreign, desired);
            Check(PlanOf(desired, snapshot), live.Keys, RenderSecret(desired), RenderSecret(desired)) == [] &&
            (AcceptsAll(live, Statements(desired, Resuming(snapshot, desired, live))) <==>
               snapshot.Keys <= desired.Keys)
  {
    hide Statements, AcceptsAll, IssueAll, Resuming, Check, PlanOf;
    var live := Serving(foreign, desired);
    StopsAtTheEnd(snapshot, desired, foreign);
    StopsAreMixtures(snapshot, desired, foreign, live);
    RetryCompletesExactlyWhenNothingIsGone(snapshot, desired, foreign, live);
    if name :| name in snapshot && name !in desired {
      assert name !in live;
    }
  }

  // ------------------------------------------------------------------ what stays served throughout

  /** Every prefix of a plan's statements is the statements of a shorter plan, or those and the
      first half of one replacement. */
  ghost predicate PrefixOf(plan: Plan, k: nat, part: Plan, halfway: seq<Statement>) {
    part.created <= plan.created && part.replaced <= plan.replaced && part.dropped <= plan.dropped &&
    (part.replaced != [] || part.dropped != [] || halfway != [] ==> part.created == plan.created) &&
    (part.dropped != [] ==> part.replaced == plan.replaced && halfway == []) &&
    (halfway == [] || (|part.replaced| < |plan.replaced| && halfway == [Drop(plan.replaced[|part.replaced|])])) &&
    (k <= |plan.created| ==> part.replaced == []) &&
    (halfway != [] <==> |plan.created| < k <= |plan.created| + 2 * |plan.replaced| && (k - |plan.created|) % 2 == 1) &&
    (part.dropped != [] <==> k > |plan.created| + 2 * |plan.replaced|)
  }

  lemma {:induction false} CreatesPrefix(desired: Configured, names: seq<string>, k: nat)
    requires k <= |names|
    ensures |Creates(desired, names)| == |names|
    ensures Creates(desired, names)[..k] == Creates(desired, names[..k])
  {
    if k == |names| {
      assert names[..k] == names;
      if names != [] { CreatesPrefix(desired, names[..|names| - 1], |names| - 1); }
    } else {
      CreatesPrefix(desired, names[..|names| - 1], k);
      TakeTake(names, |names| - 1, k);
    }
  }

  lemma {:induction false} RecreatesPrefix(desired: Configured, names: seq<string>, k: nat)
    requires k <= 2 * |names|
    ensures |Recreates(desired, names)| == 2 * |names|
    ensures Recreates(desired, names)[..k] ==
            Recreates(desired, names[..k / 2]) + if k % 2 == 1 then [Drop(names[k / 2])] else []
    decreases |names|
  {
    if names != [] {
      var front, last := names[..|names| - 1], names[|names| - 1];
      RecreatesPrefix(desired, front, if k < 2 * |front| then k else 2 * |front|);
      TakeOfSum(Recreates(desired, front), [Drop(last), Create(last, Wanted(desired, last))], k);
      assert front[..|front|] == front;
      if k < 2 * |front| {
        TakeTake(names, |names| - 1, k / 2);
      } else if k == 2 * |names| {
        assert names[..k / 2] == names;
      }
    }
  }

  lemma {:induction false} DropsPrefix(names: seq<string>, k: nat)
    requires k <= |names|
    ensures |Drops(names)| == |names|
    ensures Drops(names)[..k] == Drops(names[..k])
  {
    if k == |names| {
      assert names[..k] == names;
      if names != [] { DropsPrefix(names[..|names| - 1], |names| - 1); }
    } else {
      DropsPrefix(names[..|names| - 1], k);
      TakeTake(names, |names| - 1, k);
    }
  }

  lemma TakeOfSum<T>(a: seq<T>, b: seq<T>, k: nat)
    requires k <= |a| + |b|
    ensures (a + b)[..k] == if k <= |a| then a[..k] else a + b[..k - |a|]
  {
  }

  lemma PhaseLengths(desired: Configured, plan: Plan)
    ensures |Creates(desired, plan.created)| == |plan.created|
    ensures |Recreates(desired, plan.replaced)| == 2 * |plan.replaced|
    ensures |Drops(plan.dropped)| == |plan.dropped|
  {
    CreatesPrefix(desired, plan.created, |plan.created|);
    RecreatesPrefix(desired, plan.replaced, 2 * |plan.replaced|);
    DropsPrefix(plan.dropped, |plan.dropped|);
  }

  lemma StatementsOfThree(desired: Configured, plan: Plan, a: seq<Statement>, b: seq<Statement>, c: seq<Statement>)
    requires a == Creates(desired, plan.created) && b == Recreates(desired, plan.replaced) && c == Drops(plan.dropped)
    ensures Statements(desired, plan) == a + b + c
  {
  }

  lemma PrefixInCreates(desired: Configured, plan: Plan, k: nat)
    requires k <= |plan.created|
    ensures k <= |Statements(desired, plan)|
    ensures Statements(desired, plan)[..k] == Statements(desired, Plan(plan.created[..k], [], []))
  {
    PhaseLengths(desired, plan);
    var c, r, d := Creates(desired, plan.created), Recreates(desired, plan.replaced), Drops(plan.dropped);
    TakeOfSum(c + r, d, k);
    TakeOfSum(c, r, k);
    CreatesPrefix(desired, plan.created, k);
  }

  lemma PrefixInRecreates(desired: Configured, plan: Plan, j: nat)
    requires j <= 2 * |plan.replaced|
    ensures |plan.created| + j <= |Statements(desired, plan)|
    ensures Statements(desired, plan)[..|plan.created| + j] ==
            Statements(desired, Plan(plan.created, plan.replaced[..j / 2], [])) +
            if j % 2 == 1 then [Drop(plan.replaced[j / 2])] else []
  {
    PhaseLengths(desired, plan);
    var c, r, d := Creates(desired, plan.created), Recreates(desired, plan.replaced), Drops(plan.dropped);
    var halfway := if j % 2 == 1 then [Drop(plan.replaced[j / 2])] else [];
    TakeOfSum(c + r, d, |c| + j);
    TakeOfSum(c, r, |c| + j);
    RecreatesPrefix(desired, plan.replaced, j);
    Associates(c, Recreates(desired, plan.replaced[..j / 2]), halfway);
    StatementsOfThree(desired, Plan(plan.created, plan.replaced[..j / 2], []), c,
        Recreates(desired, plan.replaced[..j / 2]), []);
    assert c + Recreates(desired, plan.replaced[..j / 2]) + [] == c + Recreates(desired, plan.replaced[..j / 2]);
  }

  lemma PrefixInDrops(desired: Configured, plan: Plan, j: nat)
    requires j <= |plan.dropped|
    ensures |plan.created| + 2 * |plan.replaced| + j <= |Statements(desired, plan)|
    ensures Statements(desired, plan)[..|plan.created| + 2 * |plan.replaced| + j] ==
            Statements(desired, Plan(plan.created, plan.replaced, plan.dropped[..j]))
  {
    PhaseLengths(desired, plan);
    var c, r, d := Creates(desired, plan.created), Recreates(desired, plan.replaced), Drops(plan.dropped);
    TakeOfSum(c + r, d, |c| + |r| + j);
    DropsPrefix(plan.dropped, j);
    assert |c + r| == |c| + |r|;
    if j == 0 { assert (c + r)[..|c| + |r|] == c + r; assert c + r + [] == c + r; }
  }

  /** A prefix of an Apply: the part of the plan that is done, and possibly a catalog between
      the two halves of its replacement. */
  lemma PrefixShape(desired: Configured, plan: Plan, k: nat) returns (part: Plan, halfway: seq<Statement>)
    requires k <= |Statements(desired, plan)|
    ensures PrefixOf(plan, k, part, halfway)
    ensures Statements(desired, plan)[..k] == Statements(desired, part) + halfway
  {
    PhaseLengths(desired, plan);
    halfway := [];
    if k <= |plan.created| {
      PrefixInCreates(desired, plan, k);
      part := Plan(plan.created[..k], [], []);
    } else if k <= |plan.created| + 2 * |plan.replaced| {
      var j := k - |plan.created|;
      PrefixInRecreates(desired, plan, j);
      part := Plan(plan.created, plan.replaced[..j / 2], []);
      halfway := if j % 2 == 1 then [Drop(plan.replaced[j / 2])] else [];
    } else {
      var j := k - |plan.created| - 2 * |plan.replaced|;
      PrefixInDrops(desired, plan, j);
      part := Plan(plan.created, plan.replaced, plan.dropped[..j]);
    }
    assert Statements(desired, part) + [] == Statements(desired, part);
  }

  lemma PartApart(plan: Plan, k: nat, part: Plan, halfway: seq<Statement>, live: Live)
    requires Apart(plan) && Fits(live, plan) && PrefixOf(plan, k, part, halfway)
    ensures Apart(part) && Fits(live, part)
    ensures halfway != [] ==> halfway[0].name in plan.replaced
  {
    assert forall name | name in part.created :: name in plan.created;
    assert forall name | name in part.replaced :: name in plan.replaced;
    assert forall name | name in part.dropped :: name in plan.dropped;
  }

  /** Live after the first `k` statements of an Apply from a Cluster in sync. */
  function During(snapshot: Configured, desired: Configured, foreign: Live, k: nat): Live
    requires k <= |Statements(desired, PlanOf(desired, snapshot))|
  {
    IssueAll(Serving(foreign, snapshot), Statements(desired, PlanOf(desired, snapshot))[..k])
  }

  lemma DuringIs(snapshot: Configured, desired: Configured, foreign: Live, k: nat)
    returns (part: Plan, halfway: seq<Statement>)
    requires Unmanaged(foreign, snapshot) && Unmanaged(foreign, desired)
    requires k <= |Statements(desired, PlanOf(desired, snapshot))|
    ensures PrefixOf(PlanOf(desired, snapshot), k, part, halfway)
    ensures During(snapshot, desired, foreign, k) ==
            if halfway == [] then Outcome(Serving(foreign, snapshot), desired, part)
            else Outcome(Serving(foreign, snapshot), desired, part) - {halfway[0].name}
  {
    var before, plan := Serving(foreign, snapshot), PlanOf(desired, snapshot);
    part, halfway := PrefixShape(desired, plan, k);
    PlanFits(snapshot, desired, foreign);
    PartApart(plan, k, part, halfway, before);
    PlanRun(before, desired, part);
    IssueAppend(before, Statements(desired, part), halfway);
    if halfway != [] {
      IssueOne(IssueAll(before, Statements(desired, part)), halfway[0]);
    }
  }

  /** At most one catalog that both configurations have is ever missing. */
  lemma AtMostOneMissing(snapshot: Configured, desired: Configured, foreign: Live, k: nat, a: string, b: string)
    requires Unmanaged(foreign, snapshot) && Unmanaged(foreign, desired)
    requires k <= |Statements(desired, PlanOf(desired, snapshot))|
    requires a in snapshot && a in desired && a !in During(snapshot, desired, foreign, k)
    requires b in snapshot && b in desired && b !in During(snapshot, desired, foreign, k)
    ensures a == b
  {
    var part, halfway := DuringIs(snapshot, desired, foreign, k);
    PlanMembers(desired, snapshot);
    OutcomeAt(Serving(foreign, snapshot), desired, part, a);
    OutcomeAt(Serving(foreign, snapshot), desired, part, b);
    assert forall name | name in part.dropped :: name in PlanOf(desired, snapshot).dropped;
  }

  /** What the Apply does not touch is live and unchanged throughout. */
  lemma UntouchedThroughout(snapshot: Configured, desired: Configured, foreign: Live, k: nat, name: string)
    requires Unmanaged(foreign, snapshot) && Unmanaged(foreign, desired)
    requires k <= |Statements(desired, PlanOf(desired, snapshot))|
    requires name in foreign || (name in snapshot && name in desired && snapshot[name] == desired[name])
    ensures name in During(snapshot, desired, foreign, k)
    ensures During(snapshot, desired, foreign, k)[name] == Serving(foreign, snapshot)[name]
  {
    var statements := Statements(desired, PlanOf(desired, snapshot))[..k];
    ServingIsMixture(snapshot, desired, foreign);
    forall statement | statement in statements ensures Ours(snapshot, desired, foreign, statement) {
      ApplyIsOurs(snapshot, desired, foreign, statement);
    }
    MixtureKeptByAll(snapshot, desired, foreign, Serving(foreign, snapshot), statements);
  }

  lemma DroppedPart(plan: Plan, k: nat, part: Plan, halfway: seq<Statement>, name: string)
    requires PrefixOf(plan, k, part, halfway)
    requires |plan.created| + 2 * |plan.replaced| < k
    requires name !in plan.dropped
    ensures part.created == plan.created && part.replaced == plan.replaced && halfway == [] && name !in part.dropped
  {
  }

  /** Once anything has been dropped for good, every desired catalog is live as desired. */
  lemma DropsComeLast(snapshot: Configured, desired: Configured, foreign: Live, k: nat, name: string)
    requires Unmanaged(foreign, snapshot) && Unmanaged(foreign, desired)
    requires |PlanOf(desired, snapshot).created| + 2 * |PlanOf(desired, snapshot).replaced| < k
    requires k <= |Statements(desired, PlanOf(desired, snapshot))|
    requires name in desired
    ensures name in During(snapshot, desired, foreign, k)
    ensures During(snapshot, desired, foreign, k)[name] == ContentOf(desired[name])
  {
    var before, plan := Serving(foreign, snapshot), PlanOf(desired, snapshot);
    var part, halfway := DuringIs(snapshot, desired, foreign, k);
    PlanMembers(desired, snapshot);
    DroppedPart(plan, k, part, halfway, name);
    OutcomeAt(before, desired, part, name);
    if name !in plan.created && name !in plan.replaced {
      assert name in snapshot && snapshot[name] == desired[name];
      assert before[name] == ContentOf(snapshot[name]);
    }
  }

  lemma DuringIsMixture(snapshot: Configured, desired: Configured, foreign: Live, k: nat)
    requires Unmanaged(foreign, snapshot) && Unmanaged(foreign, desired)
    requires k <= |Statements(desired, PlanOf(desired, snapshot))|
    ensures Mixture(snapshot, desired, foreign, During(snapshot, desired, foreign, k))
  {
    var statements := Statements(desired, PlanOf(desired, snapshot))[..k];
    ServingIsMixture(snapshot, desired, foreign);
    forall statement | statement in statements ensures Ours(snapshot, desired, foreign, statement) {
      ApplyIsOurs(snapshot, desired, foreign, statement);
    }
    MixtureKeptByAll(snapshot, desired, foreign, Serving(foreign, snapshot), statements);
  }

  /** Nothing is between the halves of its replacement, and no final drop has been issued. */
  predicate AtRest(plan: Plan, k: nat) {
    k <= |plan.created| || (k <= |plan.created| + 2 * |plan.replaced| && (k - |plan.created|) % 2 == 0)
  }

  /** What an Apply replaces or drops is gone exactly when it has stopped between the halves of a
      replacement, or among the final drops. */
  lemma GoneExactly(snapshot: Configured, desired: Configured, foreign: Live, k: nat)
    requires Unmanaged(foreign, snapshot) && Unmanaged(foreign, desired)
    requires k <= |Statements(desired, PlanOf(desired, snapshot))|
    ensures NothingGone(snapshot, desired, During(snapshot, desired, foreign, k)) <==>
            AtRest(PlanOf(desired, snapshot), k)
  {
    hide PlanOf, During, Outcome;
    var plan := PlanOf(desired, snapshot);
    var part, halfway := DuringIs(snapshot, desired, foreign, k);
    PlanMembers(desired, snapshot);
    if halfway != [] {
      assert halfway[0].name in plan.replaced;
    } else if part.dropped != [] {
      assert part.dropped[0] in plan.dropped;
      OutcomeAt(Serving(foreign, snapshot), desired, part, part.dropped[0]);
    } else {
      forall name | name in snapshot ensures name in During(snapshot, desired, foreign, k) {
        OutcomeAt(Serving(foreign, snapshot), desired, part, name);
      }
    }
  }

  /** So a retry of an Apply that stopped after `k` statements is accepted to the end exactly when it
      stopped at rest. Every Apply with a replacement has a stop where it is not, after the first half
      of the first; and so does every Apply that drops. */
  lemma RetryCompletesExactlyAtRest(snapshot: Configured, desired: Configured, foreign: Live, k: nat)
    requires Unmanaged(foreign, snapshot) && Unmanaged(foreign, desired)
    requires k <= |Statements(desired, PlanOf(desired, snapshot))|
    ensures var live := During(snapshot, desired, foreign, k);
            AcceptsAll(live, Statements(desired, Resuming(snapshot, desired, live))) <==>
              AtRest(PlanOf(desired, snapshot), k)
  {
    DuringIsMixture(snapshot, desired, foreign, k);
    GoneExactly(snapshot, desired, foreign, k);
    RetryCompletesExactlyWhenNothingIsGone(snapshot, desired, foreign, During(snapshot, desired, foreign, k));
  }

  /** Such stops are there: in every Apply that replaces or drops anything, one statement after the
      last create. */
  lemma SomeStopsCannotBeRetried(snapshot: Configured, desired: Configured, foreign: Live)
    requires Unmanaged(foreign, snapshot) && Unmanaged(foreign, desired)
    requires PlanOf(desired, snapshot).replaced != [] || PlanOf(desired, snapshot).dropped != []
    ensures var k := |PlanOf(desired, snapshot).created| + 1;
            k <= |Statements(desired, PlanOf(desired, snapshot))| &&
            var live := During(snapshot, desired, foreign, k);
            !AcceptsAll(live, Statements(desired, Resuming(snapshot, desired, live)))
  {
    hide PlanOf, During, Statements, AcceptsAll, Resuming;
    Lengths(desired, PlanOf(desired, snapshot));
    RetryCompletesExactlyAtRest(snapshot, desired, foreign, |PlanOf(desired, snapshot).created| + 1);
  }

  lemma Lengths(desired: Configured, plan: Plan)
    ensures |Statements(desired, plan)| == |plan.created| + 2 * |plan.replaced| + |plan.dropped|
  {
    PhaseLengths(desired, plan);
  }

  /** An Apply that stops while it is still creating can always be retried. */
  lemma CreatePhaseCanBeRetried(snapshot: Configured, desired: Configured, foreign: Live, k: nat)
    requires Unmanaged(foreign, snapshot) && Unmanaged(foreign, desired)
    requires k <= |PlanOf(desired, snapshot).created| && k <= |Statements(desired, PlanOf(desired, snapshot))|
    ensures NothingGone(snapshot, desired, During(snapshot, desired, foreign, k))
  {
    GoneExactly(snapshot, desired, foreign, k);
  }
}
