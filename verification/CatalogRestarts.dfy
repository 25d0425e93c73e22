/** Issuing statements while the coordinator may restart at any moment and serve what its Secret
    seeds: what is live in between, and what is live when every statement was accepted. */
module CatalogRestarts {
  import opened Slices
  import opened Catalogs
  import opened CatalogPlans
  import opened CatalogDdl
  import opened CatalogRecovery

  /** What is live, which of it nobody manages, and the statements still to be issued. */
  datatype Issuing = Issuing(live: Live, foreign: Live, rest: seq<Statement>)

  /** Unmanaged catalogs only ever get fewer. */
  ghost predicate Fewer(foreign: Live, kept: Live) {
    forall name | name in kept :: name in foreign && kept[name] == foreign[name]
  }

  /** What the coordinator serves after starting again, from its Secret and from the files of the
      unmanaged catalogs it still has. */
  ghost predicate Reloads(secret: SecretData, live: Live, kept: Live) {
    exists loaded :: Seeds(secret, loaded) && live == kept + loaded
  }

  /** One more statement is accepted, or the coordinator restarts. */
  ghost predicate Moves(secret: SecretData, a: Issuing, b: Issuing) {
    || (a.rest != [] && Accepts(a.live, a.rest[0]) && b == Issuing(Issue(a.live, a.rest[0]), a.foreign, a.rest[1..]))
    || (b.rest == a.rest && Fewer(a.foreign, b.foreign) && Reloads(secret, b.live, b.foreign))
  }

  ghost predicate Interleaving(secret: SecretData, path: seq<Issuing>, a: Issuing, b: Issuing) {
    path != [] && path[0] == a && path[|path| - 1] == b &&
      forall i | 0 <= i < |path| - 1 :: Moves(secret, path[i], path[i + 1])
  }

  ghost predicate Leads(secret: SecretData, a: Issuing, b: Issuing) {
    exists path :: Interleaving(secret, path, a, b)
  }

  lemma LeadsNowhere(secret: SecretData, a: Issuing)
    ensures Leads(secret, a, a)
  {
    assert Interleaving(secret, [a], a, a);
  }

  lemma LeadsOn(secret: SecretData, a: Issuing, b: Issuing, c: Issuing)
    requires Leads(secret, a, b) && Moves(secret, b, c)
    ensures Leads(secret, a, c)
  {
    hide Moves;
    var path :| Interleaving(secret, path, a, b);
    var longer := path + [c];
    forall i | 0 <= i < |longer| - 1 ensures Moves(secret, longer[i], longer[i + 1]) {
      if i < |path| - 1 { assert Moves(secret, path[i], path[i + 1]); }
    }
    assert Interleaving(secret, longer, a, c);
  }

  // ------------------------------------------------------------------ the last word on a name

  /** What the last statement that names a catalog makes of it; nothing if none does. */
  function LastWord(statements: seq<Statement>, name: string): seq<Statement> {
    if statements == [] then []
    else
      var last := statements[|statements| - 1];
      if last.name == name then [last] else LastWord(statements[..|statements| - 1], name)
  }

  predicate Says(word: seq<Statement>, before: Live, after: Live, name: string) {
    if word == [] then (name in after <==> name in before) && (name in after ==> after[name] == before[name])
    else match word[0]
      case Create(_, content) => name in after && after[name] == content
      case Drop(_) => name !in after
  }

  lemma {:induction false} LastWordDecides(live: Live, statements: seq<Statement>, name: string)
    ensures Says(LastWord(statements, name), live, IssueAll(live, statements), name)
  {
    if statements != [] {
      var front, last := statements[..|statements| - 1], statements[|statements| - 1];
      LastWordDecides(live, front, name);
      IssueAppend(live, front, [last]);
      IssueOne(IssueAll(live, front), last);
      assert statements == front + [last];
    }
  }

  lemma {:induction false} LaterWord(a: seq<Statement>, b: seq<Statement>, name: string)
    ensures LastWord(a + b, name) == if LastWord(b, name) != [] then LastWord(b, name) else LastWord(a, name)
  {
    if b == [] {
      assert a + b == a;
    } else {
      var front := b[..|b| - 1];
      LaterWord(a, front, name);
      assert (a + b)[..|a + b| - 1] == a + front;
    }
  }

  lemma {:induction false} WordNames(statements: seq<Statement>, name: string)
    ensures LastWord(statements, name) != [] ==>
            LastWord(statements, name)[0] in statements && LastWord(statements, name)[0].name == name
  {
    if statements != [] { WordNames(statements[..|statements| - 1], name); }
  }

  /** Statements that bring a Cluster to a configuration, and name nothing unmanaged. */
  ghost predicate Bring(start: Live, statements: seq<Statement>, target: Configured, foreign: Live) {
    IssueAll(start, statements) == Serving(foreign, target) && forall s | s in statements :: s.name !in foreign
  }

  lemma EndAlone(start: Live, a: seq<Statement>, b: seq<Statement>, target: Configured, foreign: Live, kept: Live,
                 name: string)
    requires Bring(start, a + b, target, foreign) && Fewer(foreign, kept)
    ensures var before, after := Serving(kept, target), IssueAll(Serving(kept, target), b);
            (name in after <==> name in before) && (name in after ==> after[name] == before[name])
  {
    LastWordDecides(Serving(kept, target), b, name);
    LastWordDecides(start, a + b, name);
    LaterWord(a, b, name);
    WordNames(b, name);
    assert forall s | s in b :: s in a + b;
  }

  /** What is left of such statements changes nothing on a Cluster that already serves the target. */
  lemma EndIsHarmless(start: Live, a: seq<Statement>, b: seq<Statement>, target: Configured, foreign: Live, kept: Live)
    requires Bring(start, a + b, target, foreign) && Fewer(foreign, kept)
    ensures IssueAll(Serving(kept, target), b) == Serving(kept, target)
  {
    hide Serving, IssueAll, Bring, Fewer;
    forall name
      ensures var before, after := Serving(kept, target), IssueAll(Serving(kept, target), b);
              (name in after <==> name in before) && (name in after ==> after[name] == before[name])
    {
      EndAlone(start, a, b, target, foreign, kept, name);
    }
    SameLive(IssueAll(Serving(kept, target), b), Serving(kept, target));
  }

  // ------------------------------------------------------------------ interleavings

  /** The rest are an end of all the statements, and would bring the Cluster to the target. */
  ghost predicate OnTheWay(all: seq<Statement>, target: Configured, foreign: Live, at: Issuing) {
    (exists done :: all == done + at.rest) && Fewer(foreign, at.foreign) &&
      IssueAll(at.live, at.rest) == Serving(at.foreign, target)
  }

  lemma FewerStill(foreign: Live, kept: Live, fewer: Live)
    requires Fewer(foreign, kept) && Fewer(kept, fewer)
    ensures Fewer(foreign, fewer)
  {
  }

  lemma ReloadsTarget(target: Configured, live: Live, kept: Live)
    requires CleanAll(target) && Reloads(RenderSecret(target), live, kept)
    ensures live == Serving(kept, target)
  {
    var loaded :| Seeds(RenderSecret(target), loaded) && live == kept + loaded;
    SecretSeedsConfiguration(target, loaded);
  }

  lemma OnTheWayStill(start: Live, all: seq<Statement>, target: Configured, foreign: Live, a: Issuing, b: Issuing)
    requires Bring(start, all, target, foreign) && CleanAll(target)
    requires OnTheWay(all, target, foreign, a) && Moves(RenderSecret(target), a, b)
    ensures OnTheWay(all, target, foreign, b)
  {
    hide Serving, RenderSecret, CleanAll, Bring, Reloads;
    var done :| all == done + a.rest;
    if b.rest == a.rest && Fewer(a.foreign, b.foreign) && Reloads(RenderSecret(target), b.live, b.foreign) {
      FewerStill(foreign, a.foreign, b.foreign);
      ReloadsTarget(target, b.live, b.foreign);
      EndIsHarmless(start, done, a.rest, target, foreign, b.foreign);
      assert all == done + b.rest;
    } else {
      assert all == (done + [a.rest[0]]) + b.rest;
    }
  }

  lemma {:induction false} OnTheWayAlong(start: Live, all: seq<Statement>, target: Configured, foreign: Live,
                                         path: seq<Issuing>, a: Issuing, b: Issuing)
    requires Bring(start, all, target, foreign) && CleanAll(target)
    requires OnTheWay(all, target, foreign, a) && Interleaving(RenderSecret(target), path, a, b)
    ensures OnTheWay(all, target, foreign, b)
    decreases |path|
  {
    hide Bring, CleanAll, OnTheWay, Moves, RenderSecret;
    if |path| > 1 {
      var front := path[..|path| - 1];
      var before := path[|path| - 2];
      assert Interleaving(RenderSecret(target), front, a, before);
      OnTheWayAlong(start, all, target, foreign, front, a, before);
      assert Moves(RenderSecret(target), path[|path| - 2], path[|path| - 2 + 1]);
      OnTheWayStill(start, all, target, foreign, before, b);
    }
  }

  /** However the coordinator restarts between them: once every statement has been accepted, the
      Cluster serves the target. */
  lemma CompletedServesTheTarget(start: Live, all: seq<Statement>, target: Configured, foreign: Live, end: Issuing)
    requires Bring(start, all, target, foreign) && CleanAll(target)
    requires Leads(RenderSecret(target), Issuing(start, foreign, all), end) && end.rest == []
    ensures Fewer(foreign, end.foreign) && end.live == Serving(end.foreign, target)
  {
    hide Moves, RenderSecret, Serving, CleanAll;
    assert all == [] + all;
    var path :| Interleaving(RenderSecret(target), path, Issuing(start, foreign, all), end);
    OnTheWayAlong(start, all, target, foreign, path, Issuing(start, foreign, all), end);
    assert IssueAll(end.live, []) == end.live;
  }

  // ------------------------------------------------------------------ what is live in between

  ghost predicate AllOurs(snapshot: Configured, desired: Configured, foreign: Live, statements: seq<Statement>) {
    forall s | s in statements :: Ours(snapshot, desired, foreign, s)
  }

  /** Between two configurations, with statements of an Apply to come. */
  ghost predicate InBetween(snapshot: Configured, desired: Configured, at: Issuing) {
    Unmanaged(at.foreign, snapshot) && Unmanaged(at.foreign, desired) &&
    Mixture(snapshot, desired, at.foreign, at.live) && AllOurs(snapshot, desired, at.foreign, at.rest)
  }

  lemma FewerUnmanaged(foreign: Live, kept: Live, catalogs: Configured)
    requires Unmanaged(foreign, catalogs) && Fewer(foreign, kept)
    ensures Unmanaged(kept, catalogs)
  {
  }

  lemma InBetweenStill(snapshot: Configured, desired: Configured, a: Issuing, b: Issuing)
    requires CleanAll(desired) && InBetween(snapshot, desired, a) && Moves(RenderSecret(desired), a, b)
    ensures InBetween(snapshot, desired, b)
  {
    hide RenderSecret, Mixture, CleanAll, Reloads;
    if b.rest == a.rest && Fewer(a.foreign, b.foreign) && Reloads(RenderSecret(desired), b.live, b.foreign) {
      FewerUnmanaged(a.foreign, b.foreign, snapshot);
      FewerUnmanaged(a.foreign, b.foreign, desired);
      ReloadsTarget(desired, b.live, b.foreign);
      DesiredIsMixture(snapshot, desired, b.foreign);
      forall s | s in b.rest
        ensures Ours(snapshot, desired, b.foreign, s)
      {
        assert Ours(snapshot, desired, a.foreign, s);
      }
    } else {
      assert a.rest[0] in a.rest;
      MixtureKept(snapshot, desired, a.foreign, a.live, a.rest[0]);
    }
  }

  lemma DesiredIsMixture(snapshot: Configured, desired: Configured, foreign: Live)
    requires Unmanaged(foreign, snapshot) && Unmanaged(foreign, desired)
    ensures Mixture(snapshot, desired, foreign, Serving(foreign, desired))
  {
  }

  lemma {:induction false} InBetweenAlong(snapshot: Configured, desired: Configured, path: seq<Issuing>, a: Issuing,
                                          b: Issuing)
    requires CleanAll(desired) && InBetween(snapshot, desired, a) && Interleaving(RenderSecret(desired), path, a, b)
    ensures InBetween(snapshot, desired, b) && Fewer(a.foreign, b.foreign)
    decreases |path|
  {
    hide CleanAll, InBetween, Moves, RenderSecret;
    if |path| > 1 {
      var front := path[..|path| - 1];
      var before := path[|path| - 2];
      assert Interleaving(RenderSecret(desired), front, a, before);
      InBetweenAlong(snapshot, desired, front, a, before);
      assert Moves(RenderSecret(desired), path[|path| - 2], path[|path| - 2 + 1]);
      InBetweenStill(snapshot, desired, before, b);
      MovesKeepFewer(RenderSecret(desired), before, b);
      FewerStill(a.foreign, before.foreign, b.foreign);
    }
  }

  lemma MovesKeepFewer(secret: SecretData, a: Issuing, b: Issuing)
    requires Moves(secret, a, b)
    ensures Fewer(a.foreign, b.foreign)
  {
  }

  /** Once the Secret of an Apply is written: at every instant, however statements and restarts are
      interleaved, the Cluster is a mixture of the two configurations, and one rollback undoes it. */
  lemma UndoneAtEveryInstant(snapshot: Configured, desired: Configured, foreign: Live, at: Issuing)
    requires Unmanaged(foreign, snapshot) && Unmanaged(foreign, desired) && CleanAll(snapshot) && CleanAll(desired)
    requires Leads(RenderSecret(desired),
               Issuing(Serving(foreign, snapshot), foreign, Statements(desired, PlanOf(desired, snapshot))), at)
    ensures Mixture(snapshot, desired, at.foreign, at.live) && Fewer(foreign, at.foreign)
    ensures Restores(snapshot, desired, at.foreign, at.live)
  {
    hide Mixture, Restores, CleanCatalog, Statements, PlanOf, RenderSecret, Interleaving, Moves;
    var all := Statements(desired, PlanOf(desired, snapshot));
    var start := Issuing(Serving(foreign, snapshot), foreign, all);
    ServingIsMixture(snapshot, desired, foreign);
    forall s | s in all ensures Ours(snapshot, desired, foreign, s) { ApplyIsOurs(snapshot, desired, foreign, s); }
    var path :| Interleaving(RenderSecret(desired), path, start, at);
    InBetweenAlong(snapshot, desired, path, start, at);
    CleanUnambiguous(snapshot, desired);
    MixturesAreRestored(snapshot, desired, at.foreign, at.live);
  }
}
