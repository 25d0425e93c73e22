/** CREATE CATALOG and DROP CATALOG against a running coordinator, and what any prefix of an
    Apply or of a rollback leaves live. */
module CatalogDdl {
  import opened Ordering
  import opened Slices
  import opened Catalogs
  import opened CatalogPlans

  type Live = map<string, Content>

  datatype Statement = Create(name: string, content: Content) | Drop(name: string)

  /** CREATE fails on a name that exists, DROP on one that does not. */
  predicate Accepts(live: Live, statement: Statement) {
    match statement
    case Create(name, _) => name !in live
    case Drop(name) => name in live
  }

  function Issue(live: Live, statement: Statement): Live {
    match statement
    case Create(name, content) => live[name := content]
    case Drop(name) => live - {name}
  }

  function IssueAll(live: Live, statements: seq<Statement>): Live
    decreases |statements|
  {
    if statements == [] then live else IssueAll(Issue(live, statements[0]), statements[1..])
  }

  predicate AcceptsAll(live: Live, statements: seq<Statement>)
    decreases |statements|
  {
    statements == [] || (Accepts(live, statements[0]) && AcceptsAll(Issue(live, statements[0]), statements[1..]))
  }

  /** What is live once some statements were issued, up to the first that is refused. */
  function IssueAccepted(live: Live, statements: seq<Statement>): Live
    decreases |statements|
  {
    if statements == [] || !Accepts(live, statements[0]) then live
    else IssueAccepted(Issue(live, statements[0]), statements[1..])
  }

  lemma {:induction false} AllAccepted(live: Live, statements: seq<Statement>)
    requires AcceptsAll(live, statements)
    ensures IssueAccepted(live, statements) == IssueAll(live, statements)
    decreases |statements|
  {
    if statements != [] { AllAccepted(Issue(live, statements[0]), statements[1..]); }
  }

  lemma {:induction false} IssueAppend(live: Live, a: seq<Statement>, b: seq<Statement>)
    ensures IssueAll(live, a + b) == IssueAll(IssueAll(live, a), b)
    ensures AcceptsAll(live, a + b) <==> AcceptsAll(live, a) && AcceptsAll(IssueAll(live, a), b)
    decreases |a|
  {
    if a == [] {
      assert a + b == b;
    } else {
      IssueAppend(Issue(live, a[0]), a[1..], b);
      assert (a + b)[1..] == a[1..] + b;
    }
  }

  lemma IssueOne(live: Live, statement: Statement)
    ensures IssueAll(live, [statement]) == Issue(live, statement)
    ensures AcceptsAll(live, [statement]) == Accepts(live, statement)
  {
    assert [statement][1..] == [];
  }

  // ------------------------------------------------------------------ the statements of a plan

  function Wanted(desired: Configured, name: string): Content {
    if name in desired then ContentOf(desired[name]) else Content("", map[])
  }

  function Creates(desired: Configured, names: seq<string>): seq<Statement> {
    if names == [] then []
    else Creates(desired, names[..|names| - 1]) + [Create(names[|names| - 1], Wanted(desired, names[|names| - 1]))]
  }

  /** There is no ALTER CATALOG: a replacement is a drop and then a create. */
  function Recreates(desired: Configured, names: seq<string>): seq<Statement> {
    if names == [] then []
    else
      var last := names[|names| - 1];
      Recreates(desired, names[..|names| - 1]) + [Drop(last), Create(last, Wanted(desired, last))]
  }

  function Drops(names: seq<string>): seq<Statement> {
    if names == [] then [] else Drops(names[..|names| - 1]) + [Drop(names[|names| - 1])]
  }

  /** Creates and replacements before drops. */
  function Statements(desired: Configured, plan: Plan): seq<Statement> {
    Creates(desired, plan.created) + Recreates(desired, plan.replaced) + Drops(plan.dropped)
  }

  // ------------------------------------------------------------------ what a whole phase does

  function Targets(desired: Configured, names: seq<string>): Live {
    map name | name in names :: Wanted(desired, name)
  }

  function Adding(live: Live, desired: Configured, names: seq<string>): Live {
    live + Targets(desired, names)
  }

  lemma TargetsOneMore(desired: Configured, front: seq<string>, last: string)
    ensures Targets(desired, front + [last]) == Targets(desired, front)[last := Wanted(desired, last)]
  {
    assert forall name :: name in front + [last] <==> name in front || name == last;
  }

  lemma OverlayOneMore(live: Live, overlay: Live, last: string, content: Content)
    ensures (live + overlay)[last := content] == live + overlay[last := content]
  {
  }

  lemma AddingOneMore(live: Live, desired: Configured, front: seq<string>, last: string)
    ensures Adding(live, desired, front)[last := Wanted(desired, last)] == Adding(live, desired, front + [last])
  {
    TargetsOneMore(desired, front, last);
    OverlayOneMore(live, Targets(desired, front), last, Wanted(desired, last));
  }

  lemma RemovingOneMore(live: Live, front: seq<string>, last: string)
    ensures live - Elements(front) - {last} == live - Elements(front + [last])
  {
    assert Elements(front + [last]) == Elements(front) + {last};
  }

  lemma LastApart(names: seq<string>)
    requires names != [] && Distinct(names)
    ensures Distinct(names[..|names| - 1]) && names[|names| - 1] !in names[..|names| - 1]
    ensures names == names[..|names| - 1] + [names[|names| - 1]]
  {
  }

  lemma {:induction false} CreatesRun(live: Live, desired: Configured, names: seq<string>)
    requires Distinct(names)
    ensures AcceptsAll(live, Creates(desired, names)) <==> forall name | name in names :: name !in live
    ensures IssueAll(live, Creates(desired, names)) == Adding(live, desired, names)
  {
    if names != [] {
      var front, last := names[..|names| - 1], names[|names| - 1];
      LastApart(names);
      CreatesRun(live, desired, front);
      IssueAppend(live, Creates(desired, front), [Create(last, Wanted(desired, last))]);
      AddingOneMore(live, desired, front, last);
      assert forall name :: name in names <==> name in front || name == last;
    }
  }

  lemma {:induction false} RecreatesRun(live: Live, desired: Configured, names: seq<string>)
    requires Distinct(names)
    ensures AcceptsAll(live, Recreates(desired, names)) <==> forall name | name in names :: name in live
    ensures IssueAll(live, Recreates(desired, names)) == Adding(live, desired, names)
  {
    if names != [] {
      var front, last := names[..|names| - 1], names[|names| - 1];
      LastApart(names);
      RecreatesRun(live, desired, front);
      RecreateOne(IssueAll(live, Recreates(desired, front)), last, Wanted(desired, last));
      IssueAppend(live, Recreates(desired, front), [Drop(last), Create(last, Wanted(desired, last))]);
      AddingOneMore(live, desired, front, last);
      assert forall name :: name in names <==> name in front || name == last;
    }
  }

  lemma RecreateOne(live: Live, name: string, content: Content)
    ensures AcceptsAll(live, [Drop(name), Create(name, content)]) <==> name in live
    ensures IssueAll(live, [Drop(name), Create(name, content)]) == live[name := content]
  {
    IssueOne(live, Drop(name));
    IssueOne(live - {name}, Create(name, content));
    IssueAppend(live, [Drop(name)], [Create(name, content)]);
    assert [Drop(name)] + [Create(name, content)] == [Drop(name), Create(name, content)];
    assert (live - {name})[name := content] == live[name := content];
  }

  lemma {:induction false} DropsRun(live: Live, names: seq<string>)
    requires Distinct(names)
    ensures AcceptsAll(live, Drops(names)) <==> forall name | name in names :: name in live
    ensures IssueAll(live, Drops(names)) == live - Elements(names)
  {
    if names != [] {
      var front, last := names[..|names| - 1], names[|names| - 1];
      LastApart(names);
      DropsRun(live, front);
      IssueAppend(live, Drops(front), [Drop(last)]);
      RemovingOneMore(live, front, last);
      assert forall name :: name in names <==> name in front || name == last;
    }
  }

  // ------------------------------------------------------------------ what a whole plan does

  /** Each list names a catalog once and no name is in two lists. */
  ghost predicate Apart(plan: Plan) {
    Distinct(plan.created) && Distinct(plan.replaced) && Distinct(plan.dropped) &&
    (forall name | name in plan.created :: name !in plan.replaced && name !in plan.dropped) &&
    forall name | name in plan.replaced :: name !in plan.dropped
  }

  /** New names are free, the others are there. */
  ghost predicate Fits(live: Live, plan: Plan) {
    (forall name | name in plan.created :: name !in live) &&
    (forall name | name in plan.replaced :: name in live) &&
    forall name | name in plan.dropped :: name in live
  }

  /** What is live once a plan is done. */
  function Outcome(live: Live, desired: Configured, plan: Plan): Live {
    Adding(Adding(live, desired, plan.created), desired, plan.replaced) - Elements(plan.dropped)
  }

  lemma PlanRun(live: Live, desired: Configured, plan: Plan)
    requires Apart(plan)
    ensures AcceptsAll(live, Statements(desired, plan)) <==> Fits(live, plan)
    ensures IssueAll(live, Statements(desired, plan)) == Outcome(live, desired, plan)
  {
    var first := Adding(live, desired, plan.created);
    var second := Adding(first, desired, plan.replaced);
    CreatesRun(live, desired, plan.created);
    RecreatesRun(first, desired, plan.replaced);
    DropsRun(second, plan.dropped);
    IssueAppend(live, Creates(desired, plan.created), Recreates(desired, plan.replaced));
    IssueAppend(live, Creates(desired, plan.created) + Recreates(desired, plan.replaced), Drops(plan.dropped));
    assert forall name :: name in first <==> name in live || name in plan.created;
    assert forall name :: name in second <==> name in first || name in plan.replaced;
  }

  lemma OutcomeAt(live: Live, desired: Configured, plan: Plan, name: string)
    ensures name in Outcome(live, desired, plan) <==>
            name !in plan.dropped && (name in live || name in plan.created || name in plan.replaced)
    ensures name in Outcome(live, desired, plan) ==>
            Outcome(live, desired, plan)[name] ==
            if name in plan.created || name in plan.replaced then Wanted(desired, name) else live[name]
  {
  }
}
