/** What an Apply of the Catalogs Section, and its rollback, decide to do: lists of names
    computed by comparison, before any statement is issued. */
module CatalogPlans {
  import opened Outcomes
  import opened Ordering
  import opened Slices
  import opened Catalogs

  datatype Plan = Plan(created: seq<string>, replaced: seq<string>, dropped: seq<string>) {
    predicate Empty() {
      created == [] && replaced == [] && dropped == []
    }
  }

  /** The listed names that are kept, in the order they are listed. */
  function Select(names: seq<string>, keep: set<string>): seq<string> {
    if names == [] then []
    else
      var last := names[|names| - 1];
      Select(names[..|names| - 1], keep) + if last in keep then [last] else []
  }

  lemma {:induction false} SelectMember(names: seq<string>, keep: set<string>, name: string)
    ensures name in Select(names, keep) <==> name in names && name in keep
  {
    if names != [] {
      var front, last := names[..|names| - 1], names[|names| - 1];
      SelectMember(front, keep, name);
      assert names == front + [last];
    }
  }

  lemma SelectMembers(names: seq<string>, keep: set<string>)
    ensures forall name :: name in Select(names, keep) <==> name in names && name in keep
  {
    forall name ensures name in Select(names, keep) <==> name in names && name in keep {
      SelectMember(names, keep, name);
    }
  }

  lemma {:induction false} SelectDistinct(names: seq<string>, keep: set<string>)
    requires Distinct(names)
    ensures Distinct(Select(names, keep))
  {
    if names != [] {
      var front, last := names[..|names| - 1], names[|names| - 1];
      SelectDistinct(front, keep);
      SelectMembers(front, keep);
    }
  }

  lemma SelectOneMore(names: seq<string>, keep: set<string>, i: nat)
    requires i < |names|
    ensures Select(names[..i + 1], keep) == Select(names[..i], keep) + if names[i] in keep then [names[i]] else []
  {
    TakeTake(names, i + 1, i);
  }

  function NewNames(desired: Configured, current: Configured): set<string> {
    desired.Keys - current.Keys
  }

  function ChangedNames(desired: Configured, current: Configured): set<string> {
    set name | name in desired && name in current && desired[name] != current[name]
  }

  function PlanOf(desired: Configured, current: Configured): Plan {
    var names := Sorted(desired.Keys);
    Plan(Select(names, NewNames(desired, current)), Select(names, ChangedNames(desired, current)),
         Sorted(current.Keys - desired.Keys))
  }

  /** The loop that appends each desired name to the list it belongs to. */
  method MakePlan(desired: Configured, current: Configured) returns (plan: Plan)
    ensures plan == PlanOf(desired, current)
  {
    var names := Sorted(desired.Keys);
    var created: seq<string>, replaced: seq<string> := [], [];
    for i := 0 to |names|
      invariant created == Select(names[..i], NewNames(desired, current))
      invariant replaced == Select(names[..i], ChangedNames(desired, current))
    {
      SelectOneMore(names, NewNames(desired, current), i);
      SelectOneMore(names, ChangedNames(desired, current), i);
      if names[i] !in current {
        created := created + [names[i]];
      } else if desired[names[i]] != current[names[i]] {
        replaced := replaced + [names[i]];
      }
    }
    assert names[..|names|] == names;
    plan := Plan(created, replaced, Sorted(current.Keys - desired.Keys));
  }

  /** Live names whose two records differ. */
  function Differing(live: set<string>, durable: SecretData, rendering: SecretData): set<string> {
    set name | name in live && Recorded(durable, name) != Recorded(rendering, name)
  }

  /** Live names the Secret records. */
  function Held(live: set<string>, durable: SecretData): set<string> {
    set name | name in live && Recorded(durable, name).Some?
  }

  /** The rollback: the Snapshot, the live names, the Secret as it stands, and the Secret as the
      Snapshot renders it. What the failed Apply intended is not an input. */
  function RollbackPlan(snapshot: Configured, live: set<string>, durable: SecretData, rendering: SecretData): Plan {
    var wanted := Sorted(snapshot.Keys);
    Plan(Select(wanted, snapshot.Keys - live),
         Select(wanted, Differing(live, durable, rendering)),
         Select(Sorted(live - snapshot.Keys), Held(live, durable)))
  }

  /** Names the Cluster already runs exactly as asked: live, recorded, and recorded identically. */
  function Satisfied(plan: Plan, live: set<string>, durable: SecretData, rendering: SecretData): set<string> {
    set name | name in plan.created && name in live && Recorded(durable, name) == Recorded(rendering, name)
  }

  function Settled(plan: Plan, live: set<string>, durable: SecretData, rendering: SecretData): Plan {
    plan.(created := Select(plan.created, Elements(plan.created) - Satisfied(plan, live, durable, rendering)))
  }

  function Collisions(created: seq<string>, live: set<string>): seq<string> {
    Sorted(Elements(created) * live)
  }

  /** The Section's whole-Candidate check. */
  function Check(plan: Plan, live: set<string>, durable: SecretData, rendering: SecretData): seq<string> {
    if plan.created == [] then [] else Collisions(Settled(plan, live, durable, rendering).created, live)
  }

  // ------------------------------------------------------------------ what the plans contain

  lemma PlanMembers(desired: Configured, current: Configured)
    ensures forall name :: name in PlanOf(desired, current).created <==> name in desired && name !in current
    ensures forall name :: name in PlanOf(desired, current).replaced <==>
                           name in desired && name in current && desired[name] != current[name]
    ensures forall name :: name in PlanOf(desired, current).dropped <==> name in current && name !in desired
  {
    var names := Sorted(desired.Keys);
    SelectMembers(names, NewNames(desired, current));
    SelectMembers(names, ChangedNames(desired, current));
  }

  lemma PlanDistinct(desired: Configured, current: Configured)
    ensures Distinct(PlanOf(desired, current).created) && Distinct(PlanOf(desired, current).replaced) &&
            Distinct(PlanOf(desired, current).dropped)
  {
    SortedDistinct(desired.Keys);
    SelectDistinct(Sorted(desired.Keys), NewNames(desired, current));
    SelectDistinct(Sorted(desired.Keys), ChangedNames(desired, current));
    SortedDistinct(current.Keys - desired.Keys);
  }

  lemma RollbackMembers(snapshot: Configured, live: set<string>, durable: SecretData, rendering: SecretData,
                        name: string)
    ensures var plan := RollbackPlan(snapshot, live, durable, rendering);
            && (name in plan.created <==> name in snapshot && name !in live)
            && (name in plan.replaced <==>
                name in snapshot && name in live && Recorded(durable, name) != Recorded(rendering, name))
            && (name in plan.dropped <==> name in live && name !in snapshot && Recorded(durable, name).Some?)
  {
    SelectMember(Sorted(snapshot.Keys), snapshot.Keys - live, name);
    SelectMember(Sorted(snapshot.Keys), Differing(live, durable, rendering), name);
    SelectMember(Sorted(live - snapshot.Keys), Held(live, durable), name);
  }

  lemma RollbackDistinct(snapshot: Configured, live: set<string>, durable: SecretData, rendering: SecretData)
    ensures var plan := RollbackPlan(snapshot, live, durable, rendering);
            Distinct(plan.created) && Distinct(plan.replaced) && Distinct(plan.dropped)
  {
    SortedDistinct(snapshot.Keys);
    SelectDistinct(Sorted(snapshot.Keys), snapshot.Keys - live);
    SelectDistinct(Sorted(snapshot.Keys), Differing(live, durable, rendering));
    SortedDistinct(live - snapshot.Keys);
    SelectDistinct(Sorted(live - snapshot.Keys), Held(live, durable));
  }

  lemma SettledMembers(plan: Plan, live: set<string>, durable: SecretData, rendering: SecretData)
    ensures forall name :: name in Settled(plan, live, durable, rendering).created <==>
              name in plan.created && !(name in live && Recorded(durable, name) == Recorded(rendering, name))
    ensures Distinct(plan.created) ==> Distinct(Settled(plan, live, durable, rendering).created)
  {
    var keep := Elements(plan.created) - Satisfied(plan, live, durable, rendering);
    SelectMembers(plan.created, keep);
    if Distinct(plan.created) { SelectDistinct(plan.created, keep); }
  }

  /** The check passes exactly when nothing left to create is already live. */
  lemma CheckPasses(plan: Plan, live: set<string>, durable: SecretData, rendering: SecretData)
    ensures Check(plan, live, durable, rendering) == [] <==>
            forall name | name in Settled(plan, live, durable, rendering).created :: name !in live
  {
    SettledMembers(plan, live, durable, rendering);
    var created := Settled(plan, live, durable, rendering).created;
    var both := Elements(created) * live;
    assert Sorted(both) == [] <==> both == {};
    forall name | name in created && name in live ensures name in both { }
  }

  // ------------------------------------------------------------------ their order, and what is reported

  lemma {:induction false} SelectAscends(names: seq<string>, keep: set<string>)
    requires Ascending(names)
    ensures Ascending(Select(names, keep))
  {
    if names != [] {
      var front, last := names[..|names| - 1], names[|names| - 1];
      SelectAscends(front, keep);
      forall i | 0 <= i < |Select(front, keep)| ensures Less(Select(front, keep)[i], last) {
        SelectMember(front, keep, Select(front, keep)[i]);
        var j :| 0 <= j < |front| && front[j] == Select(front, keep)[i];
        assert Less(names[j], names[|names| - 1]);
      }
    }
  }

  /** Each phase of a plan goes through its names in order. */
  lemma PlansAscend(desired: Configured, current: Configured, live: set<string>, durable: SecretData,
                    rendering: SecretData)
    ensures var plan := PlanOf(desired, current);
            Ascending(plan.created) && Ascending(plan.replaced) && Ascending(plan.dropped)
    ensures var plan := RollbackPlan(desired, live, durable, rendering);
            Ascending(plan.created) && Ascending(plan.replaced) && Ascending(plan.dropped)
  {
    SortedAscends(desired.Keys);
    SortedAscends(current.Keys - desired.Keys);
    SortedAscends(live - desired.Keys);
    SelectAscends(Sorted(desired.Keys), NewNames(desired, current));
    SelectAscends(Sorted(desired.Keys), ChangedNames(desired, current));
    SelectAscends(Sorted(desired.Keys), desired.Keys - live);
    SelectAscends(Sorted(desired.Keys), Differing(live, durable, rendering));
    SelectAscends(Sorted(live - desired.Keys), Held(live, durable));
  }

  /** The check reports, in order, every name to be created that is live and is not recorded just as it
      would be written. */
  lemma CollisionsExactly(plan: Plan, live: set<string>, durable: SecretData, rendering: SecretData, name: string)
    ensures name in Check(plan, live, durable, rendering) <==>
            name in plan.created && name in live && Recorded(durable, name) != Recorded(rendering, name)
    ensures Ascending(Check(plan, live, durable, rendering))
  {
    SettledMembers(plan, live, durable, rendering);
    SortedAscends(Elements(Settled(plan, live, durable, rendering).created) * live);
  }
}
