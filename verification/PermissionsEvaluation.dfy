/** What the rendered `tables` block means to Trino, which takes the first rule that matches and
    denies when none does. */
module PermissionsEvaluation {
  import opened Outcomes
  import opened Ordering
  import opened Slices
  import opened RegexEscape
  import opened Json
  import opened PatternMatching
  import opened Permissions
  import opened AccessRules
  import opened PermissionsRoundTrip

  /** A request for one table. */
  datatype Request = Request(user: string, catalog: string, schema: string, table: string)

  function Asked(q: Request): Ask {
    map["user" := q.user, "catalog" := q.catalog, "schema" := q.schema, "table" := q.table]
  }

  predicate Covers(g: Grant, q: Request) {
    q.user == g.identity && q.catalog == g.catalog &&
    (g.schema.Some? ==> q.schema == g.schema.value) && (g.table.Some? ==> q.table == g.table.value)
  }

  /** The privileges a decision gives: none at all without a match. */
  function Privileges(decision: Option<Rule>): set<string> {
    Listed(decision, "privileges")
  }

  function Decision(matches: Matching, names: Names, grants: Grants, enforced: bool, preserved: seq<Rule>,
                    q: Request): Option<Rule> {
    FirstMatch(matches, TableRules(names, grants, enforced, preserved), Asked(q))
  }

  // ------------------------------------------------------------------ what Apchi's own rules match

  lemma GrantMatches(matches: Matching, g: Grant, q: Request)
    requires Trino(matches)
    ensures matches(GrantRule(g), Asked(q)) <==> Covers(g, q)
  {
    hide Anchored, Matched;
    var rule, ask := GrantRule(g), Asked(q);
    GrantRuleKeys(g);
    RuleFields(g);
    NamedCondition(rule, "user", g.identity, ask);
    NamedCondition(rule, "catalog", g.catalog, ask);
    if g.schema.Some? { NamedCondition(rule, "schema", g.schema.value, ask); }
    if g.table.Some? { NamedCondition(rule, "table", g.table.value, ask); }
    assert Understood(rule);
    assert Meets(rule, ask) <==> Covers(g, q);
  }

  lemma CatchAllMatches(matches: Matching, ask: Ask)
    requires Trino(matches)
    ensures matches(CATCH_ALL, ask)
  {
    assert Understood(CATCH_ALL) && Meets(CATCH_ALL, ask);
  }

  lemma RuleFields(g: Grant)
    ensures var rule := GrantRule(g);
            "user" in rule && "catalog" in rule && "privileges" in rule &&
            rule["user"] == Pattern(g.identity) && rule["catalog"] == Pattern(g.catalog) &&
              rule["privileges"] == Texts(g.privileges)
    ensures g.schema.Some? ==> "schema" in GrantRule(g) && GrantRule(g)["schema"] == Pattern(g.schema.value)
    ensures g.table.Some? ==> "table" in GrantRule(g) && GrantRule(g)["table"] == Pattern(g.table.value)
  {
  }

  /** A grant gives the privileges it lists, and no others. */
  lemma GrantGives(g: Grant)
    ensures Privileges(Some(GrantRule(g))) == Elements(g.privileges)
  {
    hide GrantRule;
    RuleFields(g);
    ListedTexts(GrantRule(g), "privileges", g.privileges);
  }

  // ------------------------------------------------------------------ among the grants

  /** The keys of the grants that cover a request. */
  function Covering(grants: Grants, q: Request): set<string> {
    set key | key in grants && Covers(grants[key], q)
  }

  /** Among the grants the covering one with the least key decides, whatever the others say. */
  function GrantDecision(grants: Grants, q: Request): Option<Rule> {
    if Covering(grants, q) == {} then None else Some(GrantRule(grants[Least(Covering(grants, q))]))
  }

  /** The listed key that covers comes first among those listed. */
  lemma {:induction false} FirstGrant(matches: Matching, grants: Grants, keys: seq<string>, q: Request, key: string)
    requires Trino(matches) && Ascending(keys)
    requires key in keys && key in grants && Covers(grants[key], q)
    requires forall other | other in keys && other in grants && Covers(grants[other], q) ::
               other == key || Less(key, other)
    ensures FirstMatch(matches, GrantRules(grants, keys), Asked(q)) == Some(GrantRule(grants[key]))
  {
    hide Covers, GrantRule, Asked, Trino;
    var front, last := keys[..|keys| - 1], keys[|keys| - 1];
    assert keys == front + [last];
    var tail := if last in grants then [GrantRule(grants[last])] else [];
    FirstOfBoth(matches, GrantRules(grants, front), tail, Asked(q));
    if last in grants { GrantMatches(matches, grants[last], q); }
    if key in front {
      FirstGrant(matches, grants, front, q, key);
    } else {
      forall other | other in front && other in grants ensures !Covers(grants[other], q) {
        var i :| 0 <= i < |front| && front[i] == other;
        assert Less(keys[i], last);
        LessTotal(other, last);
      }
      NoGrant(matches, grants, front, q);
    }
  }

  lemma {:induction false} NoGrant(matches: Matching, grants: Grants, keys: seq<string>, q: Request)
    requires Trino(matches)
    requires forall other | other in keys && other in grants :: !Covers(grants[other], q)
    ensures FirstMatch(matches, GrantRules(grants, keys), Asked(q)) == None
  {
    hide Covers, GrantRule, Asked, Trino;
    if keys != [] {
      var front, last := keys[..|keys| - 1], keys[|keys| - 1];
      assert keys == front + [last];
      NoGrant(matches, grants, front, q);
      var tail := if last in grants then [GrantRule(grants[last])] else [];
      FirstOfBoth(matches, GrantRules(grants, front), tail, Asked(q));
      if last in grants { GrantMatches(matches, grants[last], q); }
    }
  }

  lemma GrantsDecide(matches: Matching, grants: Grants, q: Request)
    requires Trino(matches)
    ensures FirstMatch(matches, GrantRules(grants, Sorted(grants.Keys)), Asked(q)) == GrantDecision(grants, q)
  {
    hide Covers, GrantRule, Asked, Trino;
    var keys := Sorted(grants.Keys);
    SortedAscends(grants.Keys);
    if Covering(grants, q) == {} {
      forall other | other in keys && other in grants ensures !Covers(grants[other], q) {
        assert other !in Covering(grants, q);
      }
      NoGrant(matches, grants, keys, q);
    } else {
      var key := Least(Covering(grants, q));
      forall other | other in keys && other in grants && Covers(grants[other], q)
        ensures other == key || Less(key, other)
      {
        assert other in Covering(grants, q);
      }
      FirstGrant(matches, grants, keys, q, key);
    }
  }

  // ------------------------------------------------------------------ the whole block

  predicate OwnAccess(names: Names, q: Request) {
    q.user == names.trinoUser && q.catalog == names.verificationCatalog
  }

  lemma ReservedMatches(matches: Matching, names: Names, q: Request)
    requires Trino(matches)
    ensures matches(ReservedRule(names), Asked(q)) <==> OwnAccess(names, q)
  {
    GrantRuleIsReserved(names, ReservedGrant(names));
    GrantMatches(matches, ReservedGrant(names), q);
  }

  /** Who decides what: Apchi's own access, else the covering grant with the least key, else the
      first preserved rule that matches, else everything or nothing. */
  lemma WhoDecides(matches: Matching, names: Names, grants: Grants, enforced: bool, preserved: seq<Rule>, q: Request)
    requires Trino(matches)
    ensures Decision(matches, names, grants, enforced, preserved, q) ==
            if OwnAccess(names, q) then Some(ReservedRule(names))
            else if GrantDecision(grants, q).Some? then GrantDecision(grants, q)
            else if FirstMatch(matches, preserved, Asked(q)).Some? then FirstMatch(matches, preserved, Asked(q))
            else if enforced then None else Some(CATCH_ALL)
  {
    hide GrantRules, GrantDecision, ReservedRule, Asked, Trino;
    var own, mine, last := [ReservedRule(names)], GrantRules(grants, Sorted(grants.Keys)), if enforced then []
      else [CATCH_ALL];
    FirstOfBoth(matches, own + mine + preserved, last, Asked(q));
    FirstOfBoth(matches, own + mine, preserved, Asked(q));
    FirstOfBoth(matches, own, mine, Asked(q));
    ReservedMatches(matches, names, q);
    CatchAllMatches(matches, Asked(q));
    GrantsDecide(matches, grants, q);
    assert own[1..] == [];
  }

  /** Apchi can always read what it verifies with, whatever was granted or preserved. */
  lemma ApchiAlwaysReads(matches: Matching, names: Names, grants: Grants, enforced: bool, preserved: seq<Rule>,
                         q: Request)
    requires Trino(matches) && OwnAccess(names, q)
    ensures Privileges(Decision(matches, names, grants, enforced, preserved, q)) == {"SELECT"}
  {
    hide Decision, GrantDecision, FirstMatch, Trino;
    WhoDecides(matches, names, grants, enforced, preserved, q);
    ListedTexts(ReservedRule(names), "privileges", ["SELECT"]);
  }

  /** Enforcing changes the answer on exactly the requests that no reserved, granted or preserved
      rule matches; those go from every privilege to none, and all the others stay. */
  lemma EnforcingRevokesExactlyTheUnmatched(matches: Matching, names: Names, grants: Grants, preserved: seq<Rule>,
                                            q: Request)
    requires Trino(matches)
    ensures var before, after := Decision(matches, names, grants, false, preserved, q),
            Decision(matches, names, grants, true, preserved, q);
            var unmatched := !OwnAccess(names, q) && Covering(grants, q) == {} &&
              FirstMatch(matches, preserved, Asked(q)).None?;
            (before != after <==> unmatched) &&
            (unmatched ==>
               Privileges(before) == {"SELECT", "INSERT", "UPDATE", "DELETE", "OWNERSHIP", "GRANT_SELECT"} &&
               Privileges(after) == {})
  {
    hide Decision, Covering;
    WhoDecides(matches, names, grants, false, preserved, q);
    WhoDecides(matches, names, grants, true, preserved, q);
    ListedTexts(CATCH_ALL, "privileges", EVERY_PRIVILEGE);
  }

  /** A grant given to someone else, added or replaced, changes nothing for this user. */
  lemma GrantsToOthersDoNotMatter(matches: Matching, names: Names, grants: Grants, g: Grant, enforced: bool,
                                  preserved: seq<Rule>, q: Request)
    requires Trino(matches) && g.identity != q.user
    requires KeyOf(g) in grants ==> grants[KeyOf(g)].identity != q.user
    ensures Decision(matches, names, grants[KeyOf(g) := g], enforced, preserved, q) ==
            Decision(matches, names, grants, enforced, preserved, q)
  {
    hide Decision, KeyOf, GrantRule;
    var more := grants[KeyOf(g) := g];
    WhoDecides(matches, names, more, enforced, preserved, q);
    WhoDecides(matches, names, grants, enforced, preserved, q);
    assert Covering(more, q) == Covering(grants, q);
  }

  // ------------------------------------------------------------------ which grants take effect

  /** Each grant under its own key, which is how they are staged and parsed. */
  predicate Keyed(grants: Grants) {
    forall key | key in grants :: key == KeyOf(grants[key])
  }

  lemma PatternsDiffer(a: string, b: string)
    ensures Pattern(a) == Pattern(b) ==> a == b
  {
    if Pattern(a) == Pattern(b) { AnchoredInjective(a, b); }
  }

  lemma GrantRuleInjective(a: Grant, b: Grant)
    requires GrantRule(a) == GrantRule(b)
    ensures a == b
  {
    hide Anchored;
    GrantRuleKeys(a);
    GrantRuleKeys(b);
    RuleFields(a);
    RuleFields(b);
    PatternsDiffer(a.identity, b.identity);
    PatternsDiffer(a.catalog, b.catalog);
    if a.schema.Some? { PatternsDiffer(a.schema.value, b.schema.value); }
    if a.table.Some? { PatternsDiffer(a.table.value, b.table.value); }
    StringsOfTexts(a.privileges);
    StringsOfTexts(b.privileges);
  }

  /** A grant decides a request it covers exactly when its key is the least of those that cover it; but
      for Apchi's own access, which the reserved rule has decided before. */
  lemma GrantDecidesExactly(matches: Matching, names: Names, grants: Grants, enforced: bool, preserved: seq<Rule>,
                            q: Request, g: Grant)
    requires Trino(matches) && Keyed(grants) && KeyOf(g) in grants && grants[KeyOf(g)] == g && Covers(g, q)
    ensures Decision(matches, names, grants, enforced, preserved, q) == Some(GrantRule(g)) <==>
            if OwnAccess(names, q) then g == ReservedGrant(names) else IsLeast(KeyOf(g), Covering(grants, q))
  {
    hide Decision, KeyOf, GrantRule, Covers, ReservedGrant, ReservedRule;
    WhoDecides(matches, names, grants, enforced, preserved, q);
    GrantRuleIsReserved(names, g);
    assert KeyOf(g) in Covering(grants, q);
    var least := Least(Covering(grants, q));
    if GrantRule(grants[least]) == GrantRule(g) { GrantRuleInjective(grants[least], g); }
    if IsLeast(KeyOf(g), Covering(grants, q)) { LeastUnique(Covering(grants, q), KeyOf(g), least); }
  }

  /** The part of a key that says where in its catalog a grant applies. */
  function Where(g: Grant): string {
    OrAny(g.schema) + (":" + OrAny(g.table))
  }

  const EVERYWHERE := "*:*"

  lemma KeyOfWhere(g: Grant)
    ensures KeyOf(g) == g.identity + ":" + g.catalog + ":" + Where(g)
  {
    Associates(g.identity + ":" + g.catalog + ":", OrAny(g.schema), ":" + OrAny(g.table));
    Associates(g.identity + ":" + g.catalog + ":" + OrAny(g.schema), ":", OrAny(g.table));
  }

  lemma SameCatalogOrder(a: Grant, b: Grant)
    requires a.identity == b.identity && a.catalog == b.catalog
    ensures Less(KeyOf(a), KeyOf(b)) <==> Less(Where(a), Where(b))
  {
    hide KeyOf, Where, Less;
    KeyOfWhere(a);
    KeyOfWhere(b);
    LessAfter(a.identity + ":" + a.catalog + ":", Where(a), Where(b));
  }

  /** Two grants to one identity in one catalog, for all of it and for a schema of it. */
  predicate Narrows(wide: Grant, narrow: Grant) {
    wide.identity == narrow.identity && wide.catalog == narrow.catalog && wide.schema.None? && wide.table.None? &&
      narrow.schema.Some?
  }

  lemma WideCoversNarrow(wide: Grant, narrow: Grant, q: Request)
    requires Narrows(wide, narrow) && Covers(narrow, q)
    ensures Covers(wide, q) && Where(wide) == EVERYWHERE
  {
    assert "*" + (":" + "*") == EVERYWHERE;
  }

  /** Beside a grant for the whole catalog, a grant for a schema is never reached when its place sorts
      after "*:*" -- whatever else is granted, preserved or enforced. */
  lemma NarrowerGrantIsShadowed(matches: Matching, names: Names, grants: Grants, enforced: bool, preserved: seq<Rule>,
                                q: Request, wide: Grant, narrow: Grant)
    requires Trino(matches) && Keyed(grants) && !OwnAccess(names, q) && Narrows(wide, narrow) && Covers(narrow, q)
    requires KeyOf(wide) in grants && grants[KeyOf(wide)] == wide && KeyOf(narrow) in grants &&
             grants[KeyOf(narrow)] == narrow
    requires Less(EVERYWHERE, Where(narrow))
    ensures Decision(matches, names, grants, enforced, preserved, q) != Some(GrantRule(narrow))
  {
    hide Decision, KeyOf, GrantRule, Covers, Where, Less;
    WideCoversNarrow(wide, narrow, q);
    SameCatalogOrder(wide, narrow);
    LessTotal(KeyOf(wide), KeyOf(narrow));
    GrantDecidesExactly(matches, names, grants, enforced, preserved, q, narrow);
    assert KeyOf(wide) in Covering(grants, q);
  }

  /** With just these two, the schema's grant decides what it covers exactly when its place sorts before
      "*:*", and otherwise the whole catalog's does. */
  lemma NarrowerGrantTakesEffectExactly(matches: Matching, names: Names, enforced: bool, preserved: seq<Rule>,
                                        q: Request, wide: Grant, narrow: Grant)
    requires Trino(matches) && !OwnAccess(names, q) && Narrows(wide, narrow) && Covers(narrow, q) &&
             Where(narrow) != EVERYWHERE
    ensures var grants := map[KeyOf(wide) := wide, KeyOf(narrow) := narrow];
            Decision(matches, names, grants, enforced, preserved, q) ==
            Some(GrantRule(if Less(Where(narrow), EVERYWHERE) then narrow else wide))
  {
    hide Decision, KeyOf, GrantRule, Covers, Where, Less;
    var grants := map[KeyOf(wide) := wide, KeyOf(narrow) := narrow];
    WideCoversNarrow(wide, narrow, q);
    SameCatalogOrder(wide, narrow);
    SameCatalogOrder(narrow, wide);
    LessTotal(Where(narrow), EVERYWHERE);
    LessTotal(KeyOf(wide), KeyOf(narrow));
    var first := if Less(Where(narrow), EVERYWHERE) then narrow else wide;
    assert Covering(grants, q) == {KeyOf(wide), KeyOf(narrow)};
    assert IsLeast(KeyOf(first), Covering(grants, q));
    LeastUnique(Covering(grants, q), KeyOf(first), Least(Covering(grants, q)));
    WhoDecides(matches, names, grants, enforced, preserved, q);
  }

  /** The first letter of the schema's name settles it, unless it is the star itself: only a name that
      begins with one of the few characters before the star sorts before it. */
  lemma FirstLetterDecides(g: Grant)
    requires g.schema.Some? && g.schema.value != "" && g.schema.value[0] != '*'
    ensures Where(g) != EVERYWHERE && (Less(Where(g), EVERYWHERE) <==> g.schema.value[0] < '*')
  {
    assert Where(g)[0] == g.schema.value[0] && EVERYWHERE[0] == '*';
  }

  /** So whoever may read all of a catalog and write one of its schemas, of a name that sorts after the
      star as every letter and digit does, may not write there. */
  lemma ReaderOfAllCannotWriteSome(matches: Matching, names: Names, enforced: bool, preserved: seq<Rule>,
                                   identity: string, catalog: string, schema: string, table: string)
    requires Trino(matches) && !OwnAccess(names, Request(identity, catalog, schema, table))
    requires schema != "" && '*' < schema[0]
    ensures var wide := Grant(identity, catalog, None, None, ["SELECT"]);
            var narrow := Grant(identity, catalog, Some(schema), None, ["SELECT", "INSERT"]);
            Privileges(Decision(matches, names, map[KeyOf(wide) := wide, KeyOf(narrow) := narrow], enforced, preserved,
                                Request(identity, catalog, schema, table))) == {"SELECT"}
  {
    hide Decision, KeyOf, Less, Where, GrantRule, Privileges;
    var wide := Grant(identity, catalog, None, None, ["SELECT"]);
    var narrow := Grant(identity, catalog, Some(schema), None, ["SELECT", "INSERT"]);
    FirstLetterDecides(narrow);
    NarrowerGrantTakesEffectExactly(matches, names, enforced, preserved, Request(identity, catalog, schema, table),
        wide, narrow);
    GrantGives(wide);
  }

  lemma AnnCannotWriteToSalesHr(matches: Matching, names: Names, enforced: bool, preserved: seq<Rule>)
    requires Trino(matches) && names == Names("apchi", "system")
    ensures var wide := Grant("ann", "sales", None, None, ["SELECT"]);
            var narrow := Grant("ann", "sales", Some("hr"), None, ["SELECT", "INSERT"]);
            Privileges(Decision(matches, names, map[KeyOf(wide) := wide, KeyOf(narrow) := narrow], enforced, preserved,
                                Request("ann", "sales", "hr", "pay"))) == {"SELECT"}
  {
    hide Decision, KeyOf, GrantRule, Privileges, Trino;
    assert "ann"[1] != "apchi"[1];
    ReaderOfAllCannotWriteSome(matches, names, enforced, preserved, "ann", "sales", "hr", "pay");
  }
}
