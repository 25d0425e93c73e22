/** What the other rendered blocks mean to Trino: who may use and own a catalog, whose queries one may run,
    see and kill, and which procedures one may execute. */
module PermissionsBlocks {
  import opened Outcomes
  import opened Ordering
  import opened RegexEscape
  import opened PatternMatching
  import opened Json
  import opened Permissions
  import opened PermissionsRoundTrip
  import opened AccessRules
  import opened PermissionsEvaluation

  /** The rule of a block that decides, if any does. */
  function Deciding(matches: Matching, names: Names, grants: Grants, enforced: bool, preserved: Blocks, block: string,
                    ask: Ask): Option<Rule> {
    FirstMatch(matches, Of(RenderRules(names, grants, enforced, preserved), block), ask)
  }

  /** The access a `catalogs` rule gives. */
  function Access(decision: Option<Rule>): Option<string> {
    if decision.Some? && "allow" in decision.value && decision.value["allow"].Text?
    then Some(decision.value["allow"].text) else None
  }

  lemma NamesOneUser(matches: Matching, rule: Rule, name: string, ask: Ask)
    requires Trino(matches) && "user" in ask && rule.Keys == {"user", "allow"} && rule["user"] == Pattern(name)
    ensures matches(rule, ask) <==> ask["user"] == name
  {
    hide Matched, Anchored;
    NamedCondition(rule, "user", name, ask);
    assert Understood(rule);
    assert Meets(rule, ask) <==> ask["user"] == name;
  }

  lemma NamesNobody(matches: Matching, rule: Rule, ask: Ask)
    requires Trino(matches) && rule.Keys == {"allow"}
    ensures matches(rule, ask)
  {
    assert Understood(rule) && Meets(rule, ask);
  }

  // ------------------------------------------------------------------ catalogs

  /** Apchi's identity owns every catalog, which is what creating and dropping takes; for anyone else the
      first preserved rule that matches decides; and everyone a rule does not name may use it. */
  lemma WhoOwnsCatalogs(matches: Matching, names: Names, grants: Grants, enforced: bool, preserved: Blocks,
                        user: string, catalog: string)
    requires Trino(matches)
    ensures var ask := map["user" := user, "catalog" := catalog];
            var decision := Deciding(matches, names, grants, enforced, preserved, "catalogs", ask);
            var kept := FirstMatch(matches, Of(preserved, "catalogs"), ask);
            if user == names.trinoUser then Access(decision) == Some("owner")
            else if kept.Some? then decision == kept
            else Access(decision) == Some("all")
  {
    hide Trino, TableRules, AllQueryRules;
    var ask: Ask := map["user" := user, "catalog" := catalog];
    var own, kept := [OwnerRule(names)], Of(preserved, "catalogs");
    FirstOfBoth(matches, own + kept, [EVERYONE], ask);
    FirstOfBoth(matches, own, kept, ask);
    FirstOfOne(matches, OwnerRule(names), ask);
    FirstOfOne(matches, EVERYONE, ask);
    NamesOneUser(matches, OwnerRule(names), names.trinoUser, ask);
    NamesNobody(matches, EVERYONE, ask);
  }

  // ------------------------------------------------------------------ queries

  /** Running a query asks about the user alone; seeing or killing one, about its owner too. */
  function AboutQuery(user: string, owner: Option<string>): Ask {
    if owner.None? then map["user" := user] else map["user" := user, "queryOwner" := owner.value]
  }

  lemma OwnQueriesMatch(matches: Matching, identity: string, user: string, owner: Option<string>)
    requires Trino(matches)
    ensures matches(OwnQueriesRule(identity), AboutQuery(user, owner)) <==> user == identity && owner == Some(identity)
  {
    hide Matched, Anchored;
    var rule, ask := OwnQueriesRule(identity), AboutQuery(user, owner);
    NamedCondition(rule, "user", identity, ask);
    NamedCondition(rule, "queryOwner", identity, ask);
    assert Understood(rule);
    assert Meets(rule, ask) <==> user == identity && owner == Some(identity);
  }

  /** Among the rules for the granted identities, the one that decides is the owner's own. */
  lemma {:induction false} OwnQueriesDecide(matches: Matching, names: Names, identities: seq<string>, user: string,
                                            owner: Option<string>)
    requires Trino(matches)
    ensures FirstMatch(matches, OwnQueriesRules(names, identities), AboutQuery(user, owner)) ==
            if user in identities && user != names.trinoUser && owner == Some(user) then Some(OwnQueriesRule(user))
            else None
  {
    hide Trino, OwnQueriesRule, AboutQuery;
    if identities != [] {
      var front, last := identities[..|identities| - 1], identities[|identities| - 1];
      assert identities == front + [last];
      OwnQueriesDecide(matches, names, front, user, owner);
      var tail := if last != names.trinoUser then [OwnQueriesRule(last)] else [];
      FirstOfBoth(matches, OwnQueriesRules(names, front), tail, AboutQuery(user, owner));
      FirstOfOne(matches, OwnQueriesRule(last), AboutQuery(user, owner));
      OwnQueriesMatch(matches, last, user, owner);
    }
  }

  /** Apchi's identity may run, see and kill every query; an identity with a grant may see and kill its own;
      then the preserved rules decide; and everyone else may run queries, and nothing more. */
  lemma WhoMayQuery(matches: Matching, names: Names, grants: Grants, enforced: bool, preserved: Blocks, user: string,
                    owner: Option<string>)
    requires Trino(matches)
    ensures var ask := AboutQuery(user, owner);
            var decision := Deciding(matches, names, grants, enforced, preserved, "queries", ask);
            var kept := FirstMatch(matches, Of(preserved, "queries"), ask);
            if user == names.trinoUser then Listed(decision, "allow") == {"execute", "view", "kill"}
            else if owner == Some(user) && exists key :: key in grants && grants[key].identity == user
            then Listed(decision, "allow") == {"view", "kill"}
            else if kept.Some? then decision == kept
            else Listed(decision, "allow") == {"execute"}
  {
    hide Trino, RenderRules, AllQueryRules, AboutQuery, FirstMatch, Of, Listed, ApchiQueries, OwnQueriesRule;
    QueriesBlock(names, grants, enforced, preserved);
    QueryDecision(matches, names, grants, Of(preserved, "queries"), user, owner);
    ModesGiven(names, user);
  }

  lemma QueriesBlock(names: Names, grants: Grants, enforced: bool, preserved: Blocks)
    ensures Of(RenderRules(names, grants, enforced, preserved), "queries") ==
            AllQueryRules(names, grants, Of(preserved, "queries"))
  {
    hide TableRules, CatalogRules, AllQueryRules;
  }

  function ApchiQueries(names: Names): Rule {
    map["user" := Pattern(names.trinoUser), "allow" := Texts(["execute", "view", "kill"])]
  }

  lemma ModesGiven(names: Names, user: string)
    ensures Listed(Some(ApchiQueries(names)), "allow") == {"execute", "view", "kill"}
    ensures Listed(Some(OwnQueriesRule(user)), "allow") == {"view", "kill"}
    ensures Listed(Some(EXECUTE), "allow") == {"execute"}
  {
    hide Listed;
    ListedTexts(ApchiQueries(names), "allow", ["execute", "view", "kill"]);
    ListedTexts(OwnQueriesRule(user), "allow", ["view", "kill"]);
    ListedTexts(EXECUTE, "allow", ["execute"]);
  }

  /** Which rule decides, of those in the block. */
  lemma QueryDecision(matches: Matching, names: Names, grants: Grants, preserved: seq<Rule>, user: string,
                      owner: Option<string>)
    requires Trino(matches)
    ensures var ask := AboutQuery(user, owner);
            FirstMatch(matches, AllQueryRules(names, grants, preserved), ask) ==
            if user == names.trinoUser then Some(ApchiQueries(names))
            else if owner == Some(user) && user in Identities(grants) then Some(OwnQueriesRule(user))
            else if FirstMatch(matches, preserved, ask).Some? then FirstMatch(matches, preserved, ask)
            else Some(EXECUTE)
  {
    hide Trino, OwnQueriesRules, AboutQuery, FirstMatch, Identities;
    var ask, identities := AboutQuery(user, owner), Sorted(Identities(grants));
    var own, mine := [ApchiQueries(names)], OwnQueriesRules(names, identities);
    FirstOfBoth(matches, own + mine + preserved, [EXECUTE], ask);
    FirstOfBoth(matches, own + mine, preserved, ask);
    FirstOfBoth(matches, own, mine, ask);
    FirstOfOne(matches, ApchiQueries(names), ask);
    FirstOfOne(matches, EXECUTE, ask);
    AskNames(user, owner);
    NamesOneUser(matches, ApchiQueries(names), names.trinoUser, ask);
    NamesNobody(matches, EXECUTE, ask);
    OwnQueriesDecide(matches, names, identities, user, owner);
  }

  lemma AskNames(user: string, owner: Option<string>)
    ensures "user" in AboutQuery(user, owner) && AboutQuery(user, owner)["user"] == user
  {
  }

  // ------------------------------------------------------------------ procedures

  lemma PlainPattern(name: string)
    requires forall i | 0 <= i < |name| :: LetterOrDigit(name[i]) || name[i] == '_'
    ensures Text("^" + name + "$") == Pattern(name)
  {
    PlainIsEscaped(name);
  }

  lemma KillQueryPatterns()
    ensures KILL_QUERY["catalog"] == Pattern("system") && KILL_QUERY["schema"] == Pattern("runtime")
    ensures KILL_QUERY["procedure"] == Pattern("kill_query")
  {
    hide Pattern;
    PlainPattern("system");
    PlainPattern("runtime");
    PlainPattern("kill_query");
    assert "^" + "system" + "$" == "^system$" && "^" + "runtime" + "$" == "^runtime$";
    assert "^" + "kill_query" + "$" == "^kill_query$";
  }

  lemma KillQueryMatches(matches: Matching, user: string, catalog: string, schema: string, procedure: string)
    requires Trino(matches)
    ensures var ask := map["user" := user, "catalog" := catalog, "schema" := schema, "procedure" := procedure];
            matches(KILL_QUERY, ask) <==> catalog == "system" && schema == "runtime" && procedure == "kill_query"
  {
    hide Matched, Pattern;
    var ask: Ask := map["user" := user, "catalog" := catalog, "schema" := schema, "procedure" := procedure];
    KillQueryPatterns();
    NamedCondition(KILL_QUERY, "catalog", "system", ask);
    NamedCondition(KILL_QUERY, "schema", "runtime", ask);
    NamedCondition(KILL_QUERY, "procedure", "kill_query", ask);
    assert Understood(KILL_QUERY);
  }

  /** Everyone may execute `system.runtime.kill_query`; about any other procedure the preserved rules decide,
      and without one it is denied. */
  lemma WhoMayExecute(matches: Matching, names: Names, grants: Grants, enforced: bool, preserved: Blocks, user: string,
                      catalog: string, schema: string, procedure: string)
    requires Trino(matches)
    ensures var ask := map["user" := user, "catalog" := catalog, "schema" := schema, "procedure" := procedure];
            var decision := Deciding(matches, names, grants, enforced, preserved, "procedures", ask);
            if catalog == "system" && schema == "runtime" && procedure == "kill_query"
            then Listed(decision, "privileges") == {"EXECUTE"}
            else decision == FirstMatch(matches, Of(preserved, "procedures"), ask)
  {
    hide Trino, TableRules, CatalogRules, AllQueryRules;
    var ask: Ask := map["user" := user, "catalog" := catalog, "schema" := schema, "procedure" := procedure];
    FirstOfBoth(matches, [KILL_QUERY], Of(preserved, "procedures"), ask);
    FirstOfOne(matches, KILL_QUERY, ask);
    KillQueryMatches(matches, user, catalog, schema, procedure);
    ListedTexts(KILL_QUERY, "privileges", ["EXECUTE"]);
  }

  // ------------------------------------------------------------------ the rest

  /** The file has the four blocks, and every other block that was preserved, as it was. */
  lemma BlocksExactly(names: Names, grants: Grants, enforced: bool, preserved: Blocks, block: string)
    ensures var rendered := RenderRules(names, grants, enforced, preserved);
            (block in rendered <==> block in {"catalogs", "tables", "procedures", "queries"} || block in preserved) &&
            (block in preserved && block !in {"catalogs", "tables", "procedures", "queries"} ==>
               rendered[block] == preserved[block])
  {
    hide TableRules, CatalogRules, AllQueryRules, Of;
  }

  /** What is proved of decisions about tables is about the block of that name. */
  lemma TablesDecide(matches: Matching, names: Names, grants: Grants, enforced: bool, preserved: Blocks, q: Request)
    ensures var ask := map["user" := q.user, "catalog" := q.catalog, "schema" := q.schema, "table" := q.table];
            Deciding(matches, names, grants, enforced, preserved, "tables", ask) ==
            Decision(matches, names, grants, enforced, Of(preserved, "tables"), q)
  {
    hide TableRules, CatalogRules, AllQueryRules, FirstMatch;
  }

  // ------------------------------------------------------------------ what becomes a grant

  predicate NameOfGrant(name: string) {
    0 < |name| <= 256 && forall i | 0 <= i < |name| :: name[i] != ':'
  }

  /** A rule as Apchi writes it for one-line names is read as a grant exactly when it is not Apchi's own access
      and the API would take it: names of at most 256 characters without colons, a table only in a schema, and
      some of Trino's six privileges and no others. Otherwise it is preserved as it is. */
  lemma ReadAsGrantExactly(names: Names, g: Grant)
    requires Plain(g) && g != Grant(names.trinoUser, names.verificationCatalog, None, None, ["SELECT"])
    ensures KindOf(names, GrantRule(g)) ==
            if NameOfGrant(g.identity) && NameOfGrant(g.catalog) &&
               (g.schema.Some? ==> NameOfGrant(g.schema.value)) && (g.table.Some? ==> NameOfGrant(g.table.value)) &&
               (g.table.Some? ==> g.schema.Some?) && g.privileges != [] &&
               forall p | p in g.privileges ::
                 p in {"SELECT", "INSERT", "UPDATE", "DELETE", "OWNERSHIP", "GRANT_SELECT"}
            then Granted(g) else Other
  {
    hide GrantRule, AsGrant, ReservedRule;
    GrantSurvives(g);
    GrantRuleIsReserved(names, g);
    NotCatchAll(g);
    ValidNames(g.identity);
    ValidNames(g.catalog);
    if g.schema.Some? { ValidNames(g.schema.value); }
    if g.table.Some? { ValidNames(g.table.value); }
    SixPrivileges(g.privileges);
  }

  lemma ValidNames(name: string)
    ensures ValidName(name) <==> NameOfGrant(name)
  {
  }

  lemma SixPrivileges(privileges: seq<string>)
    ensures (forall i | 0 <= i < |privileges| :: privileges[i] in EVERY_PRIVILEGE) <==>
            forall p | p in privileges :: p in {"SELECT", "INSERT", "UPDATE", "DELETE", "OWNERSHIP", "GRANT_SELECT"}
  {
    var all := EVERY_PRIVILEGE;
    assert all[0] == "SELECT" && all[1] == "INSERT" && all[2] == "UPDATE" && all[3] == "DELETE" &&
           all[4] == "OWNERSHIP" && all[5] == "GRANT_SELECT";
    forall p ensures p in all <==> p in {"SELECT", "INSERT", "UPDATE", "DELETE", "OWNERSHIP", "GRANT_SELECT"} {
      if p in all {
        var k :| 0 <= k < |all| && all[k] == p;
        assert k == 0 || k == 1 || k == 2 || k == 3 || k == 4 || k == 5;
      }
    }
    forall i | 0 <= i < |privileges| ensures privileges[i] in privileges {
    }
  }

  /** A grant is addressed by what it is about, with a star for what it leaves open. */
  lemma KeysExactly(g: Grant)
    ensures KeyOf(g) == g.identity + ":" + g.catalog + ":" + (if g.schema.Some? then g.schema.value else "*") + ":" +
                        (if g.table.Some? then g.table.value else "*")
  {
  }
}
