/** The access-control rules: grants rendered to the file Trino reads, and the file read back
    into grants, the rules Apchi preserves, and whether the Cluster is enforcing. */
module Permissions {
  import opened Outcomes
  import opened Ordering
  import opened Slices
  import opened RegexEscape
  import opened Json

  const EVERY_PRIVILEGE: seq<string> := ["SELECT", "INSERT", "UPDATE", "DELETE", "OWNERSHIP", "GRANT_SELECT"]

  /** A rule is a JSON object. */
  type Rule = Fields

  datatype Grant = Grant(identity: string, catalog: string, schema: Option<string>, table: Option<string>,
      privileges: seq<string>)

  /** The names the file is about: Apchi's own identity and the catalog it verifies with. */
  datatype Names = Names(trinoUser: string, verificationCatalog: string)

  // ------------------------------------------------------------------ what a grant may be

  predicate ValidName(name: string) {
    1 <= |name| <= 256 && ':' !in name
  }

  predicate ValidGrant(g: Grant) {
    ValidName(g.identity) && ValidName(g.catalog) &&
    (g.schema.Some? ==> ValidName(g.schema.value)) && (g.table.Some? ==> ValidName(g.table.value)) &&
    g.privileges != [] && (forall i | 0 <= i < |g.privileges| :: g.privileges[i] in EVERY_PRIVILEGE) &&
    (g.table.Some? ==> g.schema.Some?)
  }

  function OrAny(level: Option<string>): string {
    if level.Some? then level.value else "*"
  }

  function KeyOf(g: Grant): string {
    g.identity + ":" + g.catalog + ":" + OrAny(g.schema) + ":" + OrAny(g.table)
  }

  // ------------------------------------------------------------------ rendering

  function Pattern(name: string): Value {
    Text(Anchored(name))
  }

  function GrantRule(g: Grant): Rule {
    var rule := map["user" := Pattern(g.identity), "catalog" := Pattern(g.catalog),
        "privileges" := Texts(g.privileges)];
    var withSchema := if g.schema.Some? then rule["schema" := Pattern(g.schema.value)] else rule;
    if g.table.Some? then withSchema["table" := Pattern(g.table.value)] else withSchema
  }

  /** Apchi's own read access, as a grant it would be. */
  function ReservedGrant(names: Names): Grant {
    Grant(names.trinoUser, names.verificationCatalog, None, None, ["SELECT"])
  }

  function ReservedRule(names: Names): Rule {
    map["user" := Pattern(names.trinoUser), "catalog" := Pattern(names.verificationCatalog),
        "privileges" := Texts(["SELECT"])]
  }

  /** The rule whose presence is "not enforcing". */
  const CATCH_ALL: Rule := map["privileges" := Texts(EVERY_PRIVILEGE)]

  function OwnerRule(names: Names): Rule {
    map["user" := Pattern(names.trinoUser), "allow" := Text("owner")]
  }

  const EVERYONE: Rule := map["allow" := Text("all")]

  const KILL_QUERY: Rule :=
    map["catalog" := Text("^system$"), "schema" := Text("^runtime$"), "procedure" := Text("^kill_query$"),
        "privileges" := Texts(["EXECUTE"])]

  function OwnQueriesRule(identity: string): Rule {
    map["user" := Pattern(identity), "queryOwner" := Pattern(identity), "allow" := Texts(["view", "kill"])]
  }

  function OwnQueriesRules(names: Names, identities: seq<string>): seq<Rule> {
    if identities == [] then []
    else
      var last := identities[|identities| - 1];
      OwnQueriesRules(names, identities[..|identities| - 1]) + if last != names.trinoUser then [OwnQueriesRule(last)]
        else []
  }

  const EXECUTE: Rule := map["allow" := Texts(["execute"])]

  /** All but the last rule, which lets everyone execute and must stay last. */
  function QueryRules(names: Names, identities: seq<string>): seq<Rule> {
    [map["user" := Pattern(names.trinoUser), "allow" := Texts(["execute", "view", "kill"])]]
    + OwnQueriesRules(names, identities)
  }

  type Grants = map<string, Grant>

  type Blocks = map<string, seq<Rule>>

  function Identities(grants: Grants): set<string> {
    set key | key in grants :: grants[key].identity
  }

  function GrantRules(grants: Grants, keys: seq<string>): seq<Rule> {
    if keys == [] then []
    else
      var last := keys[|keys| - 1];
      GrantRules(grants, keys[..|keys| - 1]) + if last in grants then [GrantRule(grants[last])] else []
  }

  function Of(blocks: Blocks, block: string): seq<Rule> {
    if block in blocks then blocks[block] else []
  }

  const MODELLED: set<string> := {"catalogs", "tables", "procedures", "queries"}

  function TableRules(names: Names, grants: Grants, enforced: bool, preserved: seq<Rule>): seq<Rule> {
    [ReservedRule(names)] + GrantRules(grants, Sorted(grants.Keys)) + preserved + if enforced then [] else [CATCH_ALL]
  }

  function CatalogRules(names: Names, preserved: seq<Rule>): seq<Rule> {
    [OwnerRule(names)] + preserved + [EVERYONE]
  }

  function AllQueryRules(names: Names, grants: Grants, preserved: seq<Rule>): seq<Rule> {
    QueryRules(names, Sorted(Identities(grants))) + preserved + [EXECUTE]
  }

  /** The whole file: in each block Apchi's own rules, the Operator's, the preserved ones, and the
      catch-all. Blocks Apchi does not model pass through. */
  function RenderRules(names: Names, grants: Grants, enforced: bool, preserved: Blocks): Blocks {
    (map block | block in preserved && block !in MODELLED :: preserved[block]) +
    map["catalogs" := CatalogRules(names, Of(preserved, "catalogs")),
        "tables" := TableRules(names, grants, enforced, Of(preserved, "tables")),
        "procedures" := [KILL_QUERY] + Of(preserved, "procedures"),
        "queries" := AllQueryRules(names, grants, Of(preserved, "queries"))]
  }

  function Objects(rules: seq<Rule>): Value {
    Array(seq(|rules|, i requires 0 <= i < |rules| => Object(rules[i])))
  }

  function Document(blocks: Blocks): Value {
    Object(map block | block in blocks :: Objects(blocks[block]))
  }

  // ------------------------------------------------------------------ reading back

  datatype Problem = NotAnObject | NotAList(block: string) | NotARule(block: string, index: nat)

  datatype Parsed = Parsed(grants: Grants, preserved: Blocks, enforced: bool)

  const REQUIRED: set<string> := {"user", "catalog", "privileges"}
  const GRANT_KEYS: set<string> := {"user", "catalog", "schema", "table", "privileges"}

  /** The name a field holds literally; the field is there and is a pattern for one name. */
  function Literal(rule: Rule, field: string): Option<string> {
    if field in rule && rule[field].Text? then NameBehind(rule[field].text) else None
  }

  /** One `tables` rule as a grant, when the model can hold it. */
  function AsGrant(rule: Rule): Option<Grant> {
    if !(rule.Keys <= GRANT_KEYS && REQUIRED <= rule.Keys) then None
    else if Literal(rule, "user").None? || Literal(rule, "catalog").None? then None
    else if "schema" in rule && Literal(rule, "schema").None? then None
    else if "table" in rule && Literal(rule, "table").None? then None
    else if !(rule["privileges"].Array? && AllTexts(rule["privileges"].items)) then None
    else Some(Grant(Literal(rule, "user").value, Literal(rule, "catalog").value,
                    if "schema" in rule then Literal(rule, "schema") else None,
                    if "table" in rule then Literal(rule, "table") else None,
                    Strings(rule["privileges"].items)))
  }

  datatype Kind = Reserved | CatchAll | Granted(grant: Grant) | Other

  /** What a `tables` rule is to Apchi. */
  function KindOf(names: Names, rule: Rule): Kind {
    if rule == ReservedRule(names) then Reserved
    else if rule == CATCH_ALL then CatchAll
    else
      match AsGrant(rule)
      case None => Other
      case Some(grant) => if ValidGrant(grant) then Granted(grant) else Other
  }

  /** The grants of a list of rules; a later rule with the same key replaces an earlier one. */
  function GrantsIn(names: Names, rules: seq<Rule>): Grants {
    if rules == [] then map[]
    else
      var front := GrantsIn(names, rules[..|rules| - 1]);
      match KindOf(names, rules[|rules| - 1])
      case Granted(grant) => front[KeyOf(grant) := grant]
      case _ => front
  }

  function OthersIn(names: Names, rules: seq<Rule>): seq<Rule> {
    if rules == [] then []
    else
      var last := rules[|rules| - 1];
      OthersIn(names, rules[..|rules| - 1]) + if KindOf(names, last).Other? then [last] else []
  }

  /** The rules of a list that Apchi would not have generated there. */
  function NotOwned(owned: seq<Rule>, rules: seq<Rule>): seq<Rule> {
    if rules == [] then []
    else
      var last := rules[|rules| - 1];
      NotOwned(owned, rules[..|rules| - 1]) + if last in owned then [] else [last]
  }

  /** What Apchi generates in a block, given the grants: matched exactly, and never by shape. */
  function Owned(names: Names, grants: Grants, block: string): seq<Rule> {
    if block == "catalogs" then [OwnerRule(names), EVERYONE]
    else if block == "procedures" then [KILL_QUERY]
    else if block == "queries" then QueryRules(names, Sorted(Identities(grants))) + [EXECUTE]
    else []
  }

  function RulesIn(document: Fields, block: string): Result<seq<Rule>, Problem> {
    if block !in document then Ok([])
    else if !document[block].Array? then Err(NotAList(block))
    else AsRules(block, document[block].items)
  }

  /** The rules, or the first item that is not one. */
  function AsRules(block: string, items: seq<Value>): Result<seq<Rule>, Problem> {
    if items == [] then Ok([])
    else
      match AsRules(block, items[..|items| - 1])
      case Err(problem) => Err(problem)
      case Ok(rules) => if items[|items| - 1].Object? then Ok(rules + [items[|items| - 1].fields])
        else Err(NotARule(block, |items| - 1))
  }

  function KeptIn(names: Names, grants: Grants, block: string, rules: seq<Rule>): seq<Rule> {
    if block == "tables" then OthersIn(names, rules) else NotOwned(Owned(names, grants, block), rules)
  }

  function Keeping(preserved: Blocks, block: string, kept: seq<Rule>): Blocks {
    if kept == [] then preserved else preserved[block := kept]
  }

  /** The other blocks in order, stopping at the first that cannot be read. */
  function ReadBlocks(names: Names, grants: Grants, document: Fields, blocks: seq<string>,
                      preserved: Blocks): Result<Blocks, Problem> {
    if blocks == [] then Ok(preserved)
    else
      match ReadBlocks(names, grants, document, blocks[..|blocks| - 1], preserved)
      case Err(problem) => Err(problem)
      case Ok(sofar) =>
        match RulesIn(document, blocks[|blocks| - 1])
        case Err(problem) => Err(problem)
        case Ok(rules) => Ok(Keeping(sofar, blocks[|blocks| - 1], KeptIn(names, grants, blocks[|blocks| - 1], rules)))
  }

  function ParseFields(names: Names, document: Fields): Result<Parsed, Problem> {
    match RulesIn(document, "tables")
    case Err(problem) => Err(problem)
    case Ok(tables) =>
      var grants := GrantsIn(names, tables);
      match ReadBlocks(names, grants, document, Sorted(document.Keys - {"tables"}),
                       Keeping(map[], "tables", OthersIn(names, tables)))
      case Err(problem) => Err(problem)
      case Ok(preserved) => Ok(Parsed(grants, preserved, CATCH_ALL !in tables))
  }

  function ParseDocument(names: Names, document: Value): Result<Parsed, Problem> {
    if document.Object? then ParseFields(names, document.fields) else Err(NotAnObject)
  }
}
