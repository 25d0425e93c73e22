/** Reading the rules file as the parser does it: block by block, rule by rule, updating the
    grants, the preserved rules and the enforcement flag as it goes. */
module PermissionsParser {
  import opened Outcomes
  import opened Ordering
  import opened Json
  import opened Permissions

  /** The rules of one block, refusing the first item that is not an object. */
  method RulesInBlock(document: Fields, block: string) returns (result: Result<seq<Rule>, Problem>)
    ensures result == RulesIn(document, block)
  {
    if block !in document { return Ok([]); }
    if !document[block].Array? { return Err(NotAList(block)); }
    var items := document[block].items;
    var rules: seq<Rule> := [];
    for index := 0 to |items|
      invariant AsRules(block, items[..index]) == Ok(rules)
    {
      OneMoreItem(block, items, index);
      if !items[index].Object? {
        EarlierProblem(block, items, index + 1);
        return Err(NotARule(block, index));
      }
      rules := rules + [items[index].fields];
    }
    assert items[..|items|] == items;
    return Ok(rules);
  }

  lemma OneMoreItem(block: string, items: seq<Value>, index: nat)
    requires index < |items|
    ensures AsRules(block, items[..index + 1]) ==
            match AsRules(block, items[..index])
            case Err(problem) => Err(problem)
            case Ok(rules) => if items[index].Object? then Ok(rules + [items[index].fields])
              else Err(NotARule(block, index))
  {
    assert items[..index + 1][..index] == items[..index];
  }

  lemma {:induction false} EarlierProblem(block: string, items: seq<Value>, index: nat)
    requires index <= |items| && AsRules(block, items[..index]).Err?
    ensures AsRules(block, items) == AsRules(block, items[..index])
    decreases |items|
  {
    if index == |items| {
      assert items[..index] == items;
    } else {
      var front := items[..|items| - 1];
      assert front[..index] == items[..index];
      EarlierProblem(block, front, index);
    }
  }

  /** `setdefault(block, []).append(rule)`. */
  function Kept(preserved: Blocks, block: string, rule: Rule): Blocks {
    preserved[block := Of(preserved, block) + [rule]]
  }

  lemma KeepOne(preserved: Blocks, block: string, kept: seq<Rule>, rule: Rule)
    requires block !in preserved
    ensures Kept(Keeping(preserved, block, kept), block, rule) == Keeping(preserved, block, kept + [rule])
  {
    assert [] + [rule] == [rule];
  }

  lemma OneMoreRule(names: Names, rules: seq<Rule>, i: nat)
    requires i < |rules|
    ensures GrantsIn(names, rules[..i + 1]) ==
            match KindOf(names, rules[i]) {
              case Granted(g) => GrantsIn(names, rules[..i])[KeyOf(g) := g]
              case _ => GrantsIn(names, rules[..i])
            }
    ensures OthersIn(names, rules[..i + 1]) ==
            OthersIn(names, rules[..i]) + if KindOf(names, rules[i]).Other? then [rules[i]] else []
    ensures CATCH_ALL in rules[..i + 1] <==> CATCH_ALL in rules[..i] || rules[i] == CATCH_ALL
  {
    hide KindOf, KeyOf;
    assert rules[..i + 1][..i] == rules[..i];
    assert rules[..i + 1] == rules[..i] + [rules[i]];
  }

  /** The `tables` block: first its own rules are recognised, then grants, and the rest is kept. */
  method ReadTables(names: Names, rules: seq<Rule>) returns (grants: Grants, preserved: Blocks, enforced: bool)
    ensures grants == GrantsIn(names, rules)
    ensures preserved == Keeping(map[], "tables", OthersIn(names, rules))
    ensures enforced <==> CATCH_ALL !in rules
  {
    hide KeyOf, AsGrant, ValidGrant, GrantsIn, OthersIn;
    grants, preserved, enforced := map[], map[], true;
    assert rules[..0] == [];
    NoRules(names);
    for i := 0 to |rules|
      invariant grants == GrantsIn(names, rules[..i])
      invariant preserved == Keeping(map[], "tables", OthersIn(names, rules[..i]))
      invariant enforced <==> CATCH_ALL !in rules[..i]
    {
      var rule := rules[i];
      OneMoreRule(names, rules, i);
      KeepOne(map[], "tables", OthersIn(names, rules[..i]), rule);
      ReservedIsNotCatchAll(names);
      assert OthersIn(names, rules[..i]) + [] == OthersIn(names, rules[..i]);
      if rule == ReservedRule(names) { continue; }
      if rule == CATCH_ALL {
        enforced := false;
        continue;
      }
      var grant := AsGrant(rule);
      if grant.None? || !ValidGrant(grant.value) {
        preserved := Kept(preserved, "tables", rule);
        continue;
      }
      grants := grants[KeyOf(grant.value) := grant.value];
    }
    assert rules[..|rules|] == rules;
  }

  lemma NoRules(names: Names)
    ensures GrantsIn(names, []) == map[] && OthersIn(names, []) == []
  {
  }

  lemma ReservedIsNotCatchAll(names: Names)
    ensures ReservedRule(names) != CATCH_ALL
  {
    assert "user" in ReservedRule(names) && "user" !in CATCH_ALL;
  }

  /** Any other block: what Apchi would have generated there is dropped and the rest is kept. */
  method ReadBlock(owned: seq<Rule>, block: string, rules: seq<Rule>, start: Blocks) returns (preserved: Blocks)
    requires block !in start
    ensures preserved == Keeping(start, block, NotOwned(owned, rules))
  {
    preserved := start;
    for i := 0 to |rules|
      invariant preserved == Keeping(start, block, NotOwned(owned, rules[..i]))
    {
      OneMoreOwned(owned, rules, i);
      KeepOne(start, block, NotOwned(owned, rules[..i]), rules[i]);
      if rules[i] !in owned { preserved := Kept(preserved, block, rules[i]); }
    }
    assert rules[..|rules|] == rules;
  }

  lemma OneMoreOwned(owned: seq<Rule>, rules: seq<Rule>, i: nat)
    requires i < |rules|
    ensures NotOwned(owned, rules[..i + 1]) ==
            NotOwned(owned, rules[..i]) + if rules[i] in owned then [] else [rules[i]]
    ensures NotOwned(owned, rules[..i]) + [] == NotOwned(owned, rules[..i])
  {
    assert rules[..i + 1][..i] == rules[..i];
  }

  lemma {:induction false} EarlierBlock(names: Names, grants: Grants, document: Fields, blocks: seq<string>,
                                        start: Blocks, i: nat)
    requires i <= |blocks| && ReadBlocks(names, grants, document, blocks[..i], start).Err?
    ensures ReadBlocks(names, grants, document, blocks, start) ==
            ReadBlocks(names, grants, document, blocks[..i], start)
    decreases |blocks|
  {
    hide RulesIn, KeptIn, Keeping;
    if i == |blocks| {
      assert blocks[..i] == blocks;
    } else {
      var front := blocks[..|blocks| - 1];
      assert front[..i] == blocks[..i];
      EarlierBlock(names, grants, document, front, start, i);
    }
  }

  lemma OneMoreBlock(names: Names, grants: Grants, document: Fields, blocks: seq<string>, start: Blocks, i: nat)
    requires i < |blocks|
    ensures ReadBlocks(names, grants, document, blocks[..i + 1], start) ==
            match ReadBlocks(names, grants, document, blocks[..i], start)
            case Err(problem) => Err(problem)
            case Ok(sofar) =>
              match RulesIn(document, blocks[i])
              case Err(problem) => Err(problem)
              case Ok(rules) => Ok(Keeping(sofar, blocks[i], KeptIn(names, grants, blocks[i], rules)))
  {
    hide RulesIn, KeptIn, Keeping;
    assert blocks[..i + 1][..i] == blocks[..i];
  }

  /** The whole file: `tables` first, since the grants decide which `queries` rules are Apchi's. */
  method ParseRules(names: Names, document: Value) returns (result: Result<Parsed, Problem>)
    ensures result == ParseDocument(names, document)
  {
    hide RulesIn, GrantsIn, OthersIn, NotOwned, ReadBlocks, Owned;
    if !document.Object? { return Err(NotAnObject); }
    var fields := document.fields;
    var tables := RulesInBlock(fields, "tables");
    if tables.Err? { return Err(tables.error); }
    var grants, preserved, enforced := ReadTables(names, tables.value);
    ghost var start := preserved;
    var blocks := Sorted(fields.Keys - {"tables"});
    SortedDistinct(fields.Keys - {"tables"});
    NoBlocks(names, grants, fields, start);
    assert blocks[..0] == [];
    for i := 0 to |blocks|
      invariant ReadBlocks(names, grants, fields, blocks[..i], start) == Ok(preserved)
      invariant forall block | block in preserved :: block == "tables" || block in blocks[..i]
    {
      OneMoreBlock(names, grants, fields, blocks, start, i);
      Later(blocks, i);
      var rules := RulesInBlock(fields, blocks[i]);
      if rules.Err? {
        EarlierBlock(names, grants, fields, blocks, start, i + 1);
        return Err(rules.error);
      }
      preserved := ReadBlock(Owned(names, grants, blocks[i]), blocks[i], rules.value, preserved);
    }
    assert blocks[..|blocks|] == blocks;
    return Ok(Parsed(grants, preserved, enforced));
  }

  lemma NoBlocks(names: Names, grants: Grants, document: Fields, start: Blocks)
    ensures ReadBlocks(names, grants, document, [], start) == Ok(start)
  {
  }

  lemma Later(blocks: seq<string>, i: nat)
    requires i < |blocks| && Distinct(blocks)
    ensures blocks[i] !in blocks[..i] && blocks[i] in blocks
    ensures forall block | block in blocks[..i] || block == blocks[i] :: block in blocks[..i + 1]
  {
    assert blocks[..i + 1] == blocks[..i] + [blocks[i]];
  }
}
