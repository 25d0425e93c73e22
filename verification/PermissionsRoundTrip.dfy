/** Adoption's fixpoint: parsing what is rendered from what was parsed gives what was parsed. */
module PermissionsRoundTrip {
  import opened Outcomes
  import opened Ordering
  import opened Slices
  import opened RegexEscape
  import opened Json
  import opened Permissions

  // ------------------------------------------------------------------ one grant

  /** Names on one line, which is all a parsed grant can have. */
  predicate Plain(g: Grant) {
    !Newline(g.identity) && !Newline(g.catalog) &&
    (g.schema.Some? ==> !Newline(g.schema.value)) && (g.table.Some? ==> !Newline(g.table.value))
  }

  lemma LiteralOfPattern(rule: Rule, field: string, name: string)
    requires field in rule && rule[field] == Pattern(name) && !Newline(name)
    ensures Literal(rule, field) == Some(name)
  {
    NameBehindExactly(Anchored(name), name);
  }

  lemma GrantRuleKeys(g: Grant)
    ensures REQUIRED <= GrantRule(g).Keys <= GRANT_KEYS
    ensures "schema" in GrantRule(g) <==> g.schema.Some?
    ensures "table" in GrantRule(g) <==> g.table.Some?
  {
  }

  /** A grant with one-line names is read back from its own rule. */
  lemma GrantSurvives(g: Grant)
    requires Plain(g)
    ensures AsGrant(GrantRule(g)) == Some(g)
  {
    var rule := GrantRule(g);
    GrantRuleKeys(g);
    LiteralOfPattern(rule, "user", g.identity);
    LiteralOfPattern(rule, "catalog", g.catalog);
    if g.schema.Some? { LiteralOfPattern(rule, "schema", g.schema.value); }
    if g.table.Some? { LiteralOfPattern(rule, "table", g.table.value); }
    StringsOfTexts(g.privileges);
  }

  lemma LiteralPlain(rule: Rule, field: string)
    ensures Literal(rule, field).Some? ==> !Newline(Literal(rule, field).value)
  {
    if Literal(rule, field).Some? {
      NameBehindExactly(rule[field].text, Literal(rule, field).value);
    }
  }

  lemma GrantsArePlain(rule: Rule)
    ensures AsGrant(rule).Some? ==> Plain(AsGrant(rule).value)
  {
    LiteralPlain(rule, "user");
    LiteralPlain(rule, "catalog");
    LiteralPlain(rule, "schema");
    LiteralPlain(rule, "table");
  }

  /** None of a rule's patterns holds a line feed. */
  predicate OneLinePatterns(rule: Rule) {
    forall field | field in rule && rule[field].Text? :: !Newline(rule[field].text)
  }

  lemma LiteralIsPattern(rule: Rule, field: string)
    requires Literal(rule, field).Some? && !Newline(rule[field].text)
    ensures rule[field] == Pattern(Literal(rule, field).value)
  {
    NameBehindOneLine(rule[field].text, Literal(rule, field).value);
  }

  /** A rule on one line that is accepted as a grant is the rule that grant renders to. */
  lemma AcceptedRuleIsRendered(rule: Rule)
    requires OneLinePatterns(rule) && AsGrant(rule).Some?
    ensures GrantRule(AsGrant(rule).value) == rule
  {
    var g := AsGrant(rule).value;
    LiteralIsPattern(rule, "user");
    LiteralIsPattern(rule, "catalog");
    if "schema" in rule { LiteralIsPattern(rule, "schema"); }
    if "table" in rule { LiteralIsPattern(rule, "table"); }
    TextsOfStrings(rule["privileges"].items);
    RuleKeys(rule, g);
    SameRule(GrantRule(g), rule);
  }

  lemma RuleKeys(rule: Rule, g: Grant)
    requires REQUIRED <= rule.Keys <= GRANT_KEYS
    requires ("schema" in rule <==> g.schema.Some?) && ("table" in rule <==> g.table.Some?)
    ensures GrantRule(g).Keys == rule.Keys
  {
    GrantRuleKeys(g);
    forall key ensures key in GrantRule(g) <==> key in rule {
      if key in GRANT_KEYS && key !in REQUIRED { assert key == "schema" || key == "table"; }
    }
  }

  lemma SameRule(a: Rule, b: Rule)
    requires a.Keys == b.Keys && forall key | key in a :: a[key] == b[key]
    ensures a == b
  {
  }

  lemma GrantRuleIsReserved(names: Names, g: Grant)
    ensures GrantRule(g) == ReservedRule(names) <==> g == ReservedGrant(names)
  {
    if GrantRule(g) == ReservedRule(names) {
      GrantRuleKeys(g);
      AnchoredInjective(g.identity, names.trinoUser);
      AnchoredInjective(g.catalog, names.verificationCatalog);
      StringsOfTexts(g.privileges);
      StringsOfTexts(["SELECT"]);
    }
  }

  lemma RenderedKind(names: Names, g: Grant)
    requires Plain(g) && ValidGrant(g)
    ensures KindOf(names, GrantRule(g)) == if g == ReservedGrant(names) then Reserved else Granted(g)
  {
    GrantRuleIsReserved(names, g);
    GrantSurvives(g);
    assert "user" in GrantRule(g) && "user" !in CATCH_ALL;
  }

  // ------------------------------------------------------------------ lists of rules

  lemma OverlayGrant(a: Grants, b: Grants, key: string, g: Grant)
    ensures a + b[key := g] == (a + b)[key := g]
  {
  }

  lemma {:induction false} GrantsAppend(names: Names, a: seq<Rule>, b: seq<Rule>)
    ensures GrantsIn(names, a + b) == GrantsIn(names, a) + GrantsIn(names, b)
  {
    hide KindOf, KeyOf;
    if b == [] {
      assert a + b == a;
    } else {
      var front, last := b[..|b| - 1], b[|b| - 1];
      assert (a + b)[..|a + b| - 1] == a + front;
      assert (a + b)[|a + b| - 1] == last;
      GrantsAppend(names, a, front);
      match KindOf(names, last)
      case Granted(g) => OverlayGrant(GrantsIn(names, a), GrantsIn(names, front), KeyOf(g), g);
      case _ =>
    }
  }

  lemma {:induction false} OthersAppend(names: Names, a: seq<Rule>, b: seq<Rule>)
    ensures OthersIn(names, a + b) == OthersIn(names, a) + OthersIn(names, b)
  {
    if b == [] {
      assert a + b == a;
    } else {
      assert (a + b)[..|a + b| - 1] == a + b[..|b| - 1];
      OthersAppend(names, a, b[..|b| - 1]);
    }
  }

  lemma {:induction false} NotOwnedAppend(owned: seq<Rule>, a: seq<Rule>, b: seq<Rule>)
    ensures NotOwned(owned, a + b) == NotOwned(owned, a) + NotOwned(owned, b)
  {
    if b == [] {
      assert a + b == a;
    } else {
      assert (a + b)[..|a + b| - 1] == a + b[..|b| - 1];
      NotOwnedAppend(owned, a, b[..|b| - 1]);
    }
  }

  predicate AllOther(names: Names, rules: seq<Rule>) {
    forall i | 0 <= i < |rules| :: KindOf(names, rules[i]).Other?
  }

  lemma {:induction false} OthersAreOther(names: Names, rules: seq<Rule>)
    ensures AllOther(names, OthersIn(names, rules))
  {
    if rules != [] {
      OthersAreOther(names, rules[..|rules| - 1]);
    }
  }

  /** Preserved rules are preserved again, and read as nothing else. */
  lemma {:induction false} OthersStay(names: Names, rules: seq<Rule>)
    requires AllOther(names, rules)
    ensures OthersIn(names, rules) == rules && GrantsIn(names, rules) == map[] && CATCH_ALL !in rules
  {
    if rules != [] {
      var front, last := rules[..|rules| - 1], rules[|rules| - 1];
      assert KindOf(names, last).Other?;
      OthersStay(names, front);
      assert rules == front + [last];
      assert KindOf(names, CATCH_ALL).CatchAll? || KindOf(names, CATCH_ALL).Reserved?;
    }
  }

  predicate NoneOwned(owned: seq<Rule>, rules: seq<Rule>) {
    forall i | 0 <= i < |rules| :: rules[i] !in owned
  }

  predicate AllOwned(owned: seq<Rule>, rules: seq<Rule>) {
    forall i | 0 <= i < |rules| :: rules[i] in owned
  }

  lemma {:induction false} NotOwnedAre(owned: seq<Rule>, rules: seq<Rule>)
    ensures NoneOwned(owned, NotOwned(owned, rules))
    ensures NoneOwned(owned, rules) ==> NotOwned(owned, rules) == rules
    ensures AllOwned(owned, rules) ==> NotOwned(owned, rules) == []
  {
    if rules != [] {
      var front, last := rules[..|rules| - 1], rules[|rules| - 1];
      NotOwnedAre(owned, front);
      assert rules == front + [last];
      assert NoneOwned(owned, rules) ==> NoneOwned(owned, front) && last !in owned;
      assert AllOwned(owned, rules) ==> AllOwned(owned, front) && last in owned;
    }
  }

  /** What stands between Apchi's first rules and its last comes through. */
  lemma Between(owned: seq<Rule>, before: seq<Rule>, kept: seq<Rule>, after: seq<Rule>)
    requires AllOwned(owned, before) && NoneOwned(owned, kept) && AllOwned(owned, after)
    ensures NotOwned(owned, before + kept + after) == kept
  {
    NotOwnedAppend(owned, before + kept, after);
    NotOwnedAppend(owned, before, kept);
    NotOwnedAre(owned, before);
    NotOwnedAre(owned, kept);
    NotOwnedAre(owned, after);
    assert [] + kept + [] == kept;
  }

  // ------------------------------------------------------------------ what parsing returns

  /** Every grant sits under its own key, is valid, and has one-line names. */
  predicate WellKept(grants: Grants) {
    forall key | key in grants :: key == KeyOf(grants[key]) && ValidGrant(grants[key]) && Plain(grants[key])
  }

  lemma {:induction false} GrantsInKept(names: Names, rules: seq<Rule>)
    ensures WellKept(GrantsIn(names, rules))
  {
    if rules != [] {
      GrantsInKept(names, rules[..|rules| - 1]);
      GrantsArePlain(rules[|rules| - 1]);
    }
  }

  predicate KeptApart(names: Names, grants: Grants, preserved: Blocks) {
    AllOther(names, Of(preserved, "tables")) &&
    (forall block | block in preserved :: preserved[block] != []) &&
    forall block | block in preserved && block != "tables" :: NoneOwned(Owned(names, grants, block), preserved[block])
  }

  predicate Settled(names: Names, parsed: Parsed) {
    WellKept(parsed.grants) && KeptApart(names, parsed.grants, parsed.preserved)
  }

  lemma KeepingApart(names: Names, grants: Grants, preserved: Blocks, block: string, kept: seq<Rule>)
    requires KeptApart(names, grants, preserved) && block != "tables"
    requires NoneOwned(Owned(names, grants, block), kept)
    ensures KeptApart(names, grants, Keeping(preserved, block, kept))
  {
    hide Owned, AllOther, NoneOwned;
  }

  lemma {:induction false} ReadBlocksApart(names: Names, grants: Grants, document: Fields, blocks: seq<string>,
                                           preserved: Blocks)
    requires KeptApart(names, grants, preserved)
    requires forall i | 0 <= i < |blocks| :: blocks[i] != "tables"
    ensures var result := ReadBlocks(names, grants, document, blocks, preserved);
            result.Ok? ==> KeptApart(names, grants, result.value)
  {
    hide Owned, AllOther, NoneOwned, RulesIn, KeptApart;
    if blocks != [] {
      var front, last := blocks[..|blocks| - 1], blocks[|blocks| - 1];
      ReadBlocksApart(names, grants, document, front, preserved);
      var sofar, rules := ReadBlocks(names, grants, document, front, preserved), RulesIn(document, last);
      if sofar.Ok? && rules.Ok? {
        NotOwnedAre(Owned(names, grants, last), rules.value);
        KeepingApart(names, grants, sofar.value, last, NotOwned(Owned(names, grants, last), rules.value));
      }
    }
  }

  lemma TablesApart(names: Names, grants: Grants, tables: seq<Rule>)
    ensures KeptApart(names, grants, Keeping(map[], "tables", OthersIn(names, tables)))
  {
    hide Owned, KindOf;
    OthersAreOther(names, tables);
  }

  lemma FieldsSettled(names: Names, document: Fields)
    ensures ParseFields(names, document).Ok? ==> Settled(names, ParseFields(names, document).value)
  {
    hide KeptApart, WellKept, RulesIn, ReadBlocks, GrantsIn, OthersIn, Keeping;
    if RulesIn(document, "tables").Ok? {
      var tables := RulesIn(document, "tables").value;
      var grants := GrantsIn(names, tables);
      GrantsInKept(names, tables);
      TablesApart(names, grants, tables);
      var blocks := Sorted(document.Keys - {"tables"});
      assert forall i | 0 <= i < |blocks| :: blocks[i] in blocks;
      ReadBlocksApart(names, grants, document, blocks, Keeping(map[], "tables", OthersIn(names, tables)));
    }
  }

  /** Whatever parsing returns is settled: keys are the grants' own, names are on one line, and
      no preserved rule is one that Apchi would recognise as its own. */
  lemma ParsedIsSettled(names: Names, document: Value)
    ensures ParseDocument(names, document).Ok? ==> Settled(names, ParseDocument(names, document).value)
  {
    hide Settled, ParseFields;
    if document.Object? { FieldsSettled(names, document.fields); }
  }

  // ------------------------------------------------------------------ the rendered tables

  /** The grants without the one that says what Apchi's reserved rule says. */
  function Unreserved(names: Names, grants: Grants): Grants {
    map key | key in grants && grants[key] != ReservedGrant(names) :: grants[key]
  }

  function Among(grants: Grants, keys: seq<string>): Grants {
    map key | key in keys && key in grants :: grants[key]
  }

  lemma {:induction false} GrantRulesRead(names: Names, grants: Grants, keys: seq<string>)
    requires WellKept(grants)
    ensures GrantsIn(names, GrantRules(grants, keys)) == Unreserved(names, Among(grants, keys))
    ensures OthersIn(names, GrantRules(grants, keys)) == []
    ensures CATCH_ALL !in GrantRules(grants, keys)
  {
    hide KindOf, KeyOf, GrantRule, ValidGrant, Plain;
    if keys != [] {
      var front, last := keys[..|keys| - 1], keys[|keys| - 1];
      GrantRulesRead(names, grants, front);
      AmongOneMore(names, grants, front, last);
      assert keys == front + [last];
      if last in grants {
        LastGrantRead(names, GrantRules(grants, front), grants[last]);
      } else {
        assert GrantRules(grants, keys) == GrantRules(grants, front);
      }
    }
  }

  lemma AmongOneMore(names: Names, grants: Grants, front: seq<string>, last: string)
    ensures Unreserved(names, Among(grants, front + [last])) ==
            if last in grants && grants[last] != ReservedGrant(names)
            then Unreserved(names, Among(grants, front))[last := grants[last]]
            else Unreserved(names, Among(grants, front))
  {
    hide ReservedGrant;
    assert forall key :: key in front + [last] <==> key in front || key == last;
  }

  lemma LastGrantRead(names: Names, rules: seq<Rule>, g: Grant)
    requires ValidGrant(g) && Plain(g)
    ensures GrantsIn(names, rules + [GrantRule(g)]) ==
            if g != ReservedGrant(names) then GrantsIn(names, rules)[KeyOf(g) := g] else GrantsIn(names, rules)
    ensures OthersIn(names, rules + [GrantRule(g)]) == OthersIn(names, rules)
    ensures GrantRule(g) != CATCH_ALL
  {
    hide KindOf, KeyOf, GrantRule, ValidGrant, Plain, ReservedGrant;
    RenderedKind(names, g);
    NotCatchAll(g);
    assert (rules + [GrantRule(g)])[..|rules|] == rules;
  }

  lemma NotCatchAll(g: Grant)
    ensures GrantRule(g) != CATCH_ALL
  {
    assert "user" in GrantRule(g) && "user" !in CATCH_ALL;
  }

  lemma AmongAll(grants: Grants, keys: seq<string>)
    requires forall key :: key in keys <==> key in grants
    ensures Among(grants, keys) == grants
  {
  }

  lemma OneRule(names: Names, rule: Rule)
    ensures KindOf(names, rule).Reserved? || KindOf(names, rule).CatchAll? ==>
            GrantsIn(names, [rule]) == map[] && OthersIn(names, [rule]) == []
  {
    assert [rule][..0] == [];
  }

  lemma ReservedIsNotCatchAll(names: Names)
    ensures KindOf(names, ReservedRule(names)).Reserved? && KindOf(names, CATCH_ALL).CatchAll?
    ensures ReservedRule(names) != CATCH_ALL
  {
    assert "user" in ReservedRule(names) && "user" !in CATCH_ALL;
  }

  /** The tables block reads back: the grants but for the reserved one, the preserved rules in
      their order, and whether anything is allowed beyond them. */
  lemma TablesReadBack(names: Names, grants: Grants, enforced: bool, kept: seq<Rule>)
    requires WellKept(grants) && AllOther(names, kept)
    ensures var rules := TableRules(names, grants, enforced, kept);
            GrantsIn(names, rules) == Unreserved(names, grants) && OthersIn(names, rules) == kept &&
            (CATCH_ALL in rules <==> !enforced)
  {
    hide *;
    var mine := GrantRules(grants, Sorted(grants.Keys));
    GrantRulesRead(names, grants, Sorted(grants.Keys));
    AmongAll(grants, Sorted(grants.Keys));
    OthersStay(names, kept);
    ReservedIsNotCatchAll(names);
    OneRule(names, ReservedRule(names));
    LastRules(names, enforced);
    FourGrants(names, [ReservedRule(names)], mine, kept, if enforced then [] else [CATCH_ALL]);
    FourOthers(names, [ReservedRule(names)], mine, kept, if enforced then [] else [CATCH_ALL]);
    TheTableRules(names, grants, enforced, kept);
  }

  lemma TheTableRules(names: Names, grants: Grants, enforced: bool, kept: seq<Rule>)
    ensures TableRules(names, grants, enforced, kept) ==
            [ReservedRule(names)] + GrantRules(grants, Sorted(grants.Keys)) + kept + if enforced then []
              else [CATCH_ALL]
  {
  }

  lemma LastRules(names: Names, enforced: bool)
    ensures var last := if enforced then [] else [CATCH_ALL];
            GrantsIn(names, last) == map[] && OthersIn(names, last) == []
  {
    ReservedIsNotCatchAll(names);
    OneRule(names, CATCH_ALL);
  }

  lemma FourGrants(names: Names, a: seq<Rule>, b: seq<Rule>, c: seq<Rule>, d: seq<Rule>)
    requires GrantsIn(names, a) == map[] && GrantsIn(names, c) == map[] && GrantsIn(names, d) == map[]
    ensures GrantsIn(names, a + b + c + d) == GrantsIn(names, b)
  {
    hide GrantsIn;
    GrantsAppend(names, a, b);
    GrantsAppend(names, a + b, c);
    GrantsAppend(names, a + b + c, d);
    assert map[] + GrantsIn(names, b) + map[] + map[] == GrantsIn(names, b);
  }

  lemma FourOthers(names: Names, a: seq<Rule>, b: seq<Rule>, c: seq<Rule>, d: seq<Rule>)
    requires OthersIn(names, a) == [] && OthersIn(names, b) == [] && OthersIn(names, d) == []
    ensures OthersIn(names, a + b + c + d) == OthersIn(names, c)
  {
    hide OthersIn;
    OthersAppend(names, a, b);
    OthersAppend(names, a + b, c);
    OthersAppend(names, a + b + c, d);
    assert [] + [] + OthersIn(names, c) + [] == OthersIn(names, c);
  }

  // ------------------------------------------------------------------ the other blocks

  lemma {:induction false} ObjectsRead(block: string, rules: seq<Rule>)
    ensures AsRules(block, Objects(rules).items) == Ok(rules)
  {
    if rules != [] {
      var front := rules[..|rules| - 1];
      ObjectsRead(block, front);
      assert Objects(rules).items[..|rules| - 1] == Objects(front).items;
      assert rules == front + [rules[|rules| - 1]];
    }
  }

  lemma DocumentRead(blocks: Blocks, block: string)
    ensures RulesIn(Document(blocks).fields, block) == Ok(Of(blocks, block))
  {
    if block in blocks {
      ObjectsRead(block, blocks[block]);
    }
  }

  /** Apart from `tables`: reading the rendered block keeps exactly what was preserved. */
  lemma BlockReadBack(names: Names, grants: Grants, enforced: bool, preserved: Blocks, block: string)
    requires KeptApart(names, grants, preserved) && block != "tables"
    ensures NotOwned(Owned(names, grants, block), Of(RenderRules(names, grants, enforced, preserved), block)) ==
            Of(preserved, block)
  {
    hide OwnerRule, QueryRules, TableRules, AllOther;
    var owned, kept := Owned(names, grants, block), Of(preserved, block);
    var rendered := Of(RenderRules(names, grants, enforced, preserved), block);
    assert NoneOwned(owned, kept);
    if block == "catalogs" {
      Between(owned, [OwnerRule(names)], kept, [EVERYONE]);
    } else if block == "procedures" {
      Between(owned, [KILL_QUERY], kept, []);
      assert [KILL_QUERY] + kept + [] == [KILL_QUERY] + kept;
    } else if block == "queries" {
      var mine := QueryRules(names, Sorted(Identities(grants)));
      assert owned == mine + [EXECUTE];
      Between(owned, mine, kept, [EXECUTE]);
    } else {
      assert rendered == kept;
      NotOwnedAre(owned, kept);
    }
  }

  /** What reading some of the blocks adds. */
  function Kept(names: Names, grants: Grants, rendered: Blocks, blocks: seq<string>): Blocks {
    map block | block in blocks && KeptIn(names, grants, block, Of(rendered, block)) != [] ::
      KeptIn(names, grants, block, Of(rendered, block))
  }

  lemma InKept(names: Names, grants: Grants, rendered: Blocks, blocks: seq<string>, block: string)
    ensures block in Kept(names, grants, rendered, blocks) <==>
            block in blocks && KeptIn(names, grants, block, Of(rendered, block)) != []
    ensures block in Kept(names, grants, rendered, blocks) ==>
            Kept(names, grants, rendered, blocks)[block] == KeptIn(names, grants, block, Of(rendered, block))
  {
    hide KeptIn, Of;
  }

  lemma KeptOneMore(names: Names, grants: Grants, rendered: Blocks, front: seq<string>, last: string, start: Blocks)
    requires last !in front
    ensures start + Kept(names, grants, rendered, front + [last]) ==
            Keeping(start + Kept(names, grants, rendered, front), last, KeptIn(names, grants, last, Of(rendered, last)))
  {
    hide KeptIn, Of, Kept;
    var left := start + Kept(names, grants, rendered, front + [last]);
    var right := Keeping(start + Kept(names, grants, rendered, front), last,
        KeptIn(names, grants, last, Of(rendered, last)));
    forall block ensures (block in left <==> block in right) && (block in left ==> left[block] == right[block]) {
      InKept(names, grants, rendered, front + [last], block);
      InKept(names, grants, rendered, front, block);
    }
    assert left == right;
  }

  lemma {:induction false} BlocksReadBack(names: Names, grants: Grants, rendered: Blocks, blocks: seq<string>,
                                          start: Blocks)
    requires Distinct(blocks)
    ensures ReadBlocks(names, grants, Document(rendered).fields, blocks, start) ==
            Ok(start + Kept(names, grants, rendered, blocks))
  {
    hide KeptIn, Document, Keeping, Kept, RulesIn, Of;
    if blocks == [] {
      NothingKept(names, grants, rendered, start);
    } else {
      var front, last := blocks[..|blocks| - 1], blocks[|blocks| - 1];
      assert last !in front;
      BlocksReadBack(names, grants, rendered, front, start);
      DocumentRead(rendered, last);
      KeptOneMore(names, grants, rendered, front, last, start);
      assert blocks == front + [last];
    }
  }

  lemma NothingKept(names: Names, grants: Grants, rendered: Blocks, start: Blocks)
    ensures start + Kept(names, grants, rendered, []) == start
  {
  }

  lemma RenderedTables(names: Names, parsed: Parsed)
    ensures Of(RenderRules(names, parsed.grants, parsed.enforced, parsed.preserved), "tables") ==
            TableRules(names, parsed.grants, parsed.enforced, Of(parsed.preserved, "tables"))
  {
  }

  lemma KeptHere(names: Names, grants: Grants, rendered: Blocks, preserved: Blocks, blocks: seq<string>, block: string)
    requires block in blocks <==> block in rendered && block != "tables"
    requires block in preserved ==> preserved[block] != [] && block in rendered
    requires block != "tables" ==> KeptIn(names, grants, block, Of(rendered, block)) == Of(preserved, block)
    ensures var all := Keeping(map[], "tables", Of(preserved, "tables")) + Kept(names, grants, rendered, blocks);
            (block in all <==> block in preserved) && (block in all ==> all[block] == preserved[block])
  {
    hide KeptIn, Kept;
    InKept(names, grants, rendered, blocks, block);
  }

  lemma AllKept(names: Names, grants: Grants, rendered: Blocks, preserved: Blocks, blocks: seq<string>)
    requires forall block :: block in blocks <==> block in rendered && block != "tables"
    requires forall block | block in preserved :: preserved[block] != [] && block in rendered
    requires forall block | block != "tables" ::
               KeptIn(names, grants, block, Of(rendered, block)) == Of(preserved, block)
    ensures Keeping(map[], "tables", Of(preserved, "tables")) + Kept(names, grants, rendered, blocks) == preserved
  {
    hide *;
    var all := Keeping(map[], "tables", Of(preserved, "tables")) + Kept(names, grants, rendered, blocks);
    forall block ensures (block in all <==> block in preserved) && (block in all ==> all[block] == preserved[block]) {
      KeptHere(names, grants, rendered, preserved, blocks, block);
    }
    assert all == preserved;
  }

  lemma PreservedAreRendered(names: Names, parsed: Parsed, block: string)
    requires block in parsed.preserved
    ensures block in RenderRules(names, parsed.grants, parsed.enforced, parsed.preserved)
  {
  }

  lemma RenderedBlocksRead(names: Names, parsed: Parsed, blocks: seq<string>)
    requires Settled(names, parsed)
    requires Distinct(blocks)
    requires forall block :: block in blocks <==>
               block in RenderRules(names, parsed.grants, parsed.enforced, parsed.preserved) && block != "tables"
    ensures ReadBlocks(names, parsed.grants,
                       Document(RenderRules(names, parsed.grants, parsed.enforced, parsed.preserved)).fields, blocks,
                       Keeping(map[], "tables", Of(parsed.preserved, "tables"))) == Ok(parsed.preserved)
  {
    var rendered := RenderRules(names, parsed.grants, parsed.enforced, parsed.preserved);
    hide RenderRules, Owned, NotOwned, AllOther, NoneOwned, WellKept, Keeping, Document, ReadBlocks, Of, Kept;
    BlocksReadBack(names, parsed.grants, rendered, blocks, Keeping(map[], "tables", Of(parsed.preserved, "tables")));
    forall block | block != "tables"
      ensures KeptIn(names, parsed.grants, block, Of(rendered, block)) == Of(parsed.preserved, block)
    {
      BlockReadBack(names, parsed.grants, parsed.enforced, parsed.preserved, block);
    }
    forall block | block in parsed.preserved ensures block in rendered {
      PreservedAreRendered(names, parsed, block);
    }
    AllKept(names, parsed.grants, rendered, parsed.preserved, blocks);
  }

  // ------------------------------------------------------------------ the fixpoint

  /** Rendering a parsed configuration and parsing that. */
  function Again(names: Names, parsed: Parsed): Result<Parsed, Problem> {
    ParseDocument(names, Document(RenderRules(names, parsed.grants, parsed.enforced, parsed.preserved)))
  }

  predicate HoldsReserved(names: Names, grants: Grants) {
    exists key :: key in grants && grants[key] == ReservedGrant(names)
  }

  lemma UnreservedIsSame(names: Names, grants: Grants)
    ensures Unreserved(names, grants) == grants <==> !HoldsReserved(names, grants)
  {
    if key :| key in grants && grants[key] == ReservedGrant(names) {
      assert key !in Unreserved(names, grants);
    }
  }

  lemma AgainReads(names: Names, parsed: Parsed)
    requires Settled(names, parsed)
    ensures Again(names, parsed).Ok? ==> Again(names, parsed).value.grants == Unreserved(names, parsed.grants)
    ensures !HoldsReserved(names, parsed.grants) ==> Again(names, parsed) == Ok(parsed)
  {
    var rendered := RenderRules(names, parsed.grants, parsed.enforced, parsed.preserved);
    hide RenderRules, GrantsIn, OthersIn, ReadBlocks, RulesIn, Keeping, WellKept, AllOther, Of, TableRules, Owned,
         NoneOwned, HoldsReserved;
    DocumentRead(rendered, "tables");
    RenderedTables(names, parsed);
    TablesReadBack(names, parsed.grants, parsed.enforced, Of(parsed.preserved, "tables"));
    UnreservedIsSame(names, parsed.grants);
    if !HoldsReserved(names, parsed.grants) {
      var blocks := Sorted(Document(rendered).fields.Keys - {"tables"});
      SortedDistinct(Document(rendered).fields.Keys - {"tables"});
      RenderedBlocksRead(names, parsed, blocks);
    }
  }

  /** The fixpoint holds of a document exactly when what was parsed from it does not include, as
      an Operator's grant, the access that Apchi reserves for itself. */
  lemma FixpointExactly(names: Names, document: Value)
    requires ParseDocument(names, document).Ok?
    ensures var parsed := ParseDocument(names, document).value;
            Again(names, parsed) == Ok(parsed) <==> !HoldsReserved(names, parsed.grants)
  {
    hide Settled, ParseDocument, Again, HoldsReserved, Unreserved;
    var parsed := ParseDocument(names, document).value;
    ParsedIsSettled(names, document);
    AgainReads(names, parsed);
    UnreservedIsSame(names, parsed.grants);
  }

  /** No pattern in the document's `tables` holds a line feed. */
  predicate OneLineTables(document: Value) {
    document.Object? && RulesIn(document.fields, "tables").Ok? && OneLineRules(RulesIn(document.fields, "tables").value)
  }

  predicate OneLineRules(rules: seq<Rule>) {
    forall i | 0 <= i < |rules| :: OneLinePatterns(rules[i])
  }

  lemma NeverReserved(names: Names, rule: Rule)
    requires OneLinePatterns(rule)
    ensures KindOf(names, rule) != Granted(ReservedGrant(names))
  {
    if AsGrant(rule).Some? {
      AcceptedRuleIsRendered(rule);
      GrantRuleIsReserved(names, AsGrant(rule).value);
    }
  }

  lemma {:induction false} NoReservedGrant(names: Names, rules: seq<Rule>)
    requires OneLineRules(rules)
    ensures !HoldsReserved(names, GrantsIn(names, rules))
  {
    hide KindOf, KeyOf, ReservedGrant, OneLinePatterns;
    if rules != [] {
      NoReservedGrant(names, rules[..|rules| - 1]);
      NeverReserved(names, rules[|rules| - 1]);
    }
  }

  /** Adoption never reports a loss: without line feeds in the table patterns, whatever could be
      parsed is parsed again from what it renders to. */
  lemma FixpointOnOneLine(names: Names, document: Value)
    requires OneLineTables(document) && ParseDocument(names, document).Ok?
    ensures Again(names, ParseDocument(names, document).value) == ParseDocument(names, document)
  {
    hide Again, HoldsReserved, OneLineRules;
    FixpointExactly(names, document);
    NoReservedGrant(names, RulesIn(document.fields, "tables").value);
    GrantsParsed(names, document);
  }

  lemma GrantsParsed(names: Names, document: Value)
    requires document.Object? && ParseDocument(names, document).Ok?
    ensures RulesIn(document.fields, "tables").Ok?
    ensures ParseDocument(names, document).value.grants == GrantsIn(names, RulesIn(document.fields, "tables").value)
  {
    hide RulesIn, GrantsIn, ReadBlocks, OthersIn, Keeping;
  }

  /** Apchi's reserved rule with a line feed after its user pattern. */
  function AlmostReserved(names: Names): Rule {
    ReservedRule(names)["user" := Text(Anchored(names.trinoUser) + ['\n'])]
  }

  lemma AlmostReservedIsGranted(names: Names)
    requires ValidGrant(ReservedGrant(names)) && Plain(ReservedGrant(names))
    ensures KindOf(names, AlmostReserved(names)) == Granted(ReservedGrant(names))
  {
    var rule := AlmostReserved(names);
    assert |Anchored(names.trinoUser) + ['\n']| != |Anchored(names.trinoUser)|;
    assert rule["user"] != ReservedRule(names)["user"];
    assert "user" in rule && "user" !in CATCH_ALL;
    NameBehindExactly(Anchored(names.trinoUser) + ['\n'], names.trinoUser);
    LiteralOfPattern(rule, "catalog", names.verificationCatalog);
    StringsOfTexts(["SELECT"]);
  }

  /** The one family that does not survive: for every identity and catalog Apchi may run with, a
      file whose table rule repeats Apchi's own with a trailing line feed in the user pattern is
      read as an Operator's grant, and that grant is gone from the second reading. */
  lemma TrailingLineFeedIsLost(names: Names)
    requires ValidGrant(ReservedGrant(names)) && Plain(ReservedGrant(names))
    ensures var document := Document(map["tables" := [AlmostReserved(names)]]);
            ParseDocument(names, document).Ok? &&
            Again(names, ParseDocument(names, document).value) != ParseDocument(names, document)
  {
    hide Again, AlmostReserved, KindOf, ReservedGrant;
    var rules := [AlmostReserved(names)];
    var blocks: Blocks := map["tables" := rules];
    var document := Document(blocks);
    DocumentRead(blocks, "tables");
    assert document.fields.Keys - {"tables"} == {};
    AlmostReservedIsGranted(names);
    assert rules[..0] == [];
    assert GrantsIn(names, rules) == map[KeyOf(ReservedGrant(names)) := ReservedGrant(names)];
    GrantsParsed(names, document);
    assert GrantsIn(names, rules)[KeyOf(ReservedGrant(names))] == ReservedGrant(names);
    FixpointExactly(names, document);
  }
}
