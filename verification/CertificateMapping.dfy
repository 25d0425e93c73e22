/** The certificate mapping rules: one Operator pattern and the preserved ones, rendered between
    Apchi's own two rules, and the file read back. */
module CertificateMapping {
  import opened Outcomes
  import opened Ordering
  import opened RegexEscape
  import opened PatternMatching
  import opened Json

  type Rule = Fields

  datatype Mapping = Mapping(pattern: string, user: string, casing: string)

  predicate ValidMapping(m: Mapping) {
    1 <= |m.pattern| <= 512 && 1 <= |m.user| <= 256 && m.casing in {"keep", "lower", "upper"}
  }

  // ------------------------------------------------------------------ rendering

  function ReservedRule(trinoUser: string): Rule {
    map["pattern" := Text(Anchored(trinoUser)), "user" := Text(trinoUser)]
  }

  const UNCHANGED: Rule := map["pattern" := Text("(.*)")]

  /** One mapping with its defaults left out. */
  function RuleOf(m: Mapping): Rule {
    var rule := map["pattern" := Text(m.pattern)];
    var withUser := if m.user != "$1" then rule["user" := Text(m.user)] else rule;
    if m.casing != "keep" then withUser["case" := Text(m.casing)] else withUser
  }

  /** The Operator's pattern, when there is one, ahead of the preserved ones. */
  function Mappings(desired: Option<Mapping>, preserved: seq<Mapping>): seq<Mapping> {
    (if desired.Some? then [desired.value] else []) + preserved
  }

  function RulesOf(mappings: seq<Mapping>): seq<Rule> {
    seq(|mappings|, i requires 0 <= i < |mappings| => RuleOf(mappings[i]))
  }

  function Rendering(trinoUser: string, desired: Option<Mapping>, preserved: seq<Mapping>): seq<Rule> {
    [ReservedRule(trinoUser)] + RulesOf(Mappings(desired, preserved)) + [UNCHANGED]
  }

  method RenderRules(trinoUser: string, desired: Option<Mapping>, preserved: seq<Mapping>) returns (rules: seq<Rule>)
    ensures rules == Rendering(trinoUser, desired, preserved)
  {
    rules := [ReservedRule(trinoUser)];
    if desired.Some? { rules := rules + [RuleOf(desired.value)]; }
    ghost var first := rules;
    for i := 0 to |preserved|
      invariant rules == first + RulesOf(preserved[..i])
    {
      assert RulesOf(preserved[..i + 1]) == RulesOf(preserved[..i]) + [RuleOf(preserved[i])];
      rules := rules + [RuleOf(preserved[i])];
    }
    assert preserved[..|preserved|] == preserved;
    rules := rules + [UNCHANGED];
  }

  function Document(rules: seq<Rule>): Value {
    Object(map["rules" := Array(seq(|rules|, i requires 0 <= i < |rules| => Object(rules[i])))])
  }

  // ------------------------------------------------------------------ reading back

  datatype Problem = NotAnObject | NoRules | NotARule(index: nat) | Invalid(rule: Rule)

  datatype Unaccounted = Outside(key: string, value: Value)
                       | Unsupported(index: nat, rule: Rule)
                       | Further(index: nat, rule: Rule)

  datatype Parsed = Parsed(desired: Option<Mapping>, unaccounted: seq<Unaccounted>)

  /** A rule that says no more than a mapping can. */
  predicate Acceptable(rule: Rule) {
    rule.Keys <= {"pattern", "user", "case"} && "pattern" in rule
  }

  function TextOr(rule: Rule, field: string, default: string): Option<string> {
    if field !in rule then Some(default) else if rule[field].Text? then Some(rule[field].text) else None
  }

  /** The mapping a rule validates to. */
  function Validated(rule: Rule): Option<Mapping>
    requires Acceptable(rule)
  {
    var pattern, user, casing := TextOr(rule, "pattern", ""), TextOr(rule, "user", "$1"), TextOr(rule, "case", "keep");
    if pattern.None? || user.None? || casing.None? then None
    else
      var m := Mapping(pattern.value, user.value, casing.value);
      if ValidMapping(m) then Some(m) else None
  }

  function OutsideOf(document: Fields, keys: seq<string>): seq<Unaccounted> {
    if keys == [] then []
    else
      var last := keys[|keys| - 1];
      OutsideOf(document, keys[..|keys| - 1])
      + if last in document && last != "rules" then [Outside(last, document[last])] else []
  }

  predicate AllObjects(items: seq<Value>) {
    forall i | 0 <= i < |items| :: items[i].Object?
  }

  function RuleAt(items: seq<Value>, i: nat): Rule
    requires i < |items| && AllObjects(items)
  {
    items[i].fields
  }

  /** Where the rules that are not Apchi's begin: one reserved rule is dropped, and only in front. */
  function Begins(items: seq<Value>, trinoUser: string): (lo: nat)
    requires AllObjects(items)
    ensures lo <= |items|
  {
    if items != [] && RuleAt(items, 0) == ReservedRule(trinoUser) then 1 else 0
  }

  /** Where they end: one catch-all is dropped, and only at the very end. */
  function Ends(items: seq<Value>, lo: nat): (hi: nat)
    requires AllObjects(items) && lo <= |items|
    ensures lo <= hi <= |items|
  {
    if lo < |items| && RuleAt(items, |items| - 1) == UNCHANGED then |items| - 1 else |items|
  }

  /** The first rule that can be the Operator's. */
  function Operators(items: seq<Value>, lo: nat, hi: nat): (at: Option<nat>)
    requires AllObjects(items) && lo <= hi <= |items|
    ensures at.Some? ==> lo <= at.value < hi && Acceptable(RuleAt(items, at.value))
    ensures forall i | lo <= i < hi && Acceptable(RuleAt(items, i)) :: at.Some? && at.value <= i
    decreases hi - lo
  {
    if lo == hi then None
    else if Acceptable(RuleAt(items, lo)) then Some(lo)
    else Operators(items, lo + 1, hi)
  }

  function Report(items: seq<Value>, i: nat): Unaccounted
    requires AllObjects(items) && i < |items|
  {
    if Acceptable(RuleAt(items, i)) then Further(i, RuleAt(items, i)) else Unsupported(i, RuleAt(items, i))
  }

  /** Every rule in a range but the Operator's is reported, in order. */
  function Reports(items: seq<Value>, lo: nat, hi: nat, operator: Option<nat>): seq<Unaccounted>
    requires AllObjects(items) && lo <= hi <= |items|
    decreases hi
  {
    if lo == hi then []
    else Reports(items, lo, hi - 1, operator) + if operator == Some(hi - 1) then [] else [Report(items, hi - 1)]
  }

  function Concluded(items: seq<Value>, operator: Option<nat>, unaccounted: seq<Unaccounted>): Result<Parsed, Problem>
    requires AllObjects(items)
    requires operator.Some? ==> operator.value < |items| && Acceptable(RuleAt(items, operator.value))
  {
    if operator.None? then Ok(Parsed(None, unaccounted))
    else
      match Validated(RuleAt(items, operator.value))
      case None => Err(Invalid(RuleAt(items, operator.value)))
      case Some(m) => Ok(Parsed(Some(m), unaccounted))
  }

  function FirstNonRule(items: seq<Value>): (i: nat)
    ensures i <= |items|
    ensures i < |items| ==> !items[i].Object?
    ensures i == |items| <==> AllObjects(items)
    ensures forall j | 0 <= j < i :: items[j].Object?
  {
    if items == [] then 0
    else
      var i := FirstNonRule(items[..|items| - 1]);
      if i < |items| - 1 then i else if items[i].Object? then |items| else i
  }

  /** What the file says: the first acceptable rule of the body is the Operator's, and every other
      rule of the body is reported with its place in the file. */
  function Reading(trinoUser: string, document: Value): Result<Parsed, Problem> {
    if !document.Object? then Err(NotAnObject)
    else if "rules" !in document.fields || !document.fields["rules"].Array? then Err(NoRules)
    else
      var items := document.fields["rules"].items;
      if !AllObjects(items) then Err(NotARule(FirstNonRule(items)))
      else
        var lo := Begins(items, trinoUser);
        var hi := Ends(items, lo);
        var operator := Operators(items, lo, hi);
        Concluded(items, operator,
                  OutsideOf(document.fields, Sorted(document.fields.Keys)) + Reports(items, lo, hi, operator))
  }

  lemma {:induction false} NotYet(items: seq<Value>, lo: nat, hi: nat, operator: nat)
    requires AllObjects(items) && lo <= hi <= |items| && hi <= operator
    ensures Reports(items, lo, hi, Some(operator)) == Reports(items, lo, hi, None)
    decreases hi
  {
    if lo < hi { NotYet(items, lo, hi - 1, operator); }
  }

  /** The first item that is not a rule, if there is one. */
  method CheckRules(items: seq<Value>) returns (bad: Option<nat>)
    ensures bad == if AllObjects(items) then None else Some(FirstNonRule(items))
  {
    for index := 0 to |items|
      invariant forall j | 0 <= j < index :: items[j].Object?
    {
      if !items[index].Object? {
        assert FirstNonRule(items) == index;
        return Some(index);
      }
    }
    return None;
  }

  /** The body: the first acceptable rule is the Operator's and the others are reported. */
  method ReadBody(items: seq<Value>, lo: nat, hi: nat, outside: seq<Unaccounted>)
    returns (operator: Option<nat>, unaccounted: seq<Unaccounted>)
    requires AllObjects(items) && lo <= hi <= |items|
    ensures operator == Operators(items, lo, hi)
    ensures unaccounted == outside + Reports(items, lo, hi, operator)
  {
    hide Acceptable;
    operator, unaccounted := None, outside;
    for index := lo to hi
      invariant operator.Some? ==> lo <= operator.value < index && Acceptable(RuleAt(items, operator.value))
      invariant forall j | lo <= j < index && Acceptable(RuleAt(items, j)) :: operator.Some? && operator.value <= j
      invariant unaccounted == outside + Reports(items, lo, index, operator)
    {
      NotYet(items, lo, index, index);
      var rule := RuleAt(items, index);
      if !Acceptable(rule) {
        unaccounted := unaccounted + [Unsupported(index, rule)];
        continue;
      }
      if operator.None? {
        operator := Some(index);
        assert Reports(items, lo, index, None) + [] == Reports(items, lo, index, None);
        continue;
      }
      unaccounted := unaccounted + [Further(index, rule)];
    }
  }

  method ParseRules(trinoUser: string, document: Value) returns (result: Result<Parsed, Problem>)
    ensures result == Reading(trinoUser, document)
  {
    hide Acceptable, Operators, Reports, OutsideOf, FirstNonRule;
    if !document.Object? { return Err(NotAnObject); }
    if "rules" !in document.fields || !document.fields["rules"].Array? { return Err(NoRules); }
    var items := document.fields["rules"].items;
    var outside := OutsideOf(document.fields, Sorted(document.fields.Keys));
    var bad := CheckRules(items);
    if bad.Some? { return Err(NotARule(bad.value)); }
    var lo := if items != [] && RuleAt(items, 0) == ReservedRule(trinoUser) then 1 else 0;
    var hi := if lo < |items| && RuleAt(items, |items| - 1) == UNCHANGED then |items| - 1 else |items|;
    var operator, unaccounted := ReadBody(items, lo, hi, outside);
    if operator.None? { return Ok(Parsed(None, unaccounted)); }
    var mapping := Validated(RuleAt(items, operator.value));
    if mapping.None? { return Err(Invalid(RuleAt(items, operator.value))); }
    return Ok(Parsed(mapping, unaccounted));
  }

  // ------------------------------------------------------------------ nothing is lost

  predicate Reported(unaccounted: seq<Unaccounted>, i: nat, rule: Rule) {
    Further(i, rule) in unaccounted || Unsupported(i, rule) in unaccounted
  }

  lemma {:induction false} EachReported(items: seq<Value>, lo: nat, hi: nat, operator: Option<nat>, i: nat)
    requires AllObjects(items) && lo <= i < hi <= |items|
    ensures Reported(Reports(items, lo, hi, operator), i, RuleAt(items, i)) || operator == Some(i)
    decreases hi
  {
    if i < hi - 1 { EachReported(items, lo, hi - 1, operator, i); }
  }

  /** The place of the Operator's rule in a file, if it has one. */
  function OperatorAt(trinoUser: string, items: seq<Value>): Option<nat>
    requires AllObjects(items)
  {
    var lo := Begins(items, trinoUser);
    Operators(items, lo, Ends(items, lo))
  }

  /** Whatever file is read, each of its rules is Apchi's own in Apchi's own place, the one at the
      Operator's place, or reported as unaccounted at its index; the Operator's is what is staged. */
  lemma NoRuleIsLost(trinoUser: string, document: Value, i: nat)
    requires Reading(trinoUser, document).Ok? && i < |document.fields["rules"].items|
    ensures var items, parsed := document.fields["rules"].items, Reading(trinoUser, document).value;
            AllObjects(items) &&
            var operator := OperatorAt(trinoUser, items);
            (parsed.desired.Some? <==> operator.Some?) &&
            (operator.Some? ==> operator.value < |items| && Acceptable(items[operator.value].fields) &&
                                Validated(items[operator.value].fields) == parsed.desired) &&
            (|| operator == Some(i)
             || (i == 0 && items[i] == Object(ReservedRule(trinoUser)))
             || (i == |items| - 1 && items[i] == Object(UNCHANGED))
             || Reported(parsed.unaccounted, i, items[i].fields))
  {
    hide Acceptable, Validated;
    var items := document.fields["rules"].items;
    var lo := Begins(items, trinoUser);
    var hi := Ends(items, lo);
    if lo <= i < hi {
      EachReported(items, lo, hi, Operators(items, lo, hi), i);
    }
  }

  // ------------------------------------------------------------------ the round trip

  lemma RuleIsAcceptable(m: Mapping)
    requires ValidMapping(m)
    ensures Acceptable(RuleOf(m)) && Validated(RuleOf(m)) == Some(m)
  {
  }

  predicate AllValid(mappings: seq<Mapping>) {
    forall i | 0 <= i < |mappings| :: ValidMapping(mappings[i])
  }

  /** The mappings after the first, as the further patterns they are reported as. */
  function Furthers(mappings: seq<Mapping>, n: nat): seq<Unaccounted>
    requires n <= |mappings|
  {
    if n <= 1 then [] else Furthers(mappings, n - 1) + [Further(n, RuleOf(mappings[n - 1]))]
  }

  lemma BodyAt(trinoUser: string, mappings: seq<Mapping>, items: seq<Value>, i: nat)
    requires AllValid(mappings) && i < |mappings|
    requires items == Document([ReservedRule(trinoUser)] + RulesOf(mappings) + [UNCHANGED]).fields["rules"].items
    ensures |items| == |mappings| + 2 && items[i + 1] == Object(RuleOf(mappings[i])) && Acceptable(RuleOf(mappings[i]))
  {
    RuleIsAcceptable(mappings[i]);
  }

  lemma {:induction false} FurtherReports(trinoUser: string, mappings: seq<Mapping>, items: seq<Value>, n: nat)
    requires AllValid(mappings) && 1 <= n <= |mappings| && AllObjects(items)
    requires items == Document([ReservedRule(trinoUser)] + RulesOf(mappings) + [UNCHANGED]).fields["rules"].items
    ensures Reports(items, 1, n + 1, Some(1)) == Furthers(mappings, n)
  {
    hide Document, ValidMapping, RuleOf, RulesOf;
    BodyAt(trinoUser, mappings, items, n - 1);
    if n > 1 {
      FurtherReports(trinoUser, mappings, items, n - 1);
    } else {
      assert Reports(items, 1, 1, Some(1)) == [];
    }
  }

  lemma Shape(trinoUser: string, mappings: seq<Mapping>)
    ensures var document := Document([ReservedRule(trinoUser)] + RulesOf(mappings) + [UNCHANGED]);
            document.Object? && document.fields.Keys == {"rules"} && document.fields["rules"].Array? &&
            var items := document.fields["rules"].items;
            AllObjects(items) && |items| == |mappings| + 2 && Begins(items, trinoUser) == 1 &&
              Ends(items, 1) == |mappings| + 1
  {
    hide RuleOf;
  }

  lemma OperatorIsFirst(trinoUser: string, mappings: seq<Mapping>, items: seq<Value>)
    requires AllValid(mappings) && AllObjects(items) && |items| == |mappings| + 2
    requires items == Document([ReservedRule(trinoUser)] + RulesOf(mappings) + [UNCHANGED]).fields["rules"].items
    ensures Operators(items, 1, |mappings| + 1) == if mappings == [] then None else Some(1)
    ensures mappings != [] ==> RuleAt(items, 1) == RuleOf(mappings[0])
    ensures Reports(items, 1, |mappings| + 1, Operators(items, 1, |mappings| + 1)) == Furthers(mappings, |mappings|)
  {
    hide ValidMapping, RuleOf, Document, RulesOf, Acceptable;
    if mappings != [] {
      BodyAt(trinoUser, mappings, items, 0);
      FurtherReports(trinoUser, mappings, items, |mappings|);
    }
  }

  /** Reading back any list of mappings between Apchi's two rules: the first is the Operator's and
      the others are reported in order, whatever the patterns say. */
  lemma MappingsReadBack(trinoUser: string, mappings: seq<Mapping>)
    requires AllValid(mappings)
    ensures Reading(trinoUser, Document([ReservedRule(trinoUser)] + RulesOf(mappings) + [UNCHANGED])) ==
            Ok(Parsed(if mappings == [] then None else Some(mappings[0]), Furthers(mappings, |mappings|)))
  {
    var document := Document([ReservedRule(trinoUser)] + RulesOf(mappings) + [UNCHANGED]);
    hide ValidMapping, RuleOf, Document, RulesOf, Acceptable, Operators, Reports, OutsideOf, Begins, Ends, Furthers,
         Validated;
    Shape(trinoUser, mappings);
    var items := document.fields["rules"].items;
    OperatorIsFirst(trinoUser, mappings, items);
    NothingOutside(document.fields);
    assert [] + Furthers(mappings, |mappings|) == Furthers(mappings, |mappings|);
    if mappings != [] { RuleIsAcceptable(mappings[0]); }
  }

  lemma NothingOutside(document: Fields)
    requires document.Keys == {"rules"}
    ensures OutsideOf(document, Sorted(document.Keys)) == []
  {
    SortedOne("rules");
    assert ["rules"][..0] == [];
  }

  lemma {:induction false} FurthersAt(mappings: seq<Mapping>, n: nat, i: nat)
    requires 1 <= n <= |mappings|
    ensures |Furthers(mappings, n)| == n - 1
    ensures i < n - 1 ==> Furthers(mappings, n)[i] == Further(i + 2, RuleOf(mappings[i + 1]))
  {
    hide RuleOf;
    if n > 1 { FurthersAt(mappings, n - 1, i); }
  }

  lemma FurthersOfPreserved(m: Mapping, preserved: seq<Mapping>)
    ensures var mappings := Mappings(Some(m), preserved);
            var reported := Furthers(mappings, |mappings|);
            && |reported| == |preserved|
            && forall i | 0 <= i < |preserved| :: reported[i] == Further(i + 2, RuleOf(preserved[i]))
  {
    hide RuleOf, Furthers;
    var mappings := Mappings(Some(m), preserved);
    FurthersAt(mappings, |mappings|, 0);
    forall i | 0 <= i < |preserved|
      ensures Furthers(mappings, |mappings|)[i] == Further(i + 2, RuleOf(preserved[i]))
    {
      FurthersAt(mappings, |mappings|, i);
    }
  }

  /** With nothing preserved the round trip is exact, even for an Operator whose pattern is the
      catch-all or reads like the reserved rule. */
  lemma RoundTrip(trinoUser: string, desired: Option<Mapping>)
    requires desired.Some? ==> ValidMapping(desired.value)
    ensures Reading(trinoUser, Document(Rendering(trinoUser, desired, []))) == Ok(Parsed(desired, []))
  {
    hide ValidMapping, Reading, Document, RulesOf;
    MappingsReadBack(trinoUser, Mappings(desired, []));
  }

  /** With an Operator's pattern, reading returns it and reports every preserved rule in order. */
  lemma PreservedAreReported(trinoUser: string, m: Mapping, preserved: seq<Mapping>)
    requires ValidMapping(m) && AllValid(preserved)
    ensures var result := Reading(trinoUser, Document(Rendering(trinoUser, Some(m), preserved)));
            result.Ok? && result.value.desired == Some(m) && |result.value.unaccounted| == |preserved| &&
            forall i | 0 <= i < |preserved| :: result.value.unaccounted[i] == Further(i + 2, RuleOf(preserved[i]))
  {
    hide ValidMapping, Reading, Document, RulesOf, RuleOf, Furthers;
    assert AllValid(Mappings(Some(m), preserved));
    MappingsReadBack(trinoUser, Mappings(Some(m), preserved));
    FurthersOfPreserved(m, preserved);
  }

  /** Exactly when the resources survive: unless there is no Operator's pattern and something is
      preserved, in which case the first preserved one is taken for the Operator's. */
  lemma ResourcesSurviveExactly(trinoUser: string, desired: Option<Mapping>, preserved: seq<Mapping>)
    requires AllValid(Mappings(desired, preserved))
    ensures var result := Reading(trinoUser, Document(Rendering(trinoUser, desired, preserved)));
            result.Ok? && (result.value.desired == desired <==> desired.Some? || preserved == [])
  {
    hide Reading, Document, RulesOf;
    MappingsReadBack(trinoUser, Mappings(desired, preserved));
  }

  // ------------------------------------------------------------------ what the file means

  /** Whether a pattern matches the whole of a subject. Left open where that takes more than literal text
      to know, but for the catch-all. */
  type Matching = (string, string) -> bool

  ghost predicate Trino(matches: Matching) {
    (forall pattern: string, subject: string | Matched(pattern, subject).Some? ::
       matches(pattern, subject) == Matched(pattern, subject).value) &&
    (forall subject :: matches("(.*)", subject))
  }

  /** The first rule whose pattern matches. Without one, the subject is refused. */
  function FirstMatch(matches: Matching, rules: seq<Rule>, subject: string): Option<Rule> {
    if rules == [] then None
    else if "pattern" in rules[0] && rules[0]["pattern"].Text? && matches(rules[0]["pattern"].text, subject)
    then Some(rules[0])
    else FirstMatch(matches, rules[1..], subject)
  }

  function FirstMapping(matches: Matching, mappings: seq<Mapping>, subject: string): Option<Mapping> {
    if mappings == [] then None
    else if matches(mappings[0].pattern, subject) then Some(mappings[0])
    else FirstMapping(matches, mappings[1..], subject)
  }

  lemma {:induction false} MappingsMatch(matches: Matching, mappings: seq<Mapping>, subject: string)
    requires Trino(matches)
    ensures FirstMatch(matches, RulesOf(mappings) + [UNCHANGED], subject) ==
            if FirstMapping(matches, mappings, subject).Some?
                then Some(RuleOf(FirstMapping(matches, mappings, subject).value))
            else Some(UNCHANGED)
  {
    if mappings != [] {
      MappingsMatch(matches, mappings[1..], subject);
      assert (RulesOf(mappings) + [UNCHANGED])[1..] == RulesOf(mappings[1..]) + [UNCHANGED];
    }
  }

  /** Apchi's identity keeps its own rule and nobody is refused: any other subject is mapped by the
      Operator's pattern if that matches, else by the first preserved one, else left as it is. */
  lemma WhoMaps(matches: Matching, trinoUser: string, desired: Option<Mapping>, preserved: seq<Mapping>,
                subject: string)
    requires Trino(matches)
    ensures FirstMatch(matches, Rendering(trinoUser, desired, preserved), subject) ==
            if subject == trinoUser then Some(ReservedRule(trinoUser))
            else if desired.Some? && matches(desired.value.pattern, subject) then Some(RuleOf(desired.value))
            else if FirstMapping(matches, preserved, subject).Some?
              then Some(RuleOf(FirstMapping(matches, preserved, subject).value))
            else Some(UNCHANGED)
  {
    hide RuleOf, Matched, Anchored;
    var mappings := Mappings(desired, preserved);
    AnchoredMatchesExactly(trinoUser, subject);
    MappingsMatch(matches, mappings, subject);
    assert Rendering(trinoUser, desired, preserved)[1..] == RulesOf(mappings) + [UNCHANGED];
    assert if desired.Some? then mappings[1..] == preserved else mappings == preserved;
  }

  // ------------------------------------------------------------------ reading one rule, whatever it says

  /** A rule of no one's: a pattern, perhaps a user, perhaps a case, and nothing else, all as the API takes
      them, is the Operator's; a rule with anything else, or without a pattern, is reported; and a rule with
      those fields alone and something in them that the API refuses makes the file unreadable. */
  lemma OneRuleExactly(trinoUser: string, rule: Rule)
    requires rule != ReservedRule(trinoUser) && rule != map["pattern" := Text("(.*)")]
    ensures Reading(trinoUser, Document([rule])) ==
            if "pattern" !in rule || (exists field :: field in rule && field !in {"pattern", "user", "case"}) then
              Ok(Parsed(None, [Unsupported(0, rule)]))
            else if
              rule["pattern"].Text? && 1 <= |rule["pattern"].text| <= 512 &&
              ("user" in rule ==> rule["user"].Text? && 1 <= |rule["user"].text| <= 256) &&
              ("case" in rule ==> rule["case"] in {Text("keep"), Text("lower"), Text("upper")})
            then
              Ok(Parsed(Some(Mapping(rule["pattern"].text,
                                     if "user" in rule then rule["user"].text else "$1",
                                     if "case" in rule then rule["case"].text else "keep")), []))
            else Err(Invalid(rule))
  {
    hide Operators, Validated, Acceptable;
    var items := Document([rule]).fields["rules"].items;
    assert items == [Object(rule)];
    assert items[..0] == [];
    OperatorOfOne(items);
    OutsideOfRules(Document([rule]).fields);
    AcceptableExactly(rule);
    assert Begins(items, trinoUser) == 0 && Ends(items, 0) == 1;
    if Acceptable(rule) {
      ValidatedExactly(rule);
      assert Reports(items, 0, 1, Some(0)) == [];
      assert Reading(trinoUser, Document([rule])) == Concluded(items, Some(0), []);
    } else {
      assert Reports(items, 0, 1, None) == [Unsupported(0, rule)];
      assert Reading(trinoUser, Document([rule])) == Concluded(items, None, [Unsupported(0, rule)]);
    }
  }

  lemma OperatorOfOne(items: seq<Value>)
    requires AllObjects(items) && |items| == 1
    ensures Operators(items, 0, 1) == if Acceptable(RuleAt(items, 0)) then Some(0) else None
  {
    hide Acceptable;
  }

  lemma AcceptableExactly(rule: Rule)
    ensures Acceptable(rule) <==>
            "pattern" in rule && forall field | field in rule :: field in {"pattern", "user", "case"}
  {
  }

  lemma ValidatedExactly(rule: Rule)
    requires Acceptable(rule)
    ensures Validated(rule) ==
            if rule["pattern"].Text? && 1 <= |rule["pattern"].text| <= 512 &&
               ("user" in rule ==> rule["user"].Text? && 1 <= |rule["user"].text| <= 256) &&
               ("case" in rule ==> rule["case"] in {Text("keep"), Text("lower"), Text("upper")})
            then Some(Mapping(rule["pattern"].text, if "user" in rule then rule["user"].text else "$1",
                              if "case" in rule then rule["case"].text else "keep"))
            else None
  {
  }

  lemma OutsideOfRules(document: Fields)
    requires document.Keys == {"rules"}
    ensures OutsideOf(document, Sorted(document.Keys)) == []
  {
    SortedOne("rules");
    assert ["rules"][..0] == [];
  }

  /** Everything in the document beside its rules is reported, in the order of the keys and ahead of any rule;
      and nothing else is reported as being outside. */
  lemma OutsideExactly(trinoUser: string, document: Fields, i: nat)
    requires Reading(trinoUser, Object(document)).Ok?
    ensures var reported := Reading(trinoUser, Object(document)).value.unaccounted;
            var n := |document.Keys - {"rules"}|;
            n <= |reported| &&
            (i < n ==> reported[i].Outside? && reported[i].key == Sorted(document.Keys - {"rules"})[i] &&
                       reported[i].key in document && reported[i].value == document[reported[i].key]) &&
            (n <= i < |reported| ==> !reported[i].Outside?)
  {
    hide Begins, Ends, Operators, Report, Validated, Acceptable;
    var items := document["rules"].items;
    var lo := Begins(items, trinoUser);
    var hi := Ends(items, lo);
    OutsideInOrder(document, document.Keys);
    OutsideEach(document, Sorted(document.Keys - {"rules"}), i);
    ReportsAreRules(items, lo, hi, Operators(items, lo, hi));
  }

  lemma {:induction false} ReportsAreRules(items: seq<Value>, lo: nat, hi: nat, operator: Option<nat>)
    requires AllObjects(items) && lo <= hi <= |items|
    ensures forall j | 0 <= j < |Reports(items, lo, hi, operator)| :: !Reports(items, lo, hi, operator)[j].Outside?
    decreases hi
  {
    hide Acceptable;
    if lo < hi { ReportsAreRules(items, lo, hi - 1, operator); }
  }

  lemma {:induction false} OutsideAppend(document: Fields, a: seq<string>, b: seq<string>)
    ensures OutsideOf(document, a + b) == OutsideOf(document, a) + OutsideOf(document, b)
  {
    if b == [] {
      assert a + b == a;
    } else {
      var front, last := b[..|b| - 1], b[|b| - 1];
      OutsideAppend(document, a, front);
      assert (a + b)[..|a + b| - 1] == a + front;
    }
  }

  lemma {:induction false} OutsideInOrder(document: Fields, keys: set<string>)
    requires keys <= document.Keys
    ensures OutsideOf(document, Sorted(keys)) == OutsideOf(document, Sorted(keys - {"rules"}))
    decreases |keys|
  {
    hide OutsideOf;
    if keys != {} {
      var m := Least(keys);
      OutsideAppend(document, [m], Sorted(keys - {m}));
      OutsideInOrder(document, keys - {m});
      if m == "rules" {
        OutsideNoRules(document);
        assert keys - {m} - {"rules"} == keys - {"rules"};
      } else {
        LeastWithout(keys, m, "rules");
        assert keys - {"rules"} - {m} == keys - {m} - {"rules"};
        OutsideAppend(document, [m], Sorted(keys - {m} - {"rules"}));
      }
    } else {
      assert keys - {"rules"} == {};
    }
  }

  lemma OutsideNoRules(document: Fields)
    ensures OutsideOf(document, ["rules"]) == []
  {
    assert ["rules"][..0] == [];
  }

  lemma {:induction false} OutsideEach(document: Fields, keys: seq<string>, i: nat)
    requires "rules" !in keys && forall key | key in keys :: key in document
    ensures |OutsideOf(document, keys)| == |keys|
    ensures i < |keys| ==>
              var reported := OutsideOf(document, keys)[i];
              reported.Outside? && reported.key == keys[i] && reported.key in document &&
              reported.value == document[reported.key]
  {
    if keys != [] {
      var front, last := keys[..|keys| - 1], keys[|keys| - 1];
      OutsideEach(document, front, i);
      assert last in keys;
    }
  }

  lemma LeastWithout(keys: set<string>, m: string, other: string)
    requires IsLeast(m, keys) && m != other
    ensures keys - {other} != {} && Least(keys - {other}) == m
  {
    assert m in keys - {other};
    LeastUnique(keys - {other}, Least(keys - {other}), m);
  }

  // ------------------------------------------------------------------ who becomes whom

  /** The name a rule maps to, in which `$1` stands for the first group, and what becomes of its case. */
  function MapsTo(rule: Rule): (string, string) {
    (if "user" in rule && rule["user"].Text? then rule["user"].text else "$1",
     if "case" in rule && rule["case"].Text? then rule["case"].text else "keep")
  }

  /** Apchi's identity is mapped to itself by a rule that matches nothing else; the Operator's pattern and the
      preserved ones map as they say; and whoever is left keeps the name presented. */
  lemma WhoBecomesWhom(matches: Matching, trinoUser: string, desired: Option<Mapping>, preserved: seq<Mapping>,
                       subject: string)
    requires Trino(matches)
    ensures var decision := FirstMatch(matches, Rendering(trinoUser, desired, preserved), subject);
            decision.Some? &&
            MapsTo(decision.value) ==
            if subject == trinoUser then (trinoUser, "keep")
            else if desired.Some? && matches(desired.value.pattern, subject)
            then (desired.value.user, desired.value.casing)
            else if FirstMapping(matches, preserved, subject).Some?
            then (FirstMapping(matches, preserved, subject).value.user,
                  FirstMapping(matches, preserved, subject).value.casing)
            else ("$1", "keep")
  {
    hide RuleOf, Rendering, MapsTo, Trino, FirstMatch;
    WhoMaps(matches, trinoUser, desired, preserved, subject);
    if desired.Some? { RuleMaps(desired.value); }
    if FirstMapping(matches, preserved, subject).Some? { RuleMaps(FirstMapping(matches, preserved, subject).value); }
    OwnRulesMap(trinoUser);
  }

  lemma RuleMaps(m: Mapping)
    ensures MapsTo(RuleOf(m)) == (m.user, m.casing)
  {
  }

  lemma OwnRulesMap(trinoUser: string)
    ensures MapsTo(ReservedRule(trinoUser)) == (trinoUser, "keep") && MapsTo(UNCHANGED) == ("$1", "keep")
  {
  }
}
