/** How Trino reads a block of access rules: the first rule whose conditions a request meets decides, and
    without one the request is denied. */
module AccessRules {
  import opened Outcomes
  import opened Ordering
  import opened RegexEscape
  import opened PatternMatching
  import opened Json
  import opened Permissions

  /** What a request is about, condition by condition. */
  type Ask = map<string, string>

  /** Whether a rule matches a request. Left open but for rules whose every condition is understood. */
  type Matching = (Rule, Ask) -> bool

  const CONDITIONS: set<string> := {"user", "catalog", "schema", "table", "procedure", "queryOwner"}

  const ANSWERS: set<string> := {"allow", "privileges"}

  /** Nothing but known conditions, each a pattern whose meaning is known. */
  ghost predicate Understood(rule: Rule) {
    rule.Keys <= CONDITIONS + ANSWERS &&
    forall field | field in rule && field in CONDITIONS ::
      rule[field].Text? && forall text: string :: Matched(rule[field].text, text).Some?
  }

  /** Every condition that a rule has, the request has, and meets. */
  ghost predicate Meets(rule: Rule, ask: Ask) {
    forall field | field in rule && field in CONDITIONS ::
      field in ask && rule[field].Text? && Matched(rule[field].text, ask[field]) == Some(true)
  }

  ghost predicate Trino(matches: Matching) {
    forall rule, ask | Understood(rule) :: matches(rule, ask) <==> Meets(rule, ask)
  }

  function FirstMatch(matches: Matching, rules: seq<Rule>, ask: Ask): Option<Rule> {
    if rules == [] then None
    else if matches(rules[0], ask) then Some(rules[0])
    else FirstMatch(matches, rules[1..], ask)
  }

  lemma {:induction false} FirstOfBoth(matches: Matching, a: seq<Rule>, b: seq<Rule>, ask: Ask)
    ensures FirstMatch(matches, a + b, ask) ==
            if FirstMatch(matches, a, ask).Some? then FirstMatch(matches, a, ask) else FirstMatch(matches, b, ask)
  {
    if a == [] {
      assert a + b == b;
    } else {
      assert (a + b)[1..] == a[1..] + b;
      FirstOfBoth(matches, a[1..], b, ask);
    }
  }

  lemma FirstOfOne(matches: Matching, rule: Rule, ask: Ask)
    ensures FirstMatch(matches, [rule], ask) == if matches(rule, ask) then Some(rule) else None
  {
    assert [rule][1..] == [];
  }

  /** The texts a decision lists under a field: none at all without a match. */
  function Listed(decision: Option<Rule>, field: string): set<string> {
    if decision.Some? && field in decision.value && decision.value[field].Array? &&
       AllTexts(decision.value[field].items)
    then Elements(Strings(decision.value[field].items)) else {}
  }

  lemma ListedTexts(rule: Rule, field: string, texts: seq<string>)
    requires field in rule && rule[field] == Texts(texts)
    ensures Listed(Some(rule), field) == Elements(texts)
  {
    StringsOfTexts(texts);
  }

  /** A condition written as an anchored name is met by that name alone. */
  lemma NamedCondition(rule: Rule, field: string, name: string, ask: Ask)
    requires field in rule && rule[field] == Pattern(name)
    ensures forall text: string :: Matched(rule[field].text, text).Some?
    ensures field in ask ==> (Matched(rule[field].text, ask[field]) == Some(true) <==> ask[field] == name)
  {
    hide Anchored, Matched;
    forall text: string ensures Matched(Anchored(name), text) == Some(text == name) {
      AnchoredMatchesExactly(name, text);
    }
  }
}
