/** Predicting the resource group a query lands in: an answer is given only when it does not turn on
    anything Apchi cannot know. */
module Selectors {
  import opened Outcomes

  datatype Selector = Selector(group: string, user: Option<string>, source: Option<string>, queryText: Option<string>,
                               queryType: Option<string>, clientTags: Option<set<string>>,
                               userGroup: Option<string>, authenticatedUser: Option<string>,
                               originalUser: Option<string>)

  /** What Apchi knows about its own query. */
  datatype Known = Known(user: string, source: string, query: string, queryType: string, clientTags: set<string>)

  /** What only Trino knows about whoever runs it. */
  datatype Hidden = Hidden(userGroups: set<string>, authenticatedUser: string, originalUser: string)

  datatype Unpredictable = OnHidden(index: nat) | CannotEvaluate(index: nat)

  /** Apchi's own regular expressions: no answer for a pattern that does not compile. */
  type Engine = (string, string) -> Option<bool>

  /** Trino's: a full match or none. */
  type Matcher = (string, string) -> bool

  predicate Knowable(s: Selector) {
    s.userGroup.None? && s.authenticatedUser.None? && s.originalUser.None?
  }

  /** A field that is absent matches anything. */
  function FieldMatches(engine: Engine, pattern: Option<string>, value: string): Option<bool> {
    if pattern.None? then Some(true) else engine(pattern.value, value)
  }

  /** One selector's known fields in the order they are looked at, stopping at the first mismatch;
      no answer if a pattern that is reached cannot be evaluated. */
  function KnownMatch(engine: Engine, s: Selector, q: Known): Option<bool> {
    var user := FieldMatches(engine, s.user, q.user);
    if user != Some(true) then user
    else
      var source := FieldMatches(engine, s.source, q.source);
      if source != Some(true) then source
      else
        var query := FieldMatches(engine, s.queryText, q.query);
        if query != Some(true) then query
        else Some((s.queryType.Some? ==> s.queryType.value == q.queryType) &&
            (s.clientTags.Some? ==> s.clientTags.value <= q.clientTags))
  }

  /** The group of the first selector from `i` on that matches, or none; or no prediction. */
  function GroupFrom(engine: Engine, selectors: seq<Selector>, q: Known, i: nat): Result<Option<string>, Unpredictable>
    requires i <= |selectors|
    decreases |selectors| - i
  {
    if i == |selectors| then Ok(None)
    else if !Knowable(selectors[i]) then Err(OnHidden(i))
    else
      match KnownMatch(engine, selectors[i], q)
      case None => Err(CannotEvaluate(i))
      case Some(matched) => if matched then Ok(Some(selectors[i].group)) else GroupFrom(engine, selectors, q, i + 1)
  }

  function GroupFor(engine: Engine, selectors: seq<Selector>, q: Known): Result<Option<string>, Unpredictable> {
    GroupFrom(engine, selectors, q, 0)
  }

  // ------------------------------------------------------------------ what Trino does

  predicate Fits(matches: Matcher, pattern: Option<string>, value: string) {
    pattern.Some? ==> matches(pattern.value, value)
  }

  /** Every field a selector gives must match, the hidden ones included. */
  predicate Selects(matches: Matcher, s: Selector, q: Known, h: Hidden) {
    Fits(matches, s.user, q.user) && Fits(matches, s.source, q.source) && Fits(matches, s.queryText, q.query) &&
    (s.queryType.Some? ==> s.queryType.value == q.queryType) &&
    (s.clientTags.Some? ==> s.clientTags.value <= q.clientTags) &&
    (s.userGroup.Some? ==> exists g :: g in h.userGroups && matches(s.userGroup.value, g)) &&
    Fits(matches, s.authenticatedUser, h.authenticatedUser) && Fits(matches, s.originalUser, h.originalUser)
  }

  /** First match wins. */
  function Landing(matches: Matcher, selectors: seq<Selector>, q: Known, h: Hidden): Option<string> {
    if selectors == [] then None
    else if Selects(matches, selectors[0], q, h) then Some(selectors[0].group)
    else Landing(matches, selectors[1..], q, h)
  }

  // ------------------------------------------------------------------ soundness

  /** How many selectors are looked at before an answer. */
  function Considered(engine: Engine, selectors: seq<Selector>, q: Known, i: nat): (n: nat)
    requires i <= |selectors|
    ensures i <= n <= |selectors|
    decreases |selectors| - i
  {
    if i == |selectors| then i
    else if Knowable(selectors[i]) && KnownMatch(engine, selectors[i], q) == Some(false)
    then Considered(engine, selectors, q, i + 1)
    else i + 1
  }

  predicate AgreeOnField(engine: Engine, matches: Matcher, pattern: Option<string>, value: string) {
    pattern.Some? && engine(pattern.value, value).Some? ==>
      engine(pattern.value, value).value == matches(pattern.value, value)
  }

  /** The two engines answer alike on the fields of a selector, where Apchi's answers at all. */
  predicate AgreeOn(engine: Engine, matches: Matcher, s: Selector, q: Known) {
    AgreeOnField(engine, matches, s.user, q.user) && AgreeOnField(engine, matches, s.source, q.source) &&
    AgreeOnField(engine, matches, s.queryText, q.query)
  }

  lemma KnownMatchIsSelects(engine: Engine, matches: Matcher, s: Selector, q: Known, h: Hidden)
    requires Knowable(s) && AgreeOn(engine, matches, s, q) && KnownMatch(engine, s, q).Some?
    ensures KnownMatch(engine, s, q).value == Selects(matches, s, q, h)
  {
  }

  lemma {:induction false} SoundFrom(engine: Engine, matches: Matcher, selectors: seq<Selector>, q: Known, h: Hidden,
                                     i: nat)
    requires i <= |selectors| && GroupFrom(engine, selectors, q, i).Ok?
    requires forall j | i <= j < Considered(engine, selectors, q, i) :: AgreeOn(engine, matches, selectors[j], q)
    ensures Landing(matches, selectors[i..], q, h) == GroupFrom(engine, selectors, q, i).value
    decreases |selectors| - i
  {
    hide KnownMatch, Selects, AgreeOn, Knowable;
    if i < |selectors| {
      KnownMatchIsSelects(engine, matches, selectors[i], q, h);
      assert selectors[i..][1..] == selectors[i + 1..];
      if KnownMatch(engine, selectors[i], q) == Some(false) {
        SoundFrom(engine, matches, selectors, q, h, i + 1);
      }
    }
  }

  /** A prediction is right whoever Trino takes the caller to be: the groups they are in, whom they
      authenticated as, whom they were before; and whatever either engine makes of the selectors
      that come after the one that matched. */
  lemma PredictionIsRight(engine: Engine, matches: Matcher, selectors: seq<Selector>, q: Known, h: Hidden)
    requires GroupFor(engine, selectors, q).Ok?
    requires forall j | 0 <= j < Considered(engine, selectors, q, 0) :: AgreeOn(engine, matches, selectors[j], q)
    ensures Landing(matches, selectors, q, h) == GroupFor(engine, selectors, q).value
  {
    SoundFrom(engine, matches, selectors, q, h, 0);
    assert selectors[0..] == selectors;
  }

  lemma {:induction false} AnswersFrom(engine: Engine, selectors: seq<Selector>, q: Known, i: nat)
    requires i <= |selectors|
    ensures GroupFrom(engine, selectors, q, i).Ok? <==>
            forall j | i <= j < Considered(engine, selectors, q, i) :: Knowable(selectors[j]) &&
                KnownMatch(engine, selectors[j], q).Some?
    decreases |selectors| - i
  {
    hide KnownMatch, Knowable;
    if i < |selectors| && Knowable(selectors[i]) && KnownMatch(engine, selectors[i], q) == Some(false) {
      AnswersFrom(engine, selectors, q, i + 1);
    }
  }

  /** A prediction is made exactly when every selector looked at says nothing about what is hidden
      and can be evaluated. */
  lemma AnswersExactly(engine: Engine, selectors: seq<Selector>, q: Known)
    ensures GroupFor(engine, selectors, q).Ok? <==>
            forall j | 0 <= j < Considered(engine, selectors, q, 0) :: Knowable(selectors[j]) &&
                KnownMatch(engine, selectors[j], q).Some?
  {
    AnswersFrom(engine, selectors, q, 0);
  }

  lemma {:induction false} PassedOver(engine: Engine, matches: Matcher, selectors: seq<Selector>, q: Known, h: Hidden,
                                      k: nat, i: nat)
    requires k <= i < |selectors| && GroupFrom(engine, selectors, q, k) == Err(OnHidden(i))
    requires forall j | k <= j < i :: AgreeOn(engine, matches, selectors[j], q)
    ensures Landing(matches, selectors[k..], q, h) == Landing(matches, selectors[i..], q, h)
    decreases i - k
  {
    hide KnownMatch, Selects, AgreeOn, Knowable;
    if k < i && Knowable(selectors[k]) && KnownMatch(engine, selectors[k], q).Some? {
      KnownMatchIsSelects(engine, matches, selectors[k], q, h);
      PassedOver(engine, matches, selectors, q, h, k + 1, i);
      assert selectors[k..][1..] == selectors[k + 1..];
    }
  }

  /** Why it refuses: when the selector it stops at can match one caller and not another, and the
      rest of the list sends the other elsewhere, the two land apart and no answer suits both. */
  lemma RefusalIsNecessary(engine: Engine, matches: Matcher, selectors: seq<Selector>, q: Known, i: nat, one: Hidden,
                           other: Hidden)
    requires i < |selectors| && GroupFor(engine, selectors, q) == Err(OnHidden(i))
    requires forall j | 0 <= j < i :: AgreeOn(engine, matches, selectors[j], q)
    requires Selects(matches, selectors[i], q, one) && !Selects(matches, selectors[i], q, other)
    requires Landing(matches, selectors[i + 1..], q, other) != Some(selectors[i].group)
    ensures Landing(matches, selectors, q, one) != Landing(matches, selectors, q, other)
  {
    hide KnownMatch, Selects, AgreeOn, Knowable;
    PassedOver(engine, matches, selectors, q, one, 0, i);
    PassedOver(engine, matches, selectors, q, other, 0, i);
    assert selectors[0..] == selectors && selectors[i..][1..] == selectors[i + 1..];
  }

  /** A selector that gives none of the three hidden fields, and whose expressions compile, never stops a
      prediction: with only such selectors there always is one. */
  lemma NothingHiddenIsAnswered(engine: Engine, selectors: seq<Selector>, q: Known)
    requires forall s | s in selectors :: s.userGroup == None && s.authenticatedUser == None && s.originalUser == None
    requires forall pattern, value :: engine(pattern, value).Some?
    ensures GroupFor(engine, selectors, q).Ok?
  {
    AnswersExactly(engine, selectors, q);
    forall j | 0 <= j < Considered(engine, selectors, q, 0)
      ensures Knowable(selectors[j]) && KnownMatch(engine, selectors[j], q).Some?
    {
      assert selectors[j] in selectors;
    }
  }

  /** And one that gives any of them does stop it, wherever it is reached. */
  lemma AnyHiddenIsRefused(engine: Engine, selectors: seq<Selector>, q: Known, i: nat)
    requires i < |selectors| && forall j | 0 <= j < i ::
               Knowable(selectors[j]) && KnownMatch(engine, selectors[j], q) == Some(false)
    requires selectors[i].userGroup != None || selectors[i].authenticatedUser != None ||
             selectors[i].originalUser != None
    ensures GroupFor(engine, selectors, q) == Err(OnHidden(i))
  {
    ReachesIt(engine, selectors, q, 0, i);
  }

  lemma {:induction false} ReachesIt(engine: Engine, selectors: seq<Selector>, q: Known, k: nat, i: nat)
    requires k <= i < |selectors| && !Knowable(selectors[i])
    requires forall j | k <= j < i :: Knowable(selectors[j]) && KnownMatch(engine, selectors[j], q) == Some(false)
    ensures GroupFrom(engine, selectors, q, k) == Err(OnHidden(i))
    decreases i - k
  {
    hide Knowable, KnownMatch;
    if k < i { ReachesIt(engine, selectors, q, k + 1, i); }
  }

  /** A selector that gives nothing selects every query, and each field that is added leaves exactly the
      queries that meet it; of client tags, the query must have all that are given. */
  lemma SelectionNarrows(matches: Matcher, s: Selector, q: Known, h: Hidden, pattern: string, tags: set<string>)
    ensures Selects(matches, Selector(s.group, None, None, None, None, None, None, None, None), q, h)
    ensures Selects(matches, s.(user := Some(pattern)), q, h) <==>
            Selects(matches, s.(user := None), q, h) && matches(pattern, q.user)
    ensures Selects(matches, s.(source := Some(pattern)), q, h) <==>
            Selects(matches, s.(source := None), q, h) && matches(pattern, q.source)
    ensures Selects(matches, s.(queryText := Some(pattern)), q, h) <==>
            Selects(matches, s.(queryText := None), q, h) && matches(pattern, q.query)
    ensures Selects(matches, s.(queryType := Some(pattern)), q, h) <==>
            Selects(matches, s.(queryType := None), q, h) && q.queryType == pattern
    ensures Selects(matches, s.(clientTags := Some(tags)), q, h) <==>
            Selects(matches, s.(clientTags := None), q, h) && forall tag | tag in tags :: tag in q.clientTags
    ensures Selects(matches, s.(userGroup := Some(pattern)), q, h) <==>
            Selects(matches, s.(userGroup := None), q, h) && exists g :: g in h.userGroups && matches(pattern, g)
    ensures Selects(matches, s.(authenticatedUser := Some(pattern)), q, h) <==>
            Selects(matches, s.(authenticatedUser := None), q, h) && matches(pattern, h.authenticatedUser)
    ensures Selects(matches, s.(originalUser := Some(pattern)), q, h) <==>
            Selects(matches, s.(originalUser := None), q, h) && matches(pattern, h.originalUser)
  {
  }
}
