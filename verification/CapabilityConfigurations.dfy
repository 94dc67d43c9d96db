/** Which configurations compile and which rule of one decides, in the terms in which rules are written: fields of
    selectors, priorities, and values that disagree (src/capabilities/policy.rs). */
module CapabilityConfigurations {
  import opened Collections
  import opened Ordering
  import opened RankedRules
  import opened Text
  import opened CapabilityPolicy
  import opened CapabilitySemantics
  import opened CapabilityResolver

  // ---- Selectors ----

  /** The exact constraints a selector can make. */
  datatype Constraint = OnExposed | OnRuntime | OnUpstream | OnKey | OnProtocol | OnTag

  predicate Makes(s: Selector, c: Constraint) {
    match c
    case OnExposed => s.exposedModel.Some?
    case OnRuntime => s.runtimeModel.Some?
    case OnUpstream => s.upstreamId.Some?
    case OnKey => s.keyFingerprint.Some?
    case OnProtocol => s.protocol.Some?
    case OnTag => s.tag.Some?
  }

  predicate Meets(route: Route, s: Selector, c: Constraint)
    requires Makes(s, c)
  {
    match c
    case OnExposed => route.exposedModel == s.exposedModel.value
    case OnRuntime => route.runtimeModel == s.runtimeModel.value
    case OnUpstream => route.upstreamId == s.upstreamId.value
    case OnKey => route.keyFingerprint == s.keyFingerprint.value
    case OnProtocol => route.protocol == s.protocol.value
    case OnTag => s.tag.value in route.tags
  }

  /** A route matches when it meets every constraint the selector makes, the glob on its runtime model included. */
  lemma MatchesIff(s: Selector, route: Route)
    ensures Matches(s, route) <==>
      && (forall c | Makes(s, c) :: Meets(route, s, c))
      && (s.glob.Some? ==> s.glob.value(route.runtimeModel))
  {
    if forall c | Makes(s, c) :: Meets(route, s, c) {
      assert Makes(s, OnExposed) ==> Meets(route, s, OnExposed);
      assert Makes(s, OnRuntime) ==> Meets(route, s, OnRuntime);
      assert Makes(s, OnUpstream) ==> Meets(route, s, OnUpstream);
      assert Makes(s, OnKey) ==> Meets(route, s, OnKey);
      assert Makes(s, OnProtocol) ==> Meets(route, s, OnProtocol);
      assert Makes(s, OnTag) ==> Meets(route, s, OnTag);
    }
  }

  function Exact(s: Selector): set<Constraint> {
    set c: Constraint | Makes(s, c)
  }

  const CONSTRAINTS: seq<Constraint> := [OnExposed, OnRuntime, OnUpstream, OnKey, OnProtocol, OnTag]

  function Position(c: Constraint): (n: nat)
    ensures n < |CONSTRAINTS| && CONSTRAINTS[n] == c
  {
    match c
    case OnExposed => 0
    case OnRuntime => 1
    case OnUpstream => 2
    case OnKey => 3
    case OnProtocol => 4
    case OnTag => 5
  }

  /** The exact constraints among the first `n`. */
  function ExactBefore(s: Selector, n: nat): set<Constraint> {
    set c: Constraint | Makes(s, c) && Position(c) < n
  }

  lemma OneMore(s: Selector, n: nat)
    requires n < |CONSTRAINTS|
    ensures |ExactBefore(s, n + 1)| == |ExactBefore(s, n)| + if Makes(s, CONSTRAINTS[n]) then 1 else 0
  {
    hide Makes;
    assert Position(CONSTRAINTS[n]) == n;
    if Makes(s, CONSTRAINTS[n]) {
      assert ExactBefore(s, n + 1) == ExactBefore(s, n) + {CONSTRAINTS[n]};
    } else {
      assert ExactBefore(s, n + 1) == ExactBefore(s, n);
    }
  }

  lemma ExactCounts(s: Selector)
    ensures Specificity(s) == 2 * |Exact(s)| + if s.glob.Some? then 1 else 0
  {
    assert ExactBefore(s, 0) == {} && ExactBefore(s, 6) == Exact(s);
    hide ExactBefore, Exact;
    OneMore(s, 0);
    OneMore(s, 1);
    OneMore(s, 2);
    OneMore(s, 3);
    OneMore(s, 4);
    OneMore(s, 5);
  }

  /** One rule goes before another: by priority, then by the number of exact constraints, then by having a glob. */
  predicate Outranks(priority: int, s: Selector, otherPriority: int, other: Selector) {
    || priority > otherPriority
    || (priority == otherPriority && |Exact(s)| > |Exact(other)|)
    || (priority == otherPriority && |Exact(s)| == |Exact(other)| && s.glob.Some? && other.glob.None?)
  }

  lemma PolicyOutranksIff(p: Policy, q: Policy)
    ensures RankBefore(PolicyRank(q), PolicyRank(p)) <==> Outranks(p.priority, p.selector, q.priority, q.selector)
    ensures PolicyRank(p) == PolicyRank(q) <==>
      !Outranks(p.priority, p.selector, q.priority, q.selector) && !Outranks(q.priority, q.selector, p.priority,
                                                                             p.selector)
  {
    ExactCounts(p.selector);
    ExactCounts(q.selector);
    hide Specificity, Exact;
  }

  lemma OverrideOutranksIff(o: Override, q: Override)
    ensures RankBefore(OverrideRank(q), OverrideRank(o)) <==> Outranks(o.priority, o.selector, q.priority, q.selector)
    ensures OverrideRank(o) == OverrideRank(q) <==>
      !Outranks(o.priority, o.selector, q.priority, q.selector) && !Outranks(q.priority, q.selector, o.priority,
                                                                             o.selector)
  {
    ExactCounts(o.selector);
    ExactCounts(q.selector);
    hide Specificity, Exact;
  }

  // ---- Conflicts ----

  predicate TwoValues<V(==)>(a: Option<V>, b: Option<V>) {
    a.Some? && b.Some? && a != b
  }

  ghost predicate TwoEntries<K, V>(a: map<K, V>, b: map<K, V>) {
    exists k :: k in a.Keys * b.Keys && a[k] != b[k]
  }

  /** The two policies give a field two values. */
  ghost predicate Disagree(a: Semantic, b: Semantic, field: Field) {
    match field
    case ContextWindow => TwoValues(a.contextWindow, b.contextWindow)
    case MaxOutput => TwoValues(a.maxOutputTokens, b.maxOutputTokens)
    case Mode => TwoValues(a.reasoningMode, b.reasoningMode)
    case Replay => TwoValues(a.replayRequired, b.replayRequired)
    case EffortMap => TwoEntries(a.effortMap, b.effortMap)
    case _ => false
  }

  ghost predicate OverridesDisagree(a: Override, b: Override, field: Field) {
    match field
    case Capabilities => TwoEntries(a.capabilities, b.capabilities)
    case Extensions => TwoEntries(a.extensions, b.extensions)
    case TokenLimit => TwoValues(a.tokenLimitField, b.tokenLimitField)
    case ReasoningCarrier => TwoValues(a.reasoningCarrier, b.reasoningCarrier)
    case ControlField => TwoValues(a.controlField, b.controlField)
    case EffortMap => TwoEntries(a.effortMap, b.effortMap)
    case Corrections => a.corrections != b.corrections && a.corrections != [] && b.corrections != []
    case _ => false
  }

  /** Neither goes before the other, and their selectors overlap. */
  ghost predicate Compete(priority: int, s: Selector, otherPriority: int, other: Selector) {
    && !Outranks(priority, s, otherPriority, other) && !Outranks(otherPriority, other, priority, s)
    && Overlap(s, other)
  }

  lemma EntriesConflict<K, V>(a: map<K, V>, b: map<K, V>)
    ensures MapsConflict(a, b) <==> TwoEntries(a, b)
  {
    if MapsConflict(a, b) {
      var k :| k in a && k in b && a[k] != b[k];
      assert k in a.Keys * b.Keys;
    }
  }

  /** Two policies conflict exactly when they compete and some field gets two values; the reported field is such a
      one. */
  lemma PolicyConflictIff(p: Policy, q: Policy)
    ensures PolicyConflict(p, q).Some? <==>
      && Compete(p.priority, p.selector, q.priority, q.selector)
      && exists field :: Disagree(p.semantic, q.semantic, field)
    ensures PolicyConflict(p, q).Some? ==> Disagree(p.semantic, q.semantic, PolicyConflict(p, q).value)
  {
    PolicyOutranksIff(p, q);
    EntriesConflict(p.semantic.effortMap, q.semantic.effortMap);
    hide Overlap, Outranks, MapsConflict, TwoEntries, PolicyRank;
    var conflict := ConflictingSemanticField(p.semantic, q.semantic);
    if conflict.Some? {
      assert Disagree(p.semantic, q.semantic, conflict.value);
    }
  }

  lemma OverrideConflictIff(o: Override, q: Override)
    ensures OverrideConflict(o, q).Some? <==>
      && Compete(o.priority, o.selector, q.priority, q.selector)
      && exists field :: OverridesDisagree(o, q, field)
    ensures OverrideConflict(o, q).Some? ==> OverridesDisagree(o, q, OverrideConflict(o, q).value)
  {
    OverrideOutranksIff(o, q);
    EntriesConflict(o.capabilities, q.capabilities);
    EntriesConflict(o.extensions, q.extensions);
    EntriesConflict(o.effortMap, q.effortMap);
    hide Overlap, Outranks, MapsConflict, TwoEntries, OverrideRank;
    var conflict := ConflictingOverrideField(o, q);
    if conflict.Some? {
      assert OverridesDisagree(o, q, conflict.value);
    }
  }

  // ---- Acceptance ----

  /** Every id of the three lists is visible, and no two rules share one. */
  ghost predicate IdsAreGood(config: Configuration) {
    var ids := (seq(|config.policies|, i requires 0 <= i < |config.policies| => config.policies[i].id));
    var overrideIds := (seq(|config.overrides|, i requires 0 <= i < |config.overrides| => config.overrides[i].id));
    var tagIds := (seq(|config.tagAssignments|,
                       i requires 0 <= i < |config.tagAssignments| => config.tagAssignments[i].id));
    && (forall id | id in ids || id in overrideIds || id in tagIds :: Trim(id) != "")
    && NoneTwice(ids) && NoneTwice(overrideIds) && NoneTwice(tagIds)
    && (forall id | id in ids :: id !in overrideIds && id !in tagIds)
    && (forall id | id in overrideIds :: id !in tagIds)
  }

  ghost predicate NoneTwice(ids: seq<string>) {
    forall i, j | 0 <= i < j < |ids| :: ids[i] != ids[j]
  }

  lemma NoneTwiceAppend(a: seq<string>, b: seq<string>)
    ensures NoneTwice(a + b) <==> NoneTwice(a) && NoneTwice(b) && forall id | id in a :: id !in b
  {
    var all := a + b;
    if NoneTwice(all) {
      forall i, j | 0 <= i < j < |b|
        ensures b[i] != b[j]
      {
        assert all[|a| + i] == b[i] && all[|a| + j] == b[j];
      }
      forall i, j | 0 <= i < |a| && 0 <= j < |b|
        ensures a[i] != b[j]
      {
        assert all[i] == a[i] && all[|a| + j] == b[j];
      }
      forall i, j | 0 <= i < j < |a|
        ensures a[i] != a[j]
      {
        assert all[i] == a[i] && all[j] == a[j];
      }
    } else {
      var i, j :| 0 <= i < j < |all| && all[i] == all[j];
      assert (j < |a| && a[i] == a[j]) || (i >= |a| && b[i - |a|] == b[j - |a|]) || (a[i] in a && b[j - |a|] in b);
    }
  }

  lemma GoodIdsIff(config: Configuration)
    ensures GoodIds(Ids(config)) <==> IdsAreGood(config)
  {
    var ids := (seq(|config.policies|, i requires 0 <= i < |config.policies| => config.policies[i].id));
    var overrideIds := (seq(|config.overrides|, i requires 0 <= i < |config.overrides| => config.overrides[i].id));
    var tagIds := (seq(|config.tagAssignments|,
                       i requires 0 <= i < |config.tagAssignments| => config.tagAssignments[i].id));
    var all := Ids(config);
    assert all == ids + overrideIds + tagIds;
    hide Trim, Ids;
    NoneTwiceAppend(ids, overrideIds);
    NoneTwiceAppend(ids + overrideIds, tagIds);
    hide NoneTwice;
    assert forall id :: id in all <==> id in ids || id in overrideIds || id in tagIds;
    VisibleIds(all);
  }

  lemma VisibleIds(ids: seq<string>)
    ensures GoodIds(ids) <==> (forall id | id in ids :: Trim(id) != "") && NoneTwice(ids)
  {
    hide Trim;
    if forall i | 0 <= i < |ids| :: Trim(ids[i]) != "" {
      forall id | id in ids
        ensures Trim(id) != ""
      {
      }
    }
  }

  /** Main result: a configuration compiles exactly when its ids are visible and distinct over all three kinds of
      rule, no tag assignment selects by tag or assigns nothing or a blank tag, control fields and effort maps come
      together, and no two competing policies and no two competing overrides give a field two values. */
  lemma AcceptableIff(config: Configuration)
    ensures Acceptable(config) <==>
      && IdsAreGood(config)
      && (forall i | 0 <= i < |config.tagAssignments| ::
            var a := config.tagAssignments[i];
            a.selector.tag.None? && a.tags != {} && forall tag | tag in a.tags :: Trim(tag) != "")
      && (forall i | 0 <= i < |config.overrides| ::
            var o := config.overrides[i]; (o.controlField.Some? <==> o.effortMap != map[]))
      && (forall i, j | 0 <= i < j < |config.policies| ::
            var p, q := config.policies[i], config.policies[j];
            Compete(p.priority, p.selector, q.priority, q.selector) ==>
              forall field :: !Disagree(p.semantic, q.semantic, field))
      && (forall i, j | 0 <= i < j < |config.overrides| ::
            var o, q := config.overrides[i], config.overrides[j];
            Compete(o.priority, o.selector, q.priority, q.selector) ==> forall field :: !OverridesDisagree(o, q, field))
  {
    GoodIdsIff(config);
    hide GoodIds, IdsAreGood, Ids, PolicyConflict, OverrideConflict, Compete, Disagree, OverridesDisagree, Trim;
    forall i, j | 0 <= i < j < |config.policies|
      ensures var p, q := config.policies[i], config.policies[j];
              PolicyConflict(p, q).None? <==>
                (Compete(p.priority, p.selector, q.priority, q.selector) ==>
                   forall field :: !Disagree(p.semantic, q.semantic, field))
    {
      PolicyConflictIff(config.policies[i], config.policies[j]);
    }
    forall i, j | 0 <= i < j < |config.overrides|
      ensures var o, q := config.overrides[i], config.overrides[j];
              OverrideConflict(o, q).None? <==>
                (Compete(o.priority, o.selector, q.priority, q.selector) ==> forall field :: !OverridesDisagree(o, q,
                                                                                                                field))
    {
      OverrideConflictIff(config.overrides[i], config.overrides[j]);
    }
  }

  // ---- The deciding rule ----

  lemma TopDecides<R, V>(rules: seq<R>, rank: R -> Rank, get: R -> Option<V>, value: Option<V>, top: R)
    requires Decided(rules, rank, get, value) && top in rules && get(top).Some?
    requires forall r | r in rules && get(r).Some? :: !RankBefore(rank(top), rank(r))
    ensures value == get(top)
  {
    var k :| 0 <= k < |rules| && rules[k] == top;
    assert Wins(rules, rank, get, k);
  }

  /** The policy matches the route, sets the field, and no other such policy goes before it. */
  ghost predicate IsTop<V>(config: Configuration, route: Route, get: Policy -> Option<V>, p: Policy) {
    && p in config.policies && Matches(p.selector, route) && get(p).Some?
    && forall q | q in config.policies && Matches(q.selector, route) && get(q).Some? ::
         !Outranks(q.priority, q.selector, p.priority, p.selector)
  }

  lemma TopPolicyWins<V>(config: Configuration, route: Route, get: Policy -> Option<V>, value: Option<V>, p: Policy)
    requires Decided(Filter(config.policies, Selects(route)), PolicyRank, get, value) && IsTop(config, route, get, p)
    ensures value == get(p)
  {
    var matching := Filter(config.policies, Selects(route));
    hide Decided, Outranks, PolicyRank, Matches, RankBefore;
    forall q | q in matching && get(q).Some?
      ensures !RankBefore(PolicyRank(p), PolicyRank(q))
    {
      PolicyOutranksIff(q, p);
    }
    TopDecides(matching, PolicyRank, get, value, p);
  }

  /** Main result: where a configuration compiles, each semantic field of a route is that of any matching policy
      that sets it and that no other such policy goes before: the highest priority, then the most exact constraints. */
  lemma TopPolicyDecides(config: Configuration, route: Route, p: Policy, key: string)
    requires Acceptable(config)
    ensures var semantic := SemanticFor(CompiledFrom(config), route);
            && (IsTop(config, route, WindowOf(), p) ==> semantic.contextWindow == p.semantic.contextWindow)
            && (IsTop(config, route, OutputOf(), p) ==> semantic.maxOutputTokens == p.semantic.maxOutputTokens)
            && (IsTop(config, route, ModeOf(), p) ==> semantic.reasoningMode == p.semantic.reasoningMode)
            && (IsTop(config, route, ReplayOf(), p) ==> semantic.replayRequired == p.semantic.replayRequired)
            && (IsTop(config, route, EffortOf(key), p) ==>
                  key in semantic.effortMap && semantic.effortMap[key] == p.semantic.effortMap[key])
  {
    SemanticIsDecided(config, route);
    EffortIsDecided(config, route, key);
    var semantic := SemanticFor(CompiledFrom(config), route);
    hide Decided, PolicyRank, SemanticFor, ConflictFree, GoodIds;
    if IsTop(config, route, WindowOf(), p) {
      TopPolicyWins(config, route, WindowOf(), semantic.contextWindow, p);
    }
    if IsTop(config, route, OutputOf(), p) {
      TopPolicyWins(config, route, OutputOf(), semantic.maxOutputTokens, p);
    }
    if IsTop(config, route, ModeOf(), p) {
      TopPolicyWins(config, route, ModeOf(), semantic.reasoningMode, p);
    }
    if IsTop(config, route, ReplayOf(), p) {
      TopPolicyWins(config, route, ReplayOf(), semantic.replayRequired, p);
    }
    if IsTop(config, route, EffortOf(key), p) {
      TopPolicyWins(config, route, EffortOf(key), EffortAt(semantic.effortMap, key), p);
    }
  }

  ghost predicate IsTopOverride<V>(config: Configuration, route: Route, get: Override -> Option<V>, o: Override) {
    && o in config.overrides && Matches(o.selector, route) && get(o).Some?
    && forall q | q in config.overrides && Matches(q.selector, route) && get(q).Some? ::
         !Outranks(q.priority, q.selector, o.priority, o.selector)
  }

  lemma TopOverrideWins<V>(config: Configuration, route: Route, get: Override -> Option<V>, value: Option<V>, o: Override)
    requires Decided(Filter(config.overrides, SelectsOverride(route)), OverrideRank, get, value)
    requires IsTopOverride(config, route, get, o)
    ensures value == get(o)
  {
    var matching := Filter(config.overrides, SelectsOverride(route));
    hide Decided, Outranks, OverrideRank, Matches, RankBefore;
    forall q | q in matching && get(q).Some?
      ensures !RankBefore(OverrideRank(o), OverrideRank(q))
    {
      OverrideOutranksIff(q, o);
    }
    TopDecides(matching, OverrideRank, get, value, o);
  }

  /** The same for what a matching override says: token-limit field, carrier and corrections of the resolution are its
      own, with the override as their source. */
  lemma TopOverrideDecides(config: Configuration, input: Input, o: Override)
    requires Acceptable(config) && input.overrides == OverridesFor(CompiledFrom(config), input.route)
    ensures var r, route := Layered(input), input.route;
            && (IsTopOverride(config, route, TokenOf(), o) ==>
                  Some(r.tokenLimitField) == o.tokenLimitField && r.tokenLimitSource == FromOverride)
            && (IsTopOverride(config, route, CarrierOf(), o) ==>
                  Some(r.reasoningCarrier) == o.reasoningCarrier && r.carrierSource == FromOverride)
            && (IsTopOverride(config, route, CorrectionsOf(), o) ==> r.corrections == o.corrections)
  {
    FieldPrecedence(config, input);
    hide Decided, OverrideRank, ConflictFree, GoodIds, OverridesFor, LastSet, Fallback, Overlaid, IsTopOverride;
    hide FallbackToken, FallbackCarrier, FallbackCorrections;
    if IsTopOverride(config, input.route, TokenOf(), o) {
      TopSets(config, input.route, TokenOf(), o);
      TopOverrideWins(config, input.route, TokenOf(), LastSet(input.overrides, TokenOf()), o);
    }
    if IsTopOverride(config, input.route, CarrierOf(), o) {
      TopSets(config, input.route, CarrierOf(), o);
      TopOverrideWins(config, input.route, CarrierOf(), LastSet(input.overrides, CarrierOf()), o);
    }
    if IsTopOverride(config, input.route, CorrectionsOf(), o) {
      TopSets(config, input.route, CorrectionsOf(), o);
      TopOverrideWins(config, input.route, CorrectionsOf(), LastSet(input.overrides, CorrectionsOf()), o);
    }
  }

  lemma TopSets<V>(config: Configuration, route: Route, get: Override -> Option<V>, o: Override)
    requires IsTopOverride(config, route, get, o)
    ensures get(o).Some?
  {
  }

  /** And the capability evidence. */
  lemma TopOverrideObserves(config: Configuration, input: Input, o: Override, c: Capability)
    requires Acceptable(config) && input.overrides == OverridesFor(CompiledFrom(config), input.route)
    requires IsTopOverride(config, input.route, EvidenceOf(c), o)
    ensures c in Layered(input).values && c in o.capabilities
    ensures Layered(input).values[c] == Resolved(o.capabilities[c], FromOverride)
  {
    CapabilityPrecedence(config, input, c);
    TopSets(config, input.route, EvidenceOf(c), o);
    hide Decided, OverrideRank, ConflictFree, GoodIds, OverridesFor, LastSet, Fallback, Layered, IsTopOverride;
    TopOverrideWins(config, input.route, EvidenceOf(c), LastSet(input.overrides, EvidenceOf(c)), o);
  }
}
