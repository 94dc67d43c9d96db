/** Policy compilation and selection (src/capabilities/policy.rs).  A compiled glob is any predicate on model names. */
module CapabilityPolicy {
  import opened Collections
  import opened Ordering
  import opened RankedRules
  import opened Text

  // ---- Data ----

  datatype Protocol = ChatCompletions | Responses | Messages

  datatype Route = Route(
    exposedModel: string, runtimeModel: string, upstreamId: string, keyFingerprint: string,
    protocol: Protocol, tags: set<string>)

  datatype Selector = Selector(
    exposedModel: Option<string>, runtimeModel: Option<string>, upstreamId: Option<string>,
    keyFingerprint: Option<string>, protocol: Option<Protocol>, tag: Option<string>,
    glob: Option<string -> bool>)

  datatype ReasoningMode = Off | Optional | FixedOn

  datatype Semantic = Semantic(
    reasoningMode: Option<ReasoningMode>, replayRequired: Option<bool>,
    contextWindow: Option<nat>, maxOutputTokens: Option<nat>,
    effortMap: map<string, string>, omitFields: set<string>)

  datatype Policy = Policy(id: string, selector: Selector, priority: int, semantic: Semantic)

  datatype Capability =
    | TextInput | NonStreamingResponse | ImageHttps | ImageDataUrl | ImageDetail | NativeFileId
    | FunctionTools | NamespaceTools | CustomTools | HostedTools | ParallelToolCalls | ForcedToolChoice
    | ToolContinuation | ReasoningOutput | ReasoningReplay | TextStream | ReasoningStream
    | IndexedToolArgumentStream | UsageStream | StructuredOutput

  datatype Evidence = Supported | Rejected | Unobserved

  datatype TokenLimitField = MaxTokens | MaxCompletionTokens | MaxOutputTokens | Omit

  datatype Carrier = NoCarrier | ReasoningContent | ResponsesReasoningItem | MessagesThinking

  datatype Correction =
    | SwitchTokenLimit(rejected: TokenLimitField, replacement: TokenLimitField)
    | RemoveOptionalField(field: string)

  datatype Override = Override(
    id: string, selector: Selector, priority: int,
    capabilities: map<Capability, Evidence>, extensions: map<string, Evidence>,
    tokenLimitField: Option<TokenLimitField>, reasoningCarrier: Option<Carrier>,
    controlField: Option<string>, effortMap: map<string, string>, corrections: seq<Correction>)

  datatype TagAssignment = TagAssignment(id: string, selector: Selector, tags: set<string>)

  datatype Configuration = Configuration(
    policies: seq<Policy>, overrides: seq<Override>, tagAssignments: seq<TagAssignment>)

  datatype Field =
    | ContextWindow | MaxOutput | Mode | Replay | EffortMap
    | Capabilities | Extensions | TokenLimit | ReasoningCarrier | ControlField | Corrections

  datatype PolicyError =
    | EmptyId
    | DuplicateId(id: string)
    | TagAssignmentSelectsByTag(id: string)
    | TagAssignmentHasEmptyTags(id: string)
    | InvalidReasoningOverride(id: string)
    | AmbiguousSemanticField(field: Field, first: string, second: string)
    | AmbiguousOverrideField(field: Field, first: string, second: string)

  // ---- Selectors ----

  predicate OptionalMatches<T(==)>(expected: Option<T>, actual: T) {
    expected.None? || expected.value == actual
  }

  predicate GlobMatches(glob: Option<string -> bool>, name: string) {
    glob.None? || glob.value(name)
  }

  predicate Matches(s: Selector, route: Route) {
    && OptionalMatches(s.exposedModel, route.exposedModel)
    && OptionalMatches(s.runtimeModel, route.runtimeModel)
    && OptionalMatches(s.upstreamId, route.upstreamId)
    && OptionalMatches(s.keyFingerprint, route.keyFingerprint)
    && OptionalMatches(s.protocol, route.protocol)
    && (s.tag.None? || s.tag.value in route.tags)
    && GlobMatches(s.glob, route.runtimeModel)
  }

  predicate IsSatisfiable(s: Selector) {
    s.runtimeModel.Some? ==> GlobMatches(s.glob, s.runtimeModel.value)
  }

  predicate Differ<T(==)>(left: Option<T>, right: Option<T>) {
    left.Some? && right.Some? && left.value != right.value
  }

  predicate Overlap(left: Selector, right: Selector) {
    && IsSatisfiable(left) && IsSatisfiable(right)
    && !Differ(left.exposedModel, right.exposedModel)
    && !Differ(left.runtimeModel, right.runtimeModel)
    && !Differ(left.upstreamId, right.upstreamId)
    && !Differ(left.keyFingerprint, right.keyFingerprint)
    && !Differ(left.protocol, right.protocol)
    && (left.runtimeModel.Some? ==> GlobMatches(right.glob, left.runtimeModel.value))
    && (right.runtimeModel.Some? ==> GlobMatches(left.glob, right.runtimeModel.value))
  }

  /** Soundness: selectors that match one route overlap. */
  lemma OverlapSound(left: Selector, right: Selector, route: Route)
    requires Matches(left, route) && Matches(right, route)
    ensures Overlap(left, right)
  {
  }

  /** Overlapping selectors share a route as soon as some model name suits both; with an exact model name on either
      side that is automatic, so the check errs only on two selectors that both use globs alone. */
  lemma OverlapComplete(left: Selector, right: Selector, name: string)
    requires left.runtimeModel.None? && right.runtimeModel.None? ==>
      GlobMatches(left.glob, name) && GlobMatches(right.glob, name)
    ensures Overlap(left, right) <==> exists route :: Matches(left, route) && Matches(right, route)
  {
    if Overlap(left, right) {
      var route := Route(Pick(left.exposedModel, right.exposedModel, ""),
                         Pick(left.runtimeModel, right.runtimeModel, name),
                         Pick(left.upstreamId, right.upstreamId, ""),
                         Pick(left.keyFingerprint, right.keyFingerprint, ""),
                         Pick(left.protocol, right.protocol, ChatCompletions),
                         {left.tag.GetOr(""), right.tag.GetOr("")});
      assert Matches(left, route) && Matches(right, route);
    } else {
      forall route
        ensures !(Matches(left, route) && Matches(right, route))
      {
        if Matches(left, route) && Matches(right, route) {
          OverlapSound(left, right, route);
        }
      }
    }
  }

  function Pick<T>(left: Option<T>, right: Option<T>, default: T): T {
    left.GetOr(right.GetOr(default))
  }

  function Present<T>(field: Option<T>): nat {
    if field.Some? then 1 else 0
  }

  /** Two per exact field, one for a glob. */
  function Specificity(s: Selector): nat {
    2 * (Present(s.exposedModel) + Present(s.runtimeModel) + Present(s.upstreamId)
         + Present(s.keyFingerprint) + Present(s.protocol) + Present(s.tag))
    + Present(s.glob)
  }

  function PolicyRank(p: Policy): Rank {
    Rank(p.priority, Specificity(p.selector))
  }

  function OverrideRank(o: Override): Rank {
    Rank(o.priority, Specificity(o.selector))
  }

  predicate RankThenId(left: Rank, leftId: string, right: Rank, rightId: string) {
    if left != right then RankBefore(left, right) else TextBefore(leftId, rightId)
  }

  predicate PolicyBefore(a: Policy, b: Policy) {
    RankThenId(PolicyRank(a), a.id, PolicyRank(b), b.id)
  }

  predicate OverrideBefore(a: Override, b: Override) {
    RankThenId(OverrideRank(a), a.id, OverrideRank(b), b.id)
  }

  // ---- Conflicts ----

  predicate MapsConflict<K, V(==)>(left: map<K, V>, right: map<K, V>) {
    exists k :: k in left && k in right && left[k] != right[k]
  }

  function ConflictingSemanticField(left: Semantic, right: Semantic): Option<Field> {
    if Differ(left.contextWindow, right.contextWindow) then Some(ContextWindow)
    else if Differ(left.maxOutputTokens, right.maxOutputTokens) then Some(MaxOutput)
    else if Differ(left.reasoningMode, right.reasoningMode) then Some(Mode)
    else if Differ(left.replayRequired, right.replayRequired) then Some(Replay)
    else if MapsConflict(left.effortMap, right.effortMap) then Some(EffortMap)
    else None
  }

  function ConflictingOverrideField(left: Override, right: Override): Option<Field> {
    if MapsConflict(left.capabilities, right.capabilities) then Some(Capabilities)
    else if MapsConflict(left.extensions, right.extensions) then Some(Extensions)
    else if Differ(left.tokenLimitField, right.tokenLimitField) then Some(TokenLimit)
    else if Differ(left.reasoningCarrier, right.reasoningCarrier) then Some(ReasoningCarrier)
    else if Differ(left.controlField, right.controlField) then Some(ControlField)
    else if MapsConflict(left.effortMap, right.effortMap) then Some(EffortMap)
    else if left.corrections != [] && right.corrections != [] && left.corrections != right.corrections
    then Some(Corrections)
    else None
  }

  function PolicyConflict(left: Policy, right: Policy): Option<Field> {
    if PolicyRank(left) == PolicyRank(right) && Overlap(left.selector, right.selector)
    then ConflictingSemanticField(left.semantic, right.semantic)
    else None
  }

  function OverrideConflict(left: Override, right: Override): Option<Field> {
    if OverrideRank(left) == OverrideRank(right) && Overlap(left.selector, right.selector)
    then ConflictingOverrideField(left, right)
    else None
  }

  ghost predicate ConflictFree(config: Configuration) {
    && (forall i, j | 0 <= i < j < |config.policies| :: PolicyConflict(config.policies[i], config.policies[j]).None?)
    && (forall i, j | 0 <= i < j < |config.overrides| :: OverrideConflict(config.overrides[i], config.overrides[j]).None?)
  }

  // ---- Other checks ----

  function Ids(config: Configuration): seq<string> {
    seq(|config.policies|, i requires 0 <= i < |config.policies| => config.policies[i].id)
    + seq(|config.overrides|, i requires 0 <= i < |config.overrides| => config.overrides[i].id)
    + seq(|config.tagAssignments|, i requires 0 <= i < |config.tagAssignments| => config.tagAssignments[i].id)
  }

  ghost predicate GoodIds(ids: seq<string>) {
    && (forall i | 0 <= i < |ids| :: Trim(ids[i]) != "")
    && (forall i, j | 0 <= i < j < |ids| :: ids[i] != ids[j])
  }

  predicate GoodAssignment(a: TagAssignment) {
    a.selector.tag.None? && a.tags != {} && forall tag | tag in a.tags :: Trim(tag) != ""
  }

  /** A control field comes with an effort map and an effort map with a control field. */
  predicate GoodReasoning(o: Override) {
    o.controlField.Some? <==> o.effortMap != map[]
  }

  ghost predicate Acceptable(config: Configuration) {
    && GoodIds(Ids(config))
    && (forall i | 0 <= i < |config.tagAssignments| :: GoodAssignment(config.tagAssignments[i]))
    && (forall i | 0 <= i < |config.overrides| :: GoodReasoning(config.overrides[i]))
    && ConflictFree(config)
  }

  /** What `compile` makes of an acceptable configuration: policies and overrides in rank order, ties by id. */
  datatype Compiled = Compiled(policies: seq<Policy>, overrides: seq<Override>, tagAssignments: seq<TagAssignment>)

  function CompiledFrom(config: Configuration): Compiled {
    Compiled(SortBy(config.policies, PolicyBefore), SortBy(config.overrides, OverrideBefore), config.tagAssignments)
  }

  method CheckIds(ids: seq<string>) returns (error: Option<PolicyError>)
    ensures error.None? <==> GoodIds(ids)
    ensures error.Some? ==> error.value.EmptyId? || error.value.DuplicateId?
  {
    var seen: set<string>, i := {}, 0;
    while i < |ids|
      invariant 0 <= i <= |ids| && seen == (set k | 0 <= k < i :: ids[k])
      invariant GoodIds(ids[..i])
    {
      if Trim(ids[i]) == "" {
        return Some(EmptyId);
      }
      if ids[i] in seen {
        return Some(DuplicateId(ids[i]));
      }
      seen, i := seen + {ids[i]}, i + 1;
    }
    assert ids[..i] == ids;
    return None;
  }

  method CheckAssignments(assignments: seq<TagAssignment>) returns (error: Option<PolicyError>)
    ensures error.None? <==> forall i | 0 <= i < |assignments| :: GoodAssignment(assignments[i])
    ensures error.Some? ==> error.value.TagAssignmentSelectsByTag? || error.value.TagAssignmentHasEmptyTags?
  {
    var i := 0;
    while i < |assignments|
      invariant 0 <= i <= |assignments|
      invariant forall k | 0 <= k < i :: GoodAssignment(assignments[k])
    {
      if assignments[i].selector.tag.Some? {
        return Some(TagAssignmentSelectsByTag(assignments[i].id));
      }
      if !GoodAssignment(assignments[i]) {
        return Some(TagAssignmentHasEmptyTags(assignments[i].id));
      }
      i := i + 1;
    }
    return None;
  }

  method CheckReasoning(overrides: seq<Override>) returns (error: Option<PolicyError>)
    ensures error.None? <==> forall i | 0 <= i < |overrides| :: GoodReasoning(overrides[i])
    ensures error.Some? ==> error.value.InvalidReasoningOverride?
  {
    var i := 0;
    while i < |overrides|
      invariant 0 <= i <= |overrides|
      invariant forall k | 0 <= k < i :: GoodReasoning(overrides[k])
    {
      if !GoodReasoning(overrides[i]) {
        return Some(InvalidReasoningOverride(overrides[i].id));
      }
      i := i + 1;
    }
    return None;
  }

  /** The first clash between two policies of one rank whose selectors overlap. */
  method CheckPolicies(policies: seq<Policy>) returns (error: Option<PolicyError>)
    ensures error.None? <==>
      forall i, j | 0 <= i < j < |policies| :: PolicyConflict(policies[i], policies[j]).None?
    ensures error.Some? ==>
      exists i, j :: 0 <= i < j < |policies| && PolicyConflict(policies[i], policies[j]).Some?
        && error.value == AmbiguousSemanticField(PolicyConflict(policies[i], policies[j]).value, policies[i].id,
                                                 policies[j].id)
  {
    hide PolicyConflict;
    var i := 0;
    while i < |policies|
      invariant 0 <= i <= |policies|
      invariant forall a, b | 0 <= a < b < |policies| && a < i :: PolicyConflict(policies[a], policies[b]).None?
    {
      var j := i + 1;
      while j < |policies|
        invariant i < j <= |policies|
        invariant forall b | i < b < j :: PolicyConflict(policies[i], policies[b]).None?
      {
        var conflict := PolicyConflict(policies[i], policies[j]);
        if conflict.Some? {
          return Some(AmbiguousSemanticField(conflict.value, policies[i].id, policies[j].id));
        }
        j := j + 1;
      }
      i := i + 1;
    }
    return None;
  }

  method CheckOverrides(overrides: seq<Override>) returns (error: Option<PolicyError>)
    ensures error.None? <==>
      forall i, j | 0 <= i < j < |overrides| :: OverrideConflict(overrides[i], overrides[j]).None?
    ensures error.Some? ==>
      exists i, j :: 0 <= i < j < |overrides| && OverrideConflict(overrides[i], overrides[j]).Some?
        && error.value == AmbiguousOverrideField(OverrideConflict(overrides[i], overrides[j]).value, overrides[i].id,
                                                 overrides[j].id)
  {
    hide OverrideConflict;
    var i := 0;
    while i < |overrides|
      invariant 0 <= i <= |overrides|
      invariant forall a, b | 0 <= a < b < |overrides| && a < i :: OverrideConflict(overrides[a], overrides[b]).None?
    {
      var j := i + 1;
      while j < |overrides|
        invariant i < j <= |overrides|
        invariant forall b | i < b < j :: OverrideConflict(overrides[i], overrides[b]).None?
      {
        var conflict := OverrideConflict(overrides[i], overrides[j]);
        if conflict.Some? {
          return Some(AmbiguousOverrideField(conflict.value, overrides[i].id, overrides[j].id));
        }
        j := j + 1;
      }
      i := i + 1;
    }
    return None;
  }

  /** `compile`: it succeeds exactly on the acceptable configurations. */
  method Compile(config: Configuration) returns (result: Result<Compiled, PolicyError>)
    ensures result.Ok? <==> Acceptable(config)
    ensures result.Ok? ==> result.value == CompiledFrom(config)
  {
    hide GoodIds, GoodAssignment, GoodReasoning, PolicyConflict, OverrideConflict;
    var error := CheckIds(Ids(config));
    if error.None? {
      error := CheckAssignments(config.tagAssignments);
    }
    if error.None? {
      error := CheckReasoning(config.overrides);
    }
    if error.None? {
      error := CheckPolicies(config.policies);
    }
    if error.None? {
      error := CheckOverrides(config.overrides);
    }
    result := if error.Some? then Err(error.value) else Ok(CompiledFrom(config));
  }
}
