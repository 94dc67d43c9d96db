/** Resolution of one route's capabilities (src/capabilities/resolver.rs): override, then probe, then preset, then
    continuation and baseline. */
module CapabilityResolver {
  import opened Collections
  import opened Ordering
  import opened RankedRules
  import opened Text
  import opened CapabilityPolicy
  import opened CapabilitySemantics

  // ---- Data ----

  datatype Source = FromOverride | FromProbe | FromPolicy | FromBaseline

  datatype Resolved = Resolved(state: Evidence, source: Source)

  datatype ProfileKey = ProfileKey(upstreamId: string, keyFingerprint: string, runtimeModel: string, protocol: Protocol)

  datatype Profile = Profile(
    key: ProfileKey, capabilities: map<Capability, Evidence>,
    tokenLimitField: Option<TokenLimitField>, reasoningCarrier: Option<Carrier>, corrections: seq<Correction>)

  datatype Preset = Preset(values: map<Capability, Resolved>, tokenLimitField: TokenLimitField, reasoningCarrier: Carrier)

  datatype Input = Input(
    route: Route, required: set<Capability>,
    continuationProfile: Option<ProfileKey>, continuationCarrier: Option<Carrier>,
    semantic: Semantic, overrides: seq<Override>, profile: Option<Profile>, preset: Option<string>)

  datatype Resolution = Resolution(
    values: map<Capability, Resolved>,
    tokenLimitField: TokenLimitField, tokenLimitSource: Source,
    reasoningCarrier: Carrier, carrierSource: Source, corrections: seq<Correction>)

  /** Declaration order, the iteration order of sets and maps of capabilities. */
  const ALL: seq<Capability> := [
    TextInput, NonStreamingResponse, ImageHttps, ImageDataUrl, ImageDetail, NativeFileId,
    FunctionTools, NamespaceTools, CustomTools, HostedTools, ParallelToolCalls, ForcedToolChoice,
    ToolContinuation, ReasoningOutput, ReasoningReplay, TextStream, ReasoningStream,
    IndexedToolArgumentStream, UsageStream, StructuredOutput]

  function OrdinalOf(c: Capability): (ordinal: nat)
    ensures ordinal < |ALL| && ALL[ordinal] == c
  {
    match c
    case TextInput => 0
    case NonStreamingResponse => 1
    case ImageHttps => 2
    case ImageDataUrl => 3
    case ImageDetail => 4
    case NativeFileId => 5
    case FunctionTools => 6
    case NamespaceTools => 7
    case CustomTools => 8
    case HostedTools => 9
    case ParallelToolCalls => 10
    case ForcedToolChoice => 11
    case ToolContinuation => 12
    case ReasoningOutput => 13
    case ReasoningReplay => 14
    case TextStream => 15
    case ReasoningStream => 16
    case IndexedToolArgumentStream => 17
    case UsageStream => 18
    case StructuredOutput => 19
  }

  // ---- The layers ----

  predicate AlwaysThere(c: Capability) {
    c.TextInput? || c.NonStreamingResponse? || c.TextStream? || c.FunctionTools?
    || c.ForcedToolChoice? || c.ToolContinuation?
  }

  function Baseline(): map<Capability, Resolved> {
    map c: Capability | c in ALL :: Resolved(if AlwaysThere(c) then Supported else Unobserved, FromBaseline)
  }

  predicate AboutReasoning(c: Capability) {
    c.ReasoningOutput? || c.ReasoningReplay?
  }

  function WithSupport(values: map<Capability, Resolved>, c: Capability): map<Capability, Resolved> {
    values[c := Resolved(Supported, FromPolicy)]
  }

  /** `compile_dialect_preset`. */
  function PresetNamed(name: string): Option<Preset> {
    match name
    case "openai" => Some(Preset(WithSupport(Baseline(), ParallelToolCalls), MaxTokens, NoCarrier))
    case "minimax" => Some(Preset(WithSupport(Baseline(), ParallelToolCalls), MaxTokens, NoCarrier))
    case "deepseek" => Some(Preset(ReasoningPreset(), MaxTokens, ReasoningContent))
    case "glm" => Some(Preset(ReasoningPreset(), MaxTokens, ReasoningContent))
    case "generic-strict" => Some(Preset(Baseline(), MaxTokens, NoCarrier))
    case _ => None
  }

  function ReasoningPreset(): map<Capability, Resolved> {
    WithSupport(WithSupport(WithSupport(Baseline(), ReasoningOutput), ReasoningReplay), ParallelToolCalls)
  }

  function KeyOf(route: Route): ProfileKey {
    ProfileKey(route.upstreamId, route.keyFingerprint, route.runtimeModel, route.protocol)
  }

  /** The probe profile, if it is about this very route. */
  function UsableProfile(input: Input): Option<Profile> {
    if input.profile.Some? && input.profile.value.key == KeyOf(input.route) then input.profile else None
  }

  function UsablePreset(input: Input): Option<Preset> {
    match input.preset
    case None => None
    case Some(name) => PresetNamed(name)
  }

  function Continuation(input: Input): Option<Carrier> {
    if input.continuationProfile == Some(KeyOf(input.route)) then input.continuationCarrier else None
  }

  /** The entries that were observed. */
  function Observed(evidence: map<Capability, Evidence>, source: Source): map<Capability, Resolved> {
    map c | c in evidence && evidence[c] != Unobserved :: Resolved(evidence[c], source)
  }

  function ObservedPreset(preset: Preset): map<Capability, Resolved> {
    map c | c in preset.values && preset.values[c].state != Unobserved :: preset.values[c]
  }

  /** Baseline, and what a continuation of a reasoning exchange needs. */
  function Start(input: Input): map<Capability, Resolved> {
    if Continuation(input) == Some(ReasoningContent)
    then Baseline()[ReasoningOutput := Resolved(Supported, FromBaseline)][ReasoningReplay := Resolved(Supported,
                                                                                                      FromBaseline)]
    else Baseline()
  }

  /** Then the probe or else the preset. */
  function Fallback(input: Input): map<Capability, Resolved> {
    var values := Start(input);
    match (UsableProfile(input), UsablePreset(input))
    case (Some(profile), _) => values + Observed(profile.capabilities, FromProbe)
    case (None, Some(preset)) => values + ObservedPreset(preset)
    case _ => values
  }

  function Overlaid(values: map<Capability, Resolved>, overrides: seq<Override>): map<Capability, Resolved> {
    if overrides == [] then values
    else Overlaid(values, overrides[..|overrides| - 1]) + Observed(overrides[|overrides| - 1].capabilities, FromOverride)
  }

  // ---- Fields of overrides as rules ----

  function SelectsOverride(route: Route): Override -> bool {
    (o: Override) => Matches(o.selector, route)
  }

  /** `route_overrides_for`. */
  function OverridesFor(compiled: Compiled, route: Route): seq<Override> {
    Filter(compiled.overrides, SelectsOverride(route))
  }

  function EvidenceOf(c: Capability): Override -> Option<Evidence> {
    (o: Override) => if c in o.capabilities && o.capabilities[c] != Unobserved then Some(o.capabilities[c]) else None
  }

  function TokenOf(): Override -> Option<TokenLimitField> {
    (o: Override) => o.tokenLimitField
  }

  function CarrierOf(): Override -> Option<Carrier> {
    (o: Override) => o.reasoningCarrier
  }

  function CorrectionsOf(): Override -> Option<seq<Correction>> {
    (o: Override) => if o.corrections == [] then None else Some(o.corrections)
  }

  /** The control field and its whole effort map, which an override replaces together. */
  function ControlOf(): Override -> Option<(string, map<string, string>)> {
    (o: Override) => if o.controlField.Some? then Some((o.controlField.value, o.effortMap)) else None
  }

  lemma {:induction false} OverlaidAt(values: map<Capability, Resolved>, overrides: seq<Override>, c: Capability)
    requires c in values
    ensures c in Overlaid(values, overrides)
    ensures Overlaid(values, overrides)[c] == match LastSet(overrides, EvidenceOf(c))
              case Some(state) => Resolved(state, FromOverride)
              case None => values[c]
  {
    if overrides != [] {
      OverlaidAt(values, overrides[..|overrides| - 1], c);
    }
  }

  // ---- Fields with a source ----

  function FallbackToken(input: Input): (TokenLimitField, Source) {
    match (UsableProfile(input), UsablePreset(input))
    case (Some(Profile(_, _, Some(field), _, _)), _) => (field, FromProbe)
    case (_, Some(preset)) => (preset.tokenLimitField, FromPolicy)
    case _ => (Omit, FromBaseline)
  }

  function FallbackCarrier(input: Input): (Carrier, Source) {
    match (UsableProfile(input), UsablePreset(input))
    case (Some(Profile(_, _, _, Some(carrier), _)), _) => (carrier, FromProbe)
    case (_, Some(preset)) => (preset.reasoningCarrier, FromPolicy)
    case _ => (Continuation(input).GetOr(NoCarrier), FromBaseline)
  }

  function FallbackCorrections(input: Input): seq<Correction> {
    match UsableProfile(input)
    case Some(profile) => profile.corrections
    case None => []
  }

  function OrElse<V>(chosen: Option<V>, fallback: (V, Source)): (V, Source) {
    match chosen
    case Some(v) => (v, FromOverride)
    case None => fallback
  }

  // ---- Requirements ----

  function Required(input: Input): set<Capability> {
    input.required
    + (if input.semantic.reasoningMode == Some(FixedOn) then {ReasoningOutput} else {})
    + (if input.semantic.replayRequired == Some(true) then {ReasoningOutput, ReasoningReplay} else {})
  }

  predicate CarrierFits(carrier: Carrier, protocol: Protocol) {
    match protocol
    case ChatCompletions => carrier == ReasoningContent
    case Responses => carrier == ResponsesReasoningItem
    case Messages => carrier == MessagesThinking
  }

  predicate Met(c: Capability, values: map<Capability, Resolved>, carrier: Carrier, protocol: Protocol) {
    && c in values && values[c].state == Supported
    && (AboutReasoning(c) ==> CarrierFits(carrier, protocol))
  }

  /** What an error-free resolution is, layer by layer. */
  function Layered(input: Input): Resolution {
    var (token, tokenSource) := OrElse(LastSet(input.overrides, TokenOf()), FallbackToken(input));
    var (carrier, carrierSource) := OrElse(LastSet(input.overrides, CarrierOf()), FallbackCarrier(input));
    Resolution(Overlaid(Fallback(input), input.overrides), token, tokenSource, carrier, carrierSource,
               LastSet(input.overrides, CorrectionsOf()).GetOr(FallbackCorrections(input)))
  }

  lemma BaselineTotal(input: Input, c: Capability)
    ensures c in Fallback(input)
  {
    hide Observed, ObservedPreset, KeyOf, PresetNamed, Start;
    StartAt(input, c);
  }

  // ---- The resolver ----

  method OverlayCapabilities(start: map<Capability, Resolved>, overrides: seq<Override>)
    returns (values: map<Capability, Resolved>)
    ensures values == Overlaid(start, overrides)
  {
    values := start;
    var i := 0;
    assert overrides[..0] == [];
    while i < |overrides|
      invariant 0 <= i <= |overrides| && values == Overlaid(start, overrides[..i])
    {
      assert overrides[..i + 1][..i] == overrides[..i];
      values := values + Observed(overrides[i].capabilities, FromOverride);
      i := i + 1;
    }
    assert overrides[..i] == overrides;
  }

  /** A field that the last override setting it decides: `resolve_token_limit_field`, `resolve_reasoning_carrier`. */
  method OverlayField<V>(fallback: (V, Source), overrides: seq<Override>, get: Override -> Option<V>)
    returns (chosen: (V, Source))
    ensures chosen == OrElse(LastSet(overrides, get), fallback)
  {
    chosen := fallback;
    var i := 0;
    assert overrides[..0] == [];
    while i < |overrides|
      invariant 0 <= i <= |overrides| && chosen == OrElse(LastSet(overrides[..i], get), fallback)
    {
      assert overrides[..i + 1] == overrides[..i] + [overrides[i]];
      LastSetSnoc(overrides[..i], overrides[i], get);
      if get(overrides[i]).Some? {
        chosen := (get(overrides[i]).value, FromOverride);
      }
      i := i + 1;
    }
    assert overrides[..i] == overrides;
  }

  /** `validate_required_capabilities`: the first required capability, in declaration order, that is not met. */
  method CheckRequired(required: set<Capability>, values: map<Capability, Resolved>, carrier: Carrier, protocol: Protocol)
    returns (missing: Option<Capability>)
    ensures missing.None? <==> forall c | c in required :: Met(c, values, carrier, protocol)
    ensures missing.Some? ==>
      && missing.value in required && !Met(missing.value, values, carrier, protocol)
      && forall c | c in required && OrdinalOf(c) < OrdinalOf(missing.value) :: Met(c, values, carrier, protocol)
  {
    hide Met;
    var i := 0;
    while i < |ALL|
      invariant 0 <= i <= |ALL|
      invariant forall c | c in required && OrdinalOf(c) < i :: Met(c, values, carrier, protocol)
    {
      Ordinals(i);
      if ALL[i] in required && !Met(ALL[i], values, carrier, protocol) {
        return Some(ALL[i]);
      }
      i := i + 1;
    }
    return None;
  }

  lemma Ordinals(i: nat)
    requires i < |ALL|
    ensures OrdinalOf(ALL[i]) == i
  {
  }

  /** `resolve`: the layered resolution, or the first required capability it does not meet. */
  method Resolve(input: Input) returns (result: Result<Resolution, Capability>)
    ensures var layered := Layered(input);
            match result
            case Ok(resolution) =>
              resolution == layered
              && forall c | c in Required(input) :: Met(c, layered.values, layered.reasoningCarrier, input.route.protocol)
            case Err(missing) =>
              missing in Required(input) && !Met(missing, layered.values, layered.reasoningCarrier, input.route.protocol)
  {
    hide Overlaid, LastSet, Fallback, Met, FallbackToken, FallbackCarrier, FallbackCorrections, Required;
    var values := OverlayCapabilities(Fallback(input), input.overrides);
    var carrier := OverlayField(FallbackCarrier(input), input.overrides, CarrierOf());
    var missing := CheckRequired(Required(input), values, carrier.0, input.route.protocol);
    if missing.Some? {
      return Err(missing.value);
    }
    var token := OverlayField(FallbackToken(input), input.overrides, TokenOf());
    var corrections := OverlayField((FallbackCorrections(input), FromBaseline), input.overrides, CorrectionsOf());
    return Ok(Resolution(values, token.0, token.1, carrier.0, carrier.1, corrections.0));
  }

  // ---- Precedence ----

  lemma OverrideBeforeOrders()
    ensures WeakOrder(OverrideBefore)
  {
    forall a, b, c
      ensures OverrideBefore(a, b) ==> !OverrideBefore(b, a)
      ensures !OverrideBefore(b, a) && !OverrideBefore(c, b) ==> !OverrideBefore(c, a)
    {
      RankThenIdOrder(OverrideRank(a), a.id, OverrideRank(b), b.id, OverrideRank(c), c.id);
    }
  }

  /** The matching overrides in rank order, and the same ones as written. */
  lemma MatchingOverrides(config: Configuration, route: Route)
    ensures var sorted := OverridesFor(CompiledFrom(config), route);
            ByRank(sorted, OverrideRank) && SameMembers(sorted, Filter(config.overrides, SelectsOverride(route)))
  {
    hide Matches, RankBefore, Specificity;
    OverrideBeforeOrders();
    SortBySorts(config.overrides, OverrideBefore);
    var all := CompiledFrom(config).overrides;
    FilterSorted(all, SelectsOverride(route), OverrideBefore);
    var sorted := Filter(all, SelectsOverride(route));
    forall i, j | 0 <= i < j < |sorted|
      ensures !RankBefore(OverrideRank(sorted[j]), OverrideRank(sorted[i]))
    {
      assert !OverrideBefore(sorted[j], sorted[i]);
      RankIrreflexive(OverrideRank(sorted[i]));
    }
    SameElements(config.overrides, all);
  }

  ghost predicate OverridesDrawn(config: Configuration, route: Route, overrides: seq<Override>) {
    forall i | 0 <= i < |overrides| :: overrides[i] in config.overrides && Matches(overrides[i].selector, route)
  }

  /** No two overrides of one rank that match one route conflict. */
  lemma OverrideRanksAgree(config: Configuration, route: Route, a: Override, b: Override)
    requires ConflictFree(config) && a in config.overrides && b in config.overrides
    requires Matches(a.selector, route) && Matches(b.selector, route) && OverrideRank(a) == OverrideRank(b)
    ensures ConflictingOverrideField(a, b).None? || ConflictingOverrideField(b, a).None?
  {
    OverlapSound(a.selector, b.selector, route);
    OverlapSound(b.selector, a.selector, route);
    var i :| 0 <= i < |config.overrides| && config.overrides[i] == a;
    var j :| 0 <= j < |config.overrides| && config.overrides[j] == b;
    hide Matches, Overlap, Specificity;
    if i < j {
      assert OverrideConflict(config.overrides[i], config.overrides[j]).None?;
    } else if j < i {
      assert OverrideConflict(config.overrides[j], config.overrides[i]).None?;
    }
  }

  /** What the absence of a conflict means for each field. */
  lemma NoOverrideConflict(a: Override, b: Override, c: Capability)
    requires ConflictingOverrideField(a, b).None? || ConflictingOverrideField(b, a).None?
    ensures EvidenceOf(c)(a).Some? && EvidenceOf(c)(b).Some? ==> EvidenceOf(c)(a) == EvidenceOf(c)(b)
    ensures TokenOf()(a).Some? && TokenOf()(b).Some? ==> TokenOf()(a) == TokenOf()(b)
    ensures CarrierOf()(a).Some? && CarrierOf()(b).Some? ==> CarrierOf()(a) == CarrierOf()(b)
    ensures CorrectionsOf()(a).Some? && CorrectionsOf()(b).Some? ==> CorrectionsOf()(a) == CorrectionsOf()(b)
  {
  }

  lemma OverrideFieldsAgree(config: Configuration, route: Route, overrides: seq<Override>, c: Capability)
    requires ConflictFree(config) && OverridesDrawn(config, route, overrides)
    ensures Agree(overrides, OverrideRank, EvidenceOf(c)) && Agree(overrides, OverrideRank, TokenOf())
    ensures Agree(overrides, OverrideRank, CarrierOf()) && Agree(overrides, OverrideRank, CorrectionsOf())
  {
    hide Matches, OverrideRank, ConflictFree, EvidenceOf, TokenOf, CarrierOf, CorrectionsOf, ConflictingOverrideField;
    forall i, j | 0 <= i < |overrides| && 0 <= j < |overrides| && OverrideRank(overrides[i]) == OverrideRank(overrides[j])
      ensures EvidenceOf(c)(overrides[i]).Some? && EvidenceOf(c)(overrides[j]).Some? ==>
                EvidenceOf(c)(overrides[i]) == EvidenceOf(c)(overrides[j])
      ensures TokenOf()(overrides[i]).Some? && TokenOf()(overrides[j]).Some? ==>
                TokenOf()(overrides[i]) == TokenOf()(overrides[j])
      ensures CarrierOf()(overrides[i]).Some? && CarrierOf()(overrides[j]).Some? ==>
                CarrierOf()(overrides[i]) == CarrierOf()(overrides[j])
      ensures CorrectionsOf()(overrides[i]).Some? && CorrectionsOf()(overrides[j]).Some? ==>
                CorrectionsOf()(overrides[i]) == CorrectionsOf()(overrides[j])
    {
      OverrideRanksAgree(config, route, overrides[i], overrides[j]);
      NoOverrideConflict(overrides[i], overrides[j], c);
    }
  }

  lemma OverrideFieldDecided<V>(sorted: seq<Override>, written: seq<Override>, get: Override -> Option<V>)
    requires ByRank(sorted, OverrideRank) && Agree(sorted, OverrideRank, get)
    requires SameMembers(sorted, written)
    ensures Decided(written, OverrideRank, get, LastSet(sorted, get))
  {
    SameMembersMirror(sorted, written, OverrideRank, get);
    SameMembersMirror(written, sorted, OverrideRank, get);
    SortedDecides(sorted, written, OverrideRank, get);
  }

  /** With the overrides a conflict-free configuration gives for the route, each capability has the evidence of the
      highest-ranked matching override that observed it, which is unique, and the fallback layers only otherwise. */
  lemma CapabilityPrecedence(config: Configuration, input: Input, c: Capability)
    requires ConflictFree(config) && input.overrides == OverridesFor(CompiledFrom(config), input.route)
    ensures c in Layered(input).values && c in Fallback(input)
    ensures var chosen := LastSet(input.overrides, EvidenceOf(c));
            && Decided(Filter(config.overrides, SelectsOverride(input.route)), OverrideRank, EvidenceOf(c), chosen)
            && Layered(input).values[c] == match chosen
                 case Some(state) => Resolved(state, FromOverride)
                 case None => Fallback(input)[c]
  {
    BaselineTotal(input, c);
    MatchingOverrides(config, input.route);
    assert OverridesDrawn(config, input.route, input.overrides);
    hide Filter, LastSet, OverrideRank, EvidenceOf, Fallback, ConflictFree, OverridesDrawn, Agree;
    OverrideFieldsAgree(config, input.route, input.overrides, c);
    OverrideFieldDecided(input.overrides, Filter(config.overrides, SelectsOverride(input.route)), EvidenceOf(c));
    OverlaidAt(Fallback(input), input.overrides, c);
  }

  /** The probe beats the preset, the preset beats continuation and baseline. */
  lemma FallbackPrecedence(input: Input, c: Capability)
    ensures c in Fallback(input)
    ensures Fallback(input)[c] ==
      if UsableProfile(input).Some?
         && c in UsableProfile(input).value.capabilities && UsableProfile(input).value.capabilities[c] != Unobserved
      then Resolved(UsableProfile(input).value.capabilities[c], FromProbe)
      else if UsableProfile(input).None? && UsablePreset(input).Some?
         && c in UsablePreset(input).value.values && UsablePreset(input).value.values[c].state != Unobserved
      then UsablePreset(input).value.values[c]
      else if Continuation(input) == Some(ReasoningContent) && AboutReasoning(c) then Resolved(Supported, FromBaseline)
      else Resolved(if AlwaysThere(c) then Supported else Unobserved, FromBaseline)
  {
    hide UsableProfile, UsablePreset, Start, AlwaysThere, Continuation, AboutReasoning;
    StartAt(input, c);
  }

  lemma StartAt(input: Input, c: Capability)
    ensures c in Start(input)
    ensures Start(input)[c] ==
      if Continuation(input) == Some(ReasoningContent) && AboutReasoning(c) then Resolved(Supported, FromBaseline)
      else Resolved(if AlwaysThere(c) then Supported else Unobserved, FromBaseline)
  {
    hide Continuation, AlwaysThere;
    var ordinal := OrdinalOf(c);
    assert c in Baseline();
  }

  /** The same for the token limit field, the carrier and the correction rules. */
  lemma FieldPrecedence(config: Configuration, input: Input)
    requires ConflictFree(config) && input.overrides == OverridesFor(CompiledFrom(config), input.route)
    ensures var written := Filter(config.overrides, SelectsOverride(input.route));
            && Decided(written, OverrideRank, TokenOf(), LastSet(input.overrides, TokenOf()))
            && Decided(written, OverrideRank, CarrierOf(), LastSet(input.overrides, CarrierOf()))
            && Decided(written, OverrideRank, CorrectionsOf(), LastSet(input.overrides, CorrectionsOf()))
  {
    MatchingOverrides(config, input.route);
    assert OverridesDrawn(config, input.route, input.overrides);
    hide Filter, LastSet, OverrideRank, TokenOf, CarrierOf, CorrectionsOf, ConflictFree, OverridesDrawn, Agree;
    OverrideFieldsAgree(config, input.route, input.overrides, TextInput);
    var written := Filter(config.overrides, SelectsOverride(input.route));
    OverrideFieldDecided(input.overrides, written, TokenOf());
    OverrideFieldDecided(input.overrides, written, CarrierOf());
    OverrideFieldDecided(input.overrides, written, CorrectionsOf());
  }

  // ---- The effort map ----

  ghost predicate WinnersAgree<R, V>(rules: seq<R>, rank: R -> Rank, get: R -> Option<V>) {
    forall i, j | Wins(rules, rank, get, i) && Wins(rules, rank, get, j) :: get(rules[i]) == get(rules[j])
  }

  /** The conflict check lets two overrides of one rank set disjoint effort maps, but the resolver replaces the whole
      map: what a route gets is the highest rank's exactly when the overrides of that rank that set a control field
      all carry one map. */
  lemma EffortDecidedIff(config: Configuration, route: Route)
    ensures var written := Filter(config.overrides, SelectsOverride(route));
            Decided(written, OverrideRank, ControlOf(), LastSet(OverridesFor(CompiledFrom(config), route), ControlOf()))
            <==> WinnersAgree(written, OverrideRank, ControlOf())
  {
    MatchingOverrides(config, route);
    var sorted, written := OverridesFor(CompiledFrom(config), route), Filter(config.overrides, SelectsOverride(route));
    hide Filter, LastSet, OverrideRank, ControlOf;
    SameMembersMirror(sorted, written, OverrideRank, ControlOf());
    SameMembersMirror(written, sorted, OverrideRank, ControlOf());
    if WinnersAgree(written, OverrideRank, ControlOf()) {
      AgreeingWinnersDecide(sorted, written, OverrideRank, ControlOf());
    }
  }

  lemma AgreeingWinnersDecide<R, V>(sorted: seq<R>, rules: seq<R>, rank: R -> Rank, get: R -> Option<V>)
    requires ByRank(sorted, rank) && WinnersAgree(rules, rank, get)
    requires Mirrors(sorted, rules, rank, get) && Mirrors(rules, sorted, rank, get)
    ensures Decided(rules, rank, get, LastSet(sorted, get))
  {
    if LastSet(sorted, get).Some? {
      var j := SomeWinner(sorted, rules, rank, get);
      WinsMeans(rules, rank, get, j);
      hide Mirrors, ByRank, LastSet, Wins;
      forall k | Wins(rules, rank, get, k)
        ensures 0 <= k < |rules| && get(rules[k]) == LastSet(sorted, get)
      {
        WinsMeans(rules, rank, get, k);
      }
    } else {
      LastSetWins(sorted, rank, get);
      NothingMirrored(sorted, rules, rank, get);
    }
  }

  const ANYWHERE := Selector(None, None, None, None, None, None, None)

  function EffortOverride(id: string, level: string): Override {
    Override(id, ANYWHERE, 0, map[], map[], None, None, Some("effort"), map[level := "on"], [])
  }

  /** What the resolver takes from two overrides that match every route. */
  lemma LastOfPair(first: Override, second: Override, route: Route)
    requires first.selector == second.selector == ANYWHERE && second.controlField.Some?
    ensures LastSet(Filter([first, second], SelectsOverride(route)), ControlOf()) == ControlOf()(second)
  {
    hide Filter, LastSet;
    var selects := SelectsOverride(route);
    assert selects(first) && selects(second);
    hide SelectsOverride;
    assert [first, second] == [first] + [second] && [first] == [] + [first];
    NothingToKeep([], selects);
    FilterSnoc([], first, selects);
    FilterSnoc([first], second, selects);
    LastSetSnoc([first], second, ControlOf());
  }

  /** Of two overrides of one rank the one with the later name decides. */
  lemma LaterNameDecides(x: Override, y: Override, route: Route)
    requires x.selector == y.selector == ANYWHERE && x.priority == y.priority && x.controlField.Some?
    requires y.controlField.Some?
    ensures LastSet(OverridesFor(CompiledFrom(Configuration([], [x, y], [])), route), ControlOf())
         == ControlOf()(if TextBefore(y.id, x.id) then x else y)
  {
    hide SortBy, Filter, LastSet, TextBefore, ControlOf;
    SortPair(x, y, OverrideBefore);
    if TextBefore(y.id, x.id) {
      LastOfPair(y, x, route);
    } else {
      LastOfPair(x, y, route);
    }
  }

  lemma SortPair<T>(x: T, y: T, before: (T, T) -> bool)
    ensures SortBy([x, y], before) == if before(y, x) then [y, x] else [x, y]
  {
    assert [x, y] == [x] + [y] && [x] == [] + [x];
    SortSnoc([], x, before);
    SortSnoc([x], y, before);
  }

  /** Two overrides with disjoint effort maps pass the conflict check, and renaming one of them changes what a route
      gets. */
  lemma EffortDependsOnNames(route: Route)
    ensures ConflictFree(EffortPair("a")) && ConflictFree(EffortPair("c"))
    ensures LastSet(OverridesFor(CompiledFrom(EffortPair("a")), route), ControlOf()) == Some(("effort",
                                                                                              map["high" := "on"]))
    ensures LastSet(OverridesFor(CompiledFrom(EffortPair("c")), route), ControlOf()) == Some(("effort",
                                                                                              map["low" := "on"]))
  {
    hide LastSet, SortBy, Filter;
    PairPasses("a");
    PairPasses("c");
    hide ConflictFree;
    LaterNameDecides(EffortOverride("a", "low"), EffortOverride("b", "high"), route);
    LaterNameDecides(EffortOverride("c", "low"), EffortOverride("b", "high"), route);
    assert TextBefore("a", "b") && !TextBefore("b", "a") && TextBefore("b", "c");
  }

  function EffortPair(id: string): Configuration {
    Configuration([], [EffortOverride(id, "low"), EffortOverride("b", "high")], [])
  }

  lemma PairPasses(id: string)
    ensures ConflictFree(EffortPair(id))
  {
    assert OverrideConflict(EffortOverride(id, "low"), EffortOverride("b", "high")).None?;
    hide OverrideConflict;
  }
}
