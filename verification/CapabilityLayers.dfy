/** What a resolution says field by field, below and above the overrides, and when it succeeds
    (src/capabilities/resolver.rs). */
module CapabilityLayers {
  import opened Collections
  import opened RankedRules
  import opened CapabilityPolicy
  import opened CapabilitySemantics
  import opened CapabilityResolver

  /** The profile key names this very route. */
  predicate Names(key: ProfileKey, route: Route) {
    && key.upstreamId == route.upstreamId && key.keyFingerprint == route.keyFingerprint
    && key.runtimeModel == route.runtimeModel && key.protocol == route.protocol
  }

  /** There is a probe profile, and it was taken on this route. */
  predicate Probed(input: Input) {
    input.profile.Some? && Names(input.profile.value.key, input.route)
  }

  /** The request continues an exchange that ran on this route. */
  predicate Continues(input: Input) {
    input.continuationProfile.Some? && Names(input.continuationProfile.value, input.route)
  }

  predicate HasPreset(input: Input) {
    input.preset.Some? && PresetNamed(input.preset.value).Some?
  }

  /** Which layers apply. */
  lemma LayersApply(input: Input)
    ensures UsableProfile(input) == if Probed(input) then input.profile else None
    ensures UsablePreset(input).Some? == HasPreset(input)
    ensures HasPreset(input) ==> UsablePreset(input) == PresetNamed(input.preset.value)
    ensures Continuation(input) == if Continues(input) then input.continuationCarrier else None
  {
  }

  /** The token-limit field: the last override that sets it, else the probe's, else the preset's, else none. */
  lemma TokenLimitLayers(input: Input)
    ensures var r, chosen := Layered(input), LastSet(input.overrides, TokenOf());
            (r.tokenLimitField, r.tokenLimitSource) ==
              if chosen.Some? then (chosen.value, FromOverride)
              else if Probed(input) && input.profile.value.tokenLimitField.Some?
              then (input.profile.value.tokenLimitField.value, FromProbe)
              else if HasPreset(input) then (PresetNamed(input.preset.value).value.tokenLimitField, FromPolicy)
              else (Omit, FromBaseline)
  {
    LayersApply(input);
    hide Overlaid, Fallback, FallbackCarrier, FallbackCorrections, PresetNamed, LastSet, TokenOf;
  }

  /** The reasoning carrier: likewise, and at the bottom what a continuation carries. */
  lemma CarrierLayers(input: Input)
    ensures var r, chosen := Layered(input), LastSet(input.overrides, CarrierOf());
            (r.reasoningCarrier, r.carrierSource) ==
              if chosen.Some? then (chosen.value, FromOverride)
              else if Probed(input) && input.profile.value.reasoningCarrier.Some?
              then (input.profile.value.reasoningCarrier.value, FromProbe)
              else if HasPreset(input) then (PresetNamed(input.preset.value).value.reasoningCarrier, FromPolicy)
              else if Continues(input) && input.continuationCarrier.Some?
              then (input.continuationCarrier.value, FromBaseline)
              else (NoCarrier, FromBaseline)
  {
    LayersApply(input);
    hide Overlaid, Fallback, FallbackToken, FallbackCorrections, PresetNamed, LastSet, CarrierOf;
  }

  /** The correction rules: the last non-empty list of an override, else the probe's, else none. */
  lemma CorrectionLayers(input: Input)
    ensures var r, chosen := Layered(input), LastSet(input.overrides, CorrectionsOf());
            r.corrections == if chosen.Some? then chosen.value
                             else if Probed(input) then input.profile.value.corrections
                             else []
  {
    LayersApply(input);
    hide Overlaid, Fallback, FallbackToken, FallbackCarrier, LastSet, CorrectionsOf;
  }

  /** An override speaks about a capability when it observed it, and about corrections when it lists some. */
  lemma OverridesSpeak(o: Override, c: Capability)
    ensures EvidenceOf(c)(o)
         == if c in o.capabilities && o.capabilities[c] != Unobserved then Some(o.capabilities[c]) else None
    ensures TokenOf()(o) == o.tokenLimitField && CarrierOf()(o) == o.reasoningCarrier
    ensures CorrectionsOf()(o).Some? <==> o.corrections != []
    ensures o.corrections != [] ==> CorrectionsOf()(o) == Some(o.corrections)
  {
  }

  /** Each capability: the last override that observed it, else the probe, else the preset of an unprobed route,
      else what a continued reasoning exchange needs, else what every route has. */
  lemma CapabilityLayer(input: Input, c: Capability)
    ensures var r, chosen := Layered(input), LastSet(input.overrides, EvidenceOf(c));
            && c in r.values
            && r.values[c] ==
               if chosen.Some? then Resolved(chosen.value, FromOverride)
               else if Probed(input) && c in input.profile.value.capabilities
                       && input.profile.value.capabilities[c] != Unobserved
               then Resolved(input.profile.value.capabilities[c], FromProbe)
               else if !Probed(input) && HasPreset(input) && c in PresetNamed(input.preset.value).value.values
                       && PresetNamed(input.preset.value).value.values[c].state != Unobserved
               then PresetNamed(input.preset.value).value.values[c]
               else if Continues(input) && input.continuationCarrier == Some(ReasoningContent)
                       && (c == ReasoningOutput || c == ReasoningReplay)
               then Resolved(Supported, FromBaseline)
               else Resolved(if c in {TextInput, NonStreamingResponse, TextStream, FunctionTools, ForcedToolChoice,
                                      ToolContinuation} then Supported else Unobserved, FromBaseline)
  {
    LayersApply(input);
    BaselineTotal(input, c);
    FallbackPrecedence(input, c);
    OverlaidAt(Fallback(input), input.overrides, c);
    hide Fallback, Overlaid, PresetNamed, LastSet, EvidenceOf, UsableProfile, UsablePreset, Continuation;
    hide Probed, HasPreset, Continues;
  }

  // ---- Success ----

  /** The capability must be there: the request asks for it, or its semantic does. */
  predicate Needed(input: Input, c: Capability) {
    || c in input.required
    || (c == ReasoningOutput && input.semantic.reasoningMode == Some(FixedOn))
    || ((c == ReasoningOutput || c == ReasoningReplay) && input.semantic.replayRequired == Some(true))
  }

  /** Reasoning travels by the protocol's own carrier. */
  predicate Carries(protocol: Protocol, carrier: Carrier) {
    || (protocol == ChatCompletions && carrier == ReasoningContent)
    || (protocol == Responses && carrier == ResponsesReasoningItem)
    || (protocol == Messages && carrier == MessagesThinking)
  }

  /** The resolution succeeds exactly when every needed capability is supported, those about reasoning with a
      carrier of the route's protocol. */
  lemma SucceedsIff(input: Input)
    ensures var r := Layered(input);
            (forall c | c in Required(input) :: Met(c, r.values, r.reasoningCarrier, input.route.protocol)) <==>
            (forall c | Needed(input, c) ::
               && c in r.values && r.values[c].state == Supported
               && (c == ReasoningOutput || c == ReasoningReplay ==> Carries(input.route.protocol, r.reasoningCarrier)))
  {
    hide Layered;
    forall c: Capability
      ensures c in Required(input) <==> Needed(input, c)
    {
    }
    var r := Layered(input);
    assert CarrierFits(r.reasoningCarrier, input.route.protocol) <==> Carries(input.route.protocol, r.reasoningCarrier);
    hide Required, Needed, CarrierFits, Carries;
  }

  // ---- Presets ----

  lemma SupportAt(values: map<Capability, Resolved>, added: Capability, c: Capability)
    requires c in values
    ensures c in WithSupport(values, added)
    ensures WithSupport(values, added)[c] == if c == added then Resolved(Supported, FromPolicy) else values[c]
  {
  }

  lemma ReasoningPresetAt(c: Capability)
    requires c in Baseline()
    ensures c in ReasoningPreset()
    ensures ReasoningPreset()[c] == if c == ReasoningOutput || c == ReasoningReplay || c == ParallelToolCalls
                                    then Resolved(Supported, FromPolicy) else Baseline()[c]
  {
    hide Baseline, WithSupport;
    SupportAt(Baseline(), ReasoningOutput, c);
    SupportAt(WithSupport(Baseline(), ReasoningOutput), ReasoningReplay, c);
    SupportAt(WithSupport(WithSupport(Baseline(), ReasoningOutput), ReasoningReplay), ParallelToolCalls, c);
  }

  lemma InBaseline(c: Capability)
    ensures c in Baseline()
  {
    var ordinal := OrdinalOf(c);
  }

  predicate ReasoningByName(name: string) {
    name == "deepseek" || name == "glm"
  }

  /** What a preset adds to the baseline: all but the strict one parallel calls, the two for reasoning models also
      reasoning output and replay. */
  predicate Adds(name: string, c: Capability) {
    || (c == ParallelToolCalls && name != "generic-strict")
    || (ReasoningByName(name) && (c == ReasoningOutput || c == ReasoningReplay))
  }

  lemma FivePresets(name: string)
    ensures PresetNamed(name).Some? <==>
      name == "openai" || name == "minimax" || name == "deepseek" || name == "glm" || name == "generic-strict"
  {
  }

  /** Each of the five presets adds what it adds as supported by policy and leaves the rest of the baseline, limits
      tokens by `max_tokens`, and carries reasoning as reasoning content if it is for reasoning models. */
  lemma PresetsSay(name: string, c: Capability)
    requires PresetNamed(name).Some?
    ensures
      var preset := PresetNamed(name).value;
      && c in preset.values && c in Baseline() && preset.tokenLimitField == MaxTokens
      && preset.reasoningCarrier == (if ReasoningByName(name) then ReasoningContent else NoCarrier)
      && preset.values[c] == if Adds(name, c) then Resolved(Supported, FromPolicy) else Baseline()[c]
  {
    InBaseline(c);
    SupportAt(Baseline(), ParallelToolCalls, c);
    ReasoningPresetAt(c);
    hide Baseline, WithSupport, ReasoningPreset;
  }
}
