# Gateway verification

Machine-checked models of the four stateful cores of the gateway, kept beside its sources. `dafny verify
dfyconfig.toml` checks everything with Dafny 4.11.

**Stream translation** (`src/protocol.rs`). Two state machines rewrite a Chat stream into Responses events and back.
`ChatToResponses` and `ResponsesToChat` are the machines as functions on their state; `ChatToResponsesTranslator` and
`ResponsesToChatTranslator` are the same machines as objects whose fields are updated in place, every method tied to
its function. `ChatToResponsesRuns` and `ChatToResponsesFinal` prove what every run keeps and that every error-free
stream is faithful, `ChatToResponsesReasoning` what it says about reasoning and how it ends, `ChatToResponsesClosing`
in which order it closes its items, `ChatToResponsesAcceptance` which Chat streams are refused,
`ChatToResponsesIdentity` when the events of one item carry one id. `ResponsesToChatRuns` says when the client has
read the final text, `ResponsesToChatIntake` what the reader takes in and which events it refuses, `CallIdentity`
which call id and name the client is told; `StreamRoundTrip` composes the two directions and says when the Chat stream
is well framed; `CustomToolStream` and `FunctionToolStream` compare what is streamed of a call with what was sent.
`ToolArrivals` and `ToolArrivalRuns` list the fragments a run applies and say what they make of each call,
`ToolRouting` which call they reach, `ToolOutcomes` what the client has of it in the end. Below them `JsonText`
recognises JSON texts, `JsonGrammar` shows that these are the texts of the grammar, `JsonSlices` relates scanning a
slice to scanning the text, `JsonString` encodes strings, `ToolArguments` merges argument fragments and `ToolRepair`
repairs finished buffers. `ChatCanonicalizer` normalises provider streams, with `ChatCanonicalizerMeaning` for what
comes out of an event and what is refused, and `InputFold` turns Responses input items into Chat messages.

**Admission, leases, history, log flushing** (`src/state.rs`). `UsageLogs` interleaves appenders, flusher, pruning and
snapshots; `UpstreamLeases` is the lease table and its release guard; `RequestWindows` the sliding request windows;
`DownstreamGate` the group and global concurrency caps, `DownstreamAdmission` the two together; `ResponseHistory` the
response cache. The modules ending in `Runs` prove properties of whole runs: a run is a sequence of atomic steps, one
per lock acquisition or compare-and-swap, and time is a clock that never goes back. `UsageLogStorage`, `UsageLogOrder`
and `UpstreamLeaseHistory` read what happened off the steps of a run: what was written, why a log is gone, in which
order a task works, when a release completed.

**Policy compilation and resolution** (`src/capabilities/policy.rs`, `src/capabilities/resolver.rs`). `RankedRules` is
the theory of last-writer-wins over ranked rules; `CapabilityPolicy` compiles and rejects ambiguous configurations;
`CapabilitySemantics` shows that the answer for a route is that of the highest rank whatever the order and the names
of the rules; `CapabilityConfigurations` says the same of selectors, priorities and values as they are written;
`CapabilityResolver` layers overrides over probe, preset and baseline, `CapabilityLayers` says which layer decides
each field, and `CapabilityNames` for which properties the order and the names of overrides are immaterial.

**Schedulers** (`src/capabilities/probe_queue.rs`, `src/routing.rs`). `ProbeQueue` is the bounded probe queue,
`Routing` the weighted round-robin and the priority pick.

Identifiers drawn from a random supply are numbered names that were not used before. Histories (events emitted,
fragments received, leases inserted, jobs accepted) are extra fields that no branch reads. The contract of a method
that updates fields says that the new fields, and what it returns, are those the function of its name gives; what that
means for callers is stated by the lemmas about these functions and their runs.

## Findings

- `normalize_tool_arguments` trims all Unicode white space but checks what is left, so a value behind a no-break space
  passes unrepaired although the untrimmed text is not JSON (`ToolRepair.UnicodeMarginPasses`). A text is JSON exactly
  when it passes unrepaired and the parser skips every character that was trimmed (`ToolRepair.AcceptedIff`).
- A placeholder sent before the arguments is discarded exactly when the arguments do not start with whitespace
  (`ToolArguments.PlaceholderDiscarded`); the comment at src/protocol.rs:2625-2638 does not mention whitespace.
- A custom tool's streamed input spells the batch encoding exactly when its announcement comes before all input
  (`CustomToolStream.StreamedInputEqualsBatch`); without one the object is truncated
  (`CustomToolStream.UnannouncedInputIsTruncated`), and a late one sends what came before it again.
- A call whose first fragment has an empty id is announced under the empty id and continued under a later one
  (`ChatToResponsesIdentity.EmptyIdSplits`, exact condition in `CallOneIdIff`).
- A call whose first fragment has no name is announced to the Chat client without one, and keeps none there although
  the terminal event lists the name that came later (`ToolOutcomes.ClientKnowsCallIff`, an exact condition).
- A function call whose arguments start before its announcement is sent what came before it twice
  (`FunctionToolStream.StreamedArgumentsAreSentIff`, an exact condition).
- A fragment that names its call by id alone goes to the call with the smallest key that has the id, so a second call
  opened under the same id at a smaller index takes the continuations over (`ToolArrivalRuns.UndercutHappens`, exact
  condition in `OneIdOneCallIff`).
- The Responses reader does not look back at its completion: events after it are translated behind the finish chunk
  (`StreamRoundTrip.TextAfterCompletion`; the events that do no harm are characterised by `FramedIff` and
  `SilentStep`).
- A complete text that does not continue what was streamed is sent whole, so the client reads both
  (`ResponsesToChatRuns.ContradictionIsSentWhole`, exact condition in `ContentIsTextIff`).
- The per-minute retry time is exact for a limit of at least one; a limit of zero never opens
  (`RequestWindows.ZeroLimitNeverOpens`).
- Two overrides of one rank with disjoint effort maps pass the conflict check, but the resolver replaces the whole
  map, so their names decide (`CapabilityResolver.EffortDependsOnNames`). Names and order are immaterial exactly when
  the highest-ranked matching overrides with a control field agree (`CapabilityNames.EffortNamesImmaterialIff`).
- The comment on `expire_downstream_request_lease_sync` (src/state.rs:5573-5582) promises to report whether the lease
  was removed; the code reports whether its bucket became empty, which differs both ways
  (`DownstreamGateRuns.LapsedReleaseReportsRemoval`, `DownstreamGateRuns.SharedReleaseReportsNothing`, exact condition
  in `DownstreamGate.ReportTellsRemovalIff`).
- The comment on `select_upstream` (src/routing.rs:126-135) describes premium protection in five steps; the code
  filters, sorts and takes the first healthy candidate, and so does the model.

## Model

| member | source | states |
|---|---|---|
| JsonText.CompletePrefixLeavesSpace | src/protocol.rs:2625-2639 | When a prefix of an object, array or string text is itself a complete text, only whitespace can follow it (RFC 8259, section 2). |
| JsonGrammar.RecognisesGrammar | src/protocol.rs:2657-2671 | With any nesting budget, the recogniser accepts exactly the texts of the grammar of RFC 8259, sections 2 to 7, as it is written there: one value of at most that many levels between optional whitespace. |
| ToolArguments.GuardSilent | src/protocol.rs:2657-2671 | While the fragments spell a prefix of one object, array or string text, the complete-then-new guard never fires. |
| ToolArguments.SplitInvariance | src/protocol.rs:2657-2693 | However one object, array or string text is cut into fragments, merging rebuilds exactly what was sent, in strict mode or not, and never replaces the buffer; leading whitespace allowed. |
| ToolArguments.PlaceholderDiscarded | src/protocol.rs:2625-2693 | A complete placeholder sent first ends in exactly the real text if and only if that text does not start with whitespace. |
| ToolArguments.NeverReplacedJoins | src/protocol.rs:2657-2693 | A buffer that no fragment replaced is the concatenation of its fragments. |
| JsonSlices.ValueAlone | src/protocol.rs:1699-1735 | A value found inside a text by the streaming parser is a complete value when cut out. |
| ToolRepair.CompleteIsUnchanged | src/protocol.rs:1678-1729 | A complete JSON text is left unchanged and reports no repair. |
| ToolRepair.MarginsKept | src/protocol.rs:1694-1729 | One complete value between margins that `trim` removes is left as it came. |
| ToolRepair.AcceptedIff | src/protocol.rs:1694-1729 | For every text: it is JSON exactly when it passes unrepaired and every character trimmed from either end is whitespace to the parser too. |
| ToolRepair.UnicodeMarginPasses | src/protocol.rs:1695-1729 | For instance, a value behind a no-break space passes unrepaired although the parser rejects the text. |
| ToolRepair.RepairedIsValue | src/protocol.rs:1694-1741 | Whatever differs from the input, or reports trailing data, is exactly one complete value, for every printer that prints values as values. |
| ToolRepair.RepairIsIdempotent | src/protocol.rs:1694-1741 | Repairing twice is repairing once, with the kept value printed again by any such printer; the second pass reports nothing except for unparseable input. |
| ToolRepair.PlaceholderRepaired | src/protocol.rs:1681-1741 | Of a complete delimited value followed by a complete object the object is kept and printed again, reported as trailing data. |
| JsonString.EscapeAppend | src/protocol.rs:4446-4451 | String encoding is a homomorphism over concatenation (RFC 8259, section 7). |
| JsonString.EscapeInjective | src/protocol.rs:4446-4451 | Different texts have different encodings. |
| JsonString.InputObjectAccepted | src/protocol.rs:1804-1834 | The object carrying a custom tool's input is a JSON text the parser accepts, for every input. |
| ChatToResponsesTranslator.Translator.EmitCreated | src/protocol.rs:3003-3018 | One created event with the next sequence number, unless the response was announced. |
| ChatToResponsesTranslator.Translator.StartReasoning | src/protocol.rs:2796-2836 | Without a reasoning item, allocates the next output index and announces one; otherwise nothing. |
| ChatToResponsesTranslator.Translator.AppendReasoning | src/protocol.rs:2812-2848 | The delta joins the item's text and goes out as an event. |
| ChatToResponsesTranslator.Translator.EmitReasoning | src/protocol.rs:2796-2850 | The whole reasoning branch of a delta. |
| ChatToResponsesTranslator.Translator.EmitReasoningDone | src/protocol.rs:3075-3120 | Both done events, with the status known now, unless the item was closed. |
| ChatToResponsesTranslator.Translator.EnsureTextItem | src/protocol.rs:3020-3042 | Without a message item, allocates the next output index and announces one; otherwise nothing. |
| ChatToResponsesTranslator.Translator.EmitText | src/protocol.rs:2852-2871 | Text announces the response, closes reasoning, opens the message and streams the delta. |
| ChatToResponsesTranslator.Translator.EmitTextDone | src/protocol.rs:3044-3073 | Text done and item done with the accumulated text, unless the message was closed. |
| ChatToResponsesTranslator.Translator.FindTool | src/protocol.rs:3205-3305 | The call a fragment without index belongs to: by id, else the single open call unless the names conflict, else a new key; by position when not strict. |
| ChatToResponsesTranslator.Translator.UpsertTool | src/protocol.rs:3312-3360 | A known entry only gains identity it lacked; an unknown one gets a fresh output index. |
| ChatToResponsesTranslator.Translator.AnnounceTool | src/protocol.rs:3362-3402 | The added event, unless the call was announced. |
| ChatToResponsesTranslator.Translator.RecordFragment | src/protocol.rs:3371-3390 | Merges a fragment into the buffer and marks the client's copy as left behind on a replacement. |
| ChatToResponsesTranslator.Translator.MergeFragment | src/protocol.rs:3371-3412 | The fragment is streamed on exactly while the client's copy still equals the buffer. |
| ChatToResponsesTranslator.Translator.EmitToolDelta | src/protocol.rs:3188-3415 | One element of `tool_calls`, error and skip cases included. |
| ChatToResponsesTranslator.Translator.EmitToolDeltas | src/protocol.rs:2873-2880 | The elements in order, up to the first error. |
| ChatToResponsesTranslator.Translator.EmitFunctionDelta | src/protocol.rs:3455-3562 | The legacy `function_call` path, which always uses key 0. |
| ChatToResponsesTranslator.Translator.EmitToolDone | src/protocol.rs:3122-3186 | Arguments done and item done with the same normalised arguments, unless the call was closed. |
| ChatToResponsesTranslator.Translator.EmitToolDones | src/protocol.rs:3122-3186 | Closes every open call in key order. |
| ChatToResponsesTranslator.Translator.TerminalItems | src/protocol.rs:3564-3630 | Collected, sorted and stripped of their indices, position i of the list holds the item that owns output index i. |
| ChatToResponsesTranslator.Translator.Finish | src/protocol.rs:2901-2926 | Closes the open items and emits the terminal event, unless completed. |
| ChatToResponsesTranslator.Translator.EmitChoice | src/protocol.rs:2779-2899 | One choice: reasoning, text, calls, legacy call, announcement, finish reason. |
| ChatToResponsesTranslator.Translator.TranslateEvent | src/protocol.rs:2760-2899 | One upstream chunk: the resulting state, and either the events it causes or the error. |
| ChatToResponsesRuns.EmitToolDeltasKeeps | src/protocol.rs:2872-2880 | Any list of call fragments keeps the whole invariant: numbering, index ownership, item phases, buffers. |
| ChatToResponsesFinal.RunInvariant | src/protocol.rs:2760-2899 | In every error-free run the invariant holds: numbering without gaps, one owner per output index, every item's stream in phase, and a client copy not left behind equals the buffer. |
| ChatToResponsesFinal.OutputByIndex | src/protocol.rs:3564-3630 | The terminal `output[i]` is the item that owns output index i, for all indices 0..k-1. |
| ChatToResponsesFinal.FinishFaithful | src/protocol.rs:2901-2926 | Finishing a live run yields a faithful stream. |
| ChatToResponsesFinal.EveryRunIsFaithful | src/protocol.rs:2760-2926 | Every error-free run to the end: sequence 1..n, `response.created` first, one terminal last, text and call items added once, then deltas, then done once, done events and terminal items agreeing. |
| ChatToResponsesReasoning.ReasoningIsFaithful | src/protocol.rs:2796-2850 | After every error-free run to the end, the reasoning deltas spell the reasoning the upstream sent, the one listed reasoning item has exactly that text, is opened and finished once, each done event carries what was streamed before it, and nothing is spoken while it is open. |
| ChatToResponsesReasoning.EndIsFaithful | src/protocol.rs:2882-2926 | The terminal event carries the last finish reason, when that means an incomplete answer, and the last token count sent before the end; messages and calls are listed as incomplete exactly then. |
| ChatToResponsesReasoning.StreamBegunIff | src/protocol.rs:2790-2899 | Something is streamed exactly from the first event on that has a role, a finish reason, reasoning, content or a call, or ends the stream. |
| ChatToResponsesClosing.ClosesInOrder | src/protocol.rs:2901-2926 | A finished stream closes its items last, the message before the calls and the calls in the order of their keys, each once. |
| ChatToResponsesAcceptance.RunSucceedsIff | src/protocol.rs:2760-2899 | A Chat stream is translated without error exactly when no event before its end has a fault of its own: several choices, content that is no text, a call that is no object, an unusable legacy call. |
| ChatToResponsesAcceptance.ErrorIsFault | src/protocol.rs:2760-2899 | The error reported for an event after an error-free run is its first fault in the order of the fields, and none after the end. |
| ToolRouting.RunReceives | src/protocol.rs:3188-3562 | In a run whose fragments name their call themselves (by index; in the lenient mode, with neither index nor id, by position; the legacy form call 0), each call receives exactly the fragments sent to it, in order. |
| ToolRouting.KeyedCallOpensIff | src/protocol.rs:3188-3360 | In such a run a call exists exactly when a fragment with a name or arguments, or the legacy form, was sent to it. |
| ToolRouting.KeyedCallSurvives | src/protocol.rs:3188-3412 | In such a run, a call whose fragments spell one object, array or string text ends with exactly that text in its buffer and in the client's deltas. |
| ToolRouting.PlaceholderCallRepaired | src/protocol.rs:2625-2693 | With strict merging, a complete placeholder sent before the real arguments is gone from the finished call. |
| ToolArrivalRuns.EndTracked | src/protocol.rs:3188-3412 | After every error-free run, each call is what its fragments made of it: its id is the first non-empty one, its name the first there is, its buffer their merge, its one announcement made with the id and the name of its first fragment, its streamed deltas the fragments before the first replacement. |
| ToolArrivalRuns.OneIdOneCallIff | src/protocol.rs:3218-3225 | Two fragments that name their call by one id and no index reach one call exactly when no fragment between them gave that id to a call with a smaller key. |
| ToolArrivalRuns.AloneOneCall | src/protocol.rs:3218-3225 | In particular, all fragments with one id reach one call when none of them names an index. |
| ToolArrivalRuns.UndercutHappens | src/protocol.rs:3218-3225 | For instance, a second call at a smaller index under the same id: the next continuation by that id leaves the first call. |
| ToolRouting.StrictContinuation | src/protocol.rs:3226-3300 | With strict merging, a fragment with neither index nor id continues a call exactly when there is a single one and its name does not conflict; otherwise it opens a new one. |
| ChatToResponsesIdentity.CallOneIdIff | src/protocol.rs:3312-3345 | On every error-free run, all events about a call carry one item id exactly when no fragment brings a non-empty id to its entry while that has none; that is, when the first id it is sent is not empty, or all are. |
| ChatToResponsesIdentity.ItemOneId | src/protocol.rs:2796-2871 | The events about the reasoning item or the message always carry one id. |
| ToolRouting.KeyedOneIdIff | src/protocol.rs:3312-3345 | When fragments name their call themselves: exactly when the first id sent to it is not the empty text, or every one is. |
| ChatToResponsesIdentity.AnnouncementKept | src/protocol.rs:3330-3345 | The name and call id a call was announced with, as far as it had them, are those the terminal event lists. |
| ChatToResponsesIdentity.EmptyIdSplits | src/protocol.rs:3312-3402 | For instance, a first fragment with an empty id: announced under it, the deltas follow under the id a later fragment brings. |
| ResponsesToChatTranslator.Translator.EmitRole | src/protocol.rs:3890-3909 | The role chunk, unless it was sent. |
| ResponsesToChatTranslator.Translator.ClaimMessage | src/protocol.rs:3873-3888 | A second message index is refused. |
| ResponsesToChatTranslator.Translator.EmitTextDelta | src/protocol.rs:3911-3943 | Content is streamed until the text is done or an agent message was sent. |
| ResponsesToChatTranslator.Translator.EmitTextDone | src/protocol.rs:3945-3978 | A complete text adds only what was not streamed. |
| ResponsesToChatTranslator.Translator.EmitCallAdded | src/protocol.rs:3980-4093 | The announcement opens the call; a custom call opens the input object. |
| ResponsesToChatTranslator.Translator.EmitCallDelta | src/protocol.rs:4095-4186 | Argument and input deltas, escaped for a custom call. |
| ResponsesToChatTranslator.Translator.EmitInputDone | src/protocol.rs:4208-4282 | The rest of the input and the closing of the object, once; an input that does not extend the streamed one is refused. |
| ResponsesToChatTranslator.Translator.EmitItemDone | src/protocol.rs:4284-4326 | Item-done events by kind. |
| ResponsesToChatTranslator.Translator.CheckOutput | src/protocol.rs:4380-4419 | The terminal list holds at most one message, agent messages included, and no custom call without input. |
| ResponsesToChatTranslator.Translator.Finish | src/protocol.rs:3772-3802 | Role, an agent message still owed, finish chunk; nothing when completed. |
| ResponsesToChatTranslator.Translator.TranslateEvent | src/protocol.rs:3681-3770 | One Responses event: the resulting state, and either the chunks or the error. |
| ResponsesToChatTranslator.Translator.EmitListedAgent | src/protocol.rs:4348-4378 | The first agent message of the terminal list is sent unless one was sent before. |
| ResponsesToChatRuns.ContentIsTextIff | src/protocol.rs:3681-3978 | On every error-free run the client has read exactly the translator's text if and only if each complete text continued the text known when it arrived. |
| ResponsesToChatRuns.ContradictionIsSentWhole | src/protocol.rs:3957-3978 | For instance, a done event whose text does not continue the only delta is sent whole after it. |
| ResponsesToChatIntake.RunSucceedsIff | src/protocol.rs:3681-4419 | A run is free of errors exactly when no event is refused by those before it: a message at a second output index, a second message or a custom call without input in the terminal list, a complete input for a call that was not opened, is not custom, or was streamed otherwise. |
| ResponsesToChatIntake.ErrorIsRefusal | src/protocol.rs:3681-4419 | The error of an event after an error-free run is the one those earlier events call for. |
| ResponsesToChatIntake.RunMeans | src/protocol.rs:3681-3978 | Role, completion, the text known, and whether an agent message went out or is still owed depend on the events alone, in the way their definitions over the events say. |
| ResponsesToChatIntake.OutputErrorMeaning | src/protocol.rs:4380-4419 | A terminal list is refused exactly for a second message of either kind or a custom call without input, and with the error of the first item at fault. |
| CallIdentity.EveryChunkIdentified | src/protocol.rs:3980-4282 | On every error-free run each event only adds chunks; a chunk about a call comes from an event about its index and carries the call id the events gave that call and, unless it ends an input, its name. |
| CallIdentity.OneIdPerCall | src/protocol.rs:3980-4186 | A call whose first event gives it a non-empty id, or makes one up for its index, keeps that id in every chunk. |
| CallIdentity.CallsAreNamed | src/protocol.rs:3980-4093 | A call whose events keep to announced, deltas, done was announced exactly once, and every chunk about it, at least one, carries the call id and the name it was announced with. |
| FunctionToolStream.StreamedArgumentsAreSentIff | src/protocol.rs:3980-4206 | A function call's stream is translated without error wherever its announcement comes, and the Chat fragments spell its arguments exactly when none of them came before the announcement, or, never announced, when the announcement would have had none. |
| CustomToolStream.StreamedInputEqualsBatch | src/protocol.rs:3980-4307 | A call's deltas, done and repeated item-dones, announced first, in between or never: translation succeeds exactly when something opened the call and the input extends what was streamed, and then the fragments spell the batch encoding of the input object exactly when the announcement came first. |
| CustomToolStream.DoneCloses | src/protocol.rs:4208-4282 | The done event closes the object exactly when the complete input extends the streamed one. |
| CustomToolStream.RepeatedDoneIsSilent | src/protocol.rs:4208-4307 | A repeated item-done with the same input emits nothing. |
| CustomToolStream.UnannouncedInputIsTruncated | src/protocol.rs:4145-4186 | Never announced, any non-empty list of deltas, an input that extends them and any repeated dones stream the encoding without its opening. |
| StreamRoundTrip.FaithfulReads | src/protocol.rs:3681-3802 | Every faithful Responses stream is read without error and leaves the reader with its text and calls, each under the call id and the name of its one announcement. |
| StreamRoundTrip.FramedIff | src/protocol.rs:3681-3802 | On every error-free run the role chunk comes first and only once, and the finish chunk last and only once, exactly when each event after the completion is one the translator answers with nothing. |
| StreamRoundTrip.SilentStep | src/protocol.rs:3681-3770 | Which events those are: a completed translator adds a chunk exactly for the others and takes none back. |
| StreamRoundTrip.RunFramed | src/protocol.rs:3681-3802 | In particular, a run whose completion, if any, comes last is framed, and completed exactly when it ends that way. |
| StreamRoundTrip.TextAfterCompletion | src/protocol.rs:3731-3770 | For instance, text after the completion is sent after the finish chunk. |
| StreamRoundTrip.RoundTripPreserves | src/protocol.rs:2760-2926 | Chat to Responses to Chat: the content is unchanged and each call whose buffer was never replaced keeps exactly its argument fragments, matched through the output index; every chunk about a call carries the call id and the name the Responses side announced at that index. |
| ToolOutcomes.CallsReadBack | src/protocol.rs:2760-2926 | After both translations, the Chat client has of every call, replaced or not, exactly the fragments that reached it before the first one that replaced its buffer. |
| ToolOutcomes.ClientKnowsCallIff | src/protocol.rs:3312-3402 | After both translations the Chat client knows every call by the id and the name of its first fragment; these are the ones the terminal event lists exactly when the first fragment had an id, or none ever came, and a name, or none but empty ones ever came. |
| ToolOutcomes.NormalizedIsRawIff | src/protocol.rs:1694-1741 | Finishing leaves a buffer as it is exactly when it is not blank and no data trails its first value. |
| ToolOutcomes.ClientHasArgumentsIff | src/protocol.rs:3122-3186 | The arguments the Chat client concatenates are those of the done event and the terminal item exactly when, for a buffer never replaced, it is not blank and no data trails its first value; for a replaced one, when what came before the replacement is what the call finished with. |
| ChatCanonicalizer.Canonicalizer.StabilizeIdentity | src/protocol.rs:285-307 | The first event fixes the identity; wrongly typed fields are refused. |
| ChatCanonicalizer.Canonicalizer.AcceptChoice | src/protocol.rs:126-200 | One choice: fixed index, observed output and calls, normalised reason, at most one terminal. |
| ChatCanonicalizer.Canonicalizer.AcceptChoices | src/protocol.rs:126-200 | The choices in order, up to the first error. |
| ChatCanonicalizer.Canonicalizer.PushEvent | src/protocol.rs:99-211 | One provider event: the resulting state, and its canonical chunk, nothing, or an error. |
| ChatCanonicalizer.Canonicalizer.FinishStream | src/protocol.rs:225-273 | The owed terminals in index order, then the deferred usage. |
| ChatCanonicalizerRuns.StreamIsCanonical | src/protocol.rs:99-273 | Every error-free push-then-finish stream: one terminal for each choice that appears, `tool_calls` only for a choice that carried a call, one identity, usage only on a last choices-empty chunk. |
| ChatCanonicalizerRuns.EmptyStreamFails | src/protocol.rs:225-266 | A stream without any choice cannot be finished. |
| ChatCanonicalizerRuns.ChoicesAdd | src/protocol.rs:126-200 | A chunk's choices come out one for one, with their deltas, and change the state's sets by exactly what they carry. |
| ChatCanonicalizerMeaning.RunTranslates | src/protocol.rs:99-211 | After any run, an accepted event comes out choice by choice: the index the stream first used at that position, the delta as it came, and the reason its own call history allows. |
| ChatCanonicalizerMeaning.ReasonMeaning | src/protocol.rs:329-372 | Which reason becomes which, with and without a call, and which is refused. |
| ChatCanonicalizerMeaning.RunIdentity | src/protocol.rs:285-307 | Every chunk carries the identity the first event fixed. |
| ChatCanonicalizerMeaning.PushFailsIff | src/protocol.rs:99-211 | An event is refused exactly when it is no object, an identity field or the choices have the wrong type, or a choice fails: no object, changed index, no delta, or a reason that is unknown, unfitting or a second one. |
| ChatCanonicalizerMeaning.FinishFailsIff | src/protocol.rs:215-273 | Finishing fails exactly when a choice that still owes its terminal carried neither output nor a call. |
| ChatCanonicalizerMeaning.OwedMeaning | src/protocol.rs:215-273 | A choice owes its terminal exactly when it appeared without one; a stream without choices owes the first. |
| ChatCanonicalizerMeaning.FinishOnce | src/protocol.rs:215-273 | Finishing a second time sends nothing more. |
| InputFold.Folder.TranslateItem | src/protocol.rs:1164-1311 | One input item: merge into the pending assistant message, or flush it and append; errors as in the source. |
| InputFold.Folder.MergeAssistantMessage | src/protocol.rs:1411-1466 | Content, reasoning and calls are appended to the pending message. |
| InputFold.Folder.FlushPending | src/protocol.rs:1402-1409 | The pending message becomes the last message. |
| InputFold.Folder.TranslateItems | src/protocol.rs:602-632 | All items, then the final flush. |
| InputFoldRuns.FoldConserves | src/protocol.rs:1164-1496 | No two assistant messages in a row, and the calls, the assistant's text and its reasoning each read, among the other messages, exactly as in the items one by one. |
| InputFoldRuns.FoldRefuses | src/protocol.rs:1164-1311 | A request is refused exactly when one of its items is. |
| InputFoldRuns.ItemRefusedIff | src/protocol.rs:1164-1400 | An item is refused exactly when it is unknown, or a tool result without call id, without content, or typed as the assistant's, each with its own error. |
| InputFoldRuns.ItemSpeaks | src/protocol.rs:1164-1400 | Any other item stands for one message with its own content and the speaker its role names, or for none: reasoning that is empty or not carried. |
| InputFoldRuns.RequestOpens | src/protocol.rs:602-632 | Instructions stand first as a system message. |
| InputFoldRuns.MergeContentText | src/protocol.rs:1468-1481 | Merging two contents concatenates their texts. |
| UsageLogs.Deduplicate | src/state.rs:3408-3414 | The deduplicating loop keeps the first log of each id. |
| UsageLogRuns.MergedMeaning | src/state.rs:3389-3417 | When a log is pending or archived, a snapshot's list is sorted, has distinct ids, exactly the ids of the three lists, and every pending or archived id once; with nothing pending or archived it is the flushed list as it is. |
| UsageLogOrder.ShowsEarliest | src/state.rs:3389-3417 | The merged list runs strictly from earlier to later by time, request id and id, and of all logs with one id shows the earliest, of equally early ones the first in the order pending, archived, flushed. |
| UsageLogRuns.DrainRemovesBatch | src/state.rs:5162-5183 | A drain removes exactly the persisted batch, which is still at the front. |
| UsageLogStorage.DrainedWasStored | src/state.rs:5162-5203 | In every interleaving, every drained log, every log of a batch past its write, and every archived log that was not there at the start was written by a write that succeeded; nothing is written that was not appended. |
| UsageLogStorage.FailedWriteKeeps | src/state.rs:5162-5203 | A failed write leaves pending, archived and drained as they were, with the flusher still holding the flag. |
| UsageLogStorage.DrainedStays | src/state.rs:5119-5183 | A drained log is in the archived list unless pruning with a later cutoff or the archive limit took it away during the run. |
| UsageLogStorage.RemovedExactly | src/state.rs:5119-5160 | The ids recorded as removed are exactly those pruning found too old or the limit dropped. |
| UsageLogOrder.StepsInOrder | src/state.rs:5055-5203 | A task takes its steps in one order: a log is drained only after its batch was taken, written without error, archived and the limit enforced, one after the other; every failure sends the flusher to sleep, and it gives up the flag only after finding nothing pending, and looks once more. |
| UsageLogRuns.NoLostWakeUp | src/state.rs:5055-5117 | In every interleaving: pending logs always have a flusher or a task that will start one, at most one task holds the flag, and a drain takes exactly its batch. |
| UsageLogRuns.QuiescentMeansFlushed | src/state.rs:5055-5203 | When no task is left, nothing is pending and every appended log is in the archived list or was removed. |
| UsageLogRuns.SnapshotsLoseNothing | src/state.rs:3389-3417 | A file-backed snapshot shows every log appended before it began, and not removed by its end, exactly once. |
| UsageLogOrder.StartIsShown | src/state.rs:3389-3417 | Every finished snapshot shows each log the flushed and the archived list held at the start, unless its id was removed. |
| UpstreamLeases.LeaseTable.Remove | src/state.rs:7906-7929 | A held lease leaves the table and its hold duration enters the bounded ring; otherwise nothing. |
| UpstreamLeases.LeaseTable.Renew | src/state.rs:8074-8089 | A held lease's expiry and heartbeat move; otherwise nothing. |
| UpstreamLeases.LeaseTable.Prune | src/state.rs:8122-8180 | A sweep drops exactly the expired and the stale leases and counts each for its upstream. |
| UpstreamLeases.LeaseTable.CountReclaimed | src/state.rs:8154-8177 | Each reclaimed lease is counted once, in any order. |
| UpstreamLeases.LeaseTable.RemoveLeasesForUpstream | src/state.rs:7868-7885 | An operator reset drops exactly the matching leases and counts them. |
| UpstreamLeases.LeaseTable.Reserve | src/state.rs:4331-4371 | Sweep, then admit exactly when the account is below its cap. |
| UpstreamLeaseRuns.LeasesAreAccounted | src/state.rs:4284-4752 | For every upstream the leases inserted are those live, released, expired, stale and reset, the counters counting exactly the reclaimed ones. |
| UpstreamLeaseRuns.LeasesAreSafe | src/state.rs:519-557 | At most one guarded release of a lease under way, no account above its cap, no lease sampled twice, and each ring holds the account's latest hold durations. |
| UpstreamLeaseRuns.ReleasedIsForever | src/state.rs:523-557 | From the release on, in every later state of the run, the lease is released and out of the table. |
| UpstreamLeaseHistory.CompletedForever | src/state.rs:519-557 | After a release of a lease completed, in every later state its guard is released and acquiring it starts nothing. |
| UpstreamLeaseHistory.NoSecondComplete | src/state.rs:519-557 | No run completes two releases of one lease. |
| UpstreamLeaseHistory.CancelledRestarts | src/state.rs:548-557 | After a cancelled release the lease can be acquired again, and a release starts. |
| UpstreamLeaseHistory.GuardTakenIff | src/state.rs:519-557 | In every reachable state a guard is releasing exactly when some task holds its lease. |
| UpstreamLeaseHistory.ReserveIsReserved | src/state.rs:4331-4371 | A reservation step of a run does to the table what the reserve method does. |
| UpstreamLeaseHistory.AdmittedIff | src/state.rs:4331-4371 | A reservation is admitted exactly when fewer leases of the account than its cap are unexpired and have a recent heartbeat. |
| UpstreamLeaseHistory.SamplesAreHolds | src/state.rs:7906-7929 | Each sampled duration is the time from the lease's reservation to its removal. |
| UpstreamLeaseHistory.ResetIsExact | src/state.rs:7868-7885 | A reset drops exactly the leases of the upstream, or of one of its keys. |
| UpstreamLeaseHistory.ForgetIsExact | src/state.rs:8107-8112 | Removing an upstream drops its leases and counters and no other's. |
| UpstreamLeaseRuns.HeartbeatSurvives | src/state.rs:4709-4731 | A lease renewed with every gap below the TTL and at most the staleness bound is never reclaimed by any sweep of the run. |
| UpstreamLeaseRuns.SweepIsExact | src/state.rs:8122-8180 | After a sweep exactly the unexpired leases with a heartbeat within the staleness bound remain. |
| UpstreamLeaseRuns.NothingGoesStale | src/state.rs:8122-8180 | Where the staleness bound is at least the TTL, the stale counter never moves. |
| RequestWindows.RequestWindowStore.Reserve | src/state.rs:5316-5441 | One attempt on a downstream's window: pruned, refused with used count and retry time, or extended; other windows untouched. |
| RequestWindows.RequestWindowStore.Rollback | src/state.rs:5827-5847 | Exactly the rolled-back event leaves the window. |
| RequestWindows.DropOldCounts | src/state.rs:5325-5334 | Pruning drops no event that a gate would still count. |
| RequestWindows.RetryIsExact | src/state.rs:5336-5347 | A full gate reopens after exactly the advertised time, not one second earlier, and from then on. |
| RequestWindows.ZeroLimitNeverOpens | src/state.rs:5341-5347 | With a limit of zero the advertised time is never enough. |
| RequestWindowRuns.SlidingBound | src/state.rs:5293-5382 | In every run with fixed limits any 60 consecutive seconds hold at most the per-minute limit of admissions not rolled back; likewise the request-quota window outside token billing. |
| RequestWindowRuns.RejectionTellsTheTruth | src/state.rs:5336-5382 | In every reachable state a rejection by a gate with a positive limit advertises exactly the time after which it opens. |
| RequestWindowRuns.RollbackUndoes | src/state.rs:5276-5290 | In every reachable state, rolling back the slot just taken after any attempts of other requests leaves the window those attempts make of the pruned one. |
| RequestWindowRuns.AttemptIsVisit | src/state.rs:5316-5441 | Every attempt, admitted or refused, does to the window what those attempts do. |
| RequestWindowRuns.AdmittedIff | src/state.rs:5316-5441 | A request is admitted exactly when the last minute holds fewer admissions than the limit, so does the quota window when one is configured and tokens are not billed, and the cost gate allows it. |
| DownstreamAdmission.Admission.ReserveAdmission | src/state.rs:5276-5290 | All or nothing: an admitted request holds one slot and one lease, a rejected one neither, with its window as it was up to pruning; other windows and buckets stay. |
| DownstreamAdmission.AttemptUndone | src/state.rs:5276-5290 | Rolling back the slot just granted restores the pruned window exactly. |
| ResponseHistory.ResponseHistoryStore.EvictExpiredEntries | src/state.rs:345-358 | Expired entries go from the front of the order. |
| ResponseHistory.ResponseHistoryStore.Insert | src/state.rs:360-386 | The key moves to the end of the order, then expiry and the entry bound evict from the front. |
| ResponseHistory.ResponseHistoryStore.Get | src/state.rs:388-402 | Evicts, then looks up. |
| ResponseHistory.LookupIsExact | src/state.rs:343-403 | After any run a lookup returns the latest insertion of the key exactly when it is within the TTL and fewer than 2048 distinct other keys were inserted after it. |
| ResponseHistory.RememberedIff | src/state.rs:343-403 | In numbers: at most twelve hours old and at most 2047 other keys since, both inclusive. |
| ResponseHistory.GetAgrees | src/state.rs:388-402 | One lookup agrees with the log and keeps the invariant: order duplicate-free, by age, with the keys of the entries. |
| DownstreamGate.Gate.CountAdmitted | src/state.rs:486-495 | The sum over the downstream's buckets, lapsed leases included. |
| DownstreamGate.Gate.TryReserveConcurrency | src/state.rs:5463-5525 | Group cap first, then the cap over all groups; admitted or refused with the limit that was hit. |
| DownstreamGate.Gate.ReleaseConcurrency | src/state.rs:5549-5562 | The lease leaves its bucket, an emptied bucket the map. |
| DownstreamGate.Gate.RenewConcurrency | src/state.rs:5608-5641 | Only an admitted lease gets a new expiry. |
| DownstreamGate.Gate.Mark | src/state.rs:5643-5667 | Only an admitted, unlapsed lease may wait. |
| DownstreamGate.Gate.Snapshot | src/state.rs:5692-5732 | Prune, sum both columns, subtract. |
| DownstreamGateRuns.GateNeverOverAdmits | src/state.rs:5444-5525 | In every run each group stays within its cap, each downstream within its cap over all groups, and only admitted leases wait. |
| DownstreamGateRuns.SnapshotNeverFails | src/state.rs:5692-5732 | After any run no more leases wait than are admitted, so the subtraction succeeds. |
| DownstreamGateRuns.AdmittedIff | src/state.rs:5463-5525 | A lease is admitted exactly when its group, lapsed leases not counted, is below its cap and the downstream's buckets together below theirs; otherwise the limit that was hit is reported. |
| DownstreamGateRuns.AdmittedLasts | src/state.rs:5463-5525 | An admitted lease counts in its group until it lapses or is released, and no longer. |
| DownstreamGateRuns.LeaseSteps | src/state.rs:5608-5690 | Renewing moves the expiry one TTL from now, marking makes an unlapsed lease wait, unmarking and a granted probe end it. |
| DownstreamGateRuns.ForgetFrees | src/state.rs:5802-5824 | Forgetting a downstream frees its slots and touches no other's. |
| DownstreamGate.ReportTellsRemovalIff | src/state.rs:5583-5606 | A release's report says whether the lease was removed exactly when the bucket is missing, or holds that lease and nothing of another, or does not hold it but something of another. |
| DownstreamGateRuns.ReportTellsRemovalInRuns | src/state.rs:5583-5606 | After any run: exactly when the bucket is missing, or the lease is the only one admitted there, or it is not admitted and another is. |
| DownstreamGateRuns.LapsedReleaseReportsRemoval | src/state.rs:5573-5606 | It fails one way under every configuration: a lease that lapsed and was pruned is reported removed. |
| DownstreamGateRuns.SharedReleaseReportsNothing | src/state.rs:5573-5606 | It fails the other way wherever two leases fit: releasing one of them reports nothing. |
| CapabilityPolicy.OverlapSound | src/capabilities/policy.rs:1092-1131 | Selectors that match one route overlap. |
| CapabilityPolicy.OverlapComplete | src/capabilities/policy.rs:1092-1131 | Overlap means exactly that some route matches both, as soon as a model name suits both selectors. |
| CapabilityPolicy.CheckIds | src/capabilities/policy.rs:622-658 | Accepts exactly lists of non-blank, distinct ids. |
| CapabilityPolicy.CheckAssignments | src/capabilities/policy.rs:852-868 | Accepts exactly assignments that do not select by tag and assign non-blank tags. |
| CapabilityPolicy.CheckReasoning | src/capabilities/policy.rs:870-894 | A control field comes with an effort map and the other way round. |
| CapabilityPolicy.CheckPolicies | src/capabilities/policy.rs:938-963 | Finds a clash exactly when two policies of one rank with overlapping selectors disagree, and names them. |
| CapabilityPolicy.CheckOverrides | src/capabilities/policy.rs:994-1018 | The same for overrides. |
| CapabilityPolicy.Compile | src/capabilities/policy.rs:271-369 | Succeeds exactly on the acceptable configurations, with policies and overrides in rank order, ties by id. |
| CapabilityConfigurations.AcceptableIff | src/capabilities/policy.rs:271-369 | A configuration compiles exactly when ids are visible and distinct over all three kinds of rule, no tag assignment selects by tag or assigns nothing or a blank tag, control fields and effort maps come together, and no two rules with the same priority, number of exact constraints and use of a glob, and overlapping selectors, give a field two values. |
| CapabilityConfigurations.PolicyConflictIff | src/capabilities/policy.rs:938-993 | Two policies conflict exactly so, and the reported field is one they disagree on. |
| CapabilityConfigurations.OverrideConflictIff | src/capabilities/policy.rs:994-1073 | The same for overrides, extensions and control fields included. |
| CapabilityConfigurations.MatchesIff | src/capabilities/policy.rs:185-215 | A route matches exactly when it meets every constraint the selector makes. |
| CapabilityConfigurations.PolicyOutranksIff | src/capabilities/policy.rs:1075-1090 | Rank order is priority, then the number of exact constraints, then having a glob. |
| CapabilitySemantics.Accumulate | src/capabilities/policy.rs:416-438 | The accumulator is the last-writer-wins fold over the matching policies. |
| CapabilitySemantics.SemanticIsDecided | src/capabilities/policy.rs:416-438 | Without conflicts each field is the value of the highest-ranked matching policy that sets it, and that value is unique. |
| CapabilityConfigurations.TopPolicyDecides | src/capabilities/policy.rs:416-438 | In a configuration that compiles, each field of a route, and each effort level, is that of any matching policy that sets it and that no other such policy goes before by priority, exact constraints and glob. |
| CapabilitySemantics.EffortIsDecided | src/capabilities/policy.rs:432-432 | The same for every effort key. |
| CapabilitySemantics.OmissionsAreUnion | src/capabilities/policy.rs:433-435 | A sampling field is omitted exactly when some matching policy omits it. |
| CapabilitySemantics.OrderAndNamesImmaterial | src/capabilities/policy.rs:336-353 | The answer is unchanged by reordering the policies and renaming them. |
| CapabilitySemantics.ConflictsUnmoved | src/capabilities/policy.rs:938-963 | Whether policies conflict is unchanged by reordering and renaming. |
| CapabilitySemantics.ApplyRouteTags | src/capabilities/policy.rs:403-414 | The route gains exactly the tags of the assignments that match it as it came, whatever the order. |
| CapabilitySemantics.AssignedTagsMeaning | src/capabilities/policy.rs:403-414 | A tag is assigned exactly when some matching assignment carries it. |
| RankedRules.OrderIsImmaterial | src/capabilities/policy.rs:271-369 | Where equal ranks agree, last-writer-wins in rank order does not depend on the order of ties. |
| CapabilityResolver.OverlayField | src/capabilities/resolver.rs:296-343 | A field is the last override's that sets it, else the fallback's. |
| CapabilityResolver.OverlayCapabilities | src/capabilities/resolver.rs:122-134 | Observed override evidence overwrites, in order. |
| CapabilityResolver.CheckRequired | src/capabilities/resolver.rs:252-294 | Returns the first unmet required capability in declaration order, none exactly when all are met with a fitting carrier. |
| CapabilityResolver.Resolve | src/capabilities/resolver.rs:76-230 | The layered resolution, or a required capability it does not meet; success means every required capability is supported with a carrier that fits the protocol. |
| CapabilityResolver.CapabilityPrecedence | src/capabilities/resolver.rs:122-134 | Each capability has the unique evidence of the highest-ranked matching override that observed it, else the fallback's. |
| CapabilityResolver.FallbackPrecedence | src/capabilities/resolver.rs:80-120 | Probe, else preset when there is no profile, else continuation, else baseline. |
| CapabilityResolver.FieldPrecedence | src/capabilities/resolver.rs:232-343 | Token-limit field, carrier and correction rules are likewise the unique value of the highest rank. |
| CapabilityConfigurations.TopOverrideDecides | src/capabilities/resolver.rs:232-343 | Token-limit field, carrier and corrections of the resolution are those of any matching override that sets them and that no other such override goes before, with the override as source. |
| CapabilityConfigurations.TopOverrideObserves | src/capabilities/resolver.rs:122-134 | The same for capability evidence. |
| CapabilityLayers.CarrierLayers | src/capabilities/resolver.rs:320-343 | The carrier and its source: the last override's, else the probe's of this very route, else the preset's, else the continuation's or none. |
| CapabilityLayers.TokenLimitLayers | src/capabilities/resolver.rs:296-318 | The token-limit field and its source: the last override's, else the probe's, else the preset's, else omitted. |
| CapabilityLayers.CorrectionLayers | src/capabilities/resolver.rs:232-243 | The corrections: the last non-empty list of an override, else the probe's, else none. |
| CapabilityLayers.CapabilityLayer | src/capabilities/resolver.rs:80-134 | Each capability and its source: override, else probe, else preset of an unprobed route, else what a continued reasoning exchange needs, else what every route has. |
| CapabilityLayers.SucceedsIff | src/capabilities/resolver.rs:252-294 | Every required capability is met exactly when each one asked for, or implied by the semantic, is supported, those about reasoning with the protocol's own carrier. |
| CapabilityLayers.PresetsSay | src/capabilities/types.rs:672-790 | What each preset adds to the baseline, how it limits tokens and carries reasoning. |
| CapabilityNames.OverrideNamesImmaterial | src/capabilities/policy.rs:994-1018 | Without conflicts the whole resolution is unchanged by reordering the overrides and renaming them. |
| CapabilityNames.NamesImmaterialIff | src/capabilities/policy.rs:395-401 | For any property overrides set: every reordering and renaming that compiles gives the route the same value exactly when the highest-ranked matching overrides that set it agree. |
| CapabilityNames.EffortNamesImmaterialIff | src/capabilities/resolver.rs:345-399 | The same for the control field and its effort map, which the conflict check does not protect; and exactly then the route gets the highest rank's unique value. |
| CapabilityResolver.EffortDependsOnNames | src/capabilities/policy.rs:1057-1072 | Two overrides with disjoint effort maps pass the conflict check, and renaming one changes what every route gets. |
| ProbeQueue.ProbeQueueState.EnqueueWithOutcome | src/capabilities/probe_queue.rs:181-222 | One submission: merged, replaced, appended, covered or rejected. |
| ProbeQueue.ProbeQueueState.EnqueueBatchWithOutcome | src/capabilities/probe_queue.rs:156-179 | A batch up to its first rejection, with what remains and what was displaced. |
| ProbeQueue.ProbeQueueState.StartNextJob | src/capabilities/probe_queue.rs:256-277 | Starts the first eligible job. |
| ProbeQueue.ProbeQueueState.FinishJob | src/capabilities/probe_queue.rs:279-293 | Frees the key and its upstream's count. |
| ProbeQueueRuns.RunKeeps | src/capabilities/probe_queue.rs:131-293 | In every reachable state: known keys are pending plus active, pending keys distinct, counts exact without zeros, active plus pending within the bound; every accepted job is pending, active, finished, absorbed, returned or discarded. |
| ProbeQueueRuns.StartIsRight | src/capabilities/probe_queue.rs:256-277 | A start takes the first eligible job, within both limits, no key twice; nothing starts only at the global limit or without an eligible job. |
| ProbeQueueRuns.AcceptedIsCovered | src/capabilities/probe_queue.rs:181-222 | After an accepted submission some pending or active job of that key and configuration covers all its models. |
| ProbeQueueRuns.KnownIsSomewhere | src/capabilities/probe_queue.rs:214-215 | The branch that ignores a known key which is neither pending nor active is unreachable. |
| ProbeQueueRuns.RejectedIff | src/capabilities/probe_queue.rs:181-222 | A submission is rejected exactly when no pending job has its key, no active job of its key and configuration covers it, and pending and active jobs fill the queue. |
| ProbeQueueRuns.AcceptedPending | src/capabilities/probe_queue.rs:181-222 | One more job at the end, the models of the pending twin of the same configuration widened by its own, a twin of another configuration replaced, or nothing. |
| ProbeQueueRuns.NothingStartsIff | src/capabilities/probe_queue.rs:256-277 | Nothing starts exactly at the global limit or when each pending job's key is active or its upstream at its limit. |
| ProbeQueueRuns.LimitsAtLeastOne | src/capabilities/probe_queue.rs:131-155 | Every limit is at least one. |
| ProbeQueueRuns.BatchStopsAtFirstRejection | src/capabilities/probe_queue.rs:156-179 | Exactly the suffix from the first rejected job remains. |
| ProbeQueueRuns.Drains | src/capabilities/probe_queue.rs:256-293 | From every valid state, once the active jobs have finished in any order, alternating start and finish runs every pending job in order and empties the queue. |
| Routing.SelectWeightedCandidateIndex | src/routing.rs:93-124 | The bucket loop computes the share that contains the cursor; its final fallback is unreachable. |
| Routing.RoundRobinIsFair | src/routing.rs:93-124 | Over any `total` consecutive cursors each positive-weight member of the highest tier is picked exactly as often as it weighs. |
| Routing.PickIsInHighestTier | src/routing.rs:93-124 | A pick is in the highest tier, and has weight zero only when the whole tier has and it is the first of it; nothing is picked only from nothing. |
| Routing.SelectUpstream | src/routing.rs:140-177 | The best healthy supporting candidate, or the error that says none supports or none is healthy. |
| Routing.FirstBestMeaning | src/routing.rs:162-173 | Highest priority, then fewest failures, then first as listed. |
| Routing.SelectionIs | src/routing.rs:140-177 | In plain terms: nothing is selected without a candidate that speaks the protocol, serves the model and has fewer than three failures; otherwise one to which no such candidate is preferable by priority and then failures, all earlier ones being worse. |
| Ordering.FilterSort | src/routing.rs:162-173 | Stable sorting and filtering commute, so searching the sorted list for the first healthy candidate finds the best one. |

## Left out

- The Redis and Postgres branches, and every write to disk: persistence is a step that may fail. In particular the
  snapshot result is for the file-backed path only.
- HTTP, model discovery, qualification probes, TLS, OIDC, JWT, key hashing, logging, environment parsing, the
  frontend.
- Response ids, model names, creation times and token details of stream events; the tool registry; images; events of
  the Responses-to-Chat stream without an output index.
- ResponsesToChatTranslator.Translator.EmitCallDelta: a name or call id that the delta event itself carries is not
  modelled; the call then has a generated id and no name until its announcement.
- ResponsesToChatTranslator.Translator.EmitItemDone: an item whose conversion fails, and so ends the stream, is not
  modelled; an agent message is its visible text.
- ResponsesToChatTranslator.Translator.CheckOutput: likewise for the listed items.
- ToolRepair.RepairedIsValue: how a value is printed again is left open beyond its being a value; the stream modules
  use the value as it stood in the buffer.
- JsonText.CompletePrefixLeavesSpace: numbers are recognised by the grammar alone, without the parser's range check.
- StreamRoundTrip.RoundTripPreserves: the finish reason is not part of it, since the reader writes only `stop` or
  `tool_calls`; and chunks after the one that carries usage without choices are dropped by the source, so the content
  is that of the chunks before it.
- ChatToResponsesFinal.EveryRunIsFaithful: for reasoning items it claims only that no other kind of event appears at
  their index, since reasoning may resume after its done event; what they say is the matter of
  ChatToResponsesReasoning.ReasoningIsFaithful, ids and announced names that of ChatToResponsesIdentity.
- UsageLogRuns.SnapshotsLoseNothing: which logs the archive limit drops is left open (any set of ids), and the order
  in which a prune visits the two lists is free.
- UpstreamLeases.LeaseTable.Reserve: the table is keyed by account and lease id together instead of two nested maps;
  quota events, cooldowns, the retry estimate from hold durations and the capacity-reject counter are not modelled.
- UpstreamLeaseRuns.LeasesAreAccounted: removing an upstream starts its books afresh, as it deletes the counters.
- RequestWindows.RequestWindowStore.Reserve: the daily-cost gate is a parameter that lets the request through or not,
  and 64-bit saturation at the end of time is not modelled.
- DownstreamGate.Gate.Snapshot: the saturation of the sums at 32 bits is not modelled.
- DownstreamAdmission.Admission.ReserveAdmission: other requests between its two locks are covered by
  RequestWindowRuns.RollbackUndoes, not by the method itself.
- DownstreamGate.Gate.TryReserveConcurrency: matching a model to a group, and the account probe itself, are
  parameters.
- ResponseHistory.LookupIsExact: entries are inserted at their creation time; the refill from the database, which
  inserts older ones, is not part of the run.
- CapabilityPolicy.CheckIds: ids of bundles, expectations and extension probes are not in its list.
- CapabilityPolicy.Compile: size limits, fixtures, extension probes, expectations and the digest are left out; the map
  key an ambiguity error names is not modelled.
- CapabilityResolver.Resolve: request extensions, sampling fields, profile state and the effort control of profiles
  and presets are left out; presets keep only what the modelled fields need.
- ProbeQueueRuns.AcceptedIsCovered: probe modes are not modelled; the source ignores them when it compares jobs.
- InputFold.Folder.TranslateItem: the conversion of one item's parts is taken as done; an item whose conversion fails
  appears as unsupported.
- ChatCanonicalizer.Canonicalizer.PushEvent: of a delta only whether it carries output or a call is read; the rest is
  carried through.
- `flush_usage_logs_for_test`, small caches, merges and classifiers (`runtime_hints.rs`, `profile.rs`, `bootstrap.rs`,
  `upstream_feedback.rs`): they would only add easy members.
