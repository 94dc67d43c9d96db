/** Fragments that name their call themselves, by `index` or by their place in the chunk, reach that call's buffer,
    in order and unmixed, and so survive the whole translation. */
module ToolRouting {
  import opened Collections
  import opened JsonText
  import opened StreamEvents
  import opened ToolArguments
  import opened ChatToResponses
  import opened ChatToResponsesRuns
  import opened ChatToResponsesFinal
  import R2C = ResponsesToChat
  import Trip = StreamRoundTrip
  import A = ToolArrivals
  import ArrivalRuns = ToolArrivalRuns
  import Identity = ChatToResponsesIdentity

  /** The call that an element names itself: by its index, or in the lenient mode, with neither index nor id, by its
      position. */
  function KeyOf(strict: bool, d: ToolDelta, position: nat): Option<nat> {
    if d.Malformed? then None
    else if d.index.Some? then d.index
    else if d.id.None? && !strict then Some(position)
    else None
  }

  predicate AllKeyed(strict: bool, ds: seq<ToolDelta>) {
    forall i | 0 <= i < |ds| :: ds[i].ToolDelta? ==> KeyOf(strict, ds[i], i).Some?
  }

  /** Every tool fragment of the event names its call itself. */
  predicate Keyed(strict: bool, event: ChatEvent) {
    event.choices.Some? && |event.choices.value| == 1 ==> AllKeyed(strict, event.choices.value[0].delta.toolCalls)
  }

  /** The fragment, if any, that one element sends to the call at `key`. */
  function DeltaFragment(strict: bool, d: ToolDelta, position: nat, key: nat): seq<string> {
    if KeyOf(strict, d, position) == Some(key) && d.arguments != "" then [d.arguments] else []
  }

  /** The fragments the first `n` elements send to the call at `key`. */
  function DeltaFragments(strict: bool, ds: seq<ToolDelta>, n: nat, key: nat): seq<string>
    requires n <= |ds|
  {
    if n == 0 then [] else DeltaFragments(strict, ds, n - 1, key) + DeltaFragment(strict, ds[n - 1], n - 1, key)
  }

  /** The legacy form speaks of call 0. */
  function FunctionFragment(d: Option<FunctionDelta>, key: nat): seq<string> {
    if d.Some? && d.value.FunctionDelta? && key == 0 && d.value.arguments != "" then [d.value.arguments] else []
  }

  function FragmentsIn(strict: bool, event: ChatEvent, key: nat): seq<string> {
    if event.choices.Some? && |event.choices.value| == 1 then
      var delta := event.choices.value[0].delta;
      DeltaFragments(strict, delta.toolCalls, |delta.toolCalls|, key) + FunctionFragment(delta.functionCall, key)
    else []
  }

  /** The fragments the upstream sent to the call at `key` before ending the stream. */
  function FragmentsSent(strict: bool, events: seq<ChatEvent>, key: nat): seq<string> {
    if events == [] then []
    else
      var init := events[..|events| - 1];
      if HasEnded(init) then FragmentsSent(strict, init, key)
      else FragmentsSent(strict, init, key) + FragmentsIn(strict, events[|events| - 1], key)
  }

  function Received(st: State, key: nat): seq<string> {
    if key in st.received then st.received[key] else []
  }

  lemma UpsertReceives(st: State, at: nat, callId: Id, name: Option<string>)
    ensures at in UpsertTool(st, at, callId, name).tools
    ensures UpsertTool(st, at, callId, name).received == if at in st.tools then st.received else st.received[at := []]
  {
    if at in st.tools {
    } else {
    }
  }

  lemma AnnounceReceives(st: State, at: nat)
    requires at in st.tools
    ensures at in AnnounceTool(st, at).tools && AnnounceTool(st, at).received == st.received
  {
  }

  lemma MergeReceives(st: State, at: nat, fragment: string)
    requires at in st.tools
    ensures MergeFragment(st, at, fragment).received
         == if fragment == "" then st.received else st.received[at := Received(st, at) + [fragment]]
  {
    hide MergeInto;
  }

  lemma ApplyReceives(st: State, at: nat, callId: Id, name: Option<string>, fragment: string, key: nat)
    requires at in st.received <==> at in st.tools
    ensures Received(ApplyFragment(st, at, callId, name, fragment), key)
         == Received(st, key) + if key == at && fragment != "" then [fragment] else []
  {
    UpsertReceives(st, at, callId, name);
    var upserted := UpsertTool(st, at, callId, name);
    AnnounceReceives(upserted, at);
    MergeReceives(AnnounceTool(upserted, at), at, fragment);
    hide UpsertTool, AnnounceTool, MergeFragment;
  }

  lemma SameKeys(st: State)
    requires Ownership(st)
    ensures st.received.Keys == st.tools.Keys
  {
    hide OwnedBy;
  }

  lemma ToolDeltaReceives(st: State, d: ToolDelta, position: nat, key: nat)
    requires Live(st) && (d.ToolDelta? ==> KeyOf(st.strict, d, position).Some?)
    ensures var (next, error) := EmitToolDelta(st, d, position);
            error.None? ==> Received(next, key) == Received(st, key) + DeltaFragment(st.strict, d, position, key)
  {
    hide ApplyFragment, Ownership, Wire, Phases, Buffers;
    assert st.received.Keys == st.tools.Keys by {
      SameKeys(st);
    }
    if d.ToolDelta? && !(d.name.None? && d.arguments == "") {
      var named := if d.id.Some? then st else st.(serial := st.serial + 1);
      var callId := if d.id.Some? then Given(d.id.value) else Generated(st.serial);
      ApplyReceives(named, RouteKey(st, d, position), callId, d.name, d.arguments, key);
    }
  }

  lemma {:induction false} ToolDeltasReceive(st: State, ds: seq<ToolDelta>, n: nat, key: nat)
    requires Live(st) && n <= |ds| && AllKeyed(st.strict, ds)
    ensures var (next, error) := EmitToolDeltas(st, ds, n);
            error.None? ==> Received(next, key) == Received(st, key) + DeltaFragments(st.strict, ds, n, key)
  {
    hide EmitToolDelta, EmitCreated, EmitReasoningDone, Live, KeyOf, DeltaFragment, Steady;
    if n > 0 {
      ToolDeltasReceive(st, ds, n - 1, key);
      var (mid, error) := EmitToolDeltas(st, ds, n - 1);
      EmitToolDeltasKeeps(st, ds, n - 1);
      QuietReceives(mid);
      ToolDeltaReceives(EmitReasoningDone(EmitCreated(mid)), ds[n - 1], n - 1, key);
      hide Received;
    }
  }

  lemma QuietReceives(st: State)
    requires Live(st)
    ensures var next := EmitReasoningDone(EmitCreated(st));
            Live(next) && next.received == st.received && next.strict == st.strict && next.tools == st.tools
  {
    hide Inv, EmitCreated, EmitReasoningDone;
    EmitCreatedKeeps(st);
    EmitReasoningDoneKeeps(EmitCreated(st));
  }

  lemma FunctionReceives(st: State, d: Option<FunctionDelta>, key: nat)
    requires Live(st)
    ensures var (next, error) := EmitFunctionDelta(st, d);
            error.None? ==> Received(next, key) == Received(st, key) + FunctionFragment(d, key)
  {
    hide EmitCreated, EmitReasoningDone, ApplyFragment, Ownership, Wire, Phases, Buffers;
    if d.Some? && d.value.FunctionDelta? {
      QuietReceives(st);
      var ready := EmitReasoningDone(EmitCreated(st));
      SameKeys(ready);
      ApplyReceives(ready, 0, Given(d.value.id), Some(d.value.name), d.value.arguments, key);
    }
  }

  lemma ChoiceReceives(st: State, choice: Choice, key: nat)
    requires Live(st) && AllKeyed(st.strict, choice.delta.toolCalls)
    ensures var (next, error) := EmitChoice(st, choice);
            var ds := choice.delta.toolCalls;
            error.None? ==>
              Received(next, key) == Received(st, key)
                + (DeltaFragments(st.strict, ds, |ds|, key) + FunctionFragment(choice.delta.functionCall, key))
  {
    hide EmitReasoning, EmitContent, EmitToolDeltas, EmitFunctionDelta, EmitCreated, Live, AllKeyed;
    var delta := choice.delta;
    var reasoned := EmitReasoning(st, delta.reasoning);
    EmitReasoningKeeps(st, delta.reasoning);
    EmitContentKeeps(reasoned, delta.content);
    var (texted, textError) := EmitContent(reasoned, delta.content);
    ToolDeltasReceive(texted, delta.toolCalls, |delta.toolCalls|, key);
    EmitToolDeltasKeeps(texted, delta.toolCalls, |delta.toolCalls|);
    var (called, callError) := EmitToolDeltas(texted, delta.toolCalls, |delta.toolCalls|);
    FunctionReceives(called, delta.functionCall, key);
    var (functioned, error) := EmitFunctionDelta(called, delta.functionCall);
    CreatedReceives(functioned);
    var announced := if HasRelevantContent(delta) then EmitCreated(functioned) else functioned;
    if choice.finishReason.Some? {
      CreatedReceives(announced.(incompleteReason := IncompleteReason(choice.finishReason.value)));
    }
  }

  lemma CreatedReceives(st: State)
    ensures EmitCreated(st).received == st.received
  {
  }

  lemma TranslateReceives(st: State, event: ChatEvent, key: nat)
    requires Live(st) && Announced(st) && Keyed(st.strict, event)
    ensures var (next, error) := Translate(st, event);
            error.None? ==> Received(next, key) == Received(st, key) + FragmentsIn(st.strict, event, key)
  {
    hide EmitChoice, Finish, Inv, Announced, Closed, FaithfulStream;
    var counted := if event.usage.Some? then st.(usage := event.usage) else st;
    UsageKeeps(st, event.usage);
    TranslateKeeps(st, event);
    if event.choices.Some? && |event.choices.value| == 1 {
      ChoiceReceives(counted, event.choices.value[0], key);
    }
  }

  lemma {:induction false} RunReceives(strict: bool, events: seq<ChatEvent>, key: nat)
    requires Run(strict, events).Some? && forall i | 0 <= i < |events| :: Keyed(strict, events[i])
    ensures Received(Run(strict, events).value, key) == FragmentsSent(strict, events, key)
  {
    hide Live, Announced, Closed, FaithfulStream, Translate, FragmentsIn, HasEnded, Keyed, TextSentUpstream, Inv;
    if events != [] {
      var init, last := events[..|events| - 1], events[|events| - 1];
      RunReceives(strict, init, key);
      RunInvariant(strict, init);
      var st := Run(strict, init).value;
      if st.completed {
        TranslateAfterEnd(st, last);
      } else {
        assert Keyed(strict, last);
        TranslateReceives(st, last, key);
        assert Run(strict, events) == Some(Translate(st, last).0);
      }
    }
  }

  /** Each call's buffer is the merge of exactly the fragments sent to it by index, or by position. */
  lemma KeyedBuffers(strict: bool, events: seq<ChatEvent>, key: nat)
    requires RunToEnd(strict, events).Some? && (forall i | 0 <= i < |events| :: Keyed(strict, events[i]))
    ensures var sent, fragments := RunToEnd(strict, events).value, FragmentsSent(strict, events, key);
            && (fragments != [] ==> key in sent.tools)
            && (key in sent.tools ==>
                  && key in sent.received && sent.received[key] == fragments
                  && sent.tools[key].arguments == Accumulate("", fragments, strict)
                  && (sent.tools[key].desynced <==> EverReplaced("", fragments, strict)))
  {
    hide Run, Finish, Live, FaithfulStream, Accumulate, EverReplaced, FragmentsSent;
    RunReceives(strict, events, key);
    EveryRunIsFaithful(strict, events);
    FinishReceives(strict, events);
    var sent := RunToEnd(strict, events).value;
    assert sent.received.Keys == sent.tools.Keys;
  }

  lemma FinishReceives(strict: bool, events: seq<ChatEvent>)
    requires RunToEnd(strict, events).Some?
    ensures RunToEnd(strict, events).value.received == Run(strict, events).value.received
  {
    hide Live, Announced, FaithfulStream, CloseItems, OutputItems, Inv, Closed;
    RunInvariant(strict, events);
    var st := Run(strict, events).value;
    if !st.completed {
      FinishFaithful(st);
    }
  }

  /** Main result: if the fragments sent to one call spell a JSON object, array or string text, then however
      they were cut, interleaved with other calls or padded, the call's final arguments and the concatenation of the
      argument fragments a Chat client reads after the round trip are that very text. */
  lemma KeyedCallSurvives(strict: bool, events: seq<ChatEvent>, key: nat, text: string, depth: nat)
    requires RunToEnd(strict, events).Some? && (forall i | 0 <= i < |events| :: Keyed(strict, events[i]))
    requires IsDelimitedText(text, depth) && Join(FragmentsSent(strict, events, key)) == text
    ensures var sent := RunToEnd(strict, events).value;
            && key in sent.tools && sent.tools[key].arguments == text
            && R2C.Run(sent.emitted).Some?
            && R2C.ArgumentsOf(R2C.Finish(R2C.Run(sent.emitted).value).chunks, sent.tools[key].outputIndex) == text
  {
    hide RunToEnd, R2C.Run, R2C.Finish, FragmentsSent, Accumulate, EverReplaced, Trip.Framed;
    KeyedBuffers(strict, events, key);
    SplitInvariance(text, depth, FragmentsSent(strict, events, key), strict);
    Trip.RoundTripPreserves(strict, events);
  }

  /** With the strict guard, a complete placeholder sent under the same index before the real arguments is gone from
      the call's final arguments. */
  lemma PlaceholderCallRepaired(events: seq<ChatEvent>, key: nat, placeholder: string, fragments: seq<string>,
                                text: string, depth: nat)
    requires RunToEnd(true, events).Some? && (forall i | 0 <= i < |events| :: Keyed(true, events[i]))
    requires FragmentsSent(true, events, key) == [placeholder] + fragments
    requires placeholder != "" && Accepts(placeholder)
    requires IsDelimitedText(text, depth) && Join(fragments) == text && !IsSpace(text[0])
    ensures var sent := RunToEnd(true, events).value; key in sent.tools && sent.tools[key].arguments == text
  {
    hide RunToEnd, FragmentsSent, EverReplaced;
    KeyedBuffers(true, events, key);
    PlaceholderDiscarded(placeholder, text, depth, fragments);
    AccumulateAfterFirst(placeholder, fragments, true);
  }

  // ---- The ids sent under one index ----

  /** The id that one element, if it has a name or arguments, sends to the call at `key`. */
  function DeltaId(strict: bool, d: ToolDelta, position: nat, key: nat): seq<Option<string>> {
    if d.ToolDelta? && (d.name.Some? || d.arguments != "") && KeyOf(strict, d, position) == Some(key) then [d.id] else []
  }

  function DeltaIds(strict: bool, ds: seq<ToolDelta>, n: nat, key: nat): seq<Option<string>>
    requires n <= |ds|
  {
    if n == 0 then [] else DeltaIds(strict, ds, n - 1, key) + DeltaId(strict, ds[n - 1], n - 1, key)
  }

  function FunctionId(d: Option<FunctionDelta>, key: nat): seq<Option<string>> {
    if d.Some? && d.value.FunctionDelta? && key == 0 then [Some(d.value.id)] else []
  }

  function IdsIn(strict: bool, event: ChatEvent, key: nat): seq<Option<string>> {
    if event.choices.Some? && |event.choices.value| == 1 then
      var delta := event.choices.value[0].delta;
      DeltaIds(strict, delta.toolCalls, |delta.toolCalls|, key) + FunctionId(delta.functionCall, key)
    else []
  }

  /** The ids the upstream sent under one index before ending the stream, in order. */
  function IdsSent(strict: bool, events: seq<ChatEvent>, key: nat): seq<Option<string>> {
    if events == [] then []
    else
      var init := events[..|events| - 1];
      if HasEnded(init) then IdsSent(strict, init, key)
      else IdsSent(strict, init, key) + IdsIn(strict, events[|events| - 1], key)
  }

  /** One id arrived for each id sent, empty exactly when that was the empty text. */
  ghost predicate Matching(ids: seq<Id>, sent: seq<Option<string>>) {
    |ids| == |sent| && forall j | 0 <= j < |ids| :: ids[j] == Given("") <==> sent[j] == Some("")
  }

  lemma MatchingAppend(ids: seq<Id>, sent: seq<Option<string>>, moreIds: seq<Id>, moreSent: seq<Option<string>>)
    requires Matching(ids, sent) && Matching(moreIds, moreSent)
    ensures Matching(ids + moreIds, sent + moreSent)
  {
  }

  lemma {:induction false} IdsAppend(left: seq<A.Arrival>, right: seq<A.Arrival>, key: nat)
    ensures A.IdsAt(left + right, key) == A.IdsAt(left, key) + A.IdsAt(right, key)
  {
    if right == [] {
      assert left + right == left;
    } else {
      var init, last := right[..|right| - 1], right[|right| - 1];
      assert right == init + [last] && left + right == (left + init) + [last];
      IdsAppend(left, init, key);
      A.ArrivalSnoc(left + init, last, key);
      A.ArrivalSnoc(init, last, key);
    }
  }

  lemma DeltaMatches(st: State, d: ToolDelta, position: nat, key: nat)
    requires d.ToolDelta? ==> KeyOf(st.strict, d, position).Some?
    ensures Matching(A.IdsAt(A.DeltaArrival(st, d, position), key), DeltaId(st.strict, d, position, key))
  {
    if A.IsApplied(d) {
      var a := A.DeltaArrival(st, d, position)[0];
      A.ArrivalSnoc([], a, key);
      assert [] + [a] == [a];
    }
  }

  lemma OneMoreDelta(st: State, ds: seq<ToolDelta>, n: nat, key: nat)
    requires 0 < n <= |ds|
    ensures A.DeltaArrivals(st, ds, n) == A.DeltaArrivals(st, ds, n - 1)
              + A.DeltaArrival(A.Readied(EmitToolDeltas(st, ds, n - 1).0), ds[n - 1], n - 1)
    ensures DeltaIds(st.strict, ds, n, key) == DeltaIds(st.strict, ds, n - 1, key) + DeltaId(st.strict, ds[n - 1],
                                                                                             n - 1, key)
  {
    hide A.DeltaArrival, DeltaId, EmitToolDeltas, EmitCreated, EmitReasoningDone;
  }

  lemma StepMatches(before: seq<A.Arrival>, sent: seq<Option<string>>, more: seq<A.Arrival>,
                    moreSent: seq<Option<string>>, key: nat)
    requires Matching(A.IdsAt(before, key), sent) && Matching(A.IdsAt(more, key), moreSent)
    ensures Matching(A.IdsAt(before + more, key), sent + moreSent)
  {
    IdsAppend(before, more, key);
    MatchingAppend(A.IdsAt(before, key), sent, A.IdsAt(more, key), moreSent);
    hide A.IdsAt, Matching;
  }

  lemma NothingMatches(st: State, ds: seq<ToolDelta>, key: nat)
    ensures Matching(A.IdsAt(A.DeltaArrivals(st, ds, 0), key), DeltaIds(st.strict, ds, 0, key))
  {
  }

  lemma {:induction false} DeltasMatch(st: State, ds: seq<ToolDelta>, n: nat, key: nat)
    requires Live(st) && n <= |ds| && AllKeyed(st.strict, ds) && EmitToolDeltas(st, ds, n).1.None?
    ensures Matching(A.IdsAt(A.DeltaArrivals(st, ds, n), key), DeltaIds(st.strict, ds, n, key))
  {
    hide A.DeltaArrival, A.DeltaArrivals, A.IdsAt, DeltaId, DeltaIds, Matching, EmitToolDelta, KeyOf, Live;
    if n == 0 {
      NothingMatches(st, ds, key);
    } else {
      var mid := EmitToolDeltas(st, ds, n - 1).0;
      EmitToolDeltasKeeps(st, ds, n - 1);
      QuietReceives(mid);
      hide EmitCreated, EmitReasoningDone;
      OneMoreDelta(st, ds, n, key);
      DeltasMatch(st, ds, n - 1, key);
      DeltaMatches(A.Readied(mid), ds[n - 1], n - 1, key);
      StepMatches(A.DeltaArrivals(st, ds, n - 1), DeltaIds(st.strict, ds, n - 1, key),
                  A.DeltaArrival(A.Readied(mid), ds[n - 1], n - 1), DeltaId(st.strict, ds[n - 1], n - 1, key), key);
    }
  }

  lemma FunctionMatches(st: State, d: Option<FunctionDelta>, key: nat)
    ensures Matching(A.IdsAt(A.FunctionArrival(st, d), key), FunctionId(d, key))
  {
    if d.Some? && d.value.FunctionDelta? {
      var a := A.FunctionArrival(st, d)[0];
      A.ArrivalSnoc([], a, key);
      assert [] + [a] == [a];
    }
  }

  lemma ChoiceMatches(st: State, choice: Choice, key: nat)
    requires Live(st) && AllKeyed(st.strict, choice.delta.toolCalls) && EmitDelta(st, choice.delta).1.None?
    ensures var delta := choice.delta;
            Matching(A.IdsAt(A.ChoiceArrivals(st, choice), key),
                     DeltaIds(st.strict, delta.toolCalls, |delta.toolCalls|, key) + FunctionId(delta.functionCall, key))
  {
    var delta := choice.delta;
    hide EmitReasoning, EmitContent, EmitToolDeltas, EmitFunctionDelta, AllKeyed, Live, Matching, DeltaIds, FunctionId;
    hide A.DeltaArrivals, A.FunctionArrival, A.IdsAt;
    var reasoned := EmitReasoning(st, delta.reasoning);
    EmitReasoningKeeps(st, delta.reasoning);
    EmitContentKeeps(reasoned, delta.content);
    var texted := EmitContent(reasoned, delta.content).0;
    var called := EmitToolDeltas(texted, delta.toolCalls, |delta.toolCalls|).0;
    DeltasMatch(texted, delta.toolCalls, |delta.toolCalls|, key);
    FunctionMatches(called, delta.functionCall, key);
    StepMatches(A.DeltaArrivals(texted, delta.toolCalls, |delta.toolCalls|),
                DeltaIds(st.strict, delta.toolCalls, |delta.toolCalls|, key),
                A.FunctionArrival(called, delta.functionCall), FunctionId(delta.functionCall, key), key);
  }

  lemma EventMatches(st: State, event: ChatEvent, key: nat)
    requires Live(st) && Keyed(st.strict, event) && Translate(st, event).1.None?
    ensures Matching(A.IdsAt(A.EventArrivals(st, event), key), IdsIn(st.strict, event, key))
  {
    if event.choices.Some? && |event.choices.value| == 1 {
      hide EmitDelta, A.ChoiceArrivals, A.IdsAt, Live, Matching, DeltaIds, FunctionId, AllKeyed;
      UsageKeeps(st, event.usage);
      ChoiceMatches(st.(usage := if event.usage.Some? then event.usage else st.usage), event.choices.value[0], key);
    }
  }

  lemma {:induction false} RunMatches(strict: bool, events: seq<ChatEvent>, key: nat)
    requires Run(strict, events).Some? && forall i | 0 <= i < |events| :: Keyed(strict, events[i])
    ensures Matching(A.IdsAt(A.Arrivals(strict, events), key), IdsSent(strict, events, key))
  {
    hide Live, Announced, Closed, FaithfulStream, Translate, IdsIn, HasEnded, Keyed, TextSentUpstream, Inv;
    hide A.EventArrivals;
    if events != [] {
      var init, last := events[..|events| - 1], events[|events| - 1];
      var before, st := A.Arrivals(strict, init), Run(strict, init).value;
      RunMatches(strict, init, key);
      RunInvariant(strict, init);
      if st.completed {
        NothingAfterEnd(st, last);
        assert before + [] == before;
      } else {
        assert Keyed(strict, last);
        EventMatches(st, last, key);
        StepMatches(before, IdsSent(strict, init, key), A.EventArrivals(st, last), IdsIn(strict, last, key), key);
      }
    }
  }

  lemma NothingAfterEnd(st: State, event: ChatEvent)
    requires st.completed
    ensures A.EventArrivals(st, event) == []
  {
  }

  /** In a run whose fragments name their calls themselves, all events about the call at an index carry one item id
      exactly when the first id sent under it is not the empty text, or every one is. */
  lemma KeyedOneIdIff(strict: bool, events: seq<ChatEvent>, key: nat)
    requires RunToEnd(strict, events).Some? && (forall i | 0 <= i < |events| :: Keyed(strict, events[i]))
    requires key in RunToEnd(strict, events).value.tools
    ensures var st, sent := RunToEnd(strict, events).value, IdsSent(strict, events, key);
            && sent != []
            && (Identity.OneId(st.emitted, st.tools[key].outputIndex) <==>
                sent[0] != Some("") || forall j | 0 <= j < |sent| :: sent[j] == Some(""))
  {
    RunMatches(strict, events, key);
    Identity.CallOneIdIff(strict, events, key);
    hide Run, Finish, A.Arrivals, IdsSent, A.IdsAt, A.FillsAt, Identity.OneId;
  }

  /** In such a run a call exists exactly when a fragment with a name or arguments, or the legacy form, was sent to it. */
  lemma KeyedCallOpensIff(strict: bool, events: seq<ChatEvent>, key: nat)
    requires RunToEnd(strict, events).Some? && (forall i | 0 <= i < |events| :: Keyed(strict, events[i]))
    ensures key in RunToEnd(strict, events).value.tools <==> IdsSent(strict, events, key) != []
  {
    hide RunToEnd, A.Arrivals, IdsSent, A.IdsAt, A.FillsAt, A.TrackedCall, Keyed;
    RunKeyedMatches(strict, events, key);
    ArrivalRuns.EndTracked(strict, events);
    assert A.TrackedAt(RunToEnd(strict, events).value, A.Arrivals(strict, events), key);
  }

  lemma RunKeyedMatches(strict: bool, events: seq<ChatEvent>, key: nat)
    requires RunToEnd(strict, events).Some? && (forall i | 0 <= i < |events| :: Keyed(strict, events[i]))
    ensures |A.IdsAt(A.Arrivals(strict, events), key)| == |IdsSent(strict, events, key)|
  {
    RunMatches(strict, events, key);
    hide Run, A.Arrivals, IdsSent, A.IdsAt, Keyed;
  }

  // ---- Fragments with neither index nor id ----

  /** The open call contradicts the name the fragment brings. */
  predicate NameConflicts(t: ToolCall, d: ToolDelta)
    requires d.ToolDelta?
  {
    !NameMissing(d.name) && !NameMissing(t.name) && d.name != t.name
  }

  /** With strict merging, a fragment with neither index nor id continues a call of a live translator exactly when
      there is a single call and its name does not conflict; otherwise it opens a new one. */
  lemma StrictContinuation(st: State, d: ToolDelta, position: nat)
    requires Live(st) && st.strict && d.ToolDelta? && d.index.None? && d.id.None?
    ensures RouteKey(st, d, position) in st.tools <==>
      exists k :: k in st.tools && st.tools.Keys == {k} && !NameConflicts(st.tools[k], d)
  {
    hide Inv;
    var open := set k | k in st.tools && !st.tools[k].done;
    assert open == st.tools.Keys;
    if |open| == 1 {
      var only := Least(open);
      OneElement(open, only);
      assert st.tools.Keys == {only};
    }
  }

  lemma OneElement(s: set<nat>, k: nat)
    requires |s| == 1 && k in s
    ensures s == {k}
  {
    assert |s - {k}| == 0;
  }
}
