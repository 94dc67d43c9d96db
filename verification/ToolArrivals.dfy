/** The fragments a Chat-to-Responses run applies to its calls, one by one with the call each reaches, and what the
    calls have come to after them: identity, buffer, and what was streamed. */
module ToolArrivals {
  import opened Collections
  import opened StreamEvents
  import opened ToolArguments
  import opened ChatToResponses
  import opened ChatToResponsesFinal

  /** One applied fragment: the call it reaches, the call id and the name it brings, its arguments, the entry it
      finds there, and whether its id alone chose the call. */
  datatype Arrival = Arrival(
    key: nat, callId: Id, name: Option<string>, fragment: string, entry: Option<ToolCall>, byId: bool)

  function Entry(st: State, key: nat): Option<ToolCall> {
    if key in st.tools then Some(st.tools[key]) else None
  }

  /** The id a fragment brings; without one it draws an unused name. */
  function BroughtId(st: State, d: ToolDelta): Id
    requires d.ToolDelta?
  {
    if d.id.Some? then Given(d.id.value) else Generated(st.serial)
  }

  /** An element without name and arguments is skipped. */
  predicate IsApplied(d: ToolDelta) {
    d.ToolDelta? && !(d.name.None? && d.arguments == "")
  }

  function DeltaArrival(st: State, d: ToolDelta, position: nat): seq<Arrival> {
    if !IsApplied(d) then []
    else
      var key := RouteKey(st, d, position);
      [Arrival(key, BroughtId(st, d), d.name, d.arguments, Entry(st, key), d.index.None? && d.id.Some?)]
  }

  /** Announcing the response and closing the reasoning item come before every fragment. */
  function Readied(st: State): State {
    EmitReasoningDone(EmitCreated(st))
  }

  function DeltaArrivals(st: State, ds: seq<ToolDelta>, n: nat): seq<Arrival>
    requires n <= |ds|
  {
    if n == 0 then []
    else DeltaArrivals(st, ds, n - 1) + DeltaArrival(Readied(EmitToolDeltas(st, ds, n - 1).0), ds[n - 1], n - 1)
  }

  /** The legacy form always reaches key 0. */
  function FunctionArrival(st: State, d: Option<FunctionDelta>): seq<Arrival> {
    match d
    case Some(FunctionDelta(id, name, arguments)) => [Arrival(0, Given(id), Some(name), arguments,
                                                              Entry(Readied(st), 0), false)]
    case _ => []
  }

  function ChoiceArrivals(st: State, choice: Choice): seq<Arrival> {
    var ds, texted := choice.delta.toolCalls,
      EmitContent(EmitReasoning(st, choice.delta.reasoning), choice.delta.content).0;
    DeltaArrivals(texted, ds, |ds|) + FunctionArrival(EmitToolDeltas(texted, ds, |ds|).0, choice.delta.functionCall)
  }

  function EventArrivals(st: State, event: ChatEvent): seq<Arrival> {
    if st.completed || event.choices.None? || |event.choices.value| != 1 then []
    else ChoiceArrivals(st.(usage := if event.usage.Some? then event.usage else st.usage), event.choices.value[0])
  }

  /** The fragments an error-free run applies, in order. */
  function Arrivals(strict: bool, events: seq<ChatEvent>): seq<Arrival> {
    if events == [] then []
    else
      var init := events[..|events| - 1];
      Arrivals(strict, init) + match Run(strict, init)
        case None => []
        case Some(st) => EventArrivals(st, events[|events| - 1])
  }

  // ---- What arrived at one call ----

  function IdsAt(arrivals: seq<Arrival>, key: nat): seq<Id> {
    if arrivals == [] then []
    else
      var last := arrivals[|arrivals| - 1];
      IdsAt(arrivals[..|arrivals| - 1], key) + if last.key == key then [last.callId] else []
  }

  function NamesAt(arrivals: seq<Arrival>, key: nat): seq<Option<string>> {
    if arrivals == [] then []
    else
      var last := arrivals[|arrivals| - 1];
      NamesAt(arrivals[..|arrivals| - 1], key) + if last.key == key then [last.name] else []
  }

  /** The first name that is there. */
  function FirstName(names: seq<Option<string>>): Option<string> {
    if names == [] then None
    else if FirstName(names[..|names| - 1]).Some? then FirstName(names[..|names| - 1])
    else names[|names| - 1]
  }

  /** How the first fragment of a call announces it. */
  function Announcement(id: Id, name: Option<string>): Item {
    FunctionCall(id, InProgress, id, name.GetOr(""), "")
  }

  function FragmentsAt(arrivals: seq<Arrival>, key: nat): seq<string> {
    if arrivals == [] then []
    else
      var last := arrivals[|arrivals| - 1];
      FragmentsAt(arrivals[..|arrivals| - 1], key) + if last.key == key && last.fragment != "" then [last.fragment] else []
  }

  /** The first non-empty id, or the empty one. */
  function Settled(ids: seq<Id>): Id {
    if ids == [] then Given("")
    else if Settled(ids[..|ids| - 1]) != Given("") then Settled(ids[..|ids| - 1])
    else ids[|ids| - 1]
  }

  /** The fragment brings an id to an entry that has none: the guard that renames a call. */
  predicate Fills(a: Arrival) {
    a.entry.Some? && a.entry.value.itemId == Given("") && a.callId != Given("")
  }

  predicate FillsAt(arrivals: seq<Arrival>, key: nat) {
    exists n :: 0 <= n < |arrivals| && arrivals[n].key == key && Fills(arrivals[n])
  }

  /** The fragments before the first one that replaced the buffer, joined. */
  function StreamedPart(fragments: seq<string>, strict: bool): string {
    if fragments == [] then ""
    else
      var init := StreamedPart(fragments[..|fragments| - 1], strict);
      if EverReplaced("", fragments, strict) then init else init + fragments[|fragments| - 1]
  }

  // ---- What was said about one output index ----

  function DeltasAt(events: seq<Event>, i: nat): string {
    if events == [] then ""
    else
      var last := events[|events| - 1];
      DeltasAt(events[..|events| - 1], i) + if last.ArgumentsDelta? && last.outputIndex == i then last.delta else ""
  }

  /** The calls announced at the index. */
  function AddedItems(events: seq<Event>, i: nat): seq<Item> {
    if events == [] then []
    else
      var last := events[|events| - 1];
      AddedItems(events[..|events| - 1], i)
      + if last.ItemAdded? && last.item.FunctionCall? && last.outputIndex == i then [last.item] else []
  }

  lemma SaidSnoc(events: seq<Event>, e: Event, i: nat)
    ensures DeltasAt(events + [e], i)
         == DeltasAt(events, i) + if e.ArgumentsDelta? && e.outputIndex == i then e.delta else ""
    ensures AddedItems(events + [e], i)
         == AddedItems(events, i) + if e.ItemAdded? && e.item.FunctionCall? && e.outputIndex == i then [e.item] else []
  {
    assert (events + [e])[..|events|] == events;
  }

  /** Events that announce no call and stream no arguments. */
  predicate IsPlain(e: Event) {
    !e.ArgumentsDelta? && !(e.ItemAdded? && e.item.FunctionCall?)
  }

  lemma {:induction false} PlainSaysNothing(events: seq<Event>, n: nat, i: nat)
    requires n <= |events| && forall m | n <= m < |events| :: IsPlain(events[m])
    ensures DeltasAt(events, i) == DeltasAt(events[..n], i) && AddedItems(events, i) == AddedItems(events[..n], i)
  {
    if n < |events| {
      var init := events[..|events| - 1];
      assert events == init + [events[|events| - 1]] && init[..n] == events[..n];
      SaidSnoc(init, events[|events| - 1], i);
      hide DeltasAt, AddedItems;
      PlainSaysNothing(init, n, i);
    } else {
      assert events[..n] == events;
    }
  }

  // ---- The correspondence ----

  /** An entry after the fragments that reached it, and what the stream said about its index. */
  ghost predicate TrackedCall(
    st: State, t: ToolCall, ids: seq<Id>, names: seq<Option<string>>, fragments: seq<string>)
  {
    && t.added && t.outputIndex < st.nextIndex
    && t.itemId == t.callId == Settled(ids)
    && t.arguments == Accumulate("", fragments, st.strict)
    && (t.desynced <==> EverReplaced("", fragments, st.strict))
    && DeltasAt(st.emitted, t.outputIndex) == StreamedPart(fragments, st.strict)
    && t.name == FirstName(names)
    && ids != [] && names != [] && AddedItems(st.emitted, t.outputIndex) == [Announcement(ids[0], names[0])]
  }

  ghost predicate TrackedAt(st: State, arrivals: seq<Arrival>, key: nat) {
    var ids := IdsAt(arrivals, key);
    && (key in st.tools <==> ids != [])
    && (key in st.tools ==>
          && key in st.received && st.received[key] == FragmentsAt(arrivals, key)
          && TrackedCall(st, st.tools[key], ids, NamesAt(arrivals, key), FragmentsAt(arrivals, key))
          && (FillsAt(arrivals, key) <==> ids[0] == Given("") && Settled(ids) != Given("")))
  }

  ghost predicate Tracked(st: State, arrivals: seq<Arrival>) {
    && (forall key: nat :: TrackedAt(st, arrivals, key))
    && (forall j, k | j in st.tools && k in st.tools && j != k :: st.tools[j].outputIndex != st.tools[k].outputIndex)
    && (forall i: nat | st.nextIndex <= i :: DeltasAt(st.emitted, i) == "" && AddedItems(st.emitted, i) == [])
  }

  // ---- Steps that touch no call ----

  /** Calls change at most their `done` marks, and only plain events go out. */
  ghost predicate Quietly(st: State, next: State) {
    && SameCalls(st.tools, next.tools) && next.received == st.received && next.strict == st.strict
    && st.nextIndex <= next.nextIndex
    && st.emitted <= next.emitted
    && forall n | |st.emitted| <= n < |next.emitted| :: IsPlain(next.emitted[n])
  }

  lemma QuietlyTwice(st: State, mid: State, next: State)
    requires Quietly(st, mid) && Quietly(mid, next)
    ensures Quietly(st, next)
  {
    forall n | |st.emitted| <= n < |next.emitted|
      ensures IsPlain(next.emitted[n])
    {
      if n < |mid.emitted| {
        assert next.emitted[n] == mid.emitted[n];
      }
    }
  }

  lemma QuietSays(st: State, next: State, i: nat)
    requires Quietly(st, next)
    ensures DeltasAt(next.emitted, i) == DeltasAt(st.emitted, i)
    ensures AddedItems(next.emitted, i) == AddedItems(st.emitted, i)
  {
    PlainSaysNothing(next.emitted, |st.emitted|, i);
    assert next.emitted[..|st.emitted|] == st.emitted;
  }

  lemma QuietTracks(st: State, next: State, arrivals: seq<Arrival>)
    requires Tracked(st, arrivals) && Quietly(st, next)
    ensures Tracked(next, arrivals)
  {
    forall i: nat
      ensures DeltasAt(next.emitted, i) == DeltasAt(st.emitted, i)
      ensures AddedItems(next.emitted, i) == AddedItems(st.emitted, i)
    {
      QuietSays(st, next, i);
    }
    hide DeltasAt, AddedItems, IdsAt, FragmentsAt, Settled, FillsAt, Accumulate, EverReplaced, StreamedPart;
    forall key: nat
      ensures TrackedAt(next, arrivals, key)
    {
      assert TrackedAt(st, arrivals, key);
    }
  }

  /** One more plain event. */
  lemma SaysQuietly(st: State, next: State, e: Event)
    requires next.tools == st.tools && next.received == st.received && next.strict == st.strict
    requires st.nextIndex <= next.nextIndex && next.emitted == st.emitted + [e] && IsPlain(e)
    ensures Quietly(st, next)
  {
  }

  lemma CreatedQuiet(st: State)
    ensures Quietly(st, EmitCreated(st))
  {
  }

  lemma StartReasoningQuiet(st: State)
    ensures Quietly(st, StartReasoning(st))
  {
    NothingQuiet(st);
    hide Quietly;
    if st.reasoning.None? {
      SaysQuietly(st, StartReasoning(st),
                  ItemAdded(st.sequence + 1, st.nextIndex, Reasoning(Generated(st.serial), InProgress, "")));
    }
  }

  lemma AppendReasoningQuiet(st: State, delta: string)
    ensures Quietly(st, AppendReasoning(st, delta))
  {
    NothingQuiet(st);
    hide Quietly;
    if st.reasoning.Some? {
      var r := st.reasoning.value;
      SaysQuietly(st, AppendReasoning(st, delta), ReasoningDelta(st.sequence + 1, r.itemId, r.outputIndex, delta));
    }
  }

  lemma ReasoningQuiet(st: State, delta: string)
    ensures Quietly(st, EmitReasoning(st, delta))
  {
    NothingQuiet(st);
    hide EmitCreated, StartReasoning, AppendReasoning, Quietly;
    if delta != "" {
      var announced, started := EmitCreated(st), StartReasoning(EmitCreated(st));
      CreatedQuiet(st);
      StartReasoningQuiet(announced);
      QuietlyTwice(st, announced, started);
      AppendReasoningQuiet(started, delta);
      QuietlyTwice(st, started, AppendReasoning(started, delta));
    }
  }

  lemma ReasoningDoneQuiet(st: State)
    ensures Quietly(st, EmitReasoningDone(st))
  {
    NothingQuiet(st);
    hide Quietly;
    if st.reasoning.Some? && !st.reasoning.value.done && st.reasoning.value.started {
      var r, status := st.reasoning.value, FinalStatus(st);
      var e := ReasoningDone(st.sequence + 1, r.itemId, r.outputIndex, r.text);
      var mid := Push(st.(reasoning := Some(r.(done := true, doneStatus := Some(status)))), e);
      SaysQuietly(st, mid, e);
      SaysQuietly(mid, EmitReasoningDone(st),
                  ItemDone(mid.sequence + 1, r.outputIndex, Reasoning(r.itemId, status, r.text)));
      QuietlyTwice(st, mid, EmitReasoningDone(st));
    }
  }

  lemma ReadiedQuiet(st: State)
    ensures Quietly(st, Readied(st))
  {
    CreatedQuiet(st);
    ReasoningDoneQuiet(EmitCreated(st));
    hide EmitCreated, EmitReasoningDone, Quietly;
    QuietlyTwice(st, EmitCreated(st), Readied(st));
  }

  lemma EnsureTextQuiet(st: State)
    ensures Quietly(st, EnsureTextItem(st))
  {
    var mid := IdentifyText(st);
    IdentifyTextQuiet(st);
    hide IdentifyText, Quietly;
    if !mid.textAdded {
      SaysQuietly(mid, EnsureTextItem(st),
                  ItemAdded(mid.sequence + 1, mid.textIndex.GetOr(0),
                            Message(mid.textId.GetOr(Given("")), InProgress, "")));
      QuietlyTwice(st, mid, EnsureTextItem(st));
    }
  }

  lemma IdentifyTextQuiet(st: State)
    ensures Quietly(st, IdentifyText(st))
  {
    var next := IdentifyText(st);
    IdentifyTextFrame(st);
    hide IdentifyText;
  }

  lemma IdentifyTextFrame(st: State)
    ensures var next := IdentifyText(st);
            && next.tools == st.tools && next.received == st.received && next.strict == st.strict
            && next.emitted == st.emitted && st.nextIndex <= next.nextIndex
  {
    if st.textIndex.Some? {
      if st.textId.Some? {
      }
    } else if st.textId.Some? {
    }
  }

  lemma AppendTextQuiet(st: State, text: string)
    ensures Quietly(st, AppendText(st, text))
  {
  }

  lemma NothingQuiet(st: State)
    ensures Quietly(st, st)
  {
  }

  lemma ContentQuiet(st: State, content: Content)
    ensures Quietly(st, EmitContent(st, content).0)
  {
    NothingQuiet(st);
    hide Quietly, EnsureTextItem, AppendText, EmitCreated, EmitReasoningDone;
    if content.Text? && content.text != "" {
      ReadiedQuiet(st);
      EnsureTextQuiet(Readied(st));
      QuietlyTwice(st, Readied(st), EnsureTextItem(Readied(st)));
      AppendTextQuiet(EnsureTextItem(Readied(st)), content.text);
      QuietlyTwice(st, EnsureTextItem(Readied(st)), EmitText(st, content.text));
    }
  }

  lemma TextDoneQuiet(st: State)
    ensures Quietly(st, EmitTextDone(st))
  {
  }

  lemma ToolDoneQuiet(st: State, key: nat)
    requires key in st.tools
    ensures Quietly(st, EmitToolDone(st, key))
  {
    NothingQuiet(st);
    var t := st.tools[key];
    if !t.done {
      var item := ToolItem(st, t);
      var e := ArgumentsDone(st.sequence + 1, t.itemId, t.outputIndex, item.name, item.arguments);
      var marked := st.(tools := st.tools[key := t.(done := true)]);
      var mid := Push(marked, e);
      var next := Push(mid, ItemDone(mid.sequence + 1, t.outputIndex, item));
      MarkedQuiet(st, key);
      ToolDoneIs(st, key);
      hide Quietly, EmitToolDone, ToolItem;
      SaysQuietly(marked, mid, e);
      QuietlyTwice(st, marked, mid);
      SaysQuietly(mid, next, ItemDone(mid.sequence + 1, t.outputIndex, item));
      QuietlyTwice(st, mid, next);
    }
  }

  lemma MarkedQuiet(st: State, key: nat)
    requires key in st.tools
    ensures Quietly(st, st.(tools := st.tools[key := st.tools[key].(done := true)]))
  {
  }

  lemma ToolDoneIs(st: State, key: nat)
    requires key in st.tools && !st.tools[key].done
    ensures var t := st.tools[key];
            var item := ToolItem(st, t);
            var mid := Push(st.(tools := st.tools[key := t.(done := true)]),
                            ArgumentsDone(st.sequence + 1, t.itemId, t.outputIndex, item.name, item.arguments));
            EmitToolDone(st, key) == Push(mid, ItemDone(mid.sequence + 1, t.outputIndex, item))
  {
    hide NormalizeArguments;
  }

  lemma {:induction false} ToolDonesQuiet(st: State, keys: seq<nat>, n: nat)
    requires n <= |keys| && forall i | 0 <= i < |keys| :: keys[i] in st.tools
    ensures Quietly(st, EmitToolDones(st, keys, n))
  {
    NothingQuiet(st);
    hide EmitToolDone, Quietly;
    if n > 0 {
      ToolDonesQuiet(st, keys, n - 1);
      var mid := EmitToolDones(st, keys, n - 1);
      ToolDoneQuiet(mid, keys[n - 1]);
      QuietlyTwice(st, mid, EmitToolDone(mid, keys[n - 1]));
    }
  }

  lemma TerminalQuiet(st: State)
    ensures Quietly(st, PushTerminal(st))
  {
    hide OutputItems;
  }

  lemma FinishQuiet(st: State)
    ensures Quietly(st, Finish(st))
  {
    NothingQuiet(st);
    if !st.completed {
      ReadiedQuiet(st);
      TextDoneQuiet(Readied(st));
      var texted := EmitTextDone(Readied(st));
      var keys := Ascending(texted.tools.Keys);
      ToolDonesQuiet(texted, keys, |keys|);
      TerminalQuiet(EmitToolDones(texted, keys, |keys|));
      SameKeysAtEnd(st);
      hide Quietly, EmitTextDone, EmitToolDones, PushTerminal, EmitCreated, EmitReasoningDone;
      QuietlyTwice(st, Readied(st), texted);
      QuietlyTwice(st, texted, EmitToolDones(texted, keys, |keys|));
      QuietlyTwice(st, EmitToolDones(texted, keys, |keys|), Finish(st));
    }
  }

  lemma SameKeysAtEnd(st: State)
    ensures EmitTextDone(Readied(st)).tools == Readied(st).tools
  {
    hide EmitCreated, EmitReasoningDone;
  }

  // ---- One fragment ----

  /** The entry after a fragment. */
  function Reached(st: State, key: nat, callId: Id, name: Option<string>, fragment: string): ToolCall {
    var t := (if key in st.tools then RefreshTool(st.tools[key], callId, name)
              else ToolCall(callId, callId, st.nextIndex, name, "", false, false, false)).(added := true);
    if fragment == "" then t else MergeInto(t, fragment, st.strict)
  }

  /** The events a fragment causes. */
  function Heard(st: State, key: nat, callId: Id, name: Option<string>, fragment: string): seq<Event> {
    var t := Reached(st, key, callId, name, fragment);
    var announcement := if key in st.tools then []
      else [ItemAdded(st.sequence + 1, st.nextIndex, FunctionCall(callId, InProgress, callId, name.GetOr(""), ""))];
    announcement
    + if fragment == "" || t.desynced then []
      else [ArgumentsDelta(st.sequence + |announcement| + 1, t.itemId, t.outputIndex, fragment)]
  }

  lemma UpsertEffect(st: State, key: nat, callId: Id, name: Option<string>)
    ensures var next := UpsertTool(st, key, callId, name);
            && next.tools == st.tools[key := if key in st.tools then RefreshTool(st.tools[key], callId, name)
                                             else ToolCall(callId, callId, st.nextIndex, name, "", false, false, false)]
            && next.received == (if key in st.tools then st.received else st.received[key := []])
            && next.nextIndex == st.nextIndex + (if key in st.tools then 0 else 1)
            && next.emitted == st.emitted && next.sequence == st.sequence && next.strict == st.strict
  {
    if key in st.tools {
    } else {
    }
  }

  lemma AnnounceEffect(st: State, key: nat)
    requires key in st.tools
    ensures var next, t := AnnounceTool(st, key), st.tools[key];
            var e := ItemAdded(st.sequence + 1, t.outputIndex,
                               FunctionCall(t.itemId, InProgress, t.callId, t.name.GetOr(""), ""));
            && next.tools == st.tools[key := t.(added := true)]
            && next.received == st.received && next.nextIndex == st.nextIndex && next.strict == st.strict
            && next.emitted == (if t.added then st.emitted else st.emitted + [e])
            && next.sequence == st.sequence + (if t.added then 0 else 1)
  {
  }

  lemma MergeEffect(st: State, key: nat, fragment: string)
    requires key in st.tools
    ensures var next := MergeFragment(st, key, fragment);
            var t := if fragment == "" then st.tools[key] else MergeInto(st.tools[key], fragment, st.strict);
            && next.tools == st.tools[key := t]
            && next.nextIndex == st.nextIndex && next.strict == st.strict
            && next.received == (if fragment == "" then st.received
                                 else st.received[key := (if key in st.received then st.received[key] else [])
                                                        + [fragment]])
            && next.emitted == st.emitted + (if fragment == "" || t.desynced then []
                                             else [ArgumentsDelta(st.sequence + 1, t.itemId, t.outputIndex, fragment)])
  {
    hide MergeInto;
  }

  /** An empty fragment is not recorded. */
  function Extended(fragments: seq<string>, fragment: string): seq<string> {
    if fragment == "" then fragments else fragments + [fragment]
  }

  /** What a fragment changes. */
  ghost predicate Applied(st: State, next: State, key: nat, callId: Id, name: Option<string>, fragment: string) {
    && next.tools == st.tools[key := Reached(st, key, callId, name, fragment)]
    && next.nextIndex == st.nextIndex + (if key in st.tools then 0 else 1)
    && next.strict == st.strict
    && key in next.received
    && next.received[key] == Extended(if key in st.tools && key in st.received then st.received[key] else [], fragment)
    && (forall k | k != key ::
          (k in next.received <==> k in st.received) && (k in st.received ==> next.received[k] == st.received[k]))
    && next.emitted == st.emitted + Heard(st, key, callId, name, fragment)
  }

  lemma AnnouncedStays(st: State, key: nat)
    requires key in st.tools && st.tools[key].added
    ensures AnnounceTool(st, key) == st
  {
  }

  lemma RefreshStaysAdded(t: ToolCall, callId: Id, name: Option<string>)
    requires t.added
    ensures RefreshTool(t, callId, name).added
    ensures RefreshTool(t, callId, name).(added := true) == RefreshTool(t, callId, name)
  {
  }

  lemma KnownApplied(st: State, key: nat, callId: Id, name: Option<string>, fragment: string)
    requires key in st.tools && st.tools[key].added && key in st.received
    ensures Applied(st, ApplyFragment(st, key, callId, name, fragment), key, callId, name, fragment)
  {
    UpsertEffect(st, key, callId, name);
    RefreshStaysAdded(st.tools[key], callId, name);
    var upserted := UpsertTool(st, key, callId, name);
    hide UpsertTool, RefreshTool;
    AnnouncedStays(upserted, key);
    MergeEffect(upserted, key, fragment);
    hide AnnounceTool, MergeFragment, MergeInto;
  }

  /** A new call, opened and announced. */
  ghost predicate Announced(st: State, next: State, key: nat, callId: Id, name: Option<string>) {
    && next.tools == st.tools[key := ToolCall(callId, callId, st.nextIndex, name, "", true, false, false)]
    && next.received == st.received[key := []]
    && next.nextIndex == st.nextIndex + 1 && next.sequence == st.sequence + 1 && next.strict == st.strict
    && next.emitted == st.emitted
         + [ItemAdded(st.sequence + 1, st.nextIndex, FunctionCall(callId, InProgress, callId, name.GetOr(""), ""))]
  }

  lemma NewAnnounced(st: State, key: nat, callId: Id, name: Option<string>)
    requires key !in st.tools
    ensures Announced(st, AnnounceTool(UpsertTool(st, key, callId, name), key), key, callId, name)
  {
    UpsertEffect(st, key, callId, name);
    AnnounceEffect(UpsertTool(st, key, callId, name), key);
    hide UpsertTool, AnnounceTool, RefreshTool;
  }

  lemma NewMerged(st: State, mid: State, key: nat, callId: Id, name: Option<string>, fragment: string)
    requires key !in st.tools && Announced(st, mid, key, callId, name)
    ensures Applied(st, MergeFragment(mid, key, fragment), key, callId, name, fragment)
  {
    MergeEffect(mid, key, fragment);
    hide MergeFragment, MergeInto, RefreshTool;
    var t := mid.tools[key];
    assert t == ToolCall(callId, callId, st.nextIndex, name, "", false, false, false).(added := true);
    assert Reached(st, key, callId, name, fragment) == if fragment == "" then t else MergeInto(t, fragment, st.strict);
  }

  lemma NewApplied(st: State, key: nat, callId: Id, name: Option<string>, fragment: string)
    requires key !in st.tools
    ensures Applied(st, ApplyFragment(st, key, callId, name, fragment), key, callId, name, fragment)
  {
    NewAnnounced(st, key, callId, name);
    hide UpsertTool, AnnounceTool, MergeFragment, Applied, Announced;
    NewMerged(st, AnnounceTool(UpsertTool(st, key, callId, name), key), key, callId, name, fragment);
  }

  // ---- One more arrival ----

  lemma ArrivalSnoc(arrivals: seq<Arrival>, a: Arrival, key: nat)
    ensures IdsAt(arrivals + [a], key) == IdsAt(arrivals, key) + if a.key == key then [a.callId] else []
    ensures NamesAt(arrivals + [a], key) == NamesAt(arrivals, key) + if a.key == key then [a.name] else []
    ensures FragmentsAt(arrivals + [a], key)
         == if a.key == key then Extended(FragmentsAt(arrivals, key), a.fragment) else FragmentsAt(arrivals, key)
    ensures FillsAt(arrivals + [a], key) <==> FillsAt(arrivals, key) || (a.key == key && Fills(a))
  {
    var all := arrivals + [a];
    assert all[..|arrivals|] == arrivals && all[|arrivals|] == a;
    hide Fills;
    if FillsAt(arrivals, key) {
      var n :| 0 <= n < |arrivals| && arrivals[n].key == key && Fills(arrivals[n]);
      assert all[n].key == key && Fills(all[n]);
    }
  }

  lemma SettledSnoc(ids: seq<Id>, id: Id)
    ensures Settled(ids + [id]) == if Settled(ids) != Given("") then Settled(ids) else id
  {
    assert (ids + [id])[..|ids|] == ids;
  }

  lemma FirstNameSnoc(names: seq<Option<string>>, name: Option<string>)
    ensures FirstName(names + [name]) == if FirstName(names).Some? then FirstName(names) else name
  {
    assert (names + [name])[..|names|] == names;
  }

  lemma FirstNameOne(name: Option<string>)
    ensures FirstName([name]) == name
  {
    assert [name][..0] == [];
    assert FirstName([]) == None;
  }

  lemma StreamedSnoc(fragments: seq<string>, fragment: string, strict: bool)
    ensures StreamedPart(fragments + [fragment], strict)
         == if EverReplaced("", fragments + [fragment], strict) then StreamedPart(fragments, strict)
            else StreamedPart(fragments, strict) + fragment
  {
    assert (fragments + [fragment])[..|fragments|] == fragments;
  }

  /** What the fragment's events add to what was said about an index. */
  lemma HeardSays(st: State, next: State, key: nat, callId: Id, name: Option<string>, fragment: string, i: nat)
    requires next.emitted == st.emitted + Heard(st, key, callId, name, fragment)
    ensures var t := Reached(st, key, callId, name, fragment);
            && DeltasAt(next.emitted, i)
               == DeltasAt(st.emitted, i) + (if fragment != "" && !t.desynced && t.outputIndex == i then fragment else "")
            && AddedItems(next.emitted, i)
               == AddedItems(st.emitted, i)
                  + if key !in st.tools && st.nextIndex == i then [Announcement(callId, name)] else []
  {
    var t := Reached(st, key, callId, name, fragment);
    hide Reached, DeltasAt, AddedItems;
    var announcement := if key in st.tools then []
      else [ItemAdded(st.sequence + 1, st.nextIndex, FunctionCall(callId, InProgress, callId, name.GetOr(""), ""))];
    var mid := st.emitted + announcement;
    assert DeltasAt(mid, i) == DeltasAt(st.emitted, i)
        && AddedItems(mid, i) == AddedItems(st.emitted, i)
             + if key !in st.tools && st.nextIndex == i then [Announcement(callId, name)] else [] by {
      if key in st.tools {
        assert mid == st.emitted;
      } else {
        SaidSnoc(st.emitted, announcement[0], i);
        assert DeltasAt(st.emitted, i) + "" == DeltasAt(st.emitted, i);
      }
    }
    if fragment == "" || t.desynced {
      assert next.emitted == mid;
    } else {
      var e := ArgumentsDelta(st.sequence + |announcement| + 1, t.itemId, t.outputIndex, fragment);
      assert next.emitted == mid + [e];
      SaidSnoc(mid, e, i);
    }
  }

  lemma ReachedIndex(st: State, key: nat, callId: Id, name: Option<string>, fragment: string)
    ensures Reached(st, key, callId, name, fragment).outputIndex
         == if key in st.tools then st.tools[key].outputIndex else st.nextIndex
  {
    hide MergeArguments;
  }

  /** The identity and the buffer after a fragment. */
  lemma ReachedCall(st: State, key: nat, callId: Id, name: Option<string>, fragment: string)
    requires key in st.tools ==> st.tools[key].added && st.tools[key].itemId == st.tools[key].callId
    ensures var t := Reached(st, key, callId, name, fragment);
            && t.added
            && t.itemId == t.callId
            && t.name == (if key in st.tools && st.tools[key].name.Some? then st.tools[key].name else name)
            && t.itemId == (if key in st.tools && st.tools[key].itemId != Given("") then st.tools[key].itemId else callId)
            && var arguments, desynced := if key in st.tools then st.tools[key].arguments else "",
                                          key in st.tools && st.tools[key].desynced;
               && t.arguments == (if fragment == "" then arguments else MergeArguments(arguments, fragment, st.strict).0)
               && (t.desynced <==>
                     desynced || (fragment != "" && MergeArguments(arguments, fragment, st.strict).1.Replaced?))
  {
    hide MergeArguments;
  }

  lemma OtherArrival(arrivals: seq<Arrival>, a: Arrival, key: nat)
    requires a.key != key
    ensures IdsAt(arrivals + [a], key) == IdsAt(arrivals, key) && NamesAt(arrivals + [a], key) == NamesAt(arrivals, key)
    ensures FragmentsAt(arrivals + [a], key) == FragmentsAt(arrivals, key)
    ensures FillsAt(arrivals + [a], key) <==> FillsAt(arrivals, key)
  {
    ArrivalSnoc(arrivals, a, key);
    hide IdsAt, NamesAt, FragmentsAt, FillsAt;
    assert IdsAt(arrivals, key) + [] == IdsAt(arrivals, key) && NamesAt(arrivals, key) + [] == NamesAt(arrivals, key);
  }

  lemma IndexApart(st: State, arrivals: seq<Arrival>, key: nat, k: nat)
    requires Tracked(st, arrivals) && k in st.tools && k != key
    ensures st.tools[k].outputIndex < st.nextIndex
    ensures key in st.tools ==> st.tools[key].outputIndex != st.tools[k].outputIndex
  {
    assert TrackedAt(st, arrivals, k);
  }

  /** Nothing is said about a call that was not reached. */
  lemma OtherSaid(st: State, next: State, arrivals: seq<Arrival>, a: Arrival, k: nat)
    requires Tracked(st, arrivals) && Applied(st, next, a.key, a.callId, a.name, a.fragment) && k != a.key
    requires k in st.tools
    ensures var i := st.tools[k].outputIndex;
            DeltasAt(next.emitted, i) == DeltasAt(st.emitted, i) && AddedItems(next.emitted, i) == AddedItems(st.emitted, i)
  {
    var i := st.tools[k].outputIndex;
    IndexApart(st, arrivals, a.key, k);
    ReachedIndex(st, a.key, a.callId, a.name, a.fragment);
    HeardSays(st, next, a.key, a.callId, a.name, a.fragment, i);
    hide Reached, Heard, DeltasAt, AddedItems, Tracked;
    assert DeltasAt(st.emitted, i) + "" == DeltasAt(st.emitted, i)
        && AddedItems(st.emitted, i) + [] == AddedItems(st.emitted, i);
  }

  lemma OtherUntouched(st: State, next: State, key: nat, callId: Id, name: Option<string>, fragment: string, k: nat)
    requires Applied(st, next, key, callId, name, fragment) && k != key
    ensures k in next.tools <==> k in st.tools
    ensures k in st.tools ==> next.tools[k] == st.tools[k]
    ensures k in next.received <==> k in st.received
    ensures k in st.received ==> next.received[k] == st.received[k]
    ensures st.nextIndex <= next.nextIndex && next.strict == st.strict
  {
    hide Reached, Heard;
  }

  /** A call that was not reached is tracked as before. */
  lemma OtherTracked(st: State, next: State, arrivals: seq<Arrival>, a: Arrival, k: nat)
    requires Tracked(st, arrivals) && Applied(st, next, a.key, a.callId, a.name, a.fragment) && k != a.key
    ensures TrackedAt(next, arrivals + [a], k)
  {
    OtherArrival(arrivals, a, k);
    assert TrackedAt(st, arrivals, k);
    OtherUntouched(st, next, a.key, a.callId, a.name, a.fragment, k);
    if k in st.tools {
      OtherSaid(st, next, arrivals, a, k);
    }
    hide NamesAt, FirstName, Announcement, StreamedPart;
    hide Applied, Tracked, DeltasAt, AddedItems, IdsAt, FragmentsAt, Settled, FillsAt, Accumulate, EverReplaced;
  }

  /** The buffer and what was streamed of it, after one more fragment. */
  lemma BufferSnoc(fragments: seq<string>, fragment: string, strict: bool, arguments: string, desynced: bool,
                   streamed: string)
    requires arguments == Accumulate("", fragments, strict) && (desynced <==> EverReplaced("", fragments, strict))
    requires streamed == StreamedPart(fragments, strict)
    ensures var all := Extended(fragments, fragment);
            var merged := MergeArguments(arguments, fragment, strict);
            var replaced := desynced || (fragment != "" && merged.1.Replaced?);
            && (if fragment == "" then arguments else merged.0) == Accumulate("", all, strict)
            && (replaced <==> EverReplaced("", all, strict))
            && streamed + (if fragment != "" && !replaced then fragment else "") == StreamedPart(all, strict)
  {
    if fragment != "" {
      AccumulateSnoc("", fragments, fragment, strict);
      StreamedSnoc(fragments, fragment, strict);
    }
    hide Accumulate, EverReplaced, StreamedPart, MergeArguments;
    assert streamed + "" == streamed;
  }

  /** The call that was reached, with what it has come to. */
  lemma ReachedIs(st: State, next: State, key: nat, callId: Id, name: Option<string>, fragment: string)
    requires Applied(st, next, key, callId, name, fragment)
    ensures key in next.tools && next.tools[key] == Reached(st, key, callId, name, fragment)
    ensures key in next.received
         && next.received[key] == Extended(if key in st.tools && key in st.received then st.received[key] else [],
                                           fragment)
    ensures next.nextIndex == st.nextIndex + (if key in st.tools then 0 else 1) && next.strict == st.strict
    ensures next.emitted == st.emitted + Heard(st, key, callId, name, fragment)
  {
    hide Reached, Heard;
  }

  /** The settled id is the first one unless that is empty, and empty exactly when all are. */
  lemma {:induction false} SettledMeaning(ids: seq<Id>)
    ensures Settled(ids) == Given("") <==> forall j | 0 <= j < |ids| :: ids[j] == Given("")
    ensures ids != [] && ids[0] != Given("") ==> Settled(ids) == ids[0]
  {
    if ids != [] {
      var init := ids[..|ids| - 1];
      SettledMeaning(init);
      assert ids == init + [ids[|ids| - 1]];
      assert init != [] ==> init[0] == ids[0];
    }
  }

  lemma FillsStep(ids: seq<Id>, id: Id, filled: bool)
    requires ids != [] && (filled <==> ids[0] == Given("") && Settled(ids) != Given(""))
    ensures (filled || (Settled(ids) == Given("") && id != Given(""))) <==>
              (ids + [id])[0] == Given("") && Settled(ids + [id]) != Given("")
  {
    SettledMeaning(ids);
    SettledSnoc(ids, id);
    hide Settled;
  }

  /** What the buffer, the identity and the stream say about the reached call. */
  lemma KnownCall(st: State, next: State, arrivals: seq<Arrival>, a: Arrival)
    requires TrackedAt(st, arrivals, a.key) && a.key in st.tools
    requires Applied(st, next, a.key, a.callId, a.name, a.fragment)
    ensures TrackedCall(next, next.tools[a.key], IdsAt(arrivals + [a], a.key), NamesAt(arrivals + [a], a.key),
                        FragmentsAt(arrivals + [a], a.key))
  {
    var key, before := a.key, st.tools[a.key];
    var i, ids, fragments := before.outputIndex, IdsAt(arrivals, key), FragmentsAt(arrivals, key);
    ArrivalSnoc(arrivals, a, key);
    ReachedIs(st, next, key, a.callId, a.name, a.fragment);
    ReachedIndex(st, key, a.callId, a.name, a.fragment);
    ReachedCall(st, key, a.callId, a.name, a.fragment);
    SettledSnoc(ids, a.callId);
    FirstNameSnoc(NamesAt(arrivals, key), a.name);
    HeardSays(st, next, key, a.callId, a.name, a.fragment, i);
    assert TrackedCall(st, before, ids, NamesAt(arrivals, key), fragments);
    hide NamesAt, FirstName, Announcement;
    hide TrackedAt, Applied, Reached, Heard, DeltasAt, AddedItems, IdsAt, FragmentsAt, Settled, FillsAt, Accumulate;
    hide EverReplaced;
    hide StreamedPart, MergeArguments, Extended;
    BufferSnoc(fragments, a.fragment, st.strict, before.arguments, before.desynced, DeltasAt(st.emitted, i));
    assert AddedItems(st.emitted, i) + [] == AddedItems(st.emitted, i);
  }

  lemma KnownTracked(st: State, next: State, arrivals: seq<Arrival>, a: Arrival)
    requires TrackedAt(st, arrivals, a.key) && a.key in st.tools && a.entry == Some(st.tools[a.key])
    requires Applied(st, next, a.key, a.callId, a.name, a.fragment)
    ensures TrackedAt(next, arrivals + [a], a.key)
  {
    var key, ids := a.key, IdsAt(arrivals, a.key);
    ArrivalSnoc(arrivals, a, key);
    ReachedIs(st, next, key, a.callId, a.name, a.fragment);
    KnownCall(st, next, arrivals, a);
    FillsStep(ids, a.callId, FillsAt(arrivals, key));
    hide NamesAt, FirstName, Announcement;
    hide Applied, Reached, Heard, DeltasAt, AddedItems, IdsAt, FragmentsAt, Settled, FillsAt, Accumulate;
    hide EverReplaced, StreamedPart;
  }

  lemma NewTracked(st: State, next: State, arrivals: seq<Arrival>, a: Arrival)
    requires TrackedAt(st, arrivals, a.key) && a.key !in st.tools && a.entry.None?
    requires DeltasAt(st.emitted, st.nextIndex) == "" && AddedItems(st.emitted, st.nextIndex) == []
    requires Applied(st, next, a.key, a.callId, a.name, a.fragment)
    ensures TrackedAt(next, arrivals + [a], a.key)
  {
    var key, i := a.key, st.nextIndex;
    ArrivalSnoc(arrivals, a, key);
    NothingYet(arrivals, key);
    ReachedIs(st, next, key, a.callId, a.name, a.fragment);
    ReachedIndex(st, key, a.callId, a.name, a.fragment);
    ReachedCall(st, key, a.callId, a.name, a.fragment);
    SettledSnoc([], a.callId);
    FirstNameSnoc([], a.name);
    assert Settled([]) == Given("");
    HeardSays(st, next, key, a.callId, a.name, a.fragment, i);
    NothingBuffered(st.strict);
    hide NamesAt, FirstName, Announcement;
    hide Applied, Reached, Heard, DeltasAt, AddedItems, IdsAt, FragmentsAt, Settled, FillsAt, Accumulate;
    hide EverReplaced, StreamedPart;
    hide MergeArguments, Extended;
    BufferSnoc([], a.fragment, st.strict, "", false, "");
    assert [] + [a.callId] == [a.callId] && [] + [a.name] == [a.name];
    assert FirstName([a.name]) == a.name by {
      FirstNameOne(a.name);
    }
    assert TrackedCall(next, next.tools[key], IdsAt(arrivals + [a], key), NamesAt(arrivals + [a], key),
                       FragmentsAt(arrivals + [a], key));
    hide TrackedCall;
  }

  /** The call that was reached. */
  lemma ReachedTracked(st: State, next: State, arrivals: seq<Arrival>, a: Arrival)
    requires Tracked(st, arrivals) && Applied(st, next, a.key, a.callId, a.name, a.fragment)
    requires a.entry == Entry(st, a.key)
    ensures TrackedAt(next, arrivals + [a], a.key)
  {
    assert TrackedAt(st, arrivals, a.key);
    hide Applied, TrackedAt, DeltasAt, AddedItems;
    if a.key in st.tools {
      KnownTracked(st, next, arrivals, a);
    } else {
      NewTracked(st, next, arrivals, a);
    }
  }

  lemma NothingBuffered(strict: bool)
    ensures Accumulate("", [], strict) == "" && !EverReplaced("", [], strict) && StreamedPart([], strict) == ""
  {
  }

  lemma {:induction false} NothingYet(arrivals: seq<Arrival>, key: nat)
    requires IdsAt(arrivals, key) == []
    ensures FragmentsAt(arrivals, key) == [] && NamesAt(arrivals, key) == [] && !FillsAt(arrivals, key)
  {
    if arrivals != [] {
      var init, last := arrivals[..|arrivals| - 1], arrivals[|arrivals| - 1];
      assert arrivals == init + [last];
      NothingYet(init, key);
      ArrivalSnoc(init, last, key);
    }
  }

  /** An applied fragment keeps the correspondence, with one more arrival. */
  lemma ApplyTracks(st: State, arrivals: seq<Arrival>, a: Arrival)
    requires Tracked(st, arrivals) && a.entry == Entry(st, a.key)
    ensures Tracked(ApplyFragment(st, a.key, a.callId, a.name, a.fragment), arrivals + [a])
  {
    var key, next := a.key, ApplyFragment(st, a.key, a.callId, a.name, a.fragment);
    assert TrackedAt(st, arrivals, key);
    if key in st.tools {
      KnownApplied(st, key, a.callId, a.name, a.fragment);
    } else {
      NewApplied(st, key, a.callId, a.name, a.fragment);
    }
    hide ApplyFragment, TrackedAt, Applied;
    forall k: nat
      ensures TrackedAt(next, arrivals + [a], k)
    {
      if k == key {
        ReachedTracked(st, next, arrivals, a);
      } else {
        OtherTracked(st, next, arrivals, a, k);
      }
    }
    ApplyIndices(st, next, arrivals, a);
  }

  /** Output indices stay distinct, and nothing was said about those to come. */
  lemma ApplyIndices(st: State, next: State, arrivals: seq<Arrival>, a: Arrival)
    requires Tracked(st, arrivals) && Applied(st, next, a.key, a.callId, a.name, a.fragment)
    ensures forall j, k | j in next.tools && k in next.tools && j != k ::
              next.tools[j].outputIndex != next.tools[k].outputIndex
    ensures forall i: nat | next.nextIndex <= i :: DeltasAt(next.emitted, i) == "" && AddedItems(next.emitted, i) == []
  {
    ReachedIndex(st, a.key, a.callId, a.name, a.fragment);
    forall k | k in st.tools
      ensures st.tools[k].outputIndex < st.nextIndex
    {
      assert TrackedAt(st, arrivals, k);
    }
    forall i: nat | next.nextIndex <= i
      ensures DeltasAt(next.emitted, i) == "" && AddedItems(next.emitted, i) == []
    {
      HeardSays(st, next, a.key, a.callId, a.name, a.fragment, i);
      hide Reached, Heard, DeltasAt, AddedItems;
    }
    hide Reached, Heard, DeltasAt, AddedItems, TrackedAt;
  }
}
