/** The Chat-to-Responses stream translator (src/protocol.rs, `ChatToResponsesState`) as a function on its state,
    with the history of everything it emitted. */
module ChatToResponses {
  import opened Collections
  import opened Ordering
  import opened StreamEvents
  import opened ToolArguments

  /** One entry of `tool_calls`. */
  datatype ToolCall = ToolCall(
    itemId: Id, callId: Id, outputIndex: nat, name: Option<string>, arguments: string,
    added: bool, done: bool, desynced: bool)

  datatype ReasoningState = ReasoningState(
    itemId: Id, outputIndex: nat, text: string, started: bool, done: bool, doneStatus: Option<Status>)

  /** Which item an output index was allocated for. */
  datatype Owner = ForReasoning | ForText | ForTool(key: nat)

  /** The translator's fields; `serial` is the supply of unused names.  The last three are histories:
      every event emitted, the owner of every allocated index, and the argument fragments each call received. */
  datatype State = State(
    created: bool, completed: bool, incompleteReason: Option<string>,
    sequence: nat, nextIndex: nat,
    textId: Option<Id>, textIndex: Option<nat>, textAdded: bool, textDone: bool, text: string,
    usage: Option<Usage>, reasoning: Option<ReasoningState>, tools: map<nat, ToolCall>,
    strict: bool, serial: nat,
    emitted: seq<Event>, owners: seq<Owner>, received: map<nat, seq<string>>)

  function Initial(strict: bool): State {
    State(false, false, None, 0, 0, None, None, false, false, "", None, None, map[], strict, 0, [], [], map[])
  }

  /** Emits an event carrying the next sequence number. */
  function Push(st: State, e: Event): State {
    st.(sequence := st.sequence + 1, emitted := st.emitted + [e])
  }

  function IncompleteReason(finishReason: string): Option<string> {
    match finishReason
    case "length" => Some("max_output_tokens")
    case "content_filter" => Some("content_filter")
    case _ => None
  }

  function FinalStatus(st: State): Status {
    if st.incompleteReason.Some? then Incomplete else Completed
  }

  function EmitCreated(st: State): State {
    if st.created then st else Push(st.(created := true), Created(st.sequence + 1))
  }

  // ---- Reasoning ----

  function StartReasoning(st: State): State {
    if st.reasoning.Some? then st
    else
      var r := ReasoningState(Generated(st.serial), st.nextIndex, "", true, false, None);
      Push(st.(reasoning := Some(r), serial := st.serial + 1,
               nextIndex := st.nextIndex + 1, owners := st.owners + [ForReasoning]),
           ItemAdded(st.sequence + 1, r.outputIndex, Reasoning(r.itemId, InProgress, "")))
  }

  function AppendReasoning(st: State, delta: string): State {
    if st.reasoning.None? then st
    else
      var r := st.reasoning.value;
      Push(st.(reasoning := Some(r.(text := r.text + delta))),
           ReasoningDelta(st.sequence + 1, r.itemId, r.outputIndex, delta))
  }

  function EmitReasoning(st: State, delta: string): State {
    if delta == "" then st else AppendReasoning(StartReasoning(EmitCreated(st)), delta)
  }

  function EmitReasoningDone(st: State): State {
    if st.reasoning.None? || st.reasoning.value.done || !st.reasoning.value.started then st
    else
      var r := st.reasoning.value;
      var status := FinalStatus(st);
      var st := Push(st.(reasoning := Some(r.(done := true, doneStatus := Some(status)))),
                     ReasoningDone(st.sequence + 1, r.itemId, r.outputIndex, r.text));
      Push(st, ItemDone(st.sequence + 1, r.outputIndex, Reasoning(r.itemId, status, r.text)))
  }

  // ---- Text ----

  function IdentifyText(st: State): State {
    var st := if st.textIndex.Some? then st
              else st.(textIndex := Some(st.nextIndex), nextIndex := st.nextIndex + 1, owners := st.owners + [ForText]);
    if st.textId.Some? then st
    else st.(textId := Some(Generated(st.serial)), serial := st.serial + 1)
  }

  function EnsureTextItem(st: State): State {
    var st := IdentifyText(st);
    if st.textAdded then st
    else
      Push(st.(textAdded := true),
           ItemAdded(st.sequence + 1, st.textIndex.GetOr(0), Message(st.textId.GetOr(Given("")), InProgress, "")))
  }

  function AppendText(st: State, text: string): State {
    Push(st.(text := st.text + text),
         TextDelta(st.sequence + 1, st.textId.GetOr(Given("")), st.textIndex.GetOr(0), text))
  }

  function EmitText(st: State, text: string): State {
    if text == "" then st else AppendText(EnsureTextItem(EmitReasoningDone(EmitCreated(st))), text)
  }

  function EmitTextDone(st: State): State
  {
    if !st.textAdded || st.textDone then st
    else
      var item := Message(st.textId.GetOr(Given("")), FinalStatus(st), st.text);
      var st := Push(st.(textDone := true), TextDone(st.sequence + 1, item.id, st.textIndex.GetOr(0), st.text));
      Push(st, ItemDone(st.sequence + 1, st.textIndex.GetOr(0), item))
  }

  // ---- Tool calls ----

  predicate NameMissing(name: Option<string>) {
    name.GetOr("") == ""
  }

  /** The call a fragment belongs to (src/protocol.rs:3218-3314). */
  function RouteKey(st: State, d: ToolDelta, position: nat): nat
    requires d.ToolDelta?
  {
    if d.index.Some? then d.index.value
    else if d.id.Some? then
      var known := set k | k in st.tools && st.tools[k].callId == Given(d.id.value);
      if known != {} then Least(known) else NextKey(st.tools.Keys)
    else if !st.strict then position
    else
      var open := set k | k in st.tools && !st.tools[k].done;
      if |open| != 1 then NextKey(st.tools.Keys)
      else
        var only := Least(open);
        var name := st.tools[only].name;
        if !NameMissing(d.name) && !NameMissing(name) && d.name != name then NextKey(st.tools.Keys) else only
  }

  function OpenTool(st: State, key: nat, callId: Id, name: Option<string>): State {
    st.(tools := st.tools[key := ToolCall(callId, callId, st.nextIndex, name, "", false, false, false)],
        nextIndex := st.nextIndex + 1, owners := st.owners + [ForTool(key)],
        received := st.received[key := []])
  }

  /** Fills in an identity the entry still lacks. */
  function RefreshTool(t: ToolCall, callId: Id, name: Option<string>): ToolCall {
    t.(itemId := if t.itemId == Given("") then callId else t.itemId,
       callId := if t.callId == Given("") then callId else t.callId,
       name := if t.name.None? then name else t.name)
  }

  function UpsertTool(st: State, key: nat, callId: Id, name: Option<string>): State {
    if key in st.tools then st.(tools := st.tools[key := RefreshTool(st.tools[key], callId, name)])
    else OpenTool(st, key, callId, name)
  }

  function AnnounceTool(st: State, key: nat): State
    requires key in st.tools
  {
    var t := st.tools[key];
    if t.added then st
    else
      Push(st.(tools := st.tools[key := t.(added := true)]),
           ItemAdded(st.sequence + 1, t.outputIndex,
                     FunctionCall(t.itemId, InProgress, t.callId, t.name.GetOr(""), "")))
  }

  /** The entry after merging a fragment; a replacement leaves the client's copy behind for good. */
  function MergeInto(t: ToolCall, fragment: string, strict: bool): ToolCall {
    var (arguments, merge) := MergeArguments(t.arguments, fragment, strict);
    t.(arguments := arguments, desynced := t.desynced || merge.Replaced?)
  }

  function RecordFragment(st: State, key: nat, fragment: string): State
    requires key in st.tools
  {
    st.(tools := st.tools[key := MergeInto(st.tools[key], fragment, st.strict)],
        received := st.received[key := (if key in st.received then st.received[key] else []) + [fragment]])
  }

  /** Merges a fragment; it is streamed on only while the client's copy still equals the buffer. */
  function MergeFragment(st: State, key: nat, fragment: string): State
    requires key in st.tools
  {
    if fragment == "" then st
    else
      var st := RecordFragment(st, key, fragment);
      var t := st.tools[key];
      if t.desynced then st
      else Push(st, ArgumentsDelta(st.sequence + 1, t.itemId, t.outputIndex, fragment))
  }

  function ApplyFragment(st: State, key: nat, callId: Id, name: Option<string>, fragment: string): State {
    MergeFragment(AnnounceTool(UpsertTool(st, key, callId, name), key), key, fragment)
  }

  function EmitToolDelta(st: State, d: ToolDelta, position: nat): (State, Option<StreamError>) {
    if d.Malformed? then (st, Some(UnsupportedToolCall))
    else if d.name.None? && d.arguments == "" then (st, None)
    else
      var key := RouteKey(st, d, position);
      var named := if d.id.Some? then st else st.(serial := st.serial + 1);
      var callId := if d.id.Some? then Given(d.id.value) else Generated(st.serial);
      (ApplyFragment(named, key, callId, d.name, d.arguments), None)
  }

  /** The first `n` elements of `delta.tool_calls`. */
  function EmitToolDeltas(st: State, ds: seq<ToolDelta>, n: nat): (State, Option<StreamError>)
    requires n <= |ds|
  {
    if n == 0 then (st, None)
    else
      var (st, error) := EmitToolDeltas(st, ds, n - 1);
      if error.Some? then (st, error)
      else EmitToolDelta(EmitReasoningDone(EmitCreated(st)), ds[n - 1], n - 1)
  }

  function EmitFunctionDelta(st: State, d: Option<FunctionDelta>): (State, Option<StreamError>) {
    match d
    case None => (st, None)
    case Some(d) =>
      var st := EmitReasoningDone(EmitCreated(st));
      match d
      case Unusable(error) => (st, Some(error))
      case FunctionDelta(id, name, arguments) => (ApplyFragment(st, 0, Given(id), Some(name), arguments), None)
  }

  /** Closes the call at `key`. */
  function EmitToolDone(st: State, key: nat): State
    requires key in st.tools
  {
    var t := st.tools[key];
    if t.done then st
    else
      var item := ToolItem(st, t);
      var st := Push(st.(tools := st.tools[key := t.(done := true)]),
                     ArgumentsDone(st.sequence + 1, t.itemId, t.outputIndex, item.name, item.arguments));
      Push(st, ItemDone(st.sequence + 1, t.outputIndex, item))
  }

  /** Closes the calls at the first `n` of `keys`. */
  function EmitToolDones(st: State, keys: seq<nat>, n: nat): (next: State)
    requires n <= |keys| && forall i | 0 <= i < |keys| :: keys[i] in st.tools
    ensures next.tools.Keys == st.tools.Keys
  {
    if n == 0 then st else EmitToolDone(EmitToolDones(st, keys, n - 1), keys[n - 1])
  }

  // ---- The terminal event ----

  function ToolItem(st: State, t: ToolCall): Item {
    FunctionCall(t.itemId, FinalStatus(st), t.callId, t.name.GetOr(""), NormalizeArguments(t.arguments).0)
  }

  function ReasoningItem(st: State, r: ReasoningState): Item {
    Reasoning(r.itemId, r.doneStatus.GetOr(FinalStatus(st)), r.text)
  }

  predicate EarlierIndex(a: (nat, Item), b: (nat, Item)) {
    a.0 < b.0
  }

  function SortByIndex(entries: seq<(nat, Item)>): seq<(nat, Item)> {
    SortBy(entries, EarlierIndex)
  }

  /** The items of the first `n` of `keys`. */
  function ToolEntries(st: State, keys: seq<nat>, n: nat): seq<(nat, Item)>
    requires n <= |keys| && forall i | 0 <= i < |keys| :: keys[i] in st.tools
  {
    if n == 0 then []
    else ToolEntries(st, keys, n - 1) + [(st.tools[keys[n - 1]].outputIndex, ToolItem(st, st.tools[keys[n - 1]]))]
  }

  function MessageItem(st: State): Item {
    Message(st.textId.GetOr(Given("")), FinalStatus(st), st.text)
  }

  /** The reasoning and message items. */
  function HeadEntries(st: State): seq<(nat, Item)> {
    (if st.reasoning.Some? && st.reasoning.value.started
     then [(st.reasoning.value.outputIndex, ReasoningItem(st, st.reasoning.value))] else [])
    + (if st.textAdded then [(st.textIndex.GetOr(0), MessageItem(st))] else [])
  }

  /** All items before sorting: reasoning, message, then the calls in key order. */
  function Entries(st: State): seq<(nat, Item)> {
    var keys := Ascending(st.tools.Keys);
    HeadEntries(st) + ToolEntries(st, keys, |keys|)
  }

  function OutputItems(st: State): seq<Item>
  {
    var sorted := SortByIndex(Entries(st));
    seq(|sorted|, i requires 0 <= i < |sorted| => sorted[i].1)
  }

  /** Closes every open item. */
  function CloseItems(st: State): State
  {
    var st := EmitTextDone(EmitReasoningDone(EmitCreated(st)));
    var keys := Ascending(st.tools.Keys);
    EmitToolDones(st, keys, |keys|)
  }

  function Finish(st: State): State {
    if st.completed then st else PushTerminal(CloseItems(st))
  }

  function PushTerminal(st: State): State {
    Push(st.(completed := true), Terminal(st.sequence + 1, OutputItems(st), st.usage, st.incompleteReason))
  }

  // ---- One Chat event ----

  function EmitContent(st: State, content: Content): (State, Option<StreamError>) {
    match content
    case NoContent => (st, None)
    case BadContent => (st, Some(UnsupportedContent))
    case Text(text) => (EmitText(st, text), None)
  }

  /** Whether the delta alone makes the translator announce the response. */
  predicate HasRelevantContent(delta: Delta) {
    || delta.hasRole
    || delta.reasoning != ""
    || (delta.content.Text? && delta.content.text != "")
    || delta.toolCalls != []
    || delta.functionCall.Some?
  }

  /** Reasoning, content and calls of one delta; the first error stops the chunk. */
  function EmitDelta(st: State, delta: Delta): (State, Option<StreamError>) {
    var (st, error) := EmitContent(EmitReasoning(st, delta.reasoning), delta.content);
    if error.Some? then (st, error)
    else
      var (st, error) := EmitToolDeltas(st, delta.toolCalls, |delta.toolCalls|);
      if error.Some? then (st, error)
      else EmitFunctionDelta(st, delta.functionCall)
  }

  function EmitChoice(st: State, choice: Choice): (State, Option<StreamError>) {
    var (st, error) := EmitDelta(st, choice.delta);
    if error.Some? then (st, error)
    else
      var st := if HasRelevantContent(choice.delta) then EmitCreated(st) else st;
      match choice.finishReason
      case None => (st, None)
      case Some(reason) => (EmitCreated(st.(incompleteReason := IncompleteReason(reason))), None)
  }

  /** `translate_event`. */
  function Translate(st: State, event: ChatEvent): (State, Option<StreamError>) {
    if st.completed then (st, None)
    else
      var st := if event.usage.Some? then st.(usage := event.usage) else st;
      match event.choices
      case None => (st, None)
      case Some(choices) =>
        if |choices| > 1 then (st, Some(MultipleChoices))
        else if choices == [] then (if event.usage.Some? then Finish(st) else st, None)
        else EmitChoice(st, choices[0])
  }

  /** The state after an error-free run over `events`, not yet finished. */
  function Run(strict: bool, events: seq<ChatEvent>): Option<State> {
    if events == [] then Some(Initial(strict))
    else match Run(strict, events[..|events| - 1])
      case None => None
      case Some(st) =>
        var (next, error) := Translate(st, events[|events| - 1]);
        if error.Some? then None else Some(next)
  }

  /** The whole stream: every event, then the end of the upstream. */
  function RunToEnd(strict: bool, events: seq<ChatEvent>): Option<State> {
    match Run(strict, events)
    case None => None
    case Some(st) => Some(Finish(st))
  }
}
