/** The Responses-to-Chat stream translator (src/protocol.rs, `ResponsesToChatState`) as a function on its state,
    with the history of the chunks it emitted.  No tool registry; every event names its output index. */
module ResponsesToChat {
  import opened Collections
  import opened StreamEvents
  import opened JsonString

  /** Chat chunks; a call chunk without a name continues a custom tool's input. */
  datatype Chunk =
    | RoleChunk
    | ContentChunk(text: string)
    | CallChunk(index: nat, callId: Id, name: Option<string>, arguments: string)
    | FinishChunk(reason: string)

  /** One entry of `tool_calls`. */
  datatype Call = Call(
    itemId: Id, callId: Id, name: Option<string>, arguments: string, added: bool,
    custom: bool, input: string, closed: bool)

  datatype State = State(
    role: bool, completed: bool, messageIndex: Option<nat>,
    text: string, textEmitted: bool, textDone: bool, agentSent: bool, pendingAgent: Option<string>,
    calls: map<nat, Call>, chunks: seq<Chunk>)

  const INITIAL := State(false, false, None, "", false, false, false, None, map[], [])

  /** Opening of the object that carries a custom tool's input. */
  const INPUT_OPEN := "{\"input\":\""

  function Push(st: State, chunk: Chunk): State {
    st.(chunks := st.chunks + [chunk])
  }

  function EmitRole(st: State): State {
    if st.role then st else Push(st.(role := true), RoleChunk)
  }

  /** `ensure_single_assistant_message_output_index`. */
  function ClaimMessage(st: State, index: nat): (State, Option<StreamError>) {
    match st.messageIndex
    case None => (st.(messageIndex := Some(index)), None)
    case Some(claimed) => (st, if claimed == index then None else Some(MultipleMessages))
  }

  function EmitTextDelta(st: State, delta: string): State {
    if st.agentSent || st.textDone then st
    else Push(st.(text := st.text + delta, textEmitted := st.textEmitted || delta != ""), ContentChunk(delta))
  }

  /** What a complete text adds to the text already streamed. */
  function MissingText(st: State, text: string): string {
    if st.textEmitted && st.text <= text then text[|st.text|..] else text
  }

  /** `emit_complete_text`. */
  function CompleteText(st: State, text: string): State {
    var missing := MissingText(st, text);
    var st := st.(text := text, textEmitted := st.textEmitted || text != "");
    if missing == "" then st else Push(st, ContentChunk(missing))
  }

  function EmitTextDone(st: State, text: string): State {
    CompleteText(st, text).(textDone := true)
  }

  /** The visible text of an agent message; text deltas that follow it are dropped. */
  function EmitAgentText(st: State, text: string): State {
    if text == "" then st else CompleteText(st, text).(agentSent := true)
  }

  /** An agent message that was announced and never done. */
  function FlushAgent(st: State): State {
    match st.pendingAgent
    case None => st
    case Some(text) => EmitAgentText(st.(pendingAgent := None), text)
  }

  // ---- Calls ----

  function OpeningArguments(item: Item): string
    requires item.FunctionCall? || item.CustomToolCall?
  {
    if item.CustomToolCall? then INPUT_OPEN + Escape(item.input.GetOr("")) else item.arguments
  }

  /** The entry after its item was announced. */
  function AddItem(call: Call, item: Item): Call
    requires item.FunctionCall? || item.CustomToolCall?
  {
    call.(itemId := if call.itemId == Given("") then item.id else call.itemId,
          callId := if call.callId == Given("") then item.callId else call.callId,
          name := if call.name.None? && item.name != "" then Some(item.name) else call.name,
          custom := call.custom || item.CustomToolCall?,
          input := if item.CustomToolCall? then item.input.GetOr(call.input) else call.input,
          arguments := call.arguments + OpeningArguments(item),
          added := true)
  }

  function EmitCallAdded(st: State, index: nat, item: Item): State
    requires item.FunctionCall? || item.CustomToolCall?
  {
    var before := if index in st.calls then st.calls[index]
                  else Call(item.id, item.callId, Some(item.name), "", false, item.CustomToolCall?, "", false);
    var call := AddItem(before, item);
    var st := st.(calls := st.calls[index := call]);
    if before.added then st
    else Push(st, CallChunk(index, call.callId, Some(call.name.GetOr("")), call.arguments))
  }

  /** An argument or input delta; a call not announced before is created from the event alone. */
  function EmitCallDelta(st: State, index: nat, itemId: Id, delta: string, custom: bool): State {
    var call := if index in st.calls then st.calls[index]
                else Call(itemId, Generated(index), None, "", false, custom, "", false);
    var fragment := if custom then Escape(delta) else delta;
    var open := if custom && call.arguments == "" then INPUT_OPEN else "";
    var call := call.(custom := call.custom || custom,
                      input := if custom then call.input + delta else call.input,
                      arguments := call.arguments + open + fragment);
    Push(st.(calls := st.calls[index := call]), CallChunk(index, call.callId, Some(call.name.GetOr("")), fragment))
  }

  function EmitArgumentsDone(st: State, index: nat, name: string, arguments: string): State {
    if index in st.calls
    then st.(calls := st.calls[index := st.calls[index].(arguments := arguments, name := Some(name))])
    else st
  }

  function EmitInputDone(st: State, index: nat, input: string): (State, Option<StreamError>) {
    if index !in st.calls then (st, Some(MissingCustomToolCall))
    else if !st.calls[index].custom then (st, Some(NotACustomToolCall))
    else
      var call := st.calls[index];
      if !(call.input <= input) then (st, Some(InputMismatch))
      else
        var fragment := Escape(input[|call.input|..]);
        var open := if call.input != input && call.arguments == "" then INPUT_OPEN else "";
        var suffix := if call.closed then "" else "\"}";
        var st := st.(calls := st.calls[index :=
          call.(input := input, arguments := call.arguments + open + fragment + suffix, closed := true)]);
        if fragment + suffix == "" then (st, None)
        else (Push(st, CallChunk(index, call.callId, None, fragment + suffix)), None)
  }

  // ---- One event ----

  function EmitAgentDone(st: State, index: nat, text: string): (State, Option<StreamError>) {
    var (st, error) := ClaimMessage(st, index);
    if error.Some? then (st, error) else (EmitAgentText(st.(pendingAgent := None), text), None)
  }

  function EmitItemDone(st: State, index: nat, item: Item): (State, Option<StreamError>) {
    match item
    case FunctionCall(_, _, _, _, _) => (st, None)
    case Reasoning(_, _, _) => (st, None)
    case Message(_, _, _) => ClaimMessage(st, index)
    case AgentMessage(_, _, text) => EmitAgentDone(st, index, text)
    case CustomToolCall(_, _, _, _, input) =>
      if input.None? then (st, Some(MissingInput)) else EmitInputDone(st, index, input.value)
  }

  /** `validate_completed_response_output`. */
  function OutputError(output: seq<Item>, messages: nat): Option<StreamError> {
    if output == [] then None
    else match output[0]
      case CustomToolCall(_, _, _, _, None) => Some(MissingInput)
      case Message(_, _, _) => if messages >= 1 then Some(MultipleMessages) else OutputError(output[1..], messages + 1)
      case AgentMessage(_, _, _) => if messages >= 1 then Some(MultipleMessages) else OutputError(output[1..],
                                                                                                  messages + 1)
      case _ => OutputError(output[1..], messages)
  }

  /** Position of the first agent message in the terminal list. */
  function AgentPosition(output: seq<Item>): (position: nat)
    ensures position <= |output| && (position < |output| ==> output[position].AgentMessage?)
    ensures forall i | 0 <= i < position :: !output[i].AgentMessage?
  {
    if output == [] || output[0].AgentMessage? then 0 else 1 + AgentPosition(output[1..])
  }

  /** `emit_completed_agent_message_content`: an agent message not sent so far. */
  function EmitListedAgent(st: State, output: seq<Item>): (State, Option<StreamError>) {
    var position := AgentPosition(output);
    if st.agentSent || position == |output| then (st, None)
    else EmitAgentDone(st, position, output[position].text)
  }

  function Finish(st: State): State {
    if st.completed then st else PushFinish(FlushAgent(EmitRole(st)))
  }

  function PushFinish(st: State): State {
    Push(st.(completed := true), FinishChunk(if st.calls == map[] then "stop" else "tool_calls"))
  }

  function EmitItemAdded(st: State, index: nat, item: Item): (State, Option<StreamError>) {
    match item
    case Reasoning(_, _, _) => (st, None)
    case Message(_, _, _) =>
      var (st, error) := ClaimMessage(st, index);
      if error.Some? then (st, error) else (EmitRole(st), None)
    case AgentMessage(_, _, text) =>
      var (st, error) := ClaimMessage(st, index);
      if error.Some? then (st, error) else (EmitRole(st).(pendingAgent := Some(text)), None)
    case _ => (EmitCallAdded(EmitRole(st), index, item), None)
  }

  /** The role chunk, then the step for the item the event is about. */
  function EmitProgress(st: State, e: Event): (State, Option<StreamError>) {
    var st := EmitRole(st);
    match e
    case TextDelta(_, _, index, delta) =>
      var (st, error) := ClaimMessage(st, index);
      if error.Some? then (st, error) else (EmitTextDelta(st, delta), None)
    case TextDone(_, _, index, text) =>
      var (st, error) := ClaimMessage(st, index);
      if error.Some? then (st, error) else (EmitTextDone(st, text), None)
    case ArgumentsDelta(_, itemId, index, delta) => (EmitCallDelta(st, index, itemId, delta, false), None)
    case ArgumentsDone(_, _, index, name, arguments) => (EmitArgumentsDone(st, index, name, arguments), None)
    case InputDelta(_, itemId, index, delta) => (EmitCallDelta(st, index, itemId, delta, true), None)
    case InputDone(_, _, index, input) => EmitInputDone(st, index, input)
    case ItemDone(_, index, item) => EmitItemDone(st, index, item)
    case _ => (st, None)
  }

  function EmitTerminal(st: State, output: seq<Item>): (State, Option<StreamError>) {
    var st := EmitRole(st);
    var error := OutputError(output, 0);
    if error.Some? then (st, error)
    else
      var (st, error) := EmitListedAgent(st, output);
      if error.Some? then (st, error) else (Finish(st), None)
  }

  /** `translate_event`; reasoning and an incomplete terminal event pass silently. */
  function Translate(st: State, e: Event): (State, Option<StreamError>) {
    match e
    case ItemAdded(_, index, item) => EmitItemAdded(st, index, item)
    case Terminal(_, output, _, incompleteReason) =>
      if incompleteReason.Some? then (st, None) else EmitTerminal(st, output)
    case ReasoningDelta(_, _, _, _) => (st, None)
    case ReasoningDone(_, _, _, _) => (st, None)
    case _ => EmitProgress(st, e)
  }

  /** The state after an error-free run over `events`. */
  function Run(events: seq<Event>): Option<State> {
    if events == [] then Some(INITIAL)
    else match Run(events[..|events| - 1])
      case None => None
      case Some(st) =>
        var (next, error) := Translate(st, events[|events| - 1]);
        if error.Some? then None else Some(next)
  }

  // ---- What the client reads ----

  /** Concatenated assistant content. */
  function ContentOf(chunks: seq<Chunk>): string {
    if chunks == [] then ""
    else ContentOf(chunks[..|chunks| - 1]) + ContentIn(chunks[|chunks| - 1])
  }

  function ContentIn(chunk: Chunk): string {
    if chunk.ContentChunk? then chunk.text else ""
  }

  /** Concatenated argument fragments of the call at `index`. */
  function ArgumentsOf(chunks: seq<Chunk>, index: nat): string {
    if chunks == [] then ""
    else ArgumentsOf(chunks[..|chunks| - 1], index) + ArgumentsIn(chunks[|chunks| - 1], index)
  }

  function ArgumentsIn(chunk: Chunk, index: nat): string {
    if chunk.CallChunk? && chunk.index == index then chunk.arguments else ""
  }

  lemma ChunkSnoc(chunks: seq<Chunk>, chunk: Chunk)
    ensures ContentOf(chunks + [chunk]) == ContentOf(chunks) + ContentIn(chunk)
    ensures forall index :: ArgumentsOf(chunks + [chunk], index) == ArgumentsOf(chunks, index) + ArgumentsIn(chunk, index)
  {
    assert (chunks + [chunk])[..|chunks|] == chunks;
  }
}
