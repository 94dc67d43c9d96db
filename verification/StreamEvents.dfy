/** Events of the two streaming protocols the gateway translates between (src/protocol.rs). */
module StreamEvents {
  import opened Collections

  /** An identifier chosen by a peer, or one drawn from the supply of unused names. */
  datatype Id = Given(text: string) | Generated(serial: nat)

  /** Token counts are carried through unread. */
  type Usage = nat

  datatype Status = InProgress | Completed | Incomplete

  datatype Item =
    | Reasoning(id: Id, status: Status, text: string)
    | Message(id: Id, status: Status, text: string)
    | AgentMessage(id: Id, status: Status, text: string)
    | FunctionCall(id: Id, status: Status, callId: Id, name: string, arguments: string)
    | CustomToolCall(id: Id, status: Status, callId: Id, name: string, input: Option<string>)

  /** Responses stream events. */
  datatype Event =
    | Created(sequence: nat)
    | ItemAdded(sequence: nat, outputIndex: nat, item: Item)
    | ReasoningDelta(sequence: nat, itemId: Id, outputIndex: nat, delta: string)
    | ReasoningDone(sequence: nat, itemId: Id, outputIndex: nat, text: string)
    | TextDelta(sequence: nat, itemId: Id, outputIndex: nat, delta: string)
    | TextDone(sequence: nat, itemId: Id, outputIndex: nat, text: string)
    | ArgumentsDelta(sequence: nat, itemId: Id, outputIndex: nat, delta: string)
    | ArgumentsDone(sequence: nat, itemId: Id, outputIndex: nat, name: string, arguments: string)
    | InputDelta(sequence: nat, itemId: Id, outputIndex: nat, delta: string)
    | InputDone(sequence: nat, itemId: Id, outputIndex: nat, input: string)
    | ItemDone(sequence: nat, outputIndex: nat, item: Item)
    | Terminal(sequence: nat, output: seq<Item>, usage: Option<Usage>, incompleteReason: Option<string>)

  /** One element of `delta.tool_calls`, after the name and argument lookup.  `Malformed` is not an object. */
  datatype ToolDelta =
    | Malformed
    | ToolDelta(index: Option<nat>, id: Option<string>, name: Option<string>, arguments: string)

  /** `delta.function_call`; the call id and the name are mandatory. */
  datatype FunctionDelta =
    | Unusable(error: StreamError)
    | FunctionDelta(id: string, name: string, arguments: string)

  datatype Content = NoContent | Text(text: string) | BadContent

  datatype Delta = Delta(
    hasRole: bool, reasoning: string, content: Content, toolCalls: seq<ToolDelta>, functionCall: Option<FunctionDelta>)

  datatype Choice = Choice(delta: Delta, finishReason: Option<string>)

  /** One Chat chunk; `choices` is absent when the field is missing or not an array. */
  datatype ChatEvent = ChatEvent(usage: Option<Usage>, choices: Option<seq<Choice>>)

  datatype StreamError =
    | MultipleChoices
    | UnsupportedContent
    | UnsupportedToolCall
    | UnsupportedFunctionCall
    | MissingCallId
    | MissingName
    | MultipleMessages
    | MissingCustomToolCall
    | NotACustomToolCall
    | InputMismatch
    | MissingInput

  // ---- What a well-behaved Responses stream says about one output index ----

  /** Progress of the item at one output index, folded over the stream.  `Broken` is any departure from
      added, deltas, done. */
  datatype Phase =
    | Absent
    | Thinking
    | TextOpen(streamed: string)
    | TextSent(streamed: string)
    | TextClosed(streamed: string, item: Item)
    | ToolOpen(streamed: string)
    | ToolSent(streamed: string, name: string, arguments: string)
    | ToolClosed(streamed: string, item: Item)
    | Broken

  predicate About(e: Event, i: nat) {
    match e
    case Created(_) => false
    case Terminal(_, _, _, _) => false
    case _ => e.outputIndex == i
  }

  /** The phase after one event about the index. */
  function Advance(phase: Phase, e: Event): Phase {
    match (phase, e)
    case (Absent, ItemAdded(_, _, Reasoning(_, _, _))) => Thinking
    case (Absent, ItemAdded(_, _, Message(_, _, ""))) => TextOpen("")
    case (Absent, ItemAdded(_, _, FunctionCall(_, _, _, _, ""))) => ToolOpen("")
    case (Thinking, ReasoningDelta(_, _, _, _)) => Thinking
    case (Thinking, ReasoningDone(_, _, _, _)) => Thinking
    case (Thinking, ItemDone(_, _, Reasoning(_, _, _))) => Thinking
    case (TextOpen(streamed), TextDelta(_, _, _, delta)) => TextOpen(streamed + delta)
    case (TextOpen(streamed), TextDone(_, _, _, text)) => if text == streamed then TextSent(streamed) else Broken
    case (TextSent(streamed), ItemDone(_, _, Message(id, status, text))) =>
      if text == streamed then TextClosed(streamed, Message(id, status, text)) else Broken
    case (ToolOpen(streamed), ArgumentsDelta(_, _, _, delta)) => ToolOpen(streamed + delta)
    case (ToolOpen(streamed), ArgumentsDone(_, _, _, name, arguments)) => ToolSent(streamed, name, arguments)
    case (ToolSent(streamed, n, a), ItemDone(_, _, FunctionCall(id, status, callId, name, arguments))) =>
      if name == n && arguments == a then ToolClosed(streamed, FunctionCall(id, status, callId, name, arguments))
      else Broken
    case (_, _) => Broken
  }

  lemma ToolCloses(streamed: string, e: Event, f: Event)
    requires e.ArgumentsDone? && f.ItemDone? && f.item.FunctionCall?
    requires f.item.name == e.name && f.item.arguments == e.arguments
    ensures Advance(Advance(ToolOpen(streamed), e), f) == ToolClosed(streamed, f.item)
  {
  }

  lemma TextCloses(streamed: string, e: Event, f: Event)
    requires e.TextDone? && e.text == streamed && f.ItemDone? && f.item.Message? && f.item.text == streamed
    ensures Advance(Advance(TextOpen(streamed), e), f) == TextClosed(streamed, f.item)
  {
  }

  function PhaseOf(events: seq<Event>, i: nat): Phase {
    if events == [] then Absent
    else
      var before, last := PhaseOf(events[..|events| - 1], i), events[|events| - 1];
      if About(last, i) then Advance(before, last) else before
  }

  lemma PhaseSnoc(events: seq<Event>, last: Event, i: nat)
    ensures PhaseOf(events + [last], i) == if About(last, i) then Advance(PhaseOf(events, i), last) else PhaseOf(events, i)
  {
    assert (events + [last])[..|events|] == events;
  }

  predicate IsText(phase: Phase) {
    phase.TextOpen? || phase.TextSent? || phase.TextClosed?
  }

  predicate IsTool(phase: Phase) {
    phase.ToolOpen? || phase.ToolSent? || phase.ToolClosed?
  }

  /** A broken item stays broken, and an item never changes kind. */
  lemma {:induction false} PhaseOfPrefix(events: seq<Event>, n: nat, i: nat)
    requires n <= |events|
    ensures !PhaseOf(events, i).Broken? ==> !PhaseOf(events[..n], i).Broken?
    ensures !PhaseOf(events, i).Broken? && IsText(PhaseOf(events[..n], i)) ==> IsText(PhaseOf(events, i))
  {
    if n < |events| {
      var init := events[..|events| - 1];
      assert init[..n] == events[..n];
      PhaseOfPrefix(init, n, i);
    } else {
      assert events[..n] == events;
    }
  }
}
