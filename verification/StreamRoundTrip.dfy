/** Translating a Chat stream to Responses events and back preserves its meaning. */
module StreamRoundTrip {
  import opened Collections
  import opened StreamEvents
  import opened ToolArguments
  import opened ResponsesToChat
  import C2R = ChatToResponses
  import Runs = ChatToResponsesRuns
  import Final = ChatToResponsesFinal
  import Arrivals = ToolArrivals
  import opened CallIdentity

  // ---- Reading a well-behaved Responses stream ----

  /** Arguments streamed for the call at an index in this phase. */
  function CallText(phase: Phase): string {
    if IsTool(phase) then phase.streamed else ""
  }

  /** What the reader knows about index `i`. */
  ghost predicate Tells(st: State, i: nat, phase: Phase) {
    && (i in st.calls <==> IsTool(phase))
    && ArgumentsOf(st.chunks, i) == CallText(phase)
    && (i in st.calls ==> st.calls[i].added && !st.calls[i].custom)
    && (st.messageIndex == Some(i) <==> IsText(phase))
    && (IsText(phase) ==> st.text == phase.streamed && st.textDone == !phase.TextOpen?)
  }

  /** No agent message was announced or sent. */
  predicate NoAgent(st: State) {
    !st.agentSent && st.pendingAgent.None?
  }

  predicate NoAgentIn(output: seq<Item>) {
    forall i | 0 <= i < |output| :: !output[i].AgentMessage?
  }

  ghost predicate Reads(st: State, events: seq<Event>) {
    && st.role == (events != [])
    && ContentOf(st.chunks) == st.text
    && (st.textEmitted <==> st.text != "")
    && (st.messageIndex.None? ==> st.text == "" && !st.textDone)
    && NoAgent(st)
    && forall i: nat :: Tells(st, i, PhaseOf(events, i))
  }

  /** The stream breaks no item's lifecycle and holds at most one message. */
  ghost predicate WellBehaved(events: seq<Event>) {
    && (forall i: nat :: !PhaseOf(events, i).Broken?)
    && (forall i: nat, j: nat | IsText(PhaseOf(events, i)) && IsText(PhaseOf(events, j)) :: i == j)
    && (events != [] ==> events[0].Created?)
    && (forall i | 0 < i < |events| :: !events[i].Created?)
    && (forall i | 0 <= i < |events| - 1 :: !events[i].Terminal?)
    && (forall i | 0 <= i < |events| && events[i].Terminal? ::
          OutputError(events[i].output, 0).None? && NoAgentIn(events[i].output))
  }

  lemma TellsAt(st: State, events: seq<Event>, i: nat)
    requires Reads(st, events)
    ensures Tells(st, i, PhaseOf(events, i))
  {
  }

  /** An event about index `j` changes what is read there and nowhere else. */
  lemma ReadsNext(st: State, next: State, events: seq<Event>, e: Event, j: nat)
    requires Reads(st, events) && About(e, j) && next.role && NoAgent(next)
    requires ContentOf(next.chunks) == next.text && (next.textEmitted <==> next.text != "")
    requires next.messageIndex.None? ==> next.text == "" && !next.textDone
    requires forall i: nat, phase: Phase | i != j && Tells(st, i, phase) :: Tells(next, i, phase)
    requires Tells(next, j, Advance(PhaseOf(events, j), e))
    ensures Reads(next, events + [e])
  {
    hide Tells, Advance;
    forall i: nat
      ensures Tells(next, i, PhaseOf(events + [e], i))
    {
      PhaseSnoc(events, e, i);
      assert About(e, i) ==> i == j;
      TellsAt(st, events, i);
    }
  }

  lemma CreatedReads(st: State, e: Event)
    requires Reads(st, []) && e.Created?
    ensures Reads(EmitRole(st), [] + [e])
  {
    ChunkSnoc(st.chunks, RoleChunk);
    forall i: nat
      ensures Tells(EmitRole(st), i, PhaseOf([] + [e], i))
    {
      PhaseSnoc([], e, i);
      TellsAt(st, [], i);
    }
  }

  /** Events that concern the reader not at all, or only an item it does not show. */
  lemma SilentReads(st: State, events: seq<Event>, e: Event)
    requires Reads(st, events) && events != []
    requires forall i: nat :: About(e, i) ==> PhaseOf(events, i).Absent? || PhaseOf(events, i).Thinking?
    requires forall i: nat :: About(e, i) ==> Advance(PhaseOf(events, i), e).Thinking?
    ensures Reads(st, events + [e])
  {
    forall i: nat
      ensures Tells(st, i, PhaseOf(events + [e], i))
    {
      PhaseSnoc(events, e, i);
      TellsAt(st, events, i);
    }
  }

  lemma MessageAddedReads(st: State, events: seq<Event>, e: Event)
    requires Reads(st, events) && events != [] && st.messageIndex.None?
    requires e.ItemAdded? && e.item.Message? && e.item.text == "" && PhaseOf(events, e.outputIndex) == Absent
    ensures var (next, error) := Translate(st, e); error.None? && Reads(next, events + [e])
  {
    hide PhaseOf;
    TellsAt(st, events, e.outputIndex);
    ReadsNext(st, Translate(st, e).0, events, e, e.outputIndex);
  }

  /** Announcing a call streams a chunk without arguments and touches nothing else. */
  lemma CallAddedStep(st: State, e: Event)
    requires st.role && e.ItemAdded? && e.item.FunctionCall? && e.item.arguments == "" && e.outputIndex !in st.calls
    ensures var next := EmitCallAdded(st, e.outputIndex, e.item);
            && Translate(st, e) == (next, None)
            && (exists chunk: Chunk ::
                  && next.chunks == st.chunks + [chunk] && ContentIn(chunk) == ""
                  && forall i: nat :: ArgumentsIn(chunk, i) == "")
            && next == st.(calls := next.calls, chunks := next.chunks)
            && next.calls == st.calls[e.outputIndex := next.calls[e.outputIndex]]
            && next.calls[e.outputIndex].added && !next.calls[e.outputIndex].custom
  {
    var next := EmitCallAdded(st, e.outputIndex, e.item);
    var chunk := next.chunks[|next.chunks| - 1];
    assert next.chunks == st.chunks + [chunk] && chunk.arguments == "" + "";
  }

  lemma SilentChunk(chunks: seq<Chunk>, chunk: Chunk)
    requires ContentIn(chunk) == "" && forall i: nat :: ArgumentsIn(chunk, i) == ""
    ensures ContentOf(chunks + [chunk]) == ContentOf(chunks)
    ensures forall i: nat :: ArgumentsOf(chunks + [chunk], i) == ArgumentsOf(chunks, i)
  {
    ChunkSnoc(chunks, chunk);
    hide ContentOf, ArgumentsOf;
    assert ContentOf(chunks) + "" == ContentOf(chunks);
    assert forall i: nat :: ArgumentsOf(chunks, i) + "" == ArgumentsOf(chunks, i);
  }

  /** A new call changes what is read at its own index only. */
  lemma OthersTold(st: State, next: State, j: nat, call: Call)
    requires next == st.(calls := st.calls[j := call], chunks := next.chunks)
    requires forall i: nat :: ArgumentsOf(next.chunks, i) == ArgumentsOf(st.chunks, i)
    ensures forall i: nat, phase: Phase | i != j && Tells(st, i, phase) :: Tells(next, i, phase)
  {
    hide ArgumentsOf;
  }

  lemma NewCallTold(st: State, next: State, j: nat, call: Call)
    requires next == st.(calls := st.calls[j := call], chunks := next.chunks)
    requires forall i: nat :: ArgumentsOf(next.chunks, i) == ArgumentsOf(st.chunks, i)
    requires call.added && !call.custom && Tells(st, j, Absent)
    ensures Tells(next, j, ToolOpen(""))
  {
    hide ArgumentsOf;
  }

  /** What a reader knows besides the items. */
  lemma ReadsFrame(st: State, events: seq<Event>)
    requires Reads(st, events)
    ensures st.role == (events != []) && ContentOf(st.chunks) == st.text && (st.textEmitted <==> st.text != "")
    ensures (st.messageIndex.None? ==> st.text == "" && !st.textDone) && NoAgent(st)
  {
  }

  lemma AbsentIsUnknown(st: State, j: nat)
    requires Tells(st, j, Absent)
    ensures j !in st.calls
  {
  }

  lemma CallAddedReads(st: State, events: seq<Event>, e: Event)
    requires Reads(st, events) && events != []
    requires e.ItemAdded? && e.item.FunctionCall? && e.item.arguments == "" && PhaseOf(events, e.outputIndex) == Absent
    ensures var (next, error) := Translate(st, e); error.None? && Reads(next, events + [e])
  {
    hide PhaseOf, ContentOf, ArgumentsOf, EmitCallAdded, Translate, ContentIn, ArgumentsIn, Reads, Tells;
    var j := e.outputIndex;
    TellsAt(st, events, j);
    ReadsFrame(st, events);
    AbsentIsUnknown(st, j);
    CallAddedStep(st, e);
    var next := EmitCallAdded(st, j, e.item);
    var chunk: Chunk :| next.chunks == st.chunks + [chunk]
      && ContentIn(chunk) == "" && forall i: nat :: ArgumentsIn(chunk, i) == "";
    SilentChunk(st.chunks, chunk);
    OthersTold(st, next, j, next.calls[j]);
    NewCallTold(st, next, j, next.calls[j]);
    assert Advance(Absent, e) == ToolOpen("");
    hide Advance;
    ReadsNext(st, next, events, e, j);
  }

  lemma TextDeltaReads(st: State, events: seq<Event>, e: Event)
    requires Reads(st, events) && events != []
    requires e.TextDelta? && PhaseOf(events, e.outputIndex).TextOpen?
    ensures var (next, error) := Translate(st, e); error.None? && Reads(next, events + [e])
  {
    hide PhaseOf, ContentOf, ArgumentsOf;
    var j := e.outputIndex;
    TellsAt(st, events, j);
    ChunkSnoc(st.chunks, ContentChunk(e.delta));
    ReadsNext(st, Translate(st, e).0, events, e, j);
  }

  lemma TextDoneReads(st: State, events: seq<Event>, e: Event)
    requires Reads(st, events) && events != []
    requires e.TextDone? && PhaseOf(events, e.outputIndex) == TextOpen(e.text)
    ensures var (next, error) := Translate(st, e); error.None? && Reads(next, events + [e])
  {
    hide PhaseOf, ContentOf, ArgumentsOf;
    var j := e.outputIndex;
    TellsAt(st, events, j);
    assert MissingText(st, e.text) == "";
    ReadsNext(st, Translate(st, e).0, events, e, j);
  }

  lemma ArgumentsDeltaReads(st: State, events: seq<Event>, e: Event)
    requires Reads(st, events) && events != []
    requires e.ArgumentsDelta? && PhaseOf(events, e.outputIndex).ToolOpen?
    ensures var (next, error) := Translate(st, e); error.None? && Reads(next, events + [e])
  {
    hide PhaseOf, ContentOf, ArgumentsOf;
    var j := e.outputIndex;
    TellsAt(st, events, j);
    var next := EmitCallDelta(st, j, e.itemId, e.delta, false);
    ChunkSnoc(st.chunks, next.chunks[|next.chunks| - 1]);
    ReadsNext(st, next, events, e, j);
  }

  lemma ArgumentsDoneReads(st: State, events: seq<Event>, e: Event)
    requires Reads(st, events) && events != []
    requires e.ArgumentsDone? && PhaseOf(events, e.outputIndex).ToolOpen?
    ensures var (next, error) := Translate(st, e); error.None? && Reads(next, events + [e])
  {
    hide PhaseOf, ContentOf, ArgumentsOf;
    TellsAt(st, events, e.outputIndex);
    ReadsNext(st, Translate(st, e).0, events, e, e.outputIndex);
  }

  lemma ItemDoneReads(st: State, events: seq<Event>, e: Event)
    requires Reads(st, events) && events != []
    requires e.ItemDone? && !Advance(PhaseOf(events, e.outputIndex), e).Broken?
    ensures var (next, error) := Translate(st, e); error.None? && Reads(next, events + [e])
  {
    hide PhaseOf, ContentOf, ArgumentsOf;
    TellsAt(st, events, e.outputIndex);
    ReadsNext(st, st, events, e, e.outputIndex);
  }

  /** Reasoning events pass silently. */
  lemma ReasoningReads(st: State, events: seq<Event>, e: Event)
    requires Reads(st, events) && events != []
    requires (e.ItemAdded? && e.item.Reasoning?) || e.ReasoningDelta? || e.ReasoningDone?
    requires !Advance(PhaseOf(events, e.outputIndex), e).Broken?
    ensures var (next, error) := Translate(st, e); error.None? && Reads(next, events + [e])
  {
    hide Reads, PhaseOf;
    SilentReads(st, events, e);
  }

  /** Reading one more event about an item. */
  lemma ItemEventReads(st: State, events: seq<Event>, e: Event)
    requires Reads(st, events) && events != [] && WellBehaved(events + [e])
    requires !e.Terminal? && !e.Created? && !Advance(PhaseOf(events, e.outputIndex), e).Broken?
    ensures var (next, error) := Translate(st, e); error.None? && Reads(next, events + [e])
  {
    hide Reads, PhaseOf, Translate, WellBehaved;
    match e
    case ItemAdded(_, j, Reasoning(_, _, _)) => ReasoningReads(st, events, e);
    case ItemAdded(_, j, Message(_, _, _)) => MessageIsFirst(st, events, e);
    case ItemAdded(_, _, _) => CallAddedReads(st, events, e);
    case TextDelta(_, _, _, _) => TextDeltaReads(st, events, e);
    case TextDone(_, _, _, _) => TextDoneReads(st, events, e);
    case ArgumentsDelta(_, _, _, _) => ArgumentsDeltaReads(st, events, e);
    case ArgumentsDone(_, _, _, _, _) => ArgumentsDoneReads(st, events, e);
    case ItemDone(_, _, _) => ItemDoneReads(st, events, e);
    case ReasoningDelta(_, _, _, _) => ReasoningReads(st, events, e);
    case ReasoningDone(_, _, _, _) => ReasoningReads(st, events, e);
  }

  lemma StepReads(st: State, events: seq<Event>, e: Event)
    requires Reads(st, events)
    requires WellBehaved(events + [e]) && !e.Terminal?
    ensures var (next, error) := Translate(st, e); error.None? && Reads(next, events + [e])
  {
    hide Reads, PhaseOf, Advance, OutputError;
    var all := events + [e];
    assert all[0].Created? && (events != [] ==> !all[|events|].Created?);
    if e.Created? {
      CreatedReads(st, e);
    } else {
      hide Translate;
      PhaseSnoc(events, e, e.outputIndex);
      assert !PhaseOf(all, e.outputIndex).Broken?;
      ItemEventReads(st, events, e);
    }
  }

  /** A second message would make a second text index. */
  lemma MessageIsFirst(st: State, events: seq<Event>, e: Event)
    requires Reads(st, events) && events != [] && WellBehaved(events + [e])
    requires e.ItemAdded? && e.item.Message? && e.item.text == "" && PhaseOf(events, e.outputIndex) == Absent
    ensures var (next, error) := Translate(st, e); error.None? && Reads(next, events + [e])
  {
    if st.messageIndex.Some? {
      var k := st.messageIndex.value;
      TellsAt(st, events, k);
      PhaseSnoc(events, e, k);
      PhaseSnoc(events, e, e.outputIndex);
      assert IsText(PhaseOf(events + [e], k)) && IsText(PhaseOf(events + [e], e.outputIndex));
    }
    MessageAddedReads(st, events, e);
  }

  lemma WellBehavedPrefix(events: seq<Event>, n: nat)
    requires WellBehaved(events) && n <= |events|
    ensures WellBehaved(events[..n])
  {
    hide PhaseOf, OutputError;
    forall i: nat {
      PhaseOfPrefix(events, n, i);
    }
  }

  lemma {:induction false} RunReads(events: seq<Event>)
    requires WellBehaved(events) && forall i | 0 <= i < |events| :: !events[i].Terminal?
    ensures Run(events).Some? && Reads(Run(events).value, events) && !Run(events).value.completed
  {
    hide WellBehaved, Translate;
    if events != [] {
      var init, last := events[..|events| - 1], events[|events| - 1];
      assert events == init + [last];
      WellBehavedPrefix(events, |events| - 1);
      RunReads(init);
      StepReads(Run(init).value, init, last);
      NotCompleted(Run(init).value, last);
    }
  }

  lemma NotCompleted(st: State, e: Event)
    requires !st.completed && !e.Terminal?
    ensures !Translate(st, e).0.completed
  {
    StepExtends(st, e);
    hide Translate;
  }

  // ---- The shape of a Chat stream ----

  /** Role first and only once; the finish chunk, when there is one, last and only once. */
  ghost predicate Framed(st: State) {
    && (st.role <==> st.chunks != [])
    && (st.chunks != [] ==> st.chunks[0].RoleChunk?)
    && (forall i | 0 < i < |st.chunks| :: !st.chunks[i].RoleChunk?)
    && (forall i | 0 <= i < |st.chunks| - 1 :: !st.chunks[i].FinishChunk?)
    && (st.completed <==> st.chunks != [] && st.chunks[|st.chunks| - 1].FinishChunk?)
  }

  /** The chunks of `next` are those of `st`, possibly followed by the role chunk and by one content or call chunk. */
  ghost predicate Extends(st: State, next: State) {
    && next.completed == st.completed
    && ((next.role == st.role && next.chunks == st.chunks)
        || (next.role && next.chunks == EmitRole(st).chunks)
        || (next.role && exists chunk: Chunk ::
              next.chunks == EmitRole(st).chunks + [chunk] && (chunk.ContentChunk? || chunk.CallChunk?)))
  }

  lemma ExtendsFramed(st: State, next: State)
    requires Framed(st) && !st.completed && Extends(st, next)
    ensures Framed(next) && !next.completed
  {
  }

  /** At most one content or call chunk more. */
  ghost predicate Grows(st: State, next: State) {
    && next.completed == st.completed && next.role == st.role
    && (next.chunks == st.chunks
        || exists chunk: Chunk :: next.chunks == st.chunks + [chunk] && (chunk.ContentChunk? || chunk.CallChunk?))
  }

  lemma GrowsExtends(st: State, next: State)
    requires Grows(EmitRole(st), next)
    ensures Extends(st, next)
  {
  }

  lemma CallAddedGrows(st: State, index: nat, item: Item)
    requires item.FunctionCall? || item.CustomToolCall?
    ensures Grows(st, EmitCallAdded(st, index, item))
  {
    hide AddItem;
    var added := EmitCallAdded(st, index, item);
    assert added.chunks == st.chunks || added.chunks == st.chunks + [added.chunks[|added.chunks| - 1]];
  }

  lemma CallDeltaGrows(st: State, index: nat, itemId: Id, delta: string, custom: bool)
    ensures Grows(st, EmitCallDelta(st, index, itemId, delta, custom))
  {
    hide JsonString.Escape;
    var longer := EmitCallDelta(st, index, itemId, delta, custom);
    assert longer.chunks == st.chunks + [longer.chunks[|longer.chunks| - 1]];
  }

  lemma TextDeltaGrows(st: State, index: nat, delta: string)
    ensures Grows(st, EmitTextDelta(ClaimMessage(st, index).0, delta)) && Grows(st, ClaimMessage(st, index).0)
  {
  }

  lemma CompleteGrows(st: State, text: string)
    ensures Grows(st, CompleteText(st, text)) && Grows(st, EmitAgentText(st, text))
  {
    hide MissingText;
  }

  lemma TextDoneGrows(st: State, index: nat, text: string)
    ensures Grows(st, EmitTextDone(ClaimMessage(st, index).0, text))
  {
    CompleteGrows(ClaimMessage(st, index).0, text);
    hide CompleteText;
  }

  lemma AgentDoneGrows(st: State, index: nat, text: string)
    ensures Grows(st, EmitAgentDone(st, index, text).0)
  {
    CompleteGrows(ClaimMessage(st, index).0.(pendingAgent := None), text);
    hide EmitAgentText;
  }

  lemma FlushGrows(st: State)
    ensures Grows(st, FlushAgent(st))
  {
    if st.pendingAgent.Some? {
      CompleteGrows(st.(pendingAgent := None), st.pendingAgent.value);
      hide EmitAgentText;
    }
  }

  lemma ListedGrows(st: State, output: seq<Item>)
    ensures Grows(st, EmitListedAgent(st, output).0)
  {
    hide EmitAgentDone;
    var position := AgentPosition(output);
    if !st.agentSent && position < |output| {
      AgentDoneGrows(st, position, output[position].text);
    }
  }

  lemma InputDoneGrows(st: State, index: nat, input: string)
    ensures Grows(st, EmitInputDone(st, index, input).0)
  {
    hide JsonString.Escape;
    var next := EmitInputDone(st, index, input).0;
    assert next.chunks == st.chunks || next.chunks == st.chunks + [next.chunks[|next.chunks| - 1]];
  }

  lemma ItemDoneGrows(st: State, index: nat, item: Item)
    ensures Grows(st, EmitItemDone(st, index, item).0)
  {
    hide EmitInputDone, EmitAgentDone;
    match item
    case FunctionCall(_, _, _, _, _) =>
    case Reasoning(_, _, _) =>
    case Message(_, _, _) =>
    case AgentMessage(_, _, text) => AgentDoneGrows(st, index, text);
    case CustomToolCall(_, _, _, _, input) =>
      if input.Some? {
        InputDoneGrows(st, index, input.value);
      }
  }

  lemma ProgressGrows(st: State, e: Event)
    ensures Grows(EmitRole(st), EmitProgress(st, e).0)
  {
    var ready := EmitRole(st);
    hide EmitRole, EmitTextDelta, EmitTextDone, EmitCallDelta, EmitInputDone, EmitItemDone, ClaimMessage;
    match e
    case TextDelta(_, _, index, delta) => TextDeltaGrows(ready, index, delta);
    case TextDone(_, _, index, text) =>
      TextDeltaGrows(ready, index, "");
      TextDoneGrows(ready, index, text);
    case ArgumentsDelta(_, itemId, index, delta) =>
      CallDeltaGrows(ready, index, itemId, delta, false);
    case InputDelta(_, itemId, index, delta) =>
      CallDeltaGrows(ready, index, itemId, delta, true);
    case InputDone(_, _, index, input) => InputDoneGrows(ready, index, input);
    case ItemDone(_, index, item) => ItemDoneGrows(ready, index, item);
    case _ =>
  }

  lemma AddedExtends(st: State, index: nat, item: Item)
    ensures Extends(st, EmitItemAdded(st, index, item).0)
  {
    hide EmitCallAdded, Grows;
    match item
    case Reasoning(_, _, _) => SameExtends(st);
    case Message(_, _, _) => ClaimExtends(st, index);
    case AgentMessage(_, _, _) => ClaimExtends(st, index);
    case _ =>
      CallAddedGrows(EmitRole(st), index, item);
      GrowsExtends(st, EmitCallAdded(EmitRole(st), index, item));
      hide Extends;
  }

  lemma SameExtends(st: State)
    ensures Extends(st, st)
  {
  }

  lemma ClaimExtends(st: State, index: nat)
    ensures var claimed := ClaimMessage(st, index).0;
            Extends(st, claimed) && forall next: State
              | next.completed == st.completed && next.role && next.chunks == EmitRole(claimed).chunks :: Extends(st,
                                                                                                                  next)
  {
  }

  lemma StepExtends(st: State, e: Event)
    requires !e.Terminal?
    ensures Extends(st, Translate(st, e).0)
  {
    hide EmitItemAdded, EmitProgress;
    match e
    case ItemAdded(_, index, item) => AddedExtends(st, index, item);
    case ReasoningDelta(_, _, _, _) =>
    case ReasoningDone(_, _, _, _) =>
    case _ =>
      ProgressGrows(st, e);
      GrowsExtends(st, EmitProgress(st, e).0);
  }

  lemma StepFramed(st: State, e: Event)
    requires Framed(st) && !st.completed && !e.Terminal?
    ensures Framed(Translate(st, e).0)
  {
    StepExtends(st, e);
    hide Translate, Framed, Extends;
    ExtendsFramed(st, Translate(st, e).0);
  }

  /** Finishing adds the role chunk where it is missing, an agent message still owed, and the finish chunk. */
  lemma FinishFramed(st: State)
    requires Framed(st) && !st.completed
    ensures Framed(Finish(st)) && Finish(st).completed
  {
    hide FlushAgent;
    var ready := EmitRole(st);
    FlushGrows(ready);
    var flushed := FlushAgent(ready);
    GrowsExtends(st, flushed);
    ExtendsFramed(st, flushed);
    assert flushed.role;
    PushFinishFramed(flushed);
  }

  lemma PushFinishFramed(st: State)
    requires Framed(st) && !st.completed && st.role
    ensures Framed(PushFinish(st)) && PushFinish(st).completed
  {
  }

  /** The event that ends a Responses stream. */
  predicate Completes(e: Event) {
    e.Terminal? && e.incompleteReason.None?
  }

  lemma CompletionFramed(st: State, output: seq<Item>)
    requires Framed(st) && !st.completed && EmitTerminal(st, output).1.None?
    ensures Framed(EmitTerminal(st, output).0) && EmitTerminal(st, output).0.completed
  {
    hide OutputError, Framed, EmitListedAgent, Finish, Extends, EmitRole, Grows;
    var listed := EmitListedAgent(EmitRole(st), output).0;
    ListedGrows(EmitRole(st), output);
    GrowsExtends(st, listed);
    ExtendsFramed(st, listed);
    FinishFramed(listed);
  }

  lemma TerminalFramed(st: State, e: Event)
    requires Framed(st) && !st.completed && e.Terminal? && Translate(st, e).1.None?
    ensures Framed(Translate(st, e).0) && (Translate(st, e).0.completed <==> Completes(e))
  {
    hide EmitTerminal, Framed;
    if Completes(e) {
      CompletionFramed(st, e.output);
    }
  }

  lemma OpenStep(st: State, e: Event)
    requires Framed(st) && !st.completed && Translate(st, e).1.None?
    ensures Framed(Translate(st, e).0) && (Translate(st, e).0.completed <==> Completes(e))
  {
    hide Translate, Framed;
    if e.Terminal? {
      TerminalFramed(st, e);
    } else {
      StepFramed(st, e);
      NotCompleted(st, e);
    }
  }

  /** A run whose completion, if any, comes last is framed, and completed exactly when it ends that way. */
  lemma {:induction false} RunFramed(events: seq<Event>)
    requires Run(events).Some? && forall i | 0 <= i < |events| - 1 :: !Completes(events[i])
    ensures Framed(Run(events).value)
    ensures Run(events).value.completed <==> events != [] && Completes(events[|events| - 1])
  {
    hide Translate;
    if events != [] {
      var init, last := events[..|events| - 1], events[|events| - 1];
      assert init != [] ==> init[|init| - 1] == events[|events| - 2];
      RunFramed(init);
      OpenStep(Run(init).value, last);
    }
  }

  // ---- After completion ----

  /** Events that a completed translator answers with no chunk. */
  predicate Silent(st: State, e: Event) {
    match e
    case ItemAdded(_, index, item) =>
      (item.FunctionCall? || item.CustomToolCall?) ==> index in st.calls && st.calls[index].added
    case TextDelta(_, _, _, _) => st.agentSent || st.textDone
    case TextDone(_, _, _, text) => MissingText(st, text) == ""
    case ArgumentsDelta(_, _, _, _) => false
    case InputDelta(_, _, _, _) => false
    case InputDone(_, _, index, input) => AlreadyClosed(st, index, input)
    case ItemDone(_, index, item) =>
      (match item
       case CustomToolCall(_, _, _, _, Some(input)) => AlreadyClosed(st, index, input)
       case AgentMessage(_, _, text) => AgentSilent(st, text)
       case _ => true)
    case Terminal(_, output, _, incompleteReason) =>
      incompleteReason.None? && !st.agentSent && AgentPosition(output) < |output| ==>
        AgentSilent(st, output[AgentPosition(output)].text)
    case _ => true
  }

  predicate AgentSilent(st: State, text: string) {
    text == "" || MissingText(st, text) == ""
  }

  predicate AlreadyClosed(st: State, index: nat, input: string) {
    index in st.calls && st.calls[index].closed && st.calls[index].input == input
  }

  lemma EscapeNonEmpty(s: string)
    ensures JsonString.Escape(s) == "" <==> s == ""
  {
    if s != "" {
      hide JsonString.EscapeChar;
      CharNonEmpty(s[0]);
    }
  }

  lemma CharNonEmpty(c: char)
    ensures JsonString.EscapeChar(c) != ""
  {
  }

  lemma InputDoneSilent(st: State, index: nat, input: string)
    requires EmitInputDone(st, index, input).1.None?
    ensures var next := EmitInputDone(st, index, input).0;
            && next.role == st.role && next.completed == st.completed
            && st.chunks <= next.chunks
            && (next.chunks == st.chunks <==> AlreadyClosed(st, index, input))
  {
    var missing := input[|st.calls[index].input|..];
    EscapeNonEmpty(missing);
    hide JsonString.Escape;
    assert missing == "" <==> st.calls[index].input == input;
  }

  lemma TextDoneSilent(st: State, index: nat, text: string)
    ensures var next := EmitTextDone(ClaimMessage(st, index).0, text);
            && next.role == st.role && next.completed == st.completed && st.chunks <= next.chunks
            && (next.chunks == st.chunks <==> MissingText(st, text) == "")
  {
    assert MissingText(ClaimMessage(st, index).0, text) == MissingText(st, text);
    hide MissingText;
  }

  lemma TextDeltaSilent(st: State, index: nat, delta: string)
    ensures var next := EmitTextDelta(ClaimMessage(st, index).0, delta);
            && next.role == st.role && next.completed == st.completed && st.chunks <= next.chunks
            && (next.chunks == st.chunks <==> st.agentSent || st.textDone)
  {
  }

  lemma CallDeltaHeard(st: State, index: nat, itemId: Id, delta: string, custom: bool)
    ensures var next := EmitCallDelta(st, index, itemId, delta, custom);
            && next.role == st.role && next.completed == st.completed && st.chunks < next.chunks
  {
    hide JsonString.Escape;
  }

  lemma CallAddedSilent(st: State, index: nat, item: Item)
    requires item.FunctionCall? || item.CustomToolCall?
    ensures var next := EmitCallAdded(st, index, item);
            && next.role == st.role && next.completed == st.completed && st.chunks <= next.chunks
            && (next.chunks == st.chunks <==> index in st.calls && st.calls[index].added)
  {
    hide AddItem;
  }

  lemma AgentDoneSilent(st: State, index: nat, text: string)
    requires EmitAgentDone(st, index, text).1.None?
    ensures var next := EmitAgentDone(st, index, text).0;
            && next.role == st.role && next.completed == st.completed && st.chunks <= next.chunks
            && (next.chunks == st.chunks <==> AgentSilent(st, text))
  {
    var claimed := ClaimMessage(st, index).0.(pendingAgent := None);
    SameMissing(st, index, text);
    CompleteSilent(claimed, text);
    hide MissingText, CompleteText, ClaimMessage;
    if text == "" {
      assert EmitAgentText(claimed, text) == claimed;
    }
  }

  lemma SameMissing(st: State, index: nat, text: string)
    ensures var claimed := ClaimMessage(st, index).0.(pendingAgent := None);
            && MissingText(claimed, text) == MissingText(st, text)
            && claimed.role == st.role && claimed.completed == st.completed && claimed.chunks == st.chunks
  {
  }

  lemma CompleteSilent(st: State, text: string)
    ensures var next := CompleteText(st, text);
            && next.role == st.role && next.completed == st.completed && st.chunks <= next.chunks
            && (next.chunks == st.chunks <==> MissingText(st, text) == "")
  {
    hide MissingText;
  }

  lemma ItemDoneSilent(st: State, e: Event)
    requires e.ItemDone? && EmitItemDone(st, e.outputIndex, e.item).1.None?
    ensures var next := EmitItemDone(st, e.outputIndex, e.item).0;
            && next.role == st.role && next.completed == st.completed && st.chunks <= next.chunks
            && (next.chunks == st.chunks <==> Silent(st, e))
  {
    hide EmitInputDone, EmitAgentDone, AlreadyClosed, AgentSilent;
    match e.item
    case FunctionCall(_, _, _, _, _) =>
    case Reasoning(_, _, _) =>
    case Message(_, _, _) =>
    case AgentMessage(_, _, text) => AgentDoneSilent(st, e.outputIndex, text);
    case CustomToolCall(_, _, _, _, input) => InputDoneSilent(st, e.outputIndex, input.value);
  }

  lemma TerminalSilent(st: State, e: Event)
    requires st.completed && st.role && e.Terminal? && Translate(st, e).1.None?
    ensures var next := Translate(st, e).0;
            && next.completed && next.role && st.chunks <= next.chunks
            && (next.chunks == st.chunks <==> Silent(st, e))
  {
    if Completes(e) {
      hide OutputError, EmitAgentDone, AgentSilent;
      var position := AgentPosition(e.output);
      if !st.agentSent && position < |e.output| {
        AgentDoneSilent(st, position, e.output[position].text);
      }
    }
  }

  /** A completed translator stays completed, takes back no chunk, and adds one exactly for the events that are not
      silent. */
  lemma SilentStep(st: State, e: Event)
    requires st.completed && st.role && Translate(st, e).1.None?
    ensures var next := Translate(st, e).0;
            && next.completed && next.role && st.chunks <= next.chunks
            && (next.chunks == st.chunks <==> Silent(st, e))
  {
    hide EmitTextDone, EmitTextDelta, EmitCallDelta, EmitCallAdded, EmitItemDone, EmitInputDone, EmitTerminal;
    hide MissingText, AlreadyClosed, AgentSilent;
    match e {
      case TextDone(_, _, index, text) => TextDoneSilent(st, index, text);
      case TextDelta(_, _, index, delta) => TextDeltaSilent(st, index, delta);
      case ArgumentsDelta(_, itemId, index, delta) => CallDeltaHeard(st, index, itemId, delta, false);
      case InputDelta(_, itemId, index, delta) => CallDeltaHeard(st, index, itemId, delta, true);
      case InputDone(_, _, index, input) => InputDoneSilent(st, index, input);
      case ItemDone(_, _, _) => ItemDoneSilent(st, e);
      case Terminal(_, _, _, _) => TerminalSilent(st, e);
      case ItemAdded(_, index, item) =>
        if item.FunctionCall? || item.CustomToolCall? {
          CallAddedSilent(st, index, item);
        }
      case _ =>
    }
  }

  /** Every event after the completion is silent. */
  ghost predicate QuietAfterEnd(events: seq<Event>) {
    forall n | 0 <= n < |events| :: QuietAt(events, n)
  }

  ghost predicate QuietAt(events: seq<Event>, n: nat)
    requires n < |events|
  {
    Run(events[..n]).Some? && Run(events[..n]).value.completed ==> Silent(Run(events[..n]).value, events[n])
  }

  /** Something was sent after the finish chunk. */
  ghost predicate Overrun(st: State) {
    st.completed && st.role && exists i :: 0 <= i < |st.chunks| - 1 && st.chunks[i].FinishChunk?
  }

  lemma OverrunStays(st: State, e: Event)
    requires Overrun(st) && Translate(st, e).1.None?
    ensures Overrun(Translate(st, e).0)
  {
    SilentStep(st, e);
    hide Translate;
    var i :| 0 <= i < |st.chunks| - 1 && st.chunks[i].FinishChunk?;
    assert Translate(st, e).0.chunks[i] == st.chunks[i];
  }

  lemma ClosedStep(st: State, e: Event)
    requires Framed(st) && st.completed && Translate(st, e).1.None?
    ensures if Silent(st, e) then Framed(Translate(st, e).0) else Overrun(Translate(st, e).0)
  {
    SilentStep(st, e);
    hide Translate, Silent;
    var next, n := Translate(st, e).0, |st.chunks| - 1;
    assert next.chunks[n] == st.chunks[n];
  }

  lemma {:induction false} FramedOrOverrun(events: seq<Event>)
    requires Run(events).Some?
    ensures if QuietAfterEnd(events) then Framed(Run(events).value) else Overrun(Run(events).value)
  {
    assert Framed(INITIAL);
    hide Translate, Framed, Overrun, Silent;
    if events != [] {
      var init, last := events[..|events| - 1], events[|events| - 1];
      FramedOrOverrun(init);
      QuietSnoc(init, last);
      assert events == init + [last];
      var st := Run(init).value;
      if Framed(st) && QuietAfterEnd(init) {
        if st.completed {
          ClosedStep(st, last);
        } else {
          OpenStep(st, last);
        }
      } else {
        OverrunStays(st, last);
      }
    }
  }

  lemma QuietSnoc(init: seq<Event>, last: Event)
    ensures QuietAfterEnd(init + [last]) <==> QuietAfterEnd(init) && QuietAt(init + [last], |init|)
  {
    var events := init + [last];
    forall n | 0 <= n < |init|
      ensures QuietAt(events, n) == QuietAt(init, n)
    {
      assert events[..n] == init[..n] && events[n] == init[n];
    }
    hide QuietAt;
    if QuietAfterEnd(events) {
      assert forall n | 0 <= n < |init| :: QuietAt(events, n);
    }
  }

  /** On every error-free run, whatever its events: the role chunk comes first and only once, and the finish chunk
      last and only once, exactly when each event after the completion is silent. */
  lemma FramedIff(events: seq<Event>)
    requires Run(events).Some?
    ensures Framed(Run(events).value) <==> QuietAfterEnd(events)
  {
    FramedOrOverrun(events);
    hide Run, QuietAfterEnd;
  }

  /** The translator does not look back at its completion: text that follows it is sent after the finish chunk. */
  lemma TextAfterCompletion(index: nat, text: string)
    ensures var events := [Created(1), Terminal(2, [], None, None), TextDelta(3, Given("m"), index, text)];
            && Run(events).Some? && !Framed(Run(events).value)
            && Run(events).value.chunks == [RoleChunk, FinishChunk("stop"), ContentChunk(text)]
  {
    var created, terminal, delta := Created(1), Terminal(2, [], None, None), TextDelta(3, Given("m"), index, text);
    assert [created, terminal, delta][..2] == [created, terminal] && [created, terminal][..1] == [created]
      && [created][..0] == [];
    assert Run([]) == Some(INITIAL);
    assert Run([created]).value.chunks == [RoleChunk];
    assert Run([created, terminal]).value.chunks == [RoleChunk, FinishChunk("stop")];
    assert Run([created, terminal, delta]).value.chunks[1].FinishChunk?;
  }

  // ---- The round trip ----

  lemma FaithfulIsWellBehaved(events: seq<Event>)
    requires Final.FaithfulStream(events)
    ensures WellBehaved(events)
  {
    hide PhaseOf, OutputError;
    var output := events[|events| - 1].output;
    forall i: nat
      ensures !PhaseOf(events, i).Broken?
      ensures IsText(PhaseOf(events, i)) ==> i < |output| && output[i].Message?
    {
      assert Final.ClosedAs(PhaseOf(events, i), if i < |output| then Some(output[i]) else None);
    }
    forall i | 0 <= i < |events| && events[i].Terminal?
      ensures OutputError(events[i].output, 0).None? && NoAgentIn(events[i].output)
    {
      assert i == |events| - 1;
      forall k | 0 <= k < |output|
        ensures !output[k].CustomToolCall?
      {
        assert Final.ClosedAs(PhaseOf(events, k), Some(output[k]));
      }
      OutputAccepted(output, 0);
    }
  }

  lemma {:induction false} OutputAccepted(output: seq<Item>, messages: nat)
    requires (forall k | 0 <= k < |output| :: !output[k].CustomToolCall?) && NoAgentIn(output)
    requires forall i, j | 0 <= i < j < |output| :: !(output[i].Message? && output[j].Message?)
    requires messages == 0 || (messages == 1 && forall k | 0 <= k < |output| :: !output[k].Message?)
    ensures OutputError(output, messages).None?
  {
    if output != [] {
      OutputAccepted(output[1..], if output[0].Message? then 1 else messages);
    }
  }

  ghost predicate NoCalls(events: seq<Event>) {
    forall i: nat :: !IsTool(PhaseOf(events, i))
  }

  /** The call at the index was announced once, and every chunk about it, at least one, carries that call id and
      name. */
  ghost predicate NamedAlike(chunks: seq<Chunk>, events: seq<Event>, i: nat) {
    var added := Arrivals.AddedItems(events, i);
    && |added| == 1 && added[0].FunctionCall?
    && CalledAs(chunks, i, added[0].callId, added[0].name)
  }

  /** What a client reads from the finished Chat stream of `events`. */
  ghost predicate ReadsBack(done: State, events: seq<Event>) {
    && Framed(done) && done.completed
    && (forall i: nat :: ArgumentsOf(done.chunks, i) == CallText(PhaseOf(events, i)))
    && (forall i: nat | IsText(PhaseOf(events, i)) :: ContentOf(done.chunks) == PhaseOf(events, i).streamed)
    && ((forall i: nat :: !IsText(PhaseOf(events, i))) ==> ContentOf(done.chunks) == "")
    && (forall i: nat | IsTool(PhaseOf(events, i)) :: NamedAlike(done.chunks, events, i))
    && (done.chunks[|done.chunks| - 1].reason == "stop" <==> NoCalls(events))
  }

  /** A faithful Responses stream reads back without error: content, arguments, call ids, names and finish reason
      are its own. */
  lemma FaithfulReads(events: seq<Event>)
    requires Final.FaithfulStream(events)
    ensures Run(events).Some? && ReadsBack(Finish(Run(events).value), events)
  {
    hide Final.FaithfulStream, WellBehaved, PhaseOf, Framed, ReadsBack, Reads, Finish, Translate, OutputError;
    FaithfulIsWellBehaved(events);
    FaithfulEnds(events);
    var init, last := events[..|events| - 1], events[|events| - 1];
    assert events == init + [last];
    WellBehavedPrefix(events, |events| - 1);
    RunReads(init);
    RunFramed(init);
    var st := Run(init).value;
    ReadsFrame(st, init);
    TerminalReads(st, last);
    hide NamedAlike;
    EveryCallNamed(events);
    ReadsAtEnd(st, Finish(Translate(st, last).0), init, last);
  }

  lemma EveryCallNamed(events: seq<Event>)
    requires Run(events).Some?
    ensures forall i: nat | IsTool(PhaseOf(events, i)) :: NamedAlike(Finish(Run(events).value).chunks, events, i)
  {
    hide Run, PhaseOf, CalledAs, Finish, Arrivals.AddedItems;
    forall i: nat | IsTool(PhaseOf(events, i))
      ensures NamedAlike(Finish(Run(events).value).chunks, events, i)
    {
      CallsAreNamed(events, i);
    }
  }

  lemma ReadsAtEnd(st: State, done: State, init: seq<Event>, last: Event)
    requires Reads(st, init) && last.Terminal?
    requires Framed(done) && done.completed
    requires ContentOf(done.chunks) == ContentOf(st.chunks)
    requires forall i :: ArgumentsOf(done.chunks, i) == ArgumentsOf(st.chunks, i)
    requires done.chunks[|done.chunks| - 1] == FinishChunk(if st.calls == map[] then "stop" else "tool_calls")
    requires forall i: nat | IsTool(PhaseOf(init + [last], i)) :: NamedAlike(done.chunks, init + [last], i)
    ensures ReadsBack(done, init + [last])
  {
    hide PhaseOf, ContentOf, ArgumentsOf, NamedAlike;
    var events := init + [last];
    forall i: nat
      ensures PhaseOf(events, i) == PhaseOf(init, i) && Tells(st, i, PhaseOf(events, i))
    {
      PhaseSnoc(init, last, i);
      TellsAt(st, init, i);
    }
    NoMessage(st, events);
    if st.calls != map[] {
      var i :| i in st.calls;
      assert Tells(st, i, PhaseOf(events, i));
    }
  }

  lemma NoMessage(st: State, events: seq<Event>)
    requires forall i: nat :: Tells(st, i, PhaseOf(events, i))
    requires st.messageIndex.None? ==> st.text == ""
    ensures (forall i: nat :: !IsText(PhaseOf(events, i))) ==> st.text == ""
  {
    if st.messageIndex.Some? {
      assert Tells(st, st.messageIndex.value, PhaseOf(events, st.messageIndex.value));
    }
  }

  lemma FaithfulEnds(events: seq<Event>)
    requires Final.FaithfulStream(events)
    ensures events != [] && events[|events| - 1].Terminal?
    ensures OutputError(events[|events| - 1].output, 0).None? && NoAgentIn(events[|events| - 1].output)
    ensures forall i | 0 <= i < |events| - 1 :: !events[i].Terminal?
  {
    FaithfulIsWellBehaved(events);
  }

  /** Whether or not the terminal event says `incomplete`, finishing afterwards adds one finish chunk. */
  lemma TerminalReads(st: State, e: Event)
    requires Framed(st) && !st.completed && e.Terminal? && OutputError(e.output, 0).None?
    requires NoAgent(st) && NoAgentIn(e.output)
    ensures var (next, error) := Translate(st, e);
            error.None? && var done := Finish(next);
            && Framed(done) && done.completed
            && ContentOf(done.chunks) == ContentOf(st.chunks)
            && (forall i :: ArgumentsOf(done.chunks, i) == ArgumentsOf(st.chunks, i))
            && done.chunks[|done.chunks| - 1] == FinishChunk(if st.calls == map[] then "stop" else "tool_calls")
  {
    hide ContentOf, ArgumentsOf, Framed, OutputError;
    FinishReads(st);
    assert EmitListedAgent(EmitRole(st), e.output) == (EmitRole(st), None);
    assert Finish(Translate(st, e).0) == Finish(st);
  }

  lemma FinishReads(st: State)
    requires Framed(st) && !st.completed && NoAgent(st)
    ensures var done := Finish(st);
            && Framed(done) && done.completed
            && ContentOf(done.chunks) == ContentOf(st.chunks)
            && (forall i :: ArgumentsOf(done.chunks, i) == ArgumentsOf(st.chunks, i))
            && done.chunks[|done.chunks| - 1] == FinishChunk(if st.calls == map[] then "stop" else "tool_calls")
  {
    FinishFramed(st);
    hide ContentOf, ArgumentsOf, Framed;
    var ready, finish := EmitRole(st), FinishChunk(if st.calls == map[] then "stop" else "tool_calls");
    ChunkSnoc(st.chunks, RoleChunk);
    ChunkSnoc(ready.chunks, finish);
    assert Finish(st) == PushFinish(ready);
  }

  /** The finished Chat stream carries the content and the calls of the translator it came from: each call whose
      buffer was never replaced streams exactly the fragments it received, under the output index it was given;
      every call keeps the call id and the name it was announced with; and the finish reason says whether there were
      calls. */
  ghost predicate Preserves(done: State, sent: C2R.State, content: string) {
    && Framed(done) && done.completed
    && ContentOf(done.chunks) == content
    && (forall k | k in sent.tools && k in sent.received && !sent.tools[k].desynced ::
          ArgumentsOf(done.chunks, sent.tools[k].outputIndex) == Join(sent.received[k]))
    && (forall k | k in sent.tools :: NamedAlike(done.chunks, sent.emitted, sent.tools[k].outputIndex))
    && (done.chunks[|done.chunks| - 1].reason == "stop" <==> sent.tools == map[])
  }

  /** Main result: Chat to Responses and back, on every error-free run, changes neither the content up to the end of
      the upstream stream nor the calls. */
  lemma RoundTripPreserves(strict: bool, events: seq<ChatEvent>)
    requires C2R.RunToEnd(strict, events).Some?
    ensures var sent := C2R.RunToEnd(strict, events).value;
            Run(sent.emitted).Some? && Preserves(Finish(Run(sent.emitted).value), sent, Final.TextSentUpstream(events))
  {
    hide C2R.RunToEnd, Run, Final.FaithfulStream, Final.TextSentUpstream, Framed, Finish, PhaseOf, Runs.Inv, Final.Closed;
    hide NamedAlike;
    Final.EveryRunIsFaithful(strict, events);
    var sent := C2R.RunToEnd(strict, events).value;
    FaithfulReads(sent.emitted);
    SentText(sent);
    SentCalls(sent);
  }

  /** Where the finished translator's text and calls stand in its stream. */
  lemma SentText(sent: C2R.State)
    requires Runs.Inv(sent) && Final.Closed(sent)
    ensures forall i: nat | IsText(PhaseOf(sent.emitted, i)) :: PhaseOf(sent.emitted, i).streamed == sent.text
    ensures (forall i: nat :: !IsText(PhaseOf(sent.emitted, i))) ==> sent.text == ""
  {
    hide PhaseOf, NormalizeArguments;
    forall i: nat | IsText(PhaseOf(sent.emitted, i))
      ensures PhaseOf(sent.emitted, i).streamed == sent.text
    {
      Runs.PhaseAt(sent, i);
    }
    if sent.textAdded {
      Runs.PhaseAt(sent, sent.textIndex.value);
    }
  }

  lemma SentCalls(sent: C2R.State)
    requires Runs.Inv(sent) && Final.Closed(sent)
    ensures forall k | k in sent.tools && k in sent.received && !sent.tools[k].desynced ::
              CallText(PhaseOf(sent.emitted, sent.tools[k].outputIndex)) == Join(sent.received[k])
    ensures forall k | k in sent.tools :: IsTool(PhaseOf(sent.emitted, sent.tools[k].outputIndex))
    ensures sent.tools == map[] <==> NoCalls(sent.emitted)
  {
    hide PhaseOf, NormalizeArguments, Runs.Phases;
    forall k | k in sent.tools
      ensures IsTool(PhaseOf(sent.emitted, sent.tools[k].outputIndex))
      ensures k in sent.received && !sent.tools[k].desynced ==>
                CallText(PhaseOf(sent.emitted, sent.tools[k].outputIndex)) == Join(sent.received[k])
    {
      Runs.PhaseAt(sent, sent.tools[k].outputIndex);
      if k in sent.received && !sent.tools[k].desynced {
        NeverReplacedJoins(sent.received[k], sent.strict);
      }
    }
    if sent.tools != map[] {
      var k :| k in sent.tools;
      assert IsTool(PhaseOf(sent.emitted, sent.tools[k].outputIndex));
    }
    forall i: nat | IsTool(PhaseOf(sent.emitted, i))
      ensures sent.tools != map[]
    {
      Runs.PhaseAt(sent, i);
      assert Runs.OwnedBy(sent, i, sent.owners[i]);
    }
  }
}
