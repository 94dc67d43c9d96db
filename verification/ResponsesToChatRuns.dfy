/** What the client of the Responses-to-Chat translator has read, over whole runs of arbitrary events. */
module ResponsesToChatRuns {
  import opened Collections
  import opened StreamEvents
  import opened ResponsesToChat

  /** While `ok`, the client has read exactly the translator's text; afterwards always more. */
  predicate Reading(st: State, ok: bool) {
    if ok then ContentOf(st.chunks) == st.text && (st.textEmitted <==> st.text != "")
    else |ContentOf(st.chunks)| > |st.text|
  }

  /** The complete text an event makes known: of the message, or of an agent message. */
  function GivenText(st: State, e: Event): Option<string> {
    match e
    case TextDone(_, _, _, text) => Some(text)
    case ItemDone(_, _, AgentMessage(_, _, text)) => NonEmpty(text)
    case Terminal(_, output, _, incompleteReason) => if incompleteReason.Some? then None else GivenAtEnd(st, output)
    case _ => None
  }

  function NonEmpty(text: string): Option<string> {
    if text == "" then None else Some(text)
  }

  /** The listed agent message unless one was sent, else one that was announced and never done. */
  function GivenAtEnd(st: State, output: seq<Item>): Option<string> {
    if !st.agentSent && AgentPosition(output) < |output| then NonEmpty(output[AgentPosition(output)].text)
    else if !st.completed && st.pendingAgent.Some? then NonEmpty(st.pendingAgent.value)
    else None
  }

  /** The text an event makes known, if any, continues the text known so far. */
  predicate Continues(st: State, given: Option<string>) {
    given.Some? ==> st.text <= given.value
  }

  // ---- Steps ----

  lemma OtherChunk(st: State, chunk: Chunk, ok: bool)
    requires Reading(st, ok) && !chunk.ContentChunk?
    ensures Reading(Push(st, chunk), ok)
  {
    ChunkSnoc(st.chunks, chunk);
  }

  lemma RoleReading(st: State, ok: bool)
    requires Reading(st, ok)
    ensures Reading(EmitRole(st), ok) && EmitRole(st) == st.(role := true, chunks := EmitRole(st).chunks)
  {
    OtherChunk(st.(role := true), RoleChunk, ok);
    hide Reading;
  }

  lemma DeltaReading(st: State, delta: string, ok: bool)
    requires Reading(st, ok)
    ensures Reading(EmitTextDelta(st, delta), ok)
  {
    ChunkSnoc(st.chunks, ContentChunk(delta));
    hide ContentOf;
  }

  /** A complete text keeps the client in step exactly when it continues what was known. */
  lemma CompleteReading(st: State, text: string, ok: bool)
    requires Reading(st, ok)
    ensures Reading(CompleteText(st, text), ok && st.text <= text)
  {
    ChunkSnoc(st.chunks, ContentChunk(MissingText(st, text)));
    hide ContentOf;
    if st.text <= text {
      assert st.text + text[|st.text|..] == text;
    }
  }

  lemma AgentReading(st: State, text: string, ok: bool)
    requires Reading(st, ok)
    ensures Reading(EmitAgentText(st, text), ok && Continues(st, NonEmpty(text)))
  {
    CompleteReading(st, text, ok);
    hide CompleteText, ContentOf;
  }

  lemma AnnouncedReading(st: State, index: nat, item: Item, ok: bool)
    requires Reading(st, ok) && (item.FunctionCall? || item.CustomToolCall?)
    ensures Reading(EmitCallAdded(st, index, item), ok)
  {
    hide AddItem, ContentOf;
    var next := EmitCallAdded(st, index, item);
    if next.chunks != st.chunks {
      ChunkSnoc(st.chunks, next.chunks[|next.chunks| - 1]);
    }
  }

  lemma CallReading(st: State, index: nat, itemId: Id, delta: string, custom: bool, ok: bool)
    requires Reading(st, ok)
    ensures Reading(EmitCallDelta(st, index, itemId, delta, custom), ok)
  {
    hide JsonString.Escape, ContentOf;
    var next := EmitCallDelta(st, index, itemId, delta, custom);
    ChunkSnoc(st.chunks, next.chunks[|next.chunks| - 1]);
  }

  lemma InputDoneReading(st: State, index: nat, input: string, ok: bool)
    requires Reading(st, ok)
    ensures Reading(EmitInputDone(st, index, input).0, ok)
  {
    hide JsonString.Escape, ContentOf;
    var next := EmitInputDone(st, index, input).0;
    if next.chunks != st.chunks {
      ChunkSnoc(st.chunks, next.chunks[|next.chunks| - 1]);
    }
  }

  lemma ClaimReading(st: State, index: nat, ok: bool)
    requires Reading(st, ok)
    ensures Reading(ClaimMessage(st, index).0, ok) && ClaimMessage(st, index).0.text == st.text
  {
  }

  lemma AgentDoneReading(st: State, index: nat, text: string, ok: bool)
    requires Reading(st, ok) && EmitAgentDone(st, index, text).1.None?
    ensures var next := EmitAgentDone(st, index, text).0;
            && Reading(next, ok && Continues(st, NonEmpty(text)))
            && next.completed == st.completed && next.pendingAgent.None?
  {
    AgentReading(ClaimMessage(st, index).0.(pendingAgent := None), text, ok);
    hide ContentOf, MissingText;
  }

  lemma ItemDoneReading(st: State, e: Event, ok: bool)
    requires Reading(st, ok) && e.ItemDone? && EmitItemDone(st, e.outputIndex, e.item).1.None?
    ensures Reading(EmitItemDone(st, e.outputIndex, e.item).0, ok && Continues(st, GivenText(st, e)))
  {
    hide EmitInputDone, EmitAgentDone, ContentOf;
    match e.item
    case FunctionCall(_, _, _, _, _) =>
    case Reasoning(_, _, _) =>
    case Message(_, _, _) =>
    case AgentMessage(_, _, text) => AgentDoneReading(st, e.outputIndex, text, ok);
    case CustomToolCall(_, _, _, _, input) => InputDoneReading(st, e.outputIndex, input.value, ok);
  }

  lemma FinishReading(st: State, ok: bool)
    requires Reading(st, ok) && st.role
    ensures var given := if !st.completed && st.pendingAgent.Some? then NonEmpty(st.pendingAgent.value) else None;
            Reading(Finish(st), ok && Continues(st, given))
  {
    if !st.completed {
      var still := ok && (st.pendingAgent.Some? ==> Continues(st, NonEmpty(st.pendingAgent.value)));
      if st.pendingAgent.Some? {
        AgentReading(st.(pendingAgent := None), st.pendingAgent.value, ok);
      }
      hide EmitAgentText, Reading;
      var flushed := FlushAgent(st);
      assert Reading(flushed, still) by {
        FlushReading(st, ok);
      }
      OtherChunk(flushed.(completed := true), FinishChunk(if flushed.calls == map[] then "stop" else "tool_calls"),
                 still);
    }
  }

  lemma FlushReading(st: State, ok: bool)
    requires Reading(st, ok)
    ensures Reading(FlushAgent(st), ok && (st.pendingAgent.Some? ==> Continues(st, NonEmpty(st.pendingAgent.value))))
  {
    if st.pendingAgent.Some? {
      AgentReading(st.(pendingAgent := None), st.pendingAgent.value, ok);
      hide EmitAgentText, ContentOf;
    }
  }

  lemma TerminalReading(st: State, output: seq<Item>, ok: bool)
    requires Reading(st, ok) && EmitTerminal(st, output).1.None?
    ensures Reading(EmitTerminal(st, output).0, ok && Continues(st, GivenAtEnd(st, output)))
  {
    RoleReading(st, ok);
    var ready, position := EmitRole(st), AgentPosition(output);
    hide EmitRole, Reading, Finish, EmitAgentDone, OutputError, NonEmpty, AgentPosition;
    if !ready.agentSent && position < |output| {
      AgentDoneReading(ready, position, output[position].text, ok);
      var listed := EmitAgentDone(ready, position, output[position].text).0;
      FinishReading(listed, ok && Continues(ready, NonEmpty(output[position].text)));
    } else {
      FinishReading(ready, ok);
    }
  }

  lemma AddedReading(st: State, index: nat, item: Item, ok: bool)
    requires Reading(st, ok)
    ensures Reading(EmitItemAdded(st, index, item).0, ok)
  {
    ClaimReading(st, index, ok);
    RoleReading(ClaimMessage(st, index).0, ok);
    RoleReading(st, ok);
    hide EmitRole, EmitCallAdded, ContentOf;
    match item
    case Reasoning(_, _, _) =>
    case Message(_, _, _) =>
    case AgentMessage(_, _, _) =>
    case _ => AnnouncedReading(EmitRole(st), index, item, ok);
  }

  lemma ProgressReading(st: State, e: Event, ok: bool)
    requires Reading(st, ok) && EmitProgress(st, e).1.None? && !e.Terminal? && !e.ItemAdded?
    ensures Reading(EmitProgress(st, e).0, ok && Continues(st, GivenText(st, e)))
  {
    RoleReading(st, ok);
    var ready := EmitRole(st);
    hide EmitRole, Reading, EmitTextDelta, EmitTextDone, EmitCallDelta, EmitArgumentsDone, EmitInputDone, EmitItemDone;
    hide ClaimMessage, GivenAtEnd, NonEmpty;
    match e
    case TextDelta(_, _, index, delta) =>
      ClaimReading(ready, index, ok);
      DeltaReading(ClaimMessage(ready, index).0, delta, ok);
    case TextDone(_, _, index, text) =>
      TextDoneReading(ready, index, text, ok);
    case ArgumentsDelta(_, itemId, index, delta) =>
      CallReading(ready, index, itemId, delta, false, ok);
    case InputDelta(_, itemId, index, delta) =>
      CallReading(ready, index, itemId, delta, true, ok);
    case ArgumentsDone(_, _, index, name, arguments) => ArgumentsReading(ready, index, name, arguments, ok);
    case InputDone(_, _, index, input) => InputDoneReading(ready, index, input, ok);
    case ItemDone(_, _, _) => ItemDoneReading(ready, e, ok);
    case _ =>
  }

  lemma TextDoneReading(st: State, index: nat, text: string, ok: bool)
    requires Reading(st, ok)
    ensures Reading(EmitTextDone(ClaimMessage(st, index).0, text), ok && st.text <= text)
  {
    ClaimReading(st, index, ok);
    CompleteReading(ClaimMessage(st, index).0, text, ok);
    hide CompleteText, ContentOf;
  }

  lemma ArgumentsReading(st: State, index: nat, name: string, arguments: string, ok: bool)
    requires Reading(st, ok)
    ensures Reading(EmitArgumentsDone(st, index, name, arguments), ok)
  {
    hide ContentOf;
  }

  lemma StepReading(st: State, e: Event, ok: bool)
    requires Reading(st, ok) && Translate(st, e).1.None?
    ensures Reading(Translate(st, e).0, ok && Continues(st, GivenText(st, e)))
  {
    hide Reading, EmitItemAdded, EmitProgress, EmitTerminal;
    match e
    case ItemAdded(_, index, item) => AddedReading(st, index, item, ok);
    case Terminal(_, output, _, incompleteReason) =>
      if incompleteReason.None? {
        TerminalReading(st, output, ok);
      }
    case ReasoningDelta(_, _, _, _) =>
    case ReasoningDone(_, _, _, _) =>
    case _ => ProgressReading(st, e, ok);
  }

  // ---- Runs ----

  /** Every complete text of the run continued the text known when it arrived. */
  ghost predicate NoContradiction(events: seq<Event>) {
    forall n | 0 <= n < |events| :: ContinuesAt(events, n)
  }

  ghost predicate ContinuesAt(events: seq<Event>, n: nat)
    requires n < |events|
  {
    Run(events[..n]).Some? ==> Continues(Run(events[..n]).value, GivenText(Run(events[..n]).value, events[n]))
  }

  lemma ContradictionSnoc(init: seq<Event>, last: Event)
    ensures NoContradiction(init + [last]) <==> NoContradiction(init) && ContinuesAt(init + [last], |init|)
  {
    var events := init + [last];
    forall n | 0 <= n < |init|
      ensures ContinuesAt(events, n) == ContinuesAt(init, n)
    {
      assert events[..n] == init[..n] && events[n] == init[n];
    }
    hide ContinuesAt;
    if NoContradiction(events) {
      assert forall n | 0 <= n < |init| :: ContinuesAt(events, n);
    }
  }

  lemma {:induction false} RunReading(events: seq<Event>)
    requires Run(events).Some?
    ensures Reading(Run(events).value, NoContradiction(events))
  {
    assert Reading(INITIAL, true);
    hide Reading, Translate, GivenText, Continues;
    if events != [] {
      var init, last := events[..|events| - 1], events[|events| - 1];
      assert events == init + [last];
      RunReading(init);
      ContradictionSnoc(init, last);
      StepReading(Run(init).value, last, NoContradiction(init));
    }
  }

  /** On every error-free run the client has read exactly the text the translator knows, unless some complete text
      contradicted what was streamed before it: then the client has read more, and no later event repairs it. */
  lemma ContentIsTextIff(events: seq<Event>)
    requires Run(events).Some?
    ensures var st := Run(events).value;
            ContentOf(st.chunks) == st.text <==> NoContradiction(events)
  {
    RunReading(events);
    hide Run, ContentOf;
  }

  /** For instance, a done event whose text does not continue the only delta is sent whole, after that delta. */
  lemma ContradictionIsSentWhole(index: nat, delta: string, text: string)
    requires delta != "" && text != "" && !(delta <= text)
    ensures var run := Run([TextDelta(1, Given("m"), index, delta), TextDone(2, Given("m"), index, text)]);
            run.Some? && ContentOf(run.value.chunks) == delta + text
  {
    var e, f := TextDelta(1, Given("m"), index, delta), TextDone(2, Given("m"), index, text);
    assert [e, f][..1] == [e] && [e][..0] == [];
    assert Run([]) == Some(INITIAL);
    var streamed := [] + [RoleChunk] + [ContentChunk(delta)];
    assert Run([e]).value.chunks == streamed;
    assert Run([e, f]).value.chunks == streamed + [ContentChunk(text)];
    ChunkSnoc([], RoleChunk);
    ChunkSnoc([] + [RoleChunk], ContentChunk(delta));
    ChunkSnoc(streamed, ContentChunk(text));
  }
}
