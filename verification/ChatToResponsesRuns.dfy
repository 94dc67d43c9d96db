/** Whole-run properties of the Chat-to-Responses translator: numbering, output indices, item lifecycles,
    and the agreement of streamed deltas, done events and terminal items. */
module ChatToResponsesRuns {
  import opened Collections
  import opened StreamEvents
  import opened ToolArguments
  import opened ChatToResponses

  // ---- The invariant ----

  /** Sequence numbers are 1, 2, 3, ...; `response.created` comes first and only first; the terminal event, when
      there is one, comes last and only last. */
  ghost predicate WellNumbered(events: seq<Event>) {
    && (forall i | 0 <= i < |events| :: events[i].sequence == i + 1)
    && (events != [] ==> events[0].Created?)
    && (forall i | 0 < i < |events| :: !events[i].Created?)
    && (forall i | 0 <= i < |events| - 1 :: !events[i].Terminal?)
  }

  ghost predicate Wire(st: State) {
    && WellNumbered(st.emitted)
    && st.sequence == |st.emitted|
    && (st.created <==> st.emitted != [])
    && (st.completed <==> st.emitted != [] && st.emitted[|st.emitted| - 1].Terminal?)
  }

  ghost predicate OwnedBy(st: State, i: nat, owner: Owner) {
    match owner
    case ForReasoning => st.reasoning.Some? && st.reasoning.value.outputIndex == i
    case ForText => st.textIndex == Some(i)
    case ForTool(k) => k in st.tools && st.tools[k].outputIndex == i
  }

  /** Output indices 0 .. nextIndex-1 are in one-to-one correspondence with the items. */
  ghost predicate Ownership(st: State) {
    && |st.owners| == st.nextIndex
    && (st.textAdded == st.textIndex.Some? == st.textId.Some?)
    && (!st.textAdded ==> st.text == "")
    && (st.reasoning.Some? ==> st.reasoning.value.started)
    && (st.textIndex.Some? ==> st.textIndex.value < |st.owners| && st.owners[st.textIndex.value] == ForText)
    && (st.reasoning.Some? ==>
          var i := st.reasoning.value.outputIndex; i < |st.owners| && st.owners[i] == ForReasoning)
    && (forall k | k in st.tools ::
          st.tools[k].outputIndex < |st.owners| && st.owners[st.tools[k].outputIndex] == ForTool(k))
    && (forall i {:trigger OwnedBy(st, i, st.owners[i])} | 0 <= i < |st.owners| :: OwnedBy(st, i, st.owners[i]))
    && st.received.Keys == st.tools.Keys
  }

  /** What the stream so far must say about a call. */
  ghost predicate ToolFits(st: State, t: ToolCall, phase: Phase) {
    if !t.added then phase == Absent && !t.done && t.arguments == ""
    else if t.done then
      phase.ToolClosed? && phase.item == ToolItem(st, t) && (!t.desynced ==> phase.streamed == t.arguments)
    else phase.ToolOpen? && (!t.desynced ==> phase.streamed == t.arguments)
  }

  /** What the stream so far must say about index `i`. */
  ghost predicate Fits(st: State, i: nat, phase: Phase) {
    if i >= |st.owners| then phase == Absent
    else match st.owners[i]
      case ForReasoning => phase == Thinking
      case ForText =>
        phase == if st.textDone then TextClosed(st.text, Message(st.textId.GetOr(Given("")), FinalStatus(st), st.text))
                 else TextOpen(st.text)
      case ForTool(k) => k in st.tools && ToolFits(st, st.tools[k], phase)
  }

  ghost predicate Phases(st: State) {
    forall i: nat :: Fits(st, i, PhaseOf(st.emitted, i))
  }

  /** Each buffer is the merge of the fragments its call received, and the client's copy fell behind exactly when
      some fragment replaced the buffer. */
  ghost predicate Buffers(st: State) {
    forall k | k in st.tools && k in st.received ::
      && st.tools[k].arguments == Accumulate("", st.received[k], st.strict)
      && (st.tools[k].desynced <==> EverReplaced("", st.received[k], st.strict))
  }

  ghost predicate Inv(st: State) {
    Wire(st) && Ownership(st) && Phases(st) && Buffers(st)
  }

  /** No item is closed yet. */
  ghost predicate Open(st: State) {
    !st.textDone && !st.completed && forall k | k in st.tools :: !st.tools[k].done
  }

  ghost predicate Live(st: State) {
    Inv(st) && Open(st)
  }

  /** Every call has been announced downstream. */
  ghost predicate Announced(st: State) {
    forall k | k in st.tools :: st.tools[k].added
  }

  /** What every step between the first and the terminal event leaves alone. */
  ghost predicate Steady(st: State, next: State) {
    && next.completed == st.completed && next.created
    && next.textDone == st.textDone && next.text == st.text
    && next.strict == st.strict && next.incompleteReason == st.incompleteReason
    && (Open(st) ==> Open(next))
  }

  // ---- One event at a time ----

  /** The state after emitting one more event between the first and the terminal one. */
  ghost predicate Pushed(st: State, next: State, e: Event) {
    && e.sequence == st.sequence + 1 && !e.Created? && !e.Terminal?
    && next.emitted == st.emitted + [e] && next.sequence == st.sequence + 1
    && next.created && !next.completed
  }

  lemma PushWire(st: State, next: State, e: Event)
    requires Wire(st) && st.created && !st.completed && Pushed(st, next, e)
    ensures Wire(next)
  {
  }

  lemma PhaseAt(st: State, i: nat)
    requires Phases(st)
    ensures Fits(st, i, PhaseOf(st.emitted, i))
  {
  }

  lemma SameBuffers(st: State, next: State)
    requires Buffers(st) && next.tools == st.tools && next.received == st.received && next.strict == st.strict
    ensures Buffers(next)
  {
  }

  /** An event about index `j` may change what is said about `j` and nothing else. */
  lemma PushKeeps(st: State, next: State, e: Event, j: nat)
    requires Wire(st) && st.created && !st.completed && Pushed(st, next, e)
    requires Phases(st) && About(e, j)
    requires forall i: nat, phase: Phase | i != j && Fits(st, i, phase) :: Fits(next, i, phase)
    requires Fits(next, j, Advance(PhaseOf(st.emitted, j), e))
    ensures Wire(next) && Phases(next)
  {
    hide Fits, Advance;
    PushWire(st, next, e);
    forall i: nat
      ensures Fits(next, i, PhaseOf(next.emitted, i))
    {
      PhaseSnoc(st.emitted, e, i);
      assert About(e, i) ==> i == j;
      PhaseAt(st, i);
    }
  }

  /** Two events about the same index. */
  lemma PushTwiceKeeps(st: State, mid: State, next: State, e: Event, f: Event, j: nat)
    requires Wire(st) && st.created && !st.completed && Pushed(st, mid, e) && Pushed(mid, next, f)
    requires Phases(st) && About(e, j) && About(f, j)
    requires forall i: nat, phase: Phase | i != j && Fits(st, i, phase) :: Fits(next, i, phase)
    requires Fits(next, j, Advance(Advance(PhaseOf(st.emitted, j), e), f))
    ensures Wire(next) && Phases(next)
  {
    hide Fits, Advance;
    PushWire(st, mid, e);
    PushWire(mid, next, f);
    forall i: nat
      ensures Fits(next, i, PhaseOf(next.emitted, i))
    {
      PhaseSnoc(st.emitted, e, i);
      PhaseSnoc(mid.emitted, f, i);
      assert About(e, i) ==> i == j;
      assert About(f, i) ==> i == j;
      PhaseAt(st, i);
    }
  }

  /** Nothing that owns an index moved. */
  lemma SameOwns(st: State, next: State)
    requires Ownership(st)
    requires next.owners == st.owners && next.nextIndex == st.nextIndex
    requires next.tools == st.tools && next.received == st.received
    requires next.textAdded == st.textAdded && next.textId == st.textId && next.textIndex == st.textIndex
    requires next.text == st.text || st.textAdded
    requires next.reasoning.Some? == st.reasoning.Some?
    requires st.reasoning.Some? ==>
      && next.reasoning.value.outputIndex == st.reasoning.value.outputIndex
      && next.reasoning.value.started == st.reasoning.value.started
    ensures Ownership(next)
  {
    forall i | 0 <= i < |next.owners|
      ensures OwnedBy(next, i, next.owners[i])
    {
      assert OwnedBy(st, i, st.owners[i]);
    }
  }

  lemma EmitCreatedKeeps(st: State)
    requires Inv(st) && !st.completed
    ensures Inv(EmitCreated(st)) && Steady(st, EmitCreated(st))
    ensures EmitCreated(st).tools == st.tools && EmitCreated(st).received == st.received
  {
    SameOwns(st, EmitCreated(st));
    if !st.created {
      var e := Created(st.sequence + 1);
      forall i: nat
        ensures Fits(EmitCreated(st), i, PhaseOf(EmitCreated(st).emitted, i))
      {
        PhaseSnoc(st.emitted, e, i);
        assert Fits(st, i, PhaseOf(st.emitted, i));
      }
    }
  }

  lemma StartReasoningOwns(st: State)
    requires Ownership(st)
    ensures Ownership(StartReasoning(st)) && |st.owners| == st.nextIndex
  {
    var next := StartReasoning(st);
    forall i | 0 <= i < |next.owners|
      ensures OwnedBy(next, i, next.owners[i])
    {
      if i < |st.owners| {
        assert OwnedBy(st, i, st.owners[i]);
      }
    }
  }

  lemma StartReasoningKeeps(st: State)
    requires Inv(st) && st.created && !st.completed
    ensures var next := StartReasoning(st); Inv(next) && Steady(st, next) && next.reasoning.Some?
    ensures StartReasoning(st).tools == st.tools && StartReasoning(st).received == st.received
  {
    hide Wire, Phases, Buffers, PhaseOf, Ownership;
    StartReasoningOwns(st);
    if st.reasoning.None? {
      hide NormalizeArguments, ToolItem;
      var e := ItemAdded(st.sequence + 1, st.nextIndex, Reasoning(Generated(st.serial), InProgress, ""));
      var next := StartReasoning(st);
      assert next.owners == st.owners + [ForReasoning];
      PhaseAt(st, st.nextIndex);
      PushKeeps(st, next, e, st.nextIndex);
      SameBuffers(st, next);
    }
  }

  lemma ReasoningDeltaKeeps(st: State, delta: string)
    requires Inv(st) && st.created && !st.completed && st.reasoning.Some?
    ensures var next := AppendReasoning(st, delta); Inv(next) && Steady(st, next)
    ensures AppendReasoning(st, delta).tools == st.tools && AppendReasoning(st, delta).received == st.received
  {
    hide Wire, Phases, Buffers, PhaseOf;
    var r := st.reasoning.value;
    var e := ReasoningDelta(st.sequence + 1, r.itemId, r.outputIndex, delta);
    var next := AppendReasoning(st, delta);
    PhaseAt(st, r.outputIndex);
    PushKeeps(st, next, e, r.outputIndex);
    SameBuffers(st, next);
    SameOwns(st, next);
  }

  lemma EmitReasoningKeeps(st: State, delta: string)
    requires Live(st)
    ensures var next := EmitReasoning(st, delta); Live(next) && next.text == st.text && next.strict == st.strict
    ensures EmitReasoning(st, delta).tools == st.tools && EmitReasoning(st, delta).received == st.received
  {
    hide Inv, EmitCreated, StartReasoning, AppendReasoning;
    if delta != "" {
      var announced := EmitCreated(st);
      EmitCreatedKeeps(st);
      StartReasoningKeeps(announced);
      ReasoningDeltaKeeps(StartReasoning(announced), delta);
    }
  }

  /** Updating the reasoning item leaves what is said about every index alone. */
  lemma ReasoningOthersFit(st: State, next: State)
    requires Ownership(st)
    requires next.owners == st.owners && next.tools == st.tools && next.incompleteReason == st.incompleteReason
    requires next.textId == st.textId && next.textDone == st.textDone && next.text == st.text
    ensures forall i: nat, phase: Phase | Fits(st, i, phase) :: Fits(next, i, phase)
    ensures st.reasoning.Some? ==>
      st.reasoning.value.outputIndex < |st.owners| && st.owners[st.reasoning.value.outputIndex] == ForReasoning
  {
    hide NormalizeArguments;
  }

  /** Closing the reasoning item changes nothing but that item. */
  lemma EmitReasoningDoneFrame(st: State)
    requires Ownership(st)
    ensures var next := EmitReasoningDone(st);
            && (next == st || st.reasoning.Some?)
            && next.tools == st.tools && next.received == st.received && next.strict == st.strict
            && next.owners == st.owners && next.incompleteReason == st.incompleteReason
            && next.textId == st.textId && next.textDone == st.textDone && next.text == st.text
            && next.created == st.created && next.completed == st.completed
            && Ownership(next)
  {
    if st.reasoning.None? || st.reasoning.value.done || !st.reasoning.value.started {
    } else {
      SameOwns(st, EmitReasoningDone(st));
    }
  }

  lemma ThinkingAt(st: State)
    requires Phases(st) && Ownership(st) && st.reasoning.Some?
    ensures var j := st.reasoning.value.outputIndex; PhaseOf(st.emitted, j) == Thinking && Fits(st, j, Thinking)
  {
    hide PhaseOf, OwnedBy;
    PhaseAt(st, st.reasoning.value.outputIndex);
  }

  lemma ThinkingStays(e: Event, f: Event)
    requires e.ReasoningDone? && f.ItemDone? && f.item.Reasoning?
    ensures Advance(Advance(Thinking, e), f) == Thinking
  {
  }

  lemma EmitReasoningDonePhases(st: State)
    requires Wire(st) && Phases(st) && Ownership(st) && st.created && !st.completed
    ensures Wire(EmitReasoningDone(st)) && Phases(EmitReasoningDone(st))
  {
    hide Wire, Phases, PhaseOf, Ownership, Advance, Fits;
    ReasoningOthersFit(st, EmitReasoningDone(st));
    if st.reasoning.None? || st.reasoning.value.done || !st.reasoning.value.started {
    } else {
      var r := st.reasoning.value;
      var e := ReasoningDone(st.sequence + 1, r.itemId, r.outputIndex, r.text);
      var f := ItemDone(st.sequence + 2, r.outputIndex, Reasoning(r.itemId, FinalStatus(st), r.text));
      ThinkingAt(st);
      ThinkingStays(e, f);
      PushTwiceKeeps(st, Push(st, e), EmitReasoningDone(st), e, f, r.outputIndex);
    }
  }

  lemma EmitReasoningDoneKeeps(st: State)
    requires Inv(st) && st.created && !st.completed
    ensures var next := EmitReasoningDone(st); Inv(next) && Steady(st, next)
    ensures EmitReasoningDone(st).tools == st.tools && EmitReasoningDone(st).received == st.received
  {
    hide Wire, Phases, Buffers, Ownership, EmitReasoningDone;
    EmitReasoningDoneFrame(st);
    EmitReasoningDonePhases(st);
    SameBuffers(st, EmitReasoningDone(st));
  }

  lemma EnsureTextItemOwns(st: State)
    requires Ownership(st)
    ensures Ownership(EnsureTextItem(st)) && |st.owners| == st.nextIndex
    ensures if st.textAdded then EnsureTextItem(st) == st
            else st.textIndex.None? && st.textId.None? && st.text == ""
  {
    var next := EnsureTextItem(st);
    forall i | 0 <= i < |next.owners|
      ensures OwnedBy(next, i, next.owners[i])
    {
      if i < |st.owners| {
        assert OwnedBy(st, i, st.owners[i]);
      }
    }
  }

  lemma EnsureTextItemKeeps(st: State)
    requires Inv(st) && st.created && !st.completed && !st.textDone
    ensures var next := EnsureTextItem(st); Inv(next) && Steady(st, next) && next.textAdded
    ensures EnsureTextItem(st).tools == st.tools && EnsureTextItem(st).received == st.received
  {
    hide Wire, Phases, Buffers, PhaseOf, Ownership;
    EnsureTextItemOwns(st);
    var next := EnsureTextItem(st);
    if !st.textAdded {
      var e := ItemAdded(st.sequence + 1, st.nextIndex, Message(Generated(st.serial), InProgress, ""));
      PhaseAt(st, st.nextIndex);
      PushKeeps(st, next, e, st.nextIndex);
      SameBuffers(st, next);
    }
  }

  /** Updating the text leaves what is said about every other index alone. */
  lemma TextOthersFit(st: State, next: State)
    requires Ownership(st) && st.textAdded
    requires next.owners == st.owners && next.tools == st.tools && next.incompleteReason == st.incompleteReason
    ensures var j := st.textIndex.GetOr(0);
            && j < |st.owners| && st.owners[j] == ForText
            && forall i: nat, phase: Phase | i != j && Fits(st, i, phase) :: Fits(next, i, phase)
  {
    forall i: nat, phase: Phase | i != st.textIndex.GetOr(0) && Fits(st, i, phase)
      ensures Fits(next, i, phase)
    {
      if i < |st.owners| {
        assert OwnedBy(st, i, st.owners[i]);
      }
    }
  }

  lemma TextDeltaKeeps(st: State, text: string)
    requires Inv(st) && st.created && !st.completed && !st.textDone && st.textAdded
    ensures var next := AppendText(st, text); Inv(next) && Steady(st.(text := st.text + text), next)
    ensures AppendText(st, text).tools == st.tools && AppendText(st, text).received == st.received
  {
    hide Wire, Phases, Buffers, PhaseOf;
    var j := st.textIndex.GetOr(0);
    var e := TextDelta(st.sequence + 1, st.textId.GetOr(Given("")), j, text);
    var next := AppendText(st, text);
    PhaseAt(st, j);
    TextOthersFit(st, next);
    PushKeeps(st, next, e, j);
    SameBuffers(st, next);
    SameOwns(st, next);
  }

  lemma EmitTextKeeps(st: State, text: string)
    requires Live(st)
    ensures var next := EmitText(st, text);
            Live(next) && next.text == st.text + text && next.strict == st.strict
    ensures EmitText(st, text).tools == st.tools && EmitText(st, text).received == st.received
  {
    hide Inv, EmitCreated, EmitReasoningDone, EnsureTextItem, AppendText;
    if text != "" {
      var announced := EmitCreated(st);
      EmitCreatedKeeps(st);
      EmitReasoningDoneKeeps(announced);
      EnsureTextItemKeeps(EmitReasoningDone(announced));
      TextDeltaKeeps(EnsureTextItem(EmitReasoningDone(announced)), text);
    }
  }

  // ---- Tool calls ----

  /** Only the call at `key` was touched. */
  ghost predicate OnlyCall(st: State, next: State, key: nat) {
    key in next.tools && forall k | k in next.tools && k != key :: k in st.tools && next.tools[k] == st.tools[k]
  }

  lemma OpenToolOwns(st: State, key: nat, callId: Id, name: Option<string>)
    requires Ownership(st) && key !in st.tools
    ensures Ownership(OpenTool(st, key, callId, name)) && |st.owners| == st.nextIndex
  {
    var next := OpenTool(st, key, callId, name);
    forall i | 0 <= i < |next.owners|
      ensures OwnedBy(next, i, next.owners[i])
    {
      if i < |st.owners| {
        assert OwnedBy(st, i, st.owners[i]);
      }
    }
  }

  lemma OpenToolKeeps(st: State, key: nat, callId: Id, name: Option<string>)
    requires Live(st) && st.created && key !in st.tools
    ensures var next := OpenTool(st, key, callId, name);
            Live(next) && Steady(st, next) && OnlyCall(st, next, key)
  {
    hide Ownership, Wire, Phases, PhaseOf;
    OpenToolOwns(st, key, callId, name);
    var next := OpenTool(st, key, callId, name);
    PhaseAt(st, st.nextIndex);
    SilentKeeps(st, next, st.nextIndex);
  }

  /** Updating one call leaves what is said about every other index alone. */
  lemma OthersFit(st: State, next: State, key: nat)
    requires Ownership(st) && key in st.tools && key in next.tools
    requires next.owners == st.owners && next.tools == st.tools[key := next.tools[key]]
    requires next.textId == st.textId && next.textDone == st.textDone && next.text == st.text
    requires next.incompleteReason == st.incompleteReason
    ensures var j := st.tools[key].outputIndex;
            && j < |st.owners| && st.owners[j] == ForTool(key)
            && forall i: nat, phase: Phase | i != j && Fits(st, i, phase) :: Fits(next, i, phase)
  {
    var j := st.tools[key].outputIndex;
    forall i: nat, phase: Phase | i != j && Fits(st, i, phase)
      ensures Fits(next, i, phase)
    {
      if i < |st.owners| {
        assert OwnedBy(st, i, st.owners[i]);
      }
    }
  }

  /** An update that keeps the output index of the call keeps the correspondence. */
  lemma UpdateOwns(st: State, next: State, key: nat)
    requires Ownership(st) && key in st.tools && key in next.tools
    requires next.tools == st.tools[key := next.tools[key]] && next.tools[key].outputIndex == st.tools[key].outputIndex
    requires next.owners == st.owners && next.nextIndex == st.nextIndex && next.reasoning == st.reasoning
    requires next.textAdded == st.textAdded && next.textId == st.textId && next.textIndex == st.textIndex
    requires next.text == st.text && next.received.Keys == st.received.Keys
    ensures Ownership(next)
  {
    assert next.tools.Keys == st.tools.Keys;
    forall i | 0 <= i < |next.owners|
      ensures OwnedBy(next, i, next.owners[i])
    {
      assert OwnedBy(st, i, st.owners[i]);
    }
  }

  lemma RefreshToolOwns(st: State, key: nat, callId: Id, name: Option<string>)
    requires Ownership(st) && key in st.tools
    ensures Ownership(UpsertTool(st, key, callId, name))
  {
    UpdateOwns(st, UpsertTool(st, key, callId, name), key);
  }

  lemma RefreshToolKeeps(st: State, key: nat, callId: Id, name: Option<string>)
    requires Live(st) && st.created && key in st.tools
    ensures var next := UpsertTool(st, key, callId, name);
            Live(next) && Steady(st, next) && OnlyCall(st, next, key)
  {
    hide Ownership, Wire, Phases, PhaseOf;
    RefreshToolOwns(st, key, callId, name);
    OthersFit(st, UpsertTool(st, key, callId, name), key);
    PhaseAt(st, st.tools[key].outputIndex);
    SilentKeeps(st, UpsertTool(st, key, callId, name), st.tools[key].outputIndex);
  }

  lemma AnnounceToolOwns(st: State, key: nat)
    requires Ownership(st) && key in st.tools
    ensures Ownership(AnnounceTool(st, key))
  {
    if !st.tools[key].added {
      UpdateOwns(st, AnnounceTool(st, key), key);
    }
  }

  lemma AnnounceToolBuffers(st: State, key: nat)
    requires Buffers(st) && key in st.tools
    ensures Buffers(AnnounceTool(st, key))
  {
    hide Accumulate, EverReplaced;
  }

  lemma AnnounceToolKeeps(st: State, key: nat)
    requires Live(st) && st.created && key in st.tools
    ensures var next := AnnounceTool(st, key);
            Live(next) && Steady(st, next) && OnlyCall(st, next, key) && next.tools[key].added
  {
    hide Wire, Phases, PhaseOf, Ownership, Buffers;
    AnnounceToolBuffers(st, key);
    var t := st.tools[key];
    AnnounceToolOwns(st, key);
    if !t.added {
      var e := ItemAdded(st.sequence + 1, t.outputIndex,
                         FunctionCall(t.itemId, InProgress, t.callId, t.name.GetOr(""), ""));
      OthersFit(st, AnnounceTool(st, key), key);
      PhaseAt(st, t.outputIndex);
      PushKeeps(st, AnnounceTool(st, key), e, t.outputIndex);
    }
  }

  lemma RecordFragmentBuffers(st: State, key: nat, fragment: string)
    requires Buffers(st) && key in st.tools && key in st.received
    ensures Buffers(RecordFragment(st, key, fragment))
  {
    AccumulateSnoc("", st.received[key], fragment, st.strict);
    hide Accumulate, EverReplaced, MergeArguments;
  }

  lemma ReceivedKnown(st: State, key: nat)
    requires Ownership(st) && key in st.tools
    ensures key in st.received
  {
  }

  lemma MergeFragmentOwns(st: State, key: nat, fragment: string)
    requires Ownership(st) && key in st.tools
    ensures Ownership(MergeFragment(st, key, fragment)) && key in st.received
  {
    hide MergeArguments, Ownership;
    ReceivedKnown(st, key);
    if fragment != "" {
      UpdateOwns(st, MergeFragment(st, key, fragment), key);
    }
  }

  lemma MergeFragmentKeeps(st: State, key: nat, fragment: string)
    requires Live(st) && st.created && key in st.tools && st.tools[key].added
    ensures var next := MergeFragment(st, key, fragment);
            Live(next) && Steady(st, next) && OnlyCall(st, next, key) && next.tools[key].added
  {
    hide Wire, Phases, PhaseOf, Buffers, Ownership, MergeArguments;
    if fragment != "" {
      var j := st.tools[key].outputIndex;
      MergeFragmentOwns(st, key, fragment);
      OthersFit(st, MergeFragment(st, key, fragment), key);
      RecordFragmentBuffers(st, key, fragment);
      var recorded, next := RecordFragment(st, key, fragment), MergeFragment(st, key, fragment);
      PhaseAt(st, j);
      SameBuffers(recorded, next);
      if recorded.tools[key].desynced {
        SilentKeeps(st, next, j);
      } else {
        assert recorded.tools[key].arguments == st.tools[key].arguments + fragment by {
          AppendedUnlessDesynced(st.tools[key], fragment, st.strict);
        }
        PushKeeps(st, next, ArgumentsDelta(st.sequence + 1, st.tools[key].itemId, j, fragment), j);
      }
    }
  }

  lemma AppendedUnlessDesynced(t: ToolCall, fragment: string, strict: bool)
    requires !MergeInto(t, fragment, strict).desynced
    ensures MergeInto(t, fragment, strict).arguments == t.arguments + fragment
  {
  }

  /** A step that emits nothing and concerns only the item at `j`. */
  lemma SilentKeeps(st: State, next: State, j: nat)
    requires Wire(st) && Phases(st)
    requires next.emitted == st.emitted && next.sequence == st.sequence
    requires next.created == st.created && next.completed == st.completed
    requires forall i: nat, phase: Phase | i != j && Fits(st, i, phase) :: Fits(next, i, phase)
    requires Fits(next, j, PhaseOf(st.emitted, j))
    ensures Wire(next) && Phases(next)
  {
    hide Fits, PhaseOf;
    forall i: nat
      ensures Fits(next, i, PhaseOf(next.emitted, i))
    {
      PhaseAt(st, i);
    }
  }

  lemma ApplyFragmentKeeps(st: State, key: nat, callId: Id, name: Option<string>, fragment: string)
    requires Live(st) && st.created
    ensures var next := ApplyFragment(st, key, callId, name, fragment);
            Live(next) && Steady(st, next) && (Announced(st) ==> Announced(next))
  {
    hide UpsertTool, OpenTool, AnnounceTool, MergeFragment, Inv;
    if key in st.tools {
      RefreshToolKeeps(st, key, callId, name);
    } else {
      assert UpsertTool(st, key, callId, name) == OpenTool(st, key, callId, name) by {
        UpsertOpens(st, key, callId, name);
      }
      OpenToolKeeps(st, key, callId, name);
    }
    var upserted := UpsertTool(st, key, callId, name);
    AnnounceToolKeeps(upserted, key);
    MergeFragmentKeeps(AnnounceTool(upserted, key), key, fragment);
  }

  lemma UpsertOpens(st: State, key: nat, callId: Id, name: Option<string>)
    requires key !in st.tools
    ensures UpsertTool(st, key, callId, name) == OpenTool(st, key, callId, name)
  {
  }

  lemma EmitToolDeltaKeeps(st: State, d: ToolDelta, position: nat)
    requires Live(st) && st.created
    ensures var (next, error) := EmitToolDelta(st, d, position);
            Live(next) && Steady(st, next) && (Announced(st) ==> Announced(next))
  {
    hide ApplyFragment, Wire, Phases, Ownership, Buffers, RouteKey;
    if d.ToolDelta? && !(d.name.None? && d.arguments == "") {
      var named := if d.id.Some? then st else st.(serial := st.serial + 1);
      SerialIrrelevant(st, named);
      var callId := if d.id.Some? then Given(d.id.value) else Generated(st.serial);
      ApplyFragmentKeeps(named, RouteKey(st, d, position), callId, d.name, d.arguments);
    }
  }

  lemma SerialIrrelevant(st: State, next: State)
    requires Inv(st) && next == st.(serial := next.serial)
    ensures Inv(next)
  {
    SameOwns(st, next);
    forall i: nat
      ensures Fits(next, i, PhaseOf(next.emitted, i))
    {
      PhaseAt(st, i);
    }
  }

  lemma {:induction false} EmitToolDeltasKeeps(st: State, ds: seq<ToolDelta>, n: nat)
    requires Live(st) && n <= |ds|
    ensures var (next, error) := EmitToolDeltas(st, ds, n);
            Live(next) && next.text == st.text && next.strict == st.strict && (Announced(st) ==> Announced(next))
  {
    hide Inv, EmitToolDelta, EmitCreated, EmitReasoningDone;
    if n > 0 {
      EmitToolDeltasKeeps(st, ds, n - 1);
      var (mid, error) := EmitToolDeltas(st, ds, n - 1);
      EmitCreatedKeeps(mid);
      EmitReasoningDoneKeeps(EmitCreated(mid));
      EmitToolDeltaKeeps(EmitReasoningDone(EmitCreated(mid)), ds[n - 1], n - 1);
    }
  }

  lemma EmitFunctionDeltaKeeps(st: State, d: Option<FunctionDelta>)
    requires Live(st)
    ensures var (next, error) := EmitFunctionDelta(st, d);
            Live(next) && next.text == st.text && next.strict == st.strict && (Announced(st) ==> Announced(next))
  {
    hide Inv, ApplyFragment, EmitCreated, EmitReasoningDone;
    if d.Some? {
      EmitCreatedKeeps(st);
      EmitReasoningDoneKeeps(EmitCreated(st));
      if d.value.FunctionDelta? {
        ApplyFragmentKeeps(EmitReasoningDone(EmitCreated(st)), 0, Given(d.value.id), Some(d.value.name),
                           d.value.arguments);
      }
    }
  }

  // ---- Closing ----

  lemma EmitTextDoneKeeps(st: State)
    requires Inv(st) && st.created && !st.completed
    ensures var next := EmitTextDone(st);
            && Inv(next) && next.created && !next.completed && (next.textAdded ==> next.textDone)
            && next.tools == st.tools && next.incompleteReason == st.incompleteReason && next.text == st.text
            && next.strict == st.strict && next.received == st.received
  {
    hide Wire, Phases, Buffers, PhaseOf;
    var next := EmitTextDone(st);
    if st.textAdded && !st.textDone {
      var j := st.textIndex.GetOr(0);
      var item := Message(st.textId.GetOr(Given("")), FinalStatus(st), st.text);
      var e := TextDone(st.sequence + 1, item.id, j, st.text);
      var f := ItemDone(st.sequence + 2, j, item);
      PhaseAt(st, j);
      TextCloses(st.text, e, f);
      TextOthersFit(st, next);
      PushTwiceKeeps(st, Push(st, e), next, e, f, j);
      SameBuffers(st, next);
      SameOwns(st, next);
    }
  }

  lemma EmitToolDoneOwns(st: State, key: nat)
    requires Ownership(st) && key in st.tools
    ensures Ownership(EmitToolDone(st, key))
  {
    if !st.tools[key].done {
      UpdateOwns(st, EmitToolDone(st, key), key);
    }
  }

  lemma EmitToolDoneBuffers(st: State, key: nat)
    requires Buffers(st) && key in st.tools
    ensures Buffers(EmitToolDone(st, key))
  {
    hide NormalizeArguments;
  }

  lemma EmitToolDoneKeeps(st: State, key: nat)
    requires Inv(st) && st.created && !st.completed && key in st.tools && st.tools[key].added
    ensures var next := EmitToolDone(st, key);
            && Inv(next) && next.created && !next.completed
            && next.incompleteReason == st.incompleteReason && next.text == st.text
            && next.tools == st.tools[key := st.tools[key].(done := true)]
            && next.textAdded == st.textAdded && next.textDone == st.textDone
            && next.strict == st.strict && next.received == st.received
  {
    hide Wire, Phases, Buffers, PhaseOf, Ownership, NormalizeArguments, Advance;
    var t := st.tools[key];
    var next := EmitToolDone(st, key);
    if !t.done {
      var item := ToolItem(st, t);
      var e := ArgumentsDone(st.sequence + 1, t.itemId, t.outputIndex, item.name, item.arguments);
      var f := ItemDone(st.sequence + 2, t.outputIndex, item);
      EmitToolDoneOwns(st, key);
      EmitToolDoneBuffers(st, key);
      OthersFit(st, next, key);
      PhaseAt(st, t.outputIndex);
      ToolCloses(PhaseOf(st.emitted, t.outputIndex).streamed, e, f);
      PushTwiceKeeps(st, Push(st, e), next, e, f, t.outputIndex);
    }
  }
}
