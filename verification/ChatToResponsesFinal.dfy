/** The terminal event of a Chat-to-Responses run, and the whole-stream theorem. */
module ChatToResponsesFinal {
  import opened Collections
  import opened Ordering
  import opened StreamEvents
  import opened ToolArguments
  import opened ChatToResponses
  import opened ChatToResponsesRuns

  // ---- Sorting by output index ----

  ghost predicate Ordered(entries: seq<(nat, Item)>) {
    forall i, j | 0 <= i < j < |entries| :: entries[i].0 < entries[j].0
  }

  ghost predicate Distinct(entries: seq<(nat, Item)>) {
    forall i, j | 0 <= i < j < |entries| :: entries[i].0 != entries[j].0
  }

  ghost predicate HasIndex(entries: seq<(nat, Item)>, i: nat) {
    exists p :: 0 <= p < |entries| && entries[p].0 == i
  }

  lemma {:induction false} InsertOrders(entry: (nat, Item), sorted: seq<(nat, Item)>)
    requires Ordered(sorted) && forall p | 0 <= p < |sorted| :: sorted[p].0 != entry.0
    ensures Ordered(InsertBy(entry, sorted, EarlierIndex))
  {
    hide InsertBy;
    if sorted == [] || entry.0 < sorted[0].0 {
      InsertAhead(entry, sorted, EarlierIndex);
    } else {
      var head, rest := sorted[0], sorted[1..];
      assert sorted == [head] + rest;
      InsertBehind(entry, head, rest, EarlierIndex);
      InsertOrders(entry, rest);
      InsertKeepsAll(entry, rest, EarlierIndex);
      HeadFirst(entry, head, rest, InsertBy(entry, rest, EarlierIndex));
    }
  }

  lemma HeadFirst(entry: (nat, Item), head: (nat, Item), rest: seq<(nat, Item)>, tail: seq<(nat, Item)>)
    requires Ordered([head] + rest) && Ordered(tail) && head.0 < entry.0
    requires multiset(tail) == multiset(rest) + multiset{entry}
    ensures Ordered([head] + tail)
  {
    forall p | 0 <= p < |tail|
      ensures head.0 < tail[p].0
    {
      assert tail[p] in multiset(tail);
      if tail[p] != entry {
        var q :| 0 <= q < |rest| && rest[q] == tail[p];
        assert ([head] + rest)[0] == head && ([head] + rest)[q + 1] == tail[p];
      }
    }
  }

  lemma {:induction false} SortOrders(entries: seq<(nat, Item)>)
    requires Distinct(entries)
    ensures Ordered(SortByIndex(entries)) && multiset(SortByIndex(entries)) == multiset(entries)
  {
    if entries != [] {
      var init, last := entries[..|entries| - 1], entries[|entries| - 1];
      assert entries == init + [last];
      SortOrders(init);
      forall p | 0 <= p < |SortByIndex(init)|
        ensures SortByIndex(init)[p].0 != last.0
      {
        assert SortByIndex(init)[p] in multiset(init);
      }
      InsertOrders(last, SortByIndex(init));
      InsertKeepsAll(last, SortByIndex(init), EarlierIndex);
    }
  }

  lemma LastIsLargest(entries: seq<(nat, Item)>, p: nat)
    requires Ordered(entries) && p < |entries|
    ensures entries[p].0 < entries[|entries| - 1].0 || p == |entries| - 1
  {
  }

  /** A strictly ordered list whose indices are exactly 0 .. n-1 has the entry for `i` at position `i`. */
  lemma {:induction false} OrderedCover(entries: seq<(nat, Item)>, n: nat)
    requires Ordered(entries)
    requires forall p | 0 <= p < |entries| :: entries[p].0 < n
    requires forall i: nat | i < n :: HasIndex(entries, i)
    ensures |entries| == n && forall i | 0 <= i < n :: entries[i].0 == i
  {
    assert entries == [] || entries[0].0 < n;
    if n > 0 {
      assert HasIndex(entries, n - 1);
      var p :| 0 <= p < |entries| && entries[p].0 == n - 1;
      LastIsLargest(entries, p);
      assert p == |entries| - 1;
      forall i: nat | i < n - 1
        ensures HasIndex(entries[..p], i)
      {
        assert HasIndex(entries, i);
        var q :| 0 <= q < |entries| && entries[q].0 == i;
        assert entries[..p][q].0 == i;
      }
      OrderedCover(entries[..p], n - 1);
    }
  }

  // ---- The terminal output ----

  /** The item that owns an output index. */
  ghost function ItemAt(st: State, i: nat): Item
    requires Ownership(st) && i < |st.owners|
  {
    assert OwnedBy(st, i, st.owners[i]);
    match st.owners[i]
    case ForReasoning => ReasoningItem(st, st.reasoning.value)
    case ForText => MessageItem(st)
    case ForTool(k) => ToolItem(st, st.tools[k])
  }

  lemma {:induction false} ToolEntriesMeaning(st: State, keys: seq<nat>, n: nat)
    requires n <= |keys| && forall i | 0 <= i < |keys| :: keys[i] in st.tools
    ensures |ToolEntries(st, keys, n)| == n
    ensures forall i | 0 <= i < n :: ToolEntries(st, keys, n)[i] == (st.tools[keys[i]].outputIndex,
                                                                     ToolItem(st, st.tools[keys[i]]))
  {
    if n > 0 {
      ToolEntriesMeaning(st, keys, n - 1);
    }
  }

  /** Entries of the calls alone. */
  lemma CallEntriesMeaning(st: State, keys: seq<nat>)
    requires Ownership(st) && keys == Ascending(st.tools.Keys)
    ensures var calls := ToolEntries(st, keys, |keys|);
            && Distinct(calls)
            && (forall p | 0 <= p < |calls| :: calls[p].0 < |st.owners| && st.owners[calls[p].0].ForTool?
                                               && calls[p].1 == ItemAt(st, calls[p].0))
  {
    hide NormalizeArguments, Ascending, ToolItem, ToolEntries, OwnedBy, ReasoningItem, MessageItem;
    ToolEntriesMeaning(st, keys, |keys|);
    var calls := ToolEntries(st, keys, |keys|);
    forall a | 0 <= a < |keys|
      ensures calls[a].0 < |st.owners| && st.owners[calls[a].0] == ForTool(keys[a])
      ensures calls[a].1 == ItemAt(st, calls[a].0)
    {
      assert keys[a] in st.tools;
    }
  }

  lemma HeadEntriesMeaning(st: State)
    requires Ownership(st)
    ensures var head := HeadEntries(st);
            && Distinct(head)
            && (forall p | 0 <= p < |head| :: head[p].0 < |st.owners| && !st.owners[head[p].0].ForTool?
                                              && head[p].1 == ItemAt(st, head[p].0))
  {
    hide ReasoningItem, MessageItem, ToolItem;
  }

  lemma EntriesMeaning(st: State)
    requires Ownership(st)
    ensures Distinct(Entries(st))
    ensures forall p | 0 <= p < |Entries(st)| ::
              Entries(st)[p].0 < |st.owners| && Entries(st)[p].1 == ItemAt(st, Entries(st)[p].0)
  {
    hide ToolEntries, HeadEntries, ItemAt, Ownership;
    HeadEntriesMeaning(st);
    CallEntriesMeaning(st, Ascending(st.tools.Keys));
  }

  lemma CallCovered(st: State, keys: seq<nat>, k: nat)
    requires (forall i | 0 <= i < |keys| :: keys[i] in st.tools) && k in keys
    ensures HasIndex(ToolEntries(st, keys, |keys|), st.tools[k].outputIndex)
  {
    ToolEntriesMeaning(st, keys, |keys|);
    hide ToolEntries, ToolItem;
    var p :| 0 <= p < |keys| && keys[p] == k;
    assert ToolEntries(st, keys, |keys|)[p].0 == st.tools[k].outputIndex;
  }

  lemma HasIndexConcat(left: seq<(nat, Item)>, right: seq<(nat, Item)>, i: nat)
    requires HasIndex(left, i) || HasIndex(right, i)
    ensures HasIndex(left + right, i)
  {
    if HasIndex(left, i) {
      var p :| 0 <= p < |left| && left[p].0 == i;
      assert (left + right)[p].0 == i;
    } else {
      var p :| 0 <= p < |right| && right[p].0 == i;
      assert (left + right)[|left| + p].0 == i;
    }
  }

  lemma HeadCovered(st: State, i: nat)
    requires Ownership(st) && i < |st.owners| && !st.owners[i].ForTool?
    ensures HasIndex(HeadEntries(st), i)
  {
    hide ReasoningItem, MessageItem;
    assert OwnedBy(st, i, st.owners[i]);
    var head := HeadEntries(st);
    assert head[if st.owners[i].ForReasoning? then 0 else |head| - 1].0 == i;
  }

  lemma EntriesCover(st: State, i: nat)
    requires Ownership(st) && i < |st.owners|
    ensures HasIndex(Entries(st), i)
  {
    hide ToolEntries, HeadEntries, HasIndex, Ascending;
    var keys := Ascending(st.tools.Keys);
    if st.owners[i].ForTool? {
      assert OwnedBy(st, i, st.owners[i]);
      CallCovered(st, keys, st.owners[i].key);
    } else {
      HeadCovered(st, i);
    }
    HasIndexConcat(HeadEntries(st), ToolEntries(st, keys, |keys|), i);
  }

  /** `output[i]` is the item with output index `i`, for exactly the allocated indices. */
  lemma OutputByIndex(st: State)
    requires Ownership(st)
    ensures |OutputItems(st)| == |st.owners|
    ensures forall i | 0 <= i < |st.owners| :: OutputItems(st)[i] == ItemAt(st, i)
  {
    hide Entries, SortByIndex, Ownership, ItemAt;
    EntriesMeaning(st);
    var entries := Entries(st);
    SortOrders(entries);
    var sorted := SortByIndex(entries);
    forall p | 0 <= p < |sorted|
      ensures sorted[p].0 < |st.owners| && sorted[p].1 == ItemAt(st, sorted[p].0)
    {
      assert sorted[p] in multiset(entries);
    }
    forall i: nat | i < |st.owners|
      ensures HasIndex(sorted, i)
    {
      EntriesCover(st, i);
      var p :| 0 <= p < |entries| && entries[p].0 == i;
      assert entries[p] in multiset(sorted);
    }
    OrderedCover(sorted, |st.owners|);
  }

  // ---- Closing the stream ----

  lemma {:induction false} EmitToolDonesKeeps(st: State, keys: seq<nat>, n: nat)
    requires n <= |keys| && (forall i | 0 <= i < |keys| :: keys[i] in st.tools)
    requires Inv(st) && Announced(st) && st.created && !st.completed
    ensures var next := EmitToolDones(st, keys, n);
            && Inv(next) && next.created && !next.completed && Announced(next)
            && next.incompleteReason == st.incompleteReason && next.text == st.text
            && next.textAdded == st.textAdded && next.textDone == st.textDone
            && next.strict == st.strict && next.received == st.received
  {
    hide Inv, EmitToolDone, NormalizeArguments;
    if n > 0 {
      EmitToolDonesKeeps(st, keys, n - 1);
      EmitToolDoneKeeps(EmitToolDones(st, keys, n - 1), keys[n - 1]);
    }
  }

  lemma EmitToolDoneMarks(st: State, key: nat)
    requires key in st.tools
    ensures EmitToolDone(st, key).tools == st.tools[key := st.tools[key].(done := true)]
  {
    hide NormalizeArguments;
  }

  /** Same calls up to their `done` marks. */
  ghost predicate SameCalls(calls: map<nat, ToolCall>, marked: map<nat, ToolCall>) {
    && marked.Keys == calls.Keys
    && forall k | k in calls :: marked[k] == calls[k].(done := marked[k].done)
  }

  ghost predicate AllDone(calls: map<nat, ToolCall>, keys: seq<nat>, n: nat)
    requires n <= |keys|
  {
    forall i | 0 <= i < n :: keys[i] in calls && calls[keys[i]].done
  }

  lemma MarkStep(calls: map<nat, ToolCall>, marked: map<nat, ToolCall>, keys: seq<nat>, n: nat)
    requires n < |keys| && SameCalls(calls, marked) && AllDone(marked, keys, n) && keys[n] in marked
    ensures var next := marked[keys[n] := marked[keys[n]].(done := true)];
            SameCalls(calls, next) && AllDone(next, keys, n + 1)
  {
  }

  lemma NothingMarked(calls: map<nat, ToolCall>, keys: seq<nat>)
    ensures SameCalls(calls, calls) && AllDone(calls, keys, 0)
  {
  }

  lemma {:induction false} EmitToolDonesMark(st: State, keys: seq<nat>, n: nat)
    requires n <= |keys| && (forall i | 0 <= i < |keys| :: keys[i] in st.tools)
    ensures SameCalls(st.tools, EmitToolDones(st, keys, n).tools) && AllDone(EmitToolDones(st, keys, n).tools, keys, n)
  {
    hide EmitToolDone, SameCalls, AllDone;
    if n == 0 {
      NothingMarked(st.tools, keys);
    } else {
      EmitToolDonesMark(st, keys, n - 1);
      var mid := EmitToolDones(st, keys, n - 1);
      EmitToolDoneMarks(mid, keys[n - 1]);
      MarkStep(st.tools, mid.tools, keys, n - 1);
    }
  }

  /** Every item is closed. */
  ghost predicate Closed(st: State) {
    (st.textAdded ==> st.textDone) && forall k | k in st.tools :: st.tools[k].added && st.tools[k].done
  }

  lemma CloseItemsKeeps(st: State)
    requires Live(st) && Announced(st)
    ensures var next := CloseItems(st);
            && Inv(next) && next.created && !next.completed && Closed(next)
            && next.incompleteReason == st.incompleteReason && next.text == st.text && SameCalls(st.tools, next.tools)
            && next.strict == st.strict && next.received == st.received
  {
    hide Inv, EmitCreated, EmitReasoningDone, EmitTextDone, EmitToolDones;
    EmitCreatedKeeps(st);
    EmitReasoningDoneKeeps(EmitCreated(st));
    var quiet := EmitReasoningDone(EmitCreated(st));
    EmitTextDoneKeeps(quiet);
    var keys := Ascending(st.tools.Keys);
    EmitToolDonesKeeps(EmitTextDone(quiet), keys, |keys|);
    EmitToolDonesMark(EmitTextDone(quiet), keys, |keys|);
    forall k | k in CloseItems(st).tools
      ensures CloseItems(st).tools[k].added && CloseItems(st).tools[k].done
    {
      assert k in keys;
    }
  }

  /** What a finished stream looks like, read off its events alone: numbered 1, 2, 3, ...; created first; one
      terminal event, last; the output indices are exactly 0 .. |output|-1; every message and call went through
      added, deltas, done; and the closing event of index `i` carried the very item the terminal event lists at
      position `i`, a message's text being the concatenation of its deltas; and at most one item is a message. */
  ghost predicate FaithfulStream(events: seq<Event>) {
    && WellNumbered(events)
    && events != [] && events[|events| - 1].Terminal?
    && var output := events[|events| - 1].output;
       && (forall i: nat :: ClosedAs(PhaseOf(events, i), if i < |output| then Some(output[i]) else None))
       && (forall i, j | 0 <= i < j < |output| :: !(output[i].Message? && output[j].Message?))
  }

  ghost predicate ClosedAs(phase: Phase, item: Option<Item>) {
    match item
    case None => phase == Absent
    case Some(Reasoning(_, _, _)) => phase == Thinking
    case Some(Message(_, _, text)) => phase == TextClosed(text, item.value)
    case Some(FunctionCall(_, _, _, _, _)) => phase.ToolClosed? && phase.item == item.value
    case Some(_) => false
  }

  /** Once everything is closed, the phase of an index is its item's. */
  lemma ClosedIndex(st: State, i: nat)
    requires Ownership(st) && Closed(st) && Phases(st)
    ensures ClosedAs(PhaseOf(st.emitted, i), if i < |st.owners| then Some(ItemAt(st, i)) else None)
  {
    hide PhaseOf, NormalizeArguments, Phases;
    PhaseAt(st, i);
    if i < |st.owners| {
      assert OwnedBy(st, i, st.owners[i]);
    }
  }

  /** The terminal event speaks about no index. */
  lemma TerminalKeeps(closed: State, next: State, e: Event)
    requires Inv(closed) && closed.created && !closed.completed
    requires e.Terminal? && e.sequence == closed.sequence + 1
    requires next == Push(closed.(completed := true), e)
    ensures Inv(next) && WellNumbered(next.emitted)
    ensures forall i: nat :: PhaseOf(next.emitted, i) == PhaseOf(closed.emitted, i)
  {
    SameOwns(closed, next);
    SameBuffers(closed, next);
    TerminalPhases(closed, next, e);
    hide Phases, Ownership, Buffers, PhaseOf;
  }

  lemma TerminalPhases(closed: State, next: State, e: Event)
    requires Phases(closed) && e.Terminal? && next == Push(closed.(completed := true), e)
    ensures Phases(next)
    ensures forall i: nat :: PhaseOf(next.emitted, i) == PhaseOf(closed.emitted, i)
  {
    hide NormalizeArguments;
    forall i: nat
      ensures PhaseOf(next.emitted, i) == PhaseOf(closed.emitted, i) && Fits(next, i, PhaseOf(next.emitted, i))
    {
      PhaseSnoc(closed.emitted, e, i);
      PhaseAt(closed, i);
    }
  }

  lemma FinishFaithful(st: State)
    requires Live(st) && Announced(st)
    ensures var next := Finish(st);
            && FaithfulStream(next.emitted) && Inv(next) && Closed(next) && next.completed
            && next.text == st.text && SameCalls(st.tools, next.tools) && next.incompleteReason == st.incompleteReason
            && next.strict == st.strict && next.received == st.received
            && next.emitted[|next.emitted| - 1].output == OutputItems(next)
  {
    hide CloseItems, OutputItems, NormalizeArguments, Wire, Phases, Ownership, Buffers, WellNumbered, ClosedAs, PhaseOf;
    CloseItemsKeeps(st);
    var closed, next := CloseItems(st), Finish(st);
    var e := Terminal(closed.sequence + 1, OutputItems(closed), closed.usage, closed.incompleteReason);
    SameOutput(closed, next);
    TerminalKeeps(closed, next, e);
    OutputByIndex(closed);
    forall i: nat
      ensures ClosedAs(PhaseOf(next.emitted, i), if i < |e.output| then Some(e.output[i]) else None)
    {
      ClosedIndex(closed, i);
    }
    forall i, j | 0 <= i < j < |e.output|
      ensures !(e.output[i].Message? && e.output[j].Message?)
    {
      MessagesUnique(closed, i, j);
    }
  }

  lemma MessagesUnique(st: State, i: nat, j: nat)
    requires Ownership(st) && i < j < |st.owners|
    ensures !(ItemAt(st, i).Message? && ItemAt(st, j).Message?)
  {
    assert OwnedBy(st, i, st.owners[i]);
    assert OwnedBy(st, j, st.owners[j]);
  }

  /** The terminal list depends only on the items. */
  lemma SameOutput(st: State, next: State)
    requires next.reasoning == st.reasoning && next.tools == st.tools && next.incompleteReason == st.incompleteReason
    requires next.textAdded == st.textAdded && next.textId == st.textId && next.textIndex == st.textIndex
    requires next.text == st.text
    ensures OutputItems(next) == OutputItems(st)
  {
    var keys := Ascending(st.tools.Keys);
    SameToolEntries(st, next, keys, |keys|);
    hide SortByIndex, ToolEntries;
    assert Entries(next) == Entries(st);
  }

  lemma {:induction false} SameToolEntries(st: State, next: State, keys: seq<nat>, n: nat)
    requires next.tools == st.tools && next.incompleteReason == st.incompleteReason
    requires n <= |keys| && forall i | 0 <= i < |keys| :: keys[i] in st.tools
    ensures ToolEntries(next, keys, n) == ToolEntries(st, keys, n)
  {
    if n > 0 {
      SameToolEntries(st, next, keys, n - 1);
    }
  }

  // ---- Whole runs ----

  /** The upstream's last chunk: usage with no choices. */
  predicate IsEnd(event: ChatEvent) {
    event.usage.Some? && event.choices == Some([])
  }

  predicate HasEnded(events: seq<ChatEvent>) {
    exists i :: 0 <= i < |events| && IsEnd(events[i])
  }

  /** The text an event carries. */
  function TextIn(event: ChatEvent): string {
    if event.choices.Some? && |event.choices.value| == 1 && event.choices.value[0].delta.content.Text?
    then event.choices.value[0].delta.content.text else ""
  }

  /** All text the upstream sent before ending the stream. */
  function TextSentUpstream(events: seq<ChatEvent>): string {
    if events == [] then ""
    else
      var init := events[..|events| - 1];
      if HasEnded(init) then TextSentUpstream(init) else TextSentUpstream(init) + TextIn(events[|events| - 1])
  }

  lemma EmitContentKeeps(st: State, content: Content)
    requires Live(st)
    ensures var (next, error) := EmitContent(st, content);
            && Live(next) && next.tools == st.tools && next.received == st.received && next.strict == st.strict
            && next.text == st.text + if content.Text? then content.text else ""
  {
    hide Inv, EmitText;
    if content.Text? {
      EmitTextKeeps(st, content.text);
    }
  }

  /** While nothing is closed, only closed items depend on the incomplete reason. */
  lemma ReasonKeeps(st: State, reason: Option<string>)
    requires Live(st)
    ensures Live(st.(incompleteReason := reason))
  {
    hide NormalizeArguments;
    var next := st.(incompleteReason := reason);
    SameOwns(st, next);
    forall i: nat
      ensures Fits(next, i, PhaseOf(next.emitted, i))
    {
      PhaseAt(st, i);
    }
  }

  lemma EmitChoiceKeeps(st: State, choice: Choice)
    requires Live(st) && Announced(st)
    ensures var (next, error) := EmitChoice(st, choice);
            error.None? ==>
              && Live(next) && Announced(next) && next.strict == st.strict
              && next.text == st.text + if choice.delta.content.Text? then choice.delta.content.text else ""
  {
    hide Inv, EmitReasoning, EmitContent, EmitToolDeltas, EmitFunctionDelta, EmitCreated, Live;
    var delta := choice.delta;
    var reasoned := EmitReasoning(st, delta.reasoning);
    EmitReasoningKeeps(st, delta.reasoning);
    EmitContentKeeps(reasoned, delta.content);
    var (texted, textError) := EmitContent(reasoned, delta.content);
    EmitToolDeltasKeeps(texted, delta.toolCalls, |delta.toolCalls|);
    var (called, callError) := EmitToolDeltas(texted, delta.toolCalls, |delta.toolCalls|);
    EmitFunctionDeltaKeeps(called, delta.functionCall);
    var (functioned, functionError) := EmitFunctionDelta(called, delta.functionCall);
    AnnouncingKeeps(functioned);
    var announced := if HasRelevantContent(delta) then EmitCreated(functioned) else functioned;
    if choice.finishReason.Some? {
      ReasonKeeps(announced, IncompleteReason(choice.finishReason.value));
      AnnouncingKeeps(announced.(incompleteReason := IncompleteReason(choice.finishReason.value)));
    }
  }

  lemma AnnouncingKeeps(st: State)
    requires Live(st)
    ensures var next := EmitCreated(st);
            Live(next) && next.tools == st.tools && next.strict == st.strict && next.text == st.text
  {
    hide Inv;
    EmitCreatedKeeps(st);
  }

  lemma UsageKeeps(st: State, usage: Option<Usage>)
    requires Live(st)
    ensures Live(st.(usage := usage))
  {
    var next := st.(usage := usage);
    SameOwns(st, next);
    forall i: nat
      ensures Fits(next, i, PhaseOf(next.emitted, i))
    {
      PhaseAt(st, i);
    }
  }

  /** Every state of an error-free run: either live, or finished with a faithful stream. */
  ghost predicate RunState(st: State, strict: bool, events: seq<ChatEvent>) {
    && st.text == TextSentUpstream(events)
    && st.completed == HasEnded(events)
    && st.strict == strict
    && if st.completed then Inv(st) && Closed(st) && FaithfulStream(st.emitted) else Live(st) && Announced(st)
  }

  lemma TranslateKeeps(st: State, event: ChatEvent)
    requires Live(st) && Announced(st)
    ensures var (next, error) := Translate(st, event);
            error.None? ==>
              && next.text == st.text + TextIn(event) && next.completed == IsEnd(event) && next.strict == st.strict
              && (IsEnd(event) ==> next.received == st.received)
              && if IsEnd(event) then Inv(next) && Closed(next) && FaithfulStream(next.emitted)
                 else Live(next) && Announced(next)
  {
    hide Inv, EmitChoice, Finish, FaithfulStream, Closed;
    var counted := if event.usage.Some? then st.(usage := event.usage) else st;
    UsageKeeps(st, event.usage);
    if event.choices.Some? && |event.choices.value| == 1 {
      EmitChoiceKeeps(counted, event.choices.value[0]);
    } else if event.choices == Some([]) && event.usage.Some? {
      FinishFaithful(counted);
    }
  }

  lemma EndedSnoc(events: seq<ChatEvent>)
    requires events != []
    ensures HasEnded(events) == (HasEnded(events[..|events| - 1]) || IsEnd(events[|events| - 1]))
  {
    var init := events[..|events| - 1];
    if HasEnded(init) {
      var i :| 0 <= i < |init| && IsEnd(init[i]);
      assert IsEnd(events[i]);
    }
    if HasEnded(events) {
      var i :| 0 <= i < |events| && IsEnd(events[i]);
      assert i < |init| ==> IsEnd(init[i]);
    }
  }

  lemma InitialLive(strict: bool)
    ensures Live(Initial(strict)) && Announced(Initial(strict))
  {
  }

  /** Every state of an error-free run: live, or finished with a faithful stream; and the text is the upstream's. */
  lemma {:induction false} RunInvariant(strict: bool, events: seq<ChatEvent>)
    requires Run(strict, events).Some?
    ensures RunState(Run(strict, events).value, strict, events)
  {
    hide Inv, Live, Closed, FaithfulStream, HasEnded, Announced, Translate;
    if events == [] {
      assert !HasEnded(events) by { NeverEnded(events); }
      InitialLive(strict);
    } else {
      var init := events[..|events| - 1];
      RunInvariant(strict, init);
      EndedSnoc(events);
      var st := Run(strict, init).value;
      if st.completed {
        TranslateAfterEnd(st, events[|events| - 1]);
      } else {
        var (next, error) := Translate(st, events[|events| - 1]);
        TranslateKeeps(st, events[|events| - 1]);
        assert Run(strict, events) == Some(next);
        assert next.text == TextSentUpstream(events);
      }
    }
  }

  lemma TranslateAfterEnd(st: State, event: ChatEvent)
    requires st.completed
    ensures Translate(st, event) == (st, None)
  {
  }

  lemma NeverEnded(events: seq<ChatEvent>)
    requires events == []
    ensures !HasEnded(events)
  {
  }

  /** Main result: every error-free run ends in a faithful stream that carries exactly the upstream's text. */
  lemma EveryRunIsFaithful(strict: bool, events: seq<ChatEvent>)
    requires RunToEnd(strict, events).Some?
    ensures var st := RunToEnd(strict, events).value;
            && FaithfulStream(st.emitted) && Inv(st) && Closed(st)
            && st.text == TextSentUpstream(events) && st.strict == strict
  {
    hide Inv, Closed, FaithfulStream, CloseItems, OutputItems;
    RunInvariant(strict, events);
    var st := Run(strict, events).value;
    if !st.completed {
      FinishFaithful(st);
    }
  }
}
