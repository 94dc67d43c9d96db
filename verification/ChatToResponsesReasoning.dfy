/** The reasoning a Chat-to-Responses run receives, streams, closes and lists, and how the stream ends. */
module ChatToResponsesReasoning {
  import opened Collections
  import opened StreamEvents
  import opened ToolArguments
  import opened ChatToResponses
  import opened ChatToResponsesRuns
  import opened ChatToResponsesFinal

  // ---- What the stream says ----

  /** All reasoning deltas, joined. */
  function ThoughtsIn(events: seq<Event>): string {
    if events == [] then ""
    else
      var last := events[|events| - 1];
      ThoughtsIn(events[..|events| - 1]) + if last.ReasoningDelta? then last.delta else ""
  }

  predicate Opens(e: Event) {
    e.ItemAdded? && e.item.Reasoning?
  }

  predicate Closes(e: Event) {
    e.ItemDone? && e.item.Reasoning?
  }

  predicate Thinks(e: Event) {
    e.ReasoningDelta? || e.ReasoningDone? || Opens(e) || Closes(e)
  }

  /** Text or a call begins or goes on. */
  predicate Speaks(e: Event) {
    e.TextDelta? || e.ArgumentsDelta? || (e.ItemAdded? && (e.item.Message? || e.item.FunctionCall?))
  }

  ghost predicate HasOpened(events: seq<Event>) {
    exists n :: 0 <= n < |events| && Opens(events[n])
  }

  ghost predicate HasFinished(events: seq<Event>) {
    exists n :: 0 <= n < |events| && events[n].ReasoningDone?
  }

  /** Reasoning that was opened was finished. */
  ghost predicate Quieted(events: seq<Event>) {
    HasOpened(events) ==> HasFinished(events)
  }

  /** What one event may say, given the item: its id and index; done events the reasoning streamed before them, side
      by side; and nothing is spoken while reasoning is open. */
  ghost predicate SaysRight(id: Id, index: nat, status: Option<Status>, events: seq<Event>, n: nat)
    requires n < |events|
  {
    var e := events[n];
    && (e.ReasoningDelta? ==> e.itemId == id && e.outputIndex == index)
    && (e.ReasoningDone? ==>
          && e.itemId == id && e.outputIndex == index && e.text == ThoughtsIn(events[..n])
          && n + 1 < |events| && Closes(events[n + 1]))
    && (Opens(e) ==> e.outputIndex == index && e.item == Reasoning(id, InProgress, ""))
    && (Closes(e) ==>
          && e.outputIndex == index && status.Some? && e.item == Reasoning(id, status.value, ThoughtsIn(events[..n]))
          && n > 0 && events[n - 1].ReasoningDone?)
    && (Speaks(e) ==> Quieted(events[..n]))
  }

  /** The reasoning part of a stream about the item `id` at `index`, with the reasoning text `thought`. */
  ghost predicate Thoughtful(
    id: Id, index: nat, status: Option<Status>, started: bool, finished: bool, thought: string, events: seq<Event>)
  {
    && ThoughtsIn(events) == thought
    && (HasOpened(events) <==> started) && (HasFinished(events) <==> finished)
    && (forall n | 0 <= n < |events| :: SaysRight(id, index, status, events, n))
    && (forall m, n | 0 <= m < n < |events| :: !(Opens(events[m]) && Opens(events[n])))
    && (forall m, n | 0 <= m < n < |events| :: !(events[m].ReasoningDone? && events[n].ReasoningDone?))
    && (!started ==> forall n | 0 <= n < |events| :: !Thinks(events[n]))
  }

  /** The translator's reasoning item and what the stream said about it. */
  ghost predicate Minded(st: State) {
    match st.reasoning
    case None => Thoughtful(Given(""), 0, None, false, false, "", st.emitted)
    case Some(r) =>
      && r.started && (r.done <==> r.doneStatus.Some?)
      && Thoughtful(r.itemId, r.outputIndex, r.doneStatus, true, r.done, r.text, st.emitted)
  }

  function Thought(st: State): string {
    if st.reasoning.Some? then st.reasoning.value.text else ""
  }

  // ---- One more event ----

  lemma ThoughtsSnoc(events: seq<Event>, e: Event)
    ensures ThoughtsIn(events + [e]) == ThoughtsIn(events) + if e.ReasoningDelta? then e.delta else ""
    ensures HasOpened(events + [e]) <==> HasOpened(events) || Opens(e)
    ensures HasFinished(events + [e]) <==> HasFinished(events) || e.ReasoningDone?
  {
    var all := events + [e];
    assert all[..|events|] == events && all[|events|] == e;
    if HasOpened(events) {
      var n :| 0 <= n < |events| && Opens(events[n]);
      assert Opens(all[n]);
    }
    if HasFinished(events) {
      var n :| 0 <= n < |events| && events[n].ReasoningDone?;
      assert all[n].ReasoningDone?;
    }
  }

  lemma SaysRightMore(id: Id, index: nat, status: Option<Status>, events: seq<Event>, e: Event, n: nat)
    requires n < |events| && SaysRight(id, index, status, events, n)
    ensures SaysRight(id, index, status, events + [e], n)
  {
    assert (events + [e])[..n] == events[..n];
    hide ThoughtsIn, Quieted;
  }

  /** An event that is not about reasoning, spoken only when none is open. */
  lemma PlainThoughtful(
    id: Id, index: nat, status: Option<Status>, started: bool, finished: bool, thought: string, events: seq<Event>,
    e: Event)
    requires Thoughtful(id, index, status, started, finished, thought, events)
    requires !Thinks(e) && (Speaks(e) ==> !started || finished)
    ensures Thoughtful(id, index, status, started, finished, thought, events + [e])
  {
    ThoughtsSnoc(events, e);
    var all := events + [e];
    assert all[..|events|] == events;
    hide ThoughtsIn, HasOpened, HasFinished;
    forall n | 0 <= n < |all|
      ensures SaysRight(id, index, status, all, n)
    {
      if n < |events| {
        SaysRightMore(id, index, status, events, e, n);
      }
    }
  }

  // ---- Steps that leave reasoning alone ----

  /** The translator may speak: no reasoning item is open. */
  predicate MaySpeak(st: State) {
    st.reasoning.None? || st.reasoning.value.done
  }

  ghost predicate Aside(st: State, next: State) {
    && next.reasoning == st.reasoning
    && st.emitted <= next.emitted
    && forall n | |st.emitted| <= n < |next.emitted| ::
         !Thinks(next.emitted[n]) && (Speaks(next.emitted[n]) ==> MaySpeak(st))
  }

  lemma AsideTwice(st: State, mid: State, next: State)
    requires Aside(st, mid) && Aside(mid, next)
    ensures Aside(st, next)
  {
    forall n | |st.emitted| <= n < |next.emitted|
      ensures !Thinks(next.emitted[n]) && (Speaks(next.emitted[n]) ==> MaySpeak(st))
    {
      if n < |mid.emitted| {
        assert next.emitted[n] == mid.emitted[n];
      }
    }
  }

  lemma AsideOne(st: State, next: State, e: Event)
    requires next.reasoning == st.reasoning && next.emitted == st.emitted + [e]
    requires !Thinks(e) && (Speaks(e) ==> MaySpeak(st))
    ensures Aside(st, next)
  {
  }

  lemma AsideNone(st: State, next: State)
    requires next.reasoning == st.reasoning && next.emitted == st.emitted
    ensures Aside(st, next)
  {
  }

  lemma MindedIf(st: State, next: State, e: Event)
    requires Minded(st) && next.reasoning == st.reasoning && next.emitted == st.emitted + [e]
    requires !Thinks(e) && (Speaks(e) ==> MaySpeak(st))
    ensures Minded(next)
  {
    hide Thoughtful;
    match st.reasoning
    case None => PlainThoughtful(Given(""), 0, None, false, false, "", st.emitted, e);
    case Some(r) => PlainThoughtful(r.itemId, r.outputIndex, r.doneStatus, true, r.done, r.text, st.emitted, e);
  }

  lemma {:induction false} AsideMinds(st: State, next: State)
    requires Minded(st) && Aside(st, next)
    ensures Minded(next) && Thought(next) == Thought(st) && MaySpeak(next) == MaySpeak(st)
    decreases |next.emitted| - |st.emitted|
  {
    if |next.emitted| == |st.emitted| {
      assert next.emitted == st.emitted;
    } else {
      var e := next.emitted[|st.emitted|];
      var mid := next.(emitted := st.emitted + [e]);
      assert !Thinks(e) && (Speaks(e) ==> MaySpeak(st));
      hide Minded, Thinks, Speaks;
      MindedIf(st, mid, e);
      AsideMinds(mid, next);
    }
  }

  lemma CreatedAside(st: State)
    ensures Aside(st, EmitCreated(st))
  {
  }

  lemma EnsureTextAside(st: State)
    requires MaySpeak(st)
    ensures Aside(st, EnsureTextItem(st))
  {
    var mid := IdentifyText(st);
    IdentifyAside(st);
    hide IdentifyText;
    if !mid.textAdded {
      AsideOne(mid, EnsureTextItem(st),
               ItemAdded(mid.sequence + 1, mid.textIndex.GetOr(0), Message(mid.textId.GetOr(Given("")), InProgress, "")));
    }
  }

  lemma IdentifyAside(st: State)
    ensures IdentifyText(st).reasoning == st.reasoning && IdentifyText(st).emitted == st.emitted
  {
    if st.textIndex.Some? {
    } else {
    }
  }

  lemma AppendTextAside(st: State, text: string)
    requires MaySpeak(st)
    ensures Aside(st, AppendText(st, text))
  {
  }

  lemma UpsertAside(st: State, key: nat, callId: Id, name: Option<string>)
    ensures Aside(st, UpsertTool(st, key, callId, name)) && key in UpsertTool(st, key, callId, name).tools
  {
    if key in st.tools {
      hide OpenTool, RefreshTool;
    } else {
      UpsertOpens(st, key, callId, name);
      hide UpsertTool;
    }
  }

  lemma AnnounceAside(st: State, key: nat)
    requires MaySpeak(st) && key in st.tools
    ensures Aside(st, AnnounceTool(st, key)) && key in AnnounceTool(st, key).tools
  {
  }

  lemma MergeAside(st: State, key: nat, fragment: string)
    requires MaySpeak(st) && key in st.tools
    ensures Aside(st, MergeFragment(st, key, fragment))
  {
    hide MergeInto;
  }

  lemma ApplyAside(st: State, key: nat, callId: Id, name: Option<string>, fragment: string)
    requires MaySpeak(st)
    ensures Aside(st, ApplyFragment(st, key, callId, name, fragment))
  {
    UpsertAside(st, key, callId, name);
    var upserted := UpsertTool(st, key, callId, name);
    AnnounceAside(upserted, key);
    var announced := AnnounceTool(upserted, key);
    MergeAside(announced, key, fragment);
    hide UpsertTool, AnnounceTool, MergeFragment, Thinks, Speaks;
    AsideTwice(st, upserted, announced);
    AsideTwice(st, announced, MergeFragment(announced, key, fragment));
  }

  lemma TextDoneAside(st: State)
    ensures Aside(st, EmitTextDone(st))
  {
  }

  lemma ToolDoneAside(st: State, key: nat)
    requires key in st.tools
    ensures Aside(st, EmitToolDone(st, key))
  {
    hide NormalizeArguments;
    var t := st.tools[key];
    if !t.done {
      var item := ToolItem(st, t);
      var e := ArgumentsDone(st.sequence + 1, t.itemId, t.outputIndex, item.name, item.arguments);
      var mid := Push(st.(tools := st.tools[key := t.(done := true)]), e);
      AsideOne(st, mid, e);
      AsideOne(mid, EmitToolDone(st, key), ItemDone(mid.sequence + 1, t.outputIndex, item));
      AsideTwice(st, mid, EmitToolDone(st, key));
    }
  }

  lemma {:induction false} ToolDonesAside(st: State, keys: seq<nat>, n: nat)
    requires n <= |keys| && forall i | 0 <= i < |keys| :: keys[i] in st.tools
    ensures Aside(st, EmitToolDones(st, keys, n))
  {
    AsideNone(st, st);
    hide EmitToolDone, Aside;
    if n > 0 {
      ToolDonesAside(st, keys, n - 1);
      var mid := EmitToolDones(st, keys, n - 1);
      ToolDoneAside(mid, keys[n - 1]);
      AsideTwice(st, mid, EmitToolDone(mid, keys[n - 1]));
    }
  }

  lemma TerminalAside(st: State)
    ensures Aside(st, PushTerminal(st))
  {
    hide OutputItems;
  }

  // ---- Reasoning steps ----

  /** What is not about reasoning is right for any item. */
  lemma RightForAny(id: Id, index: nat, events: seq<Event>, e: Event, n: nat)
    requires n < |events| && !Thinks(events[n]) && SaysRight(Given(""), 0, None, events, n)
    ensures SaysRight(id, index, None, events + [e], n)
  {
    assert (events + [e])[..n] == events[..n];
    hide ThoughtsIn, Quieted;
  }

  lemma OpenedOnce(events: seq<Event>, e: Event)
    requires (forall n | 0 <= n < |events| :: !Thinks(events[n])) && Opens(e)
    ensures var all := events + [e];
            && (forall m, n | 0 <= m < n < |all| :: !(Opens(all[m]) && Opens(all[n])))
            && (forall m, n | 0 <= m < n < |all| :: !(all[m].ReasoningDone? && all[n].ReasoningDone?))
  {
    var all := events + [e];
    forall n | 0 <= n < |events|
      ensures !Opens(all[n]) && !all[n].ReasoningDone?
    {
      assert !Thinks(events[n]);
    }
    hide Thinks, Opens;
  }

  lemma OpeningIsRight(events: seq<Event>, e: Event)
    requires Opens(e) && e.item == Reasoning(e.item.id, InProgress, "")
    ensures SaysRight(e.item.id, e.outputIndex, None, events + [e], |events|)
    ensures !e.ReasoningDone? && !e.ReasoningDelta?
  {
    hide ThoughtsIn, Quieted;
  }

  lemma NotThinking(events: seq<Event>, e: Event)
    requires (forall n | 0 <= n < |events| :: !Thinks(events[n])) && ThoughtsIn(events) == "" && Opens(e)
    requires !HasFinished(events) && forall n | 0 <= n < |events| :: SaysRight(Given(""), 0, None, events, n)
    requires !HasOpened(events) && e.ItemAdded? && e.item == Reasoning(e.item.id, InProgress, "")
    ensures Thoughtful(e.item.id, e.outputIndex, None, true, false, "", events + [e])
  {
    hide *;
    var all := events + [e];
    ThoughtsSnoc(events, e);
    OpenedOnce(events, e);
    OpeningIsRight(events, e);
    assert ThoughtsIn(all) == "" + "" == "";
    forall n | 0 <= n < |all|
      ensures SaysRight(e.item.id, e.outputIndex, None, all, n)
    {
      if n < |events| {
        RightForAny(e.item.id, e.outputIndex, events, e, n);
      }
    }
    ThoughtfulIf(e.item.id, e.outputIndex, all);
  }

  lemma ThoughtfulIf(id: Id, index: nat, events: seq<Event>)
    requires ThoughtsIn(events) == "" && HasOpened(events) && !HasFinished(events)
    requires forall n | 0 <= n < |events| :: SaysRight(id, index, None, events, n)
    requires forall m, n | 0 <= m < n < |events| :: !(Opens(events[m]) && Opens(events[n]))
    requires forall m, n | 0 <= m < n < |events| :: !(events[m].ReasoningDone? && events[n].ReasoningDone?)
    ensures Thoughtful(id, index, None, true, false, "", events)
  {
    hide ThoughtsIn, HasOpened, HasFinished, SaysRight, Opens, Thinks;
  }

  lemma StartMinds(st: State)
    requires Minded(st)
    ensures Minded(StartReasoning(st)) && StartReasoning(st).reasoning.Some? && Thought(StartReasoning(st)) == Thought(st)
  {
    if st.reasoning.None? {
      var e := ItemAdded(st.sequence + 1, st.nextIndex, Reasoning(Generated(st.serial), InProgress, ""));
      assert StartReasoning(st).emitted == st.emitted + [e];
      hide SaysRight, ThoughtsIn, HasOpened, HasFinished;
      NotThinking(st.emitted, e);
      hide Thoughtful;
    }
  }

  lemma DeltaThoughtful(
    id: Id, index: nat, status: Option<Status>, finished: bool, thought: string, events: seq<Event>, e: Event)
    requires Thoughtful(id, index, status, true, finished, thought, events)
    requires e.ReasoningDelta? && e.itemId == id && e.outputIndex == index
    ensures Thoughtful(id, index, status, true, finished, thought + e.delta, events + [e])
  {
    ThoughtsSnoc(events, e);
    var all := events + [e];
    assert all[..|events|] == events;
    hide ThoughtsIn, HasOpened, HasFinished;
    forall n | 0 <= n < |all|
      ensures SaysRight(id, index, status, all, n)
    {
      if n < |events| {
        SaysRightMore(id, index, status, events, e, n);
      }
    }
  }

  lemma AppendMinds(st: State, delta: string)
    requires Minded(st) && st.reasoning.Some?
    ensures Minded(AppendReasoning(st, delta)) && Thought(AppendReasoning(st, delta)) == Thought(st) + delta
  {
    var r := st.reasoning.value;
    var e := ReasoningDelta(st.sequence + 1, r.itemId, r.outputIndex, delta);
    DeltaThoughtful(r.itemId, r.outputIndex, r.doneStatus, r.done, r.text, st.emitted, e);
    hide Thoughtful;
  }

  lemma ReasoningMinds(st: State, delta: string)
    requires Minded(st)
    ensures Minded(EmitReasoning(st, delta)) && Thought(EmitReasoning(st, delta)) == Thought(st) + delta
  {
    if delta == "" {
      assert Thought(st) + "" == Thought(st);
    } else {
      CreatedAside(st);
      AsideMinds(st, EmitCreated(st));
      hide EmitCreated, StartReasoning, AppendReasoning, Minded, Thought;
      StartMinds(EmitCreated(st));
      AppendMinds(StartReasoning(EmitCreated(st)), delta);
    }
  }

  lemma DoneThoughtful(id: Id, index: nat, status: Status, thought: string, events: seq<Event>, e: Event, f: Event)
    requires Thoughtful(id, index, None, true, false, thought, events)
    requires e.ReasoningDone? && e.itemId == id && e.outputIndex == index && e.text == thought
    requires f.ItemDone? && f.outputIndex == index && f.item == Reasoning(id, status, thought)
    ensures Thoughtful(id, index, Some(status), true, true, thought, events + [e] + [f])
  {
    ThoughtsSnoc(events, e);
    ThoughtsSnoc(events + [e], f);
    var all := events + [e] + [f];
    assert all[..|events|] == events && all[..|events| + 1] == events + [e];
    hide ThoughtsIn;
    forall n | 0 <= n < |all|
      ensures SaysRight(id, index, Some(status), all, n)
    {
      if n < |events| {
        assert SaysRight(id, index, None, events, n);
        assert all[..n] == events[..n] && !events[n].ReasoningDone?;
      }
    }
    hide SaysRight;
    assert forall n | 0 <= n < |events| :: !events[n].ReasoningDone?;
  }

  lemma DoneMinds(st: State)
    requires Minded(st)
    ensures var next := EmitReasoningDone(st); Minded(next) && Thought(next) == Thought(st) && MaySpeak(next)
  {
    if st.reasoning.Some? && !st.reasoning.value.done {
      var r, status := st.reasoning.value, FinalStatus(st);
      var e := ReasoningDone(st.sequence + 1, r.itemId, r.outputIndex, r.text);
      var f := ItemDone(st.sequence + 2, r.outputIndex, Reasoning(r.itemId, status, r.text));
      assert EmitReasoningDone(st).emitted == st.emitted + [e] + [f];
      DoneThoughtful(r.itemId, r.outputIndex, status, r.text, st.emitted, e, f);
      hide Thoughtful;
    }
  }

  // ---- Chunks ----

  lemma ReadyMinds(st: State)
    requires Minded(st)
    ensures var next := EmitReasoningDone(EmitCreated(st)); Minded(next) && Thought(next) == Thought(st) && MaySpeak(next)
  {
    CreatedAside(st);
    AsideMinds(st, EmitCreated(st));
    hide EmitCreated, EmitReasoningDone, Minded, Thought;
    DoneMinds(EmitCreated(st));
  }

  lemma ContentMinds(st: State, content: Content)
    requires Minded(st)
    ensures Minded(EmitContent(st, content).0) && Thought(EmitContent(st, content).0) == Thought(st)
  {
    if content.Text? && content.text != "" {
      ReadyMinds(st);
      hide Minded, Thought, EmitCreated, EmitReasoningDone, EnsureTextItem, AppendText, Aside;
      var ready := EmitReasoningDone(EmitCreated(st));
      EnsureTextAside(ready);
      AsideMinds(ready, EnsureTextItem(ready));
      AppendTextAside(EnsureTextItem(ready), content.text);
      AsideMinds(EnsureTextItem(ready), AppendText(EnsureTextItem(ready), content.text));
    }
  }

  lemma ToolDeltaMinds(st: State, d: ToolDelta, position: nat)
    requires Minded(st) && MaySpeak(st)
    ensures Minded(EmitToolDelta(st, d, position).0) && Thought(EmitToolDelta(st, d, position).0) == Thought(st)
  {
    hide Minded, ApplyFragment, Aside, RouteKey;
    if d.ToolDelta? && !(d.name.None? && d.arguments == "") {
      var named := if d.id.Some? then st else st.(serial := st.serial + 1);
      var callId := if d.id.Some? then Given(d.id.value) else Generated(st.serial);
      var key := RouteKey(st, d, position);
      AsideNone(st, named);
      AsideMinds(st, named);
      ApplyAside(named, key, callId, d.name, d.arguments);
      AsideMinds(named, ApplyFragment(named, key, callId, d.name, d.arguments));
    }
  }

  lemma {:induction false} ToolDeltasMind(st: State, ds: seq<ToolDelta>, n: nat)
    requires Minded(st) && n <= |ds|
    ensures Minded(EmitToolDeltas(st, ds, n).0) && Thought(EmitToolDeltas(st, ds, n).0) == Thought(st)
  {
    hide Minded, Thought, EmitToolDelta, EmitCreated, EmitReasoningDone;
    if n > 0 {
      ToolDeltasMind(st, ds, n - 1);
      var mid := EmitToolDeltas(st, ds, n - 1).0;
      ReadyMinds(mid);
      ToolDeltaMinds(EmitReasoningDone(EmitCreated(mid)), ds[n - 1], n - 1);
    }
  }

  lemma FunctionMinds(st: State, d: Option<FunctionDelta>)
    requires Minded(st)
    ensures Minded(EmitFunctionDelta(st, d).0) && Thought(EmitFunctionDelta(st, d).0) == Thought(st)
  {
    hide Minded, Thought, EmitCreated, EmitReasoningDone, ApplyFragment, Aside;
    if d.Some? {
      ReadyMinds(st);
      var ready := EmitReasoningDone(EmitCreated(st));
      if d.value.FunctionDelta? {
        ApplyAside(ready, 0, Given(d.value.id), Some(d.value.name), d.value.arguments);
        AsideMinds(ready, ApplyFragment(ready, 0, Given(d.value.id), Some(d.value.name), d.value.arguments));
      }
    }
  }

  lemma ChoiceMinds(st: State, choice: Choice)
    requires Minded(st) && EmitChoice(st, choice).1.None?
    ensures var next := EmitChoice(st, choice).0;
            Minded(next) && Thought(next) == Thought(st) + choice.delta.reasoning
  {
    hide Minded, Thought, EmitReasoning, EmitContent, EmitToolDeltas, EmitFunctionDelta, EmitCreated, Aside;
    var delta := choice.delta;
    ReasoningMinds(st, delta.reasoning);
    var reasoned := EmitReasoning(st, delta.reasoning);
    ContentMinds(reasoned, delta.content);
    var texted := EmitContent(reasoned, delta.content).0;
    ToolDeltasMind(texted, delta.toolCalls, |delta.toolCalls|);
    var called := EmitToolDeltas(texted, delta.toolCalls, |delta.toolCalls|).0;
    FunctionMinds(called, delta.functionCall);
    var functioned := EmitFunctionDelta(called, delta.functionCall).0;
    CreatedAside(functioned);
    AsideMinds(functioned, EmitCreated(functioned));
    var announced := if HasRelevantContent(delta) then EmitCreated(functioned) else functioned;
    if choice.finishReason.Some? {
      var reasonable := announced.(incompleteReason := IncompleteReason(choice.finishReason.value));
      AsideNone(announced, reasonable);
      AsideMinds(announced, reasonable);
      CreatedAside(reasonable);
      AsideMinds(reasonable, EmitCreated(reasonable));
    }
  }

  // ---- How the stream ends ----

  /** A finish reason that says the answer is incomplete, in the terms of the Responses protocol. */
  function Marked(finishReason: string): Option<string> {
    if finishReason == "length" then Some("max_output_tokens")
    else if finishReason == "content_filter" then Some(finishReason)
    else None
  }

  lemma CreatedEnds(st: State)
    ensures BeginsWhen(st, EmitCreated(st), true)
  {
  }

  /** What the terminal event is made of, whether it went out, and whether the created event did. */
  datatype Ends = Ends(incompleteReason: Option<string>, usage: Option<Usage>, completed: bool, begun: bool)

  function EndOf(st: State): Ends {
    Ends(st.incompleteReason, st.usage, st.completed, st.created)
  }

  ghost predicate SameEnd(st: State, next: State) {
    EndOf(next) == EndOf(st)
  }

  /** The stream begins, if it did not before, when `now`. */
  ghost predicate BeginsWhen(st: State, next: State, now: bool) {
    EndOf(next) == EndOf(st).(begun := st.created || now)
  }

  lemma UpsertEnds(st: State, key: nat, callId: Id, name: Option<string>)
    ensures SameEnd(st, UpsertTool(st, key, callId, name)) && key in UpsertTool(st, key, callId, name).tools
  {
    if key in st.tools {
      hide OpenTool, RefreshTool;
    } else {
      UpsertOpens(st, key, callId, name);
      hide UpsertTool;
    }
  }

  lemma ApplyEnds(st: State, key: nat, callId: Id, name: Option<string>, fragment: string)
    ensures SameEnd(st, ApplyFragment(st, key, callId, name, fragment))
  {
    UpsertEnds(st, key, callId, name);
    var upserted := UpsertTool(st, key, callId, name);
    AnnounceEnds(upserted, key);
    MergeEnds(AnnounceTool(upserted, key), key, fragment);
    hide UpsertTool, AnnounceTool, MergeFragment;
  }

  lemma AnnounceEnds(st: State, key: nat)
    requires key in st.tools
    ensures SameEnd(st, AnnounceTool(st, key)) && key in AnnounceTool(st, key).tools
  {
  }

  lemma MergeEnds(st: State, key: nat, fragment: string)
    requires key in st.tools
    ensures SameEnd(st, MergeFragment(st, key, fragment))
  {
    hide MergeInto;
  }

  lemma ReadyEnds(st: State)
    ensures BeginsWhen(st, EmitReasoningDone(EmitCreated(st)), true)
  {
    CreatedEnds(st);
    hide EmitCreated;
  }

  lemma IdentifyEnds(st: State)
    ensures SameEnd(st, IdentifyText(st))
  {
    if st.textIndex.Some? {
    } else {
    }
  }

  lemma EnsureTextEnds(st: State)
    ensures SameEnd(st, EnsureTextItem(st))
  {
    IdentifyEnds(st);
    hide IdentifyText;
  }

  lemma ContentEnds(st: State, content: Content)
    ensures BeginsWhen(st, EmitContent(st, content).0, content.Text? && content.text != "")
  {
    if content.Text? && content.text != "" {
      ReadyEnds(st);
      EnsureTextEnds(EmitReasoningDone(EmitCreated(st)));
      hide EmitCreated, EmitReasoningDone, EnsureTextItem;
    }
  }

  lemma ReasoningEnds(st: State, delta: string)
    ensures BeginsWhen(st, EmitReasoning(st, delta), delta != "")
  {
    if delta != "" {
      CreatedEnds(st);
      StartEnds(EmitCreated(st));
      AppendEnds(StartReasoning(EmitCreated(st)), delta);
      hide EmitCreated, StartReasoning, AppendReasoning;
    }
  }

  lemma StartEnds(st: State)
    ensures SameEnd(st, StartReasoning(st))
  {
  }

  lemma AppendEnds(st: State, delta: string)
    ensures SameEnd(st, AppendReasoning(st, delta))
  {
  }

  lemma {:induction false} ToolDeltasEnd(st: State, ds: seq<ToolDelta>, n: nat)
    requires n <= |ds|
    ensures BeginsWhen(st, EmitToolDeltas(st, ds, n).0, n > 0)
  {
    hide EmitCreated, EmitReasoningDone, ApplyFragment, RouteKey;
    if n > 0 {
      ToolDeltasEnd(st, ds, n - 1);
      var mid, d := EmitToolDeltas(st, ds, n - 1).0, ds[n - 1];
      ReadyEnds(mid);
      var ready := EmitReasoningDone(EmitCreated(mid));
      if d.ToolDelta? && !(d.name.None? && d.arguments == "") {
        var named := if d.id.Some? then ready else ready.(serial := ready.serial + 1);
        var callId := if d.id.Some? then Given(d.id.value) else Generated(ready.serial);
        ApplyEnds(named, RouteKey(ready, d, n - 1), callId, d.name, d.arguments);
      }
    }
  }

  lemma FunctionEnds(st: State, d: Option<FunctionDelta>)
    ensures BeginsWhen(st, EmitFunctionDelta(st, d).0, d.Some?)
  {
    hide EmitCreated, EmitReasoningDone, ApplyFragment;
    if d.Some? {
      ReadyEnds(st);
      if d.value.FunctionDelta? {
        ApplyEnds(EmitReasoningDone(EmitCreated(st)), 0, Given(d.value.id), Some(d.value.name), d.value.arguments);
      }
    }
  }

  /** The delta carries reasoning, content or a call. */
  predicate Says(delta: Delta) {
    || delta.reasoning != "" || (delta.content.Text? && delta.content.text != "")
    || delta.toolCalls != [] || delta.functionCall.Some?
  }

  lemma DeltaEnds(st: State, delta: Delta)
    requires EmitDelta(st, delta).1.None?
    ensures BeginsWhen(st, EmitDelta(st, delta).0, Says(delta))
  {
    ReasoningEnds(st, delta.reasoning);
    var reasoned := EmitReasoning(st, delta.reasoning);
    ContentEnds(reasoned, delta.content);
    var texted := EmitContent(reasoned, delta.content).0;
    ToolDeltasEnd(texted, delta.toolCalls, |delta.toolCalls|);
    FunctionEnds(EmitToolDeltas(texted, delta.toolCalls, |delta.toolCalls|).0, delta.functionCall);
    hide EmitReasoning, EmitContent, EmitToolDeltas, EmitFunctionDelta;
  }

  /** The choice makes the translator announce the response: it has a role or a finish reason, or carries anything. */
  predicate Tells(choice: Choice) {
    choice.delta.hasRole || Says(choice.delta) || choice.finishReason.Some?
  }

  lemma ChoiceEnds(st: State, choice: Choice)
    requires EmitChoice(st, choice).1.None?
    ensures var next := EmitChoice(st, choice).0;
            && next.completed == st.completed && next.usage == st.usage
            && next.incompleteReason == (if choice.finishReason.Some? then Marked(choice.finishReason.value)
                                         else st.incompleteReason)
            && (next.created <==> st.created || Tells(choice))
  {
    DeltaEnds(st, choice.delta);
    var functioned := EmitDelta(st, choice.delta).0;
    CreatedEnds(functioned);
    var announced := if HasRelevantContent(choice.delta) then EmitCreated(functioned) else functioned;
    if choice.finishReason.Some? {
      CreatedEnds(announced.(incompleteReason := IncompleteReason(choice.finishReason.value)));
    }
    hide EmitDelta, EmitCreated;
  }

  lemma {:induction false} ToolDonesEnd(st: State, keys: seq<nat>, n: nat)
    requires n <= |keys| && forall i | 0 <= i < |keys| :: keys[i] in st.tools
    ensures SameEnd(st, EmitToolDones(st, keys, n))
  {
    hide NormalizeArguments;
    if n > 0 {
      ToolDonesEnd(st, keys, n - 1);
    }
  }

  lemma TextDoneEnds(st: State)
    ensures SameEnd(st, EmitTextDone(st))
  {
  }

  lemma CloseEnds(st: State)
    ensures BeginsWhen(st, CloseItems(st), true)
  {
    ReadyEnds(st);
    var ready := EmitReasoningDone(EmitCreated(st));
    TextDoneEnds(ready);
    var keys := Ascending(EmitTextDone(ready).tools.Keys);
    ToolDonesEnd(EmitTextDone(ready), keys, |keys|);
    TextDoneKeepsTools(ready);
    hide EmitCreated, EmitReasoningDone, EmitTextDone, EmitToolDones;
  }

  lemma TextDoneKeepsTools(st: State)
    ensures EmitTextDone(st).tools == st.tools
  {
  }

  /** A completed translator ended its stream with what it knew about the end. */
  ghost predicate Ended(st: State) {
    st.completed ==>
      && st.emitted != [] && st.emitted[|st.emitted| - 1].Terminal?
      && st.emitted[|st.emitted| - 1].incompleteReason == st.incompleteReason
      && st.emitted[|st.emitted| - 1].usage == st.usage
  }

  lemma FinishEnds(st: State)
    requires Ended(st)
    ensures Ended(Finish(st)) && Finish(st).incompleteReason == st.incompleteReason && Finish(st).usage == st.usage
    ensures !st.completed ==> Finish(st).created
  {
    if !st.completed {
      CloseEnds(st);
      hide CloseItems, OutputItems;
    }
  }

  lemma FinishMinds(st: State)
    requires Minded(st)
    ensures Minded(Finish(st)) && Thought(Finish(st)) == Thought(st)
    ensures !st.completed ==> MaySpeak(Finish(st))
  {
    if !st.completed {
      ReadyMinds(st);
      var ready := EmitReasoningDone(EmitCreated(st));
      TextDoneAside(ready);
      var texted := EmitTextDone(ready);
      var keys := Ascending(texted.tools.Keys);
      ToolDonesAside(texted, keys, |keys|);
      TextDoneKeepsTools(ready);
      var closed := EmitToolDones(texted, keys, |keys|);
      TerminalAside(closed);
      hide Minded, Thought, Aside, EmitCreated, EmitReasoningDone, EmitTextDone, EmitToolDones, PushTerminal;
      AsideMinds(ready, texted);
      AsideMinds(texted, closed);
      AsideMinds(closed, PushTerminal(closed));
      assert Finish(st) == PushTerminal(closed) by {
        FinishIs(st);
      }
    }
  }

  lemma FinishIs(st: State)
    requires !st.completed
    ensures var texted := EmitTextDone(EmitReasoningDone(EmitCreated(st)));
            var keys := Ascending(texted.tools.Keys);
            Finish(st) == PushTerminal(EmitToolDones(texted, keys, |keys|))
  {
    TextDoneKeepsTools(EmitReasoningDone(EmitCreated(st)));
    ReadyKeepsTools(st);
    hide EmitCreated, EmitReasoningDone, EmitTextDone, EmitToolDones, PushTerminal;
  }

  lemma ReadyKeepsTools(st: State)
    ensures EmitReasoningDone(EmitCreated(st)).tools == st.tools
  {
    CreatedKeepsTools(st);
    hide EmitCreated;
  }

  lemma CreatedKeepsTools(st: State)
    ensures EmitCreated(st).tools == st.tools
  {
  }

  // ---- What the upstream sent ----

  /** The single choice an event carries. */
  function ChoiceOf(event: ChatEvent): Option<Choice> {
    if event.choices.Some? && |event.choices.value| == 1 then Some(event.choices.value[0]) else None
  }

  /** All reasoning the upstream sent before ending the stream. */
  function ReasoningSent(events: seq<ChatEvent>): string {
    if events == [] then ""
    else
      var init, choice := events[..|events| - 1], ChoiceOf(events[|events| - 1]);
      if HasEnded(init) || choice.None? then ReasoningSent(init) else ReasoningSent(init) + choice.value.delta.reasoning
  }

  /** The last finish reason before the end. */
  function FinishSent(events: seq<ChatEvent>): Option<string> {
    if events == [] then None
    else
      var init, choice := events[..|events| - 1], ChoiceOf(events[|events| - 1]);
      if HasEnded(init) || choice.None? || choice.value.finishReason.None? then FinishSent(init)
      else choice.value.finishReason
  }

  /** The last token count up to the end. */
  function UsageSent(events: seq<ChatEvent>): Option<Usage> {
    if events == [] then None
    else
      var init, last := events[..|events| - 1], events[|events| - 1];
      if HasEnded(init) || last.usage.None? then UsageSent(init) else last.usage
  }

  /** The event makes the translator announce the response. */
  predicate Begins(event: ChatEvent) {
    IsEnd(event) || (ChoiceOf(event).Some? && Tells(ChoiceOf(event).value))
  }

  ghost predicate HasBegun(events: seq<ChatEvent>) {
    exists n :: 0 <= n < |events| && Begins(events[n])
  }

  lemma BegunSnoc(events: seq<ChatEvent>)
    requires events != []
    ensures HasBegun(events) <==> HasBegun(events[..|events| - 1]) || Begins(events[|events| - 1])
    ensures HasEnded(events) ==> HasBegun(events)
  {
    var init := events[..|events| - 1];
    if HasBegun(init) {
      var n :| 0 <= n < |init| && Begins(init[n]);
      assert Begins(events[n]);
    }
    if HasEnded(events) {
      var n :| 0 <= n < |events| && IsEnd(events[n]);
      assert Begins(events[n]);
    }
  }

  ghost predicate Received(st: State, events: seq<ChatEvent>) {
    Heard(st, events) && (st.created <==> HasBegun(events))
  }

  ghost predicate Heard(st: State, events: seq<ChatEvent>) {
    && Minded(st) && Ended(st)
    && Thought(st) == ReasoningSent(events)
    && st.incompleteReason == (if FinishSent(events).Some? then Marked(FinishSent(events).value) else None)
    && st.usage == UsageSent(events)
  }

  lemma TranslateReceives(st: State, event: ChatEvent)
    requires Minded(st) && !st.completed && Translate(st, event).1.None?
    requires Translate(st, event).0.completed <==> IsEnd(event)
    ensures var next, choice := Translate(st, event).0, ChoiceOf(event);
            && Minded(next) && Ended(next)
            && Thought(next) == Thought(st) + (if choice.Some? then choice.value.delta.reasoning else "")
            && next.incompleteReason == (if choice.Some? && choice.value.finishReason.Some?
                                         then Marked(choice.value.finishReason.value) else st.incompleteReason)
            && next.usage == (if event.usage.Some? then event.usage else st.usage)
            && (next.created <==> st.created || Begins(event))
  {
    hide Minded, EmitChoice, EmitDelta, Finish, Aside;
    var counted := if event.usage.Some? then st.(usage := event.usage) else st;
    AsideNone(st, counted);
    AsideMinds(st, counted);
    assert Thought(st) + "" == Thought(st);
    if event.choices.Some? && |event.choices.value| == 1 {
      ChoiceMinds(counted, event.choices.value[0]);
      ChoiceEnds(counted, event.choices.value[0]);
    } else if event.choices == Some([]) && event.usage.Some? {
      FinishMinds(counted);
      FinishEnds(counted);
    }
  }

  lemma InitialReceived(strict: bool)
    ensures Received(Initial(strict), [])
  {
  }

  lemma {:induction false} RunReceives(strict: bool, events: seq<ChatEvent>)
    requires Run(strict, events).Some?
    ensures Received(Run(strict, events).value, events)
  {
    if events == [] {
      InitialReceived(strict);
    } else {
      var init, last := events[..|events| - 1], events[|events| - 1];
      RunReceives(strict, init);
      RunInvariant(strict, init);
      RunInvariant(strict, events);
      EndedSnoc(events);
      BegunSnoc(events);
      RunSnoc(strict, events);
      StepReceives(Run(strict, init).value, events);
    }
  }

  lemma RunSnoc(strict: bool, events: seq<ChatEvent>)
    requires events != [] && Run(strict, events).Some?
    ensures var init, last := events[..|events| - 1], events[|events| - 1];
            && Run(strict, init).Some? && Translate(Run(strict, init).value, last).1.None?
            && Run(strict, events).value == Translate(Run(strict, init).value, last).0
  {
    hide Translate;
  }

  lemma StepReceives(st: State, events: seq<ChatEvent>)
    requires events != []
    requires var init, last := events[..|events| - 1], events[|events| - 1];
             && Received(st, init) && Translate(st, last).1.None?
             && (st.completed <==> HasEnded(init))
             && (HasBegun(events) <==> HasBegun(init) || Begins(last)) && (HasEnded(init) ==> HasBegun(init))
             && (Translate(st, last).0.completed <==> HasEnded(init) || IsEnd(last))
    ensures Received(Translate(st, events[|events| - 1]).0, events)
  {
    var last := events[|events| - 1];
    if st.completed {
      TranslateAfterEnd(st, last);
      hide Minded, Ended, Translate, HasEnded, IsEnd, HasBegun, Begins;
    } else {
      TranslateReceives(st, last);
      hide Minded, Ended, Translate, HasEnded, IsEnd, HasBegun, Begins;
    }
  }

  /** What the stream of a finished run says about reasoning, against the reasoning the upstream sent. */
  ghost predicate ReasoningFaithful(sent: string, events: seq<Event>, output: seq<Item>) {
    && ThoughtsIn(events) == sent
    && (forall i, j | 0 <= i < j < |output| :: !(output[i].Reasoning? && output[j].Reasoning?))
    && (forall n | 0 <= n < |events| && Thinks(events[n]) ::
          && events[n].outputIndex < |output| && output[events[n].outputIndex].Reasoning?)
    && (forall i | 0 <= i < |output| && output[i].Reasoning? ::
          && output[i].text == sent
          && Thoughtful(output[i].id, i, Some(output[i].status), true, true, sent, events))
    && ((forall i | 0 <= i < |output| :: !output[i].Reasoning?) ==> sent == "" && !HasOpened(events))
  }

  /** Main result: after every error-free run to the end, the reasoning deltas spell the reasoning the upstream
      sent; at most one reasoning item is listed, with exactly that text; all its events carry its id and index; it
      is opened once and finished once, the two done events side by side, each carrying what was streamed before it
      and its listed status; and neither text nor a call begins or goes on while it is open. */
  lemma ReasoningIsFaithful(strict: bool, events: seq<ChatEvent>)
    requires RunToEnd(strict, events).Some?
    ensures var st := RunToEnd(strict, events).value;
            ReasoningFaithful(ReasoningSent(events), st.emitted, OutputItems(st))
  {
    var st := RunToEnd(strict, events).value;
    EndReceives(strict, events);
    EveryRunIsFaithful(strict, events);
    OutputByIndex(st);
    hide RunToEnd, OutputItems, FaithfulStream, Closed, Wire, Phases, Buffers, Thoughtful;
    ListedReasoning(st);
  }

  lemma EndReceives(strict: bool, events: seq<ChatEvent>)
    requires RunToEnd(strict, events).Some?
    ensures var st := RunToEnd(strict, events).value; Heard(st, events) && MaySpeak(st) && st.completed
  {
    RunReceives(strict, events);
    RunInvariant(strict, events);
    var st := Run(strict, events).value;
    if st.completed {
      CompletedQuiet(strict, events);
    } else {
      FinishMinds(st);
      FinishEnds(st);
      FinishCompletes(st);
    }
    hide Run, Finish, Minded, Ended, Live, Inv, Closed, FaithfulStream, Announced, TextSentUpstream;
  }

  lemma FinishCompletes(st: State)
    ensures Finish(st).completed
  {
    hide CloseItems, OutputItems;
  }

  /** A completed run closed its reasoning. */
  lemma {:induction false} CompletedQuiet(strict: bool, events: seq<ChatEvent>)
    requires Run(strict, events).Some? && Run(strict, events).value.completed
    ensures MaySpeak(Run(strict, events).value) && Finish(Run(strict, events).value) == Run(strict, events).value
  {
    var init, last := events[..|events| - 1], events[|events| - 1];
    var st := Run(strict, init).value;
    RunReceives(strict, init);
    RunInvariant(strict, init);
    RunInvariant(strict, events);
    if st.completed {
      TranslateAfterEnd(st, last);
      CompletedQuiet(strict, init);
    } else {
      hide Live, Inv, Closed, FaithfulStream, Announced, TextSentUpstream, Ended;
      EndFinishes(st, last);
    }
  }

  lemma EndFinishes(st: State, event: ChatEvent)
    requires Minded(st) && !st.completed && Translate(st, event).1.None? && Translate(st, event).0.completed
    ensures MaySpeak(Translate(st, event).0)
  {
    var counted := if event.usage.Some? then st.(usage := event.usage) else st;
    hide Minded, Finish, EmitChoice, Aside;
    AsideNone(st, counted);
    AsideMinds(st, counted);
    FinishMinds(counted);
    if event.choices.Some? && |event.choices.value| == 1 {
      ChoiceEnds(counted, event.choices.value[0]);
    }
  }

  /** The listed reasoning item is the translator's. */
  lemma ListedReasoning(st: State)
    requires Ownership(st) && Minded(st) && MaySpeak(st)
    requires |OutputItems(st)| == |st.owners| && forall i | 0 <= i < |st.owners| :: OutputItems(st)[i] == ItemAt(st, i)
    ensures ReasoningFaithful(Thought(st), st.emitted, OutputItems(st))
  {
    hide NormalizeArguments, OutputItems, Thinks, ThoughtsIn, SaysRight, HasOpened, HasFinished;
    forall i | 0 <= i < |st.owners|
      ensures ItemAt(st, i).Reasoning? <==> st.owners[i] == ForReasoning
      ensures ItemAt(st, i).Reasoning? ==> st.reasoning.Some? && st.reasoning.value.outputIndex == i
    {
      assert OwnedBy(st, i, st.owners[i]);
    }
    hide OwnedBy;
    if st.reasoning.Some? {
      var r := st.reasoning.value;
      assert OutputItems(st)[r.outputIndex] == Reasoning(r.itemId, r.doneStatus.value, r.text);
      ThinksAtIndex(r.itemId, r.outputIndex, r.doneStatus, r.done, r.text, st.emitted);
    }
  }

  lemma ThinksAtIndex(id: Id, index: nat, status: Option<Status>, finished: bool, thought: string, events: seq<Event>)
    requires Thoughtful(id, index, status, true, finished, thought, events)
    ensures forall n | 0 <= n < |events| && Thinks(events[n]) :: events[n].outputIndex == index
  {
    forall n | 0 <= n < |events| && Thinks(events[n])
      ensures events[n].outputIndex == index
    {
      assert SaysRight(id, index, status, events, n);
      hide ThoughtsIn, Quieted;
    }
  }

  /** The response is announced, and anything streamed at all, exactly from the first event on that has a role, a
      finish reason, reasoning, content or a call, or ends the stream. */
  lemma StreamBegunIff(strict: bool, events: seq<ChatEvent>)
    requires Run(strict, events).Some?
    ensures Run(strict, events).value.emitted != [] <==> HasBegun(events)
  {
    RunReceives(strict, events);
    RunInvariant(strict, events);
    hide Run, HasBegun, Minded, Ended, Ownership, Phases, Buffers, FaithfulStream, Closed;
  }

  /** How a finished stream ends: the terminal event names the last finish reason when that means an incomplete
      answer, and the last token count; and messages and calls are listed as incomplete exactly then. */
  lemma EndIsFaithful(strict: bool, events: seq<ChatEvent>)
    requires RunToEnd(strict, events).Some?
    ensures var st := RunToEnd(strict, events).value;
            && st.emitted != []
            && var last, finish := st.emitted[|st.emitted| - 1], FinishSent(events);
            && last.Terminal?
            && last.incompleteReason == (if finish == Some("length") then Some("max_output_tokens")
                                         else if finish == Some("content_filter") then Some("content_filter")
                                         else None)
            && last.usage == UsageSent(events)
            && forall i | 0 <= i < |OutputItems(st)| && !OutputItems(st)[i].Reasoning? ::
                 OutputItems(st)[i].status == if last.incompleteReason.Some? then Incomplete else Completed
  {
    var st := RunToEnd(strict, events).value;
    EndReceives(strict, events);
    EveryRunIsFaithful(strict, events);
    ItemStatuses(st);
    hide RunToEnd, OutputItems, FaithfulStream, Closed, Wire, Phases, Buffers, Ownership, Minded, UsageSent, FinishSent;
  }

  lemma ItemStatuses(st: State)
    requires Ownership(st)
    ensures forall i | 0 <= i < |OutputItems(st)| && !OutputItems(st)[i].Reasoning? ::
              OutputItems(st)[i].status == FinalStatus(st)
  {
    OutputByIndex(st);
    hide OutputItems;
    forall i | 0 <= i < |st.owners|
      ensures !ItemAt(st, i).Reasoning? ==> ItemAt(st, i).status == FinalStatus(st)
    {
      assert OwnedBy(st, i, st.owners[i]);
      hide NormalizeArguments;
    }
  }
}
