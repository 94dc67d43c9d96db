/** Whether the events of one output item carry one identity: on every run of the Chat-to-Responses translator, and
    exactly when. */
module ChatToResponsesIdentity {
  import opened Collections
  import opened StreamEvents
  import opened ToolArguments
  import opened ChatToResponses
  import opened ChatToResponsesRuns
  import opened ChatToResponsesFinal
  import A = ToolArrivals
  import ArrivalRuns = ToolArrivalRuns

  /** Events about an item. */
  predicate Indexed(e: Event) {
    !e.Created? && !e.Terminal?
  }

  /** The item id an event carries. */
  function IdIn(e: Event): Id
    requires Indexed(e)
  {
    if e.ItemAdded? || e.ItemDone? then e.item.id else e.itemId
  }

  /** The id the translator would use now for the item at an output index. */
  function CurrentId(st: State, i: nat): Id {
    if i >= |st.owners| then Given("")
    else match st.owners[i]
      case ForReasoning => if st.reasoning.Some? then st.reasoning.value.itemId else Given("")
      case ForText => st.textId.GetOr(Given(""))
      case ForTool(k) => if k in st.tools then st.tools[k].itemId else Given("")
  }

  // ---- The invariant ----

  /** What an announced call said, as far as it said anything, still holds. */
  ghost predicate Remembered(st: State, i: nat, item: Item)
    requires i < |st.owners|
  {
    item.FunctionCall? ==>
      && st.owners[i].ForTool? && st.owners[i].key in st.tools
      && (item.name != "" ==> st.tools[st.owners[i].key].name == Some(item.name))
      && (item.callId != Given("") ==> st.tools[st.owners[i].key].callId == item.callId)
  }

  /** An event names its item by the id the item has now, or by none when the item was a call without one. */
  ghost predicate NamedAt(st: State, e: Event) {
    Indexed(e) ==>
      && e.outputIndex < |st.owners|
      && (IdIn(e) == CurrentId(st, e.outputIndex) || (IdIn(e) == Given("") && st.owners[e.outputIndex].ForTool?))
      && (e.ItemAdded? ==> Remembered(st, e.outputIndex, e.item))
  }

  /** Once an item was named, later events keep the name. */
  predicate Follows(a: Event, b: Event) {
    Indexed(a) && Indexed(b) && a.outputIndex == b.outputIndex && IdIn(a) != Given("") ==> IdIn(b) == IdIn(a)
  }

  ghost predicate Named(st: State) {
    && (forall n | 0 <= n < |st.emitted| :: NamedAt(st, st.emitted[n]))
    && (forall m, n | 0 <= m < n < |st.emitted| :: Follows(st.emitted[m], st.emitted[n]))
  }

  /** Identities only get filled in. */
  ghost predicate CallEvolves(t: ToolCall, next: ToolCall) {
    && (t.itemId != Given("") ==> next.itemId == t.itemId)
    && (t.callId != Given("") ==> next.callId == t.callId)
    && (t.name.Some? ==> next.name == t.name)
  }

  ghost predicate Evolves(st: State, next: State) {
    && st.owners <= next.owners
    && (forall k | k in st.tools :: k in next.tools && CallEvolves(st.tools[k], next.tools[k]))
    && (forall i | 0 <= i < |st.owners| && !st.owners[i].ForTool? :: CurrentId(next, i) == CurrentId(st, i))
  }

  lemma NamedStays(st: State, next: State, e: Event)
    requires Evolves(st, next) && NamedAt(st, e) && Ownership(st)
    ensures NamedAt(next, e)
  {
    if Indexed(e) {
      assert OwnedBy(st, e.outputIndex, st.owners[e.outputIndex]);
    }
  }

  lemma SilentNames(st: State, next: State)
    requires Named(st) && Ownership(st) && Evolves(st, next) && next.emitted == st.emitted
    ensures Named(next)
  {
    hide NamedAt, Ownership, Evolves;
    forall n | 0 <= n < |st.emitted|
      ensures NamedAt(next, st.emitted[n])
    {
      NamedStays(st, next, st.emitted[n]);
    }
  }

  /** One more event, carrying the id its item has now. */
  lemma SaysNames(st: State, next: State, e: Event)
    requires Named(st) && Ownership(st) && Evolves(st, next) && next.emitted == st.emitted + [e]
    requires NamedAt(next, e)
    requires Indexed(e) ==> IdIn(e) == CurrentId(next, e.outputIndex)
    ensures Named(next)
  {
    forall n | 0 <= n < |st.emitted|
      ensures NamedAt(next, st.emitted[n]) && Follows(st.emitted[n], e)
    {
      assert NamedAt(st, st.emitted[n]);
      NamedStays(st, next, st.emitted[n]);
    }
    hide NamedAt, Ownership, Evolves, Follows;
  }

  // ---- Steps ----

  lemma CreatedNames(st: State)
    requires Named(st) && Ownership(st)
    ensures Named(EmitCreated(st))
  {
    hide NamedAt, Follows, Ownership;
    if !st.created {
      CreatedNamed(st);
      SaysNames(st, EmitCreated(st), Created(st.sequence + 1));
    }
  }

  lemma CreatedNamed(st: State)
    ensures Evolves(st, EmitCreated(st)) && NamedAt(EmitCreated(st), Created(st.sequence + 1))
  {
  }

  lemma StartReasoningEvolves(st: State)
    requires Ownership(st)
    ensures Evolves(st, StartReasoning(st))
  {
    forall i | 0 <= i < |st.owners| && !st.owners[i].ForTool?
      ensures CurrentId(StartReasoning(st), i) == CurrentId(st, i)
    {
      assert OwnedBy(st, i, st.owners[i]);
    }
  }

  lemma StartReasoningNames(st: State)
    requires Named(st) && Ownership(st)
    ensures Named(StartReasoning(st))
  {
    hide Named, Follows, Evolves;
    StartReasoningEvolves(st);
    if st.reasoning.None? {
      SaysNames(st, StartReasoning(st),
                ItemAdded(st.sequence + 1, st.nextIndex, Reasoning(Generated(st.serial), InProgress, "")));
    }
  }

  lemma AppendReasoningNames(st: State, delta: string)
    requires Named(st) && Ownership(st)
    ensures Named(AppendReasoning(st, delta))
  {
    hide Named, Follows;
    if st.reasoning.Some? {
      var r := st.reasoning.value;
      SaysNames(st, AppendReasoning(st, delta), ReasoningDelta(st.sequence + 1, r.itemId, r.outputIndex, delta));
    }
  }

  /** One more event about the reasoning item or the message. */
  lemma ItemSays(st: State, next: State, e: Event)
    requires Named(st) && Ownership(st) && Ownership(next)
    requires next.tools == st.tools && next.owners == st.owners && next.textId == st.textId
    requires next.reasoning.Some? == st.reasoning.Some?
    requires st.reasoning.Some? ==> next.reasoning.value.itemId == st.reasoning.value.itemId
    requires next.emitted == st.emitted + [e] && Indexed(e) && !e.ItemAdded?
    requires e.outputIndex < |next.owners| && IdIn(e) == CurrentId(next, e.outputIndex)
    ensures Named(next)
  {
    hide Named, Follows, Ownership;
    SaysNames(st, next, e);
  }

  lemma ReasoningOwner(st: State)
    requires Ownership(st) && st.reasoning.Some?
    ensures var r := st.reasoning.value; r.outputIndex < |st.owners| && CurrentId(st, r.outputIndex) == r.itemId
  {
  }

  lemma ReasoningDoneNames(st: State)
    requires Named(st) && Ownership(st)
    ensures Named(EmitReasoningDone(st))
  {
    hide Named, Ownership, CurrentId;
    if st.reasoning.Some? && !st.reasoning.value.done && st.reasoning.value.started {
      var r, status := st.reasoning.value, FinalStatus(st);
      var e := ReasoningDone(st.sequence + 1, r.itemId, r.outputIndex, r.text);
      var mid := Push(st.(reasoning := Some(r.(done := true, doneStatus := Some(status)))), e);
      var next, f := EmitReasoningDone(st), ItemDone(mid.sequence + 1, r.outputIndex,
                                                     Reasoning(r.itemId, status, r.text));
      SameOwns(st, mid);
      SameOwns(st, next);
      ReasoningOwner(mid);
      ReasoningOwner(next);
      ItemSays(st, mid, e);
      ItemSays(mid, next, f);
    }
  }

  lemma EnsureTextEvolves(st: State)
    requires Ownership(st)
    ensures Evolves(st, EnsureTextItem(st))
  {
    forall i | 0 <= i < |st.owners| && !st.owners[i].ForTool?
      ensures CurrentId(EnsureTextItem(st), i) == CurrentId(st, i)
    {
      assert OwnedBy(st, i, st.owners[i]);
    }
  }

  lemma EnsureTextNames(st: State)
    requires Named(st) && Ownership(st)
    ensures Named(EnsureTextItem(st))
  {
    hide Named, Follows, Evolves;
    EnsureTextEvolves(st);
    if !st.textAdded {
      SaysNames(st, EnsureTextItem(st),
                ItemAdded(st.sequence + 1, st.nextIndex, Message(Generated(st.serial), InProgress, "")));
    }
  }

  lemma AppendTextNames(st: State, text: string)
    requires Named(st) && Ownership(st) && st.textAdded
    ensures Named(AppendText(st, text))
  {
    hide Named, Follows;
    SaysNames(st, AppendText(st, text),
              TextDelta(st.sequence + 1, st.textId.GetOr(Given("")), st.textIndex.GetOr(0), text));
  }

  lemma TextOwner(st: State)
    requires Ownership(st) && st.textAdded
    ensures var i := st.textIndex.GetOr(0); i < |st.owners| && CurrentId(st, i) == st.textId.GetOr(Given(""))
  {
  }

  lemma TextDoneNames(st: State)
    requires Named(st) && Ownership(st)
    ensures Named(EmitTextDone(st))
  {
    hide Named, Ownership, CurrentId;
    if st.textAdded && !st.textDone {
      var item := Message(st.textId.GetOr(Given("")), FinalStatus(st), st.text);
      var e := TextDone(st.sequence + 1, item.id, st.textIndex.GetOr(0), st.text);
      var mid := Push(st.(textDone := true), e);
      var next, f := EmitTextDone(st), ItemDone(mid.sequence + 1, st.textIndex.GetOr(0), item);
      SameOwns(st, mid);
      SameOwns(st, next);
      TextOwner(mid);
      TextOwner(next);
      ItemSays(st, mid, e);
      ItemSays(mid, next, f);
    }
  }

  /** Filling in one call's identity. */
  lemma CallUpdateEvolves(st: State, next: State, key: nat)
    requires key in st.tools && key in next.tools && next.tools == st.tools[key := next.tools[key]]
    requires CallEvolves(st.tools[key], next.tools[key])
    requires next.owners == st.owners && next.reasoning == st.reasoning && next.textId == st.textId
    ensures Evolves(st, next)
  {
  }

  lemma OpenToolEvolves(st: State, key: nat, callId: Id, name: Option<string>)
    requires key !in st.tools
    ensures Evolves(st, OpenTool(st, key, callId, name))
  {
  }

  lemma UpsertNames(st: State, key: nat, callId: Id, name: Option<string>)
    requires Named(st) && Ownership(st)
    ensures Named(UpsertTool(st, key, callId, name))
  {
    hide Named, Follows, Evolves, Ownership;
    var next := UpsertTool(st, key, callId, name);
    if key in st.tools {
      CallUpdateEvolves(st, next, key);
    } else {
      OpenToolEvolves(st, key, callId, name);
    }
    SilentNames(st, next);
  }

  /** The call's current identity is what an event about it says. */
  lemma CallNamed(st: State, key: nat, e: Event)
    requires Ownership(st) && key in st.tools && Indexed(e) && e.outputIndex == st.tools[key].outputIndex
    requires IdIn(e) == st.tools[key].itemId
    requires e.ItemAdded? && e.item.FunctionCall? ==>
               e.item.callId == st.tools[key].callId && e.item.name == st.tools[key].name.GetOr("")
    ensures NamedAt(st, e) && IdIn(e) == CurrentId(st, e.outputIndex)
  {
  }

  lemma AnnounceNames(st: State, key: nat)
    requires Named(st) && Ownership(st) && key in st.tools
    ensures Named(AnnounceTool(st, key))
  {
    hide Named, NamedAt, Follows, Evolves, Ownership;
    var t, next := st.tools[key], AnnounceTool(st, key);
    if !t.added {
      var e := ItemAdded(st.sequence + 1, t.outputIndex,
                         FunctionCall(t.itemId, InProgress, t.callId, t.name.GetOr(""), ""));
      AnnounceToolOwns(st, key);
      CallUpdateEvolves(st, next, key);
      CallNamed(next, key, e);
      SaysNames(st, next, e);
    }
  }

  lemma MergeNames(st: State, key: nat, fragment: string)
    requires Named(st) && Ownership(st) && key in st.tools
    ensures Named(MergeFragment(st, key, fragment))
  {
    hide Named, NamedAt, Follows, Evolves, Ownership, MergeArguments;
    if fragment != "" {
      var next := MergeFragment(st, key, fragment);
      var t := next.tools[key];
      MergeFragmentOwns(st, key, fragment);
      CallUpdateEvolves(st, next, key);
      if t.desynced {
        SilentNames(st, next);
      } else {
        var e := ArgumentsDelta(st.sequence + 1, t.itemId, t.outputIndex, fragment);
        CallNamed(next, key, e);
        SaysNames(st, next, e);
      }
    }
  }

  /** One more event about a call. */
  lemma CallSays(st: State, next: State, key: nat, e: Event)
    requires Named(st) && Ownership(st) && Ownership(next) && key in st.tools && key in next.tools
    requires next.tools == st.tools[key := next.tools[key]] && CallEvolves(st.tools[key], next.tools[key])
    requires next.owners == st.owners && next.reasoning == st.reasoning && next.textId == st.textId
    requires next.emitted == st.emitted + [e] && Indexed(e) && !e.ItemAdded?
    requires e.outputIndex == next.tools[key].outputIndex && IdIn(e) == next.tools[key].itemId
    ensures Named(next)
  {
    hide Named, NamedAt, Follows, Evolves, Ownership;
    CallUpdateEvolves(st, next, key);
    CallNamed(next, key, e);
    SaysNames(st, next, e);
  }

  lemma ToolDoneNames(st: State, key: nat)
    requires Named(st) && Ownership(st) && key in st.tools
    ensures Named(EmitToolDone(st, key))
  {
    hide Named, Ownership, NormalizeArguments;
    var t := st.tools[key];
    if !t.done {
      var item, next := ToolItem(st, t), EmitToolDone(st, key);
      var e := ArgumentsDone(st.sequence + 1, t.itemId, t.outputIndex, item.name, item.arguments);
      var mid := Push(st.(tools := st.tools[key := t.(done := true)]), e);
      UpdateOwns(st, mid, key);
      EmitToolDoneOwns(st, key);
      hide EmitToolDone;
      CallSays(st, mid, key, e);
      assert next == Push(mid, ItemDone(mid.sequence + 1, t.outputIndex, item)) by {
        A.ToolDoneIs(st, key);
      }
      CallSays(mid, next, key, ItemDone(mid.sequence + 1, t.outputIndex, item));
    }
  }

  lemma TerminalNames(st: State)
    requires Named(st) && Ownership(st)
    ensures Named(PushTerminal(st))
  {
    hide Named, Follows, OutputItems;
    SaysNames(st, PushTerminal(st), Terminal(st.sequence + 1, OutputItems(st), st.usage, st.incompleteReason));
  }

  // ---- Chunks ----

  /** A live translator whose events name their items consistently. */
  ghost predicate Tidy(st: State) {
    Live(st) && Named(st)
  }

  lemma ReasoningTidy(st: State, delta: string)
    requires Tidy(st)
    ensures Tidy(EmitReasoning(st, delta))
  {
    EmitReasoningKeeps(st, delta);
    hide EmitCreated, StartReasoning, AppendReasoning, Named, Wire, Phases, Buffers, Ownership;
    if delta != "" {
      EmitCreatedKeeps(st);
      CreatedNames(st);
      var announced := EmitCreated(st);
      StartReasoningKeeps(announced);
      StartReasoningNames(announced);
      AppendReasoningNames(StartReasoning(announced), delta);
    }
  }

  lemma ContentTidy(st: State, content: Content)
    requires Tidy(st)
    ensures Tidy(EmitContent(st, content).0)
  {
    EmitContentKeeps(st, content);
    hide EmitCreated, EmitReasoningDone, EnsureTextItem, AppendText, Named, Wire, Phases, Buffers, Ownership;
    if content.Text? && content.text != "" {
      EmitCreatedKeeps(st);
      CreatedNames(st);
      var announced := EmitCreated(st);
      EmitReasoningDoneKeeps(announced);
      ReasoningDoneNames(announced);
      var quiet := EmitReasoningDone(announced);
      EnsureTextItemKeeps(quiet);
      EnsureTextNames(quiet);
      AppendTextNames(EnsureTextItem(quiet), content.text);
    }
  }

  lemma FragmentTidy(st: State, key: nat, callId: Id, name: Option<string>, fragment: string)
    requires Tidy(st) && st.created
    ensures var next := ApplyFragment(st, key, callId, name, fragment); Tidy(next) && next.created
  {
    ApplyFragmentKeeps(st, key, callId, name, fragment);
    hide UpsertTool, OpenTool, AnnounceTool, MergeFragment, Named, Wire, Phases, Buffers, Ownership;
    UpsertNames(st, key, callId, name);
    if key in st.tools {
      RefreshToolKeeps(st, key, callId, name);
    } else {
      UpsertOpens(st, key, callId, name);
      OpenToolKeeps(st, key, callId, name);
    }
    var upserted := UpsertTool(st, key, callId, name);
    AnnounceToolKeeps(upserted, key);
    AnnounceNames(upserted, key);
    MergeNames(AnnounceTool(upserted, key), key, fragment);
  }

  lemma SerialTidy(st: State, next: State)
    requires Tidy(st) && next == st.(serial := next.serial)
    ensures Tidy(next)
  {
    SerialIrrelevant(st, next);
    hide Wire, Phases, Buffers, NamedAt, Inv;
    assert Ownership(st) by {
      InvOwns(st);
    }
    SameIds(st, next);
    SilentNames(st, next);
  }

  lemma InvOwns(st: State)
    requires Inv(st)
    ensures Ownership(st)
  {
  }

  lemma SameIds(st: State, next: State)
    requires next.owners == st.owners && next.tools == st.tools && next.reasoning == st.reasoning
    requires next.textId == st.textId
    ensures Evolves(st, next)
  {
  }

  lemma ToolDeltaTidy(st: State, d: ToolDelta, position: nat)
    requires Tidy(st) && st.created
    ensures Tidy(EmitToolDelta(st, d, position).0)
  {
    hide ApplyFragment, Tidy, RouteKey;
    if d.ToolDelta? && !(d.name.None? && d.arguments == "") {
      var named := if d.id.Some? then st else st.(serial := st.serial + 1);
      SerialTidy(st, named);
      var callId := if d.id.Some? then Given(d.id.value) else Generated(st.serial);
      FragmentTidy(named, RouteKey(st, d, position), callId, d.name, d.arguments);
    }
  }

  /** Announcing the response and closing the reasoning item. */
  lemma QuietTidy(st: State)
    requires Tidy(st)
    ensures Tidy(EmitReasoningDone(EmitCreated(st))) && EmitReasoningDone(EmitCreated(st)).created
  {
    hide EmitCreated, EmitReasoningDone, Named, Wire, Phases, Buffers, Ownership;
    EmitCreatedKeeps(st);
    CreatedNames(st);
    EmitReasoningDoneKeeps(EmitCreated(st));
    ReasoningDoneNames(EmitCreated(st));
  }

  lemma {:induction false} ToolDeltasTidy(st: State, ds: seq<ToolDelta>, n: nat)
    requires Tidy(st) && n <= |ds|
    ensures Tidy(EmitToolDeltas(st, ds, n).0)
  {
    hide Tidy, EmitToolDelta, EmitCreated, EmitReasoningDone;
    if n > 0 {
      ToolDeltasTidy(st, ds, n - 1);
      var (mid, error) := EmitToolDeltas(st, ds, n - 1);
      QuietTidy(mid);
      ToolDeltaTidy(EmitReasoningDone(EmitCreated(mid)), ds[n - 1], n - 1);
    }
  }

  lemma FunctionDeltaTidy(st: State, d: Option<FunctionDelta>)
    requires Tidy(st)
    ensures Tidy(EmitFunctionDelta(st, d).0)
  {
    hide Tidy, ApplyFragment, EmitCreated, EmitReasoningDone;
    if d.Some? {
      QuietTidy(st);
      if d.value.FunctionDelta? {
        FragmentTidy(EmitReasoningDone(EmitCreated(st)), 0, Given(d.value.id), Some(d.value.name), d.value.arguments);
      }
    }
  }

  lemma AnnouncedTidy(st: State)
    requires Tidy(st)
    ensures Tidy(EmitCreated(st))
  {
    hide EmitCreated, Named, Wire, Phases, Buffers, Ownership;
    EmitCreatedKeeps(st);
    CreatedNames(st);
  }

  lemma ReasonTidy(st: State, reason: Option<string>)
    requires Tidy(st)
    ensures Tidy(st.(incompleteReason := reason))
  {
    hide Wire, Phases, Buffers, NamedAt;
    ReasonKeeps(st, reason);
    SameIds(st, st.(incompleteReason := reason));
    SilentNames(st, st.(incompleteReason := reason));
  }

  lemma UsageTidy(st: State, usage: Option<Usage>)
    requires Tidy(st)
    ensures Tidy(st.(usage := usage))
  {
    hide Wire, Phases, Buffers, NamedAt;
    UsageKeeps(st, usage);
    SameIds(st, st.(usage := usage));
    SilentNames(st, st.(usage := usage));
  }

  lemma ChoiceTidy(st: State, choice: Choice)
    requires Tidy(st)
    ensures Tidy(EmitChoice(st, choice).0)
  {
    hide Tidy, EmitReasoning, EmitContent, EmitToolDeltas, EmitFunctionDelta, EmitCreated;
    var delta := choice.delta;
    ReasoningTidy(st, delta.reasoning);
    var reasoned := EmitReasoning(st, delta.reasoning);
    ContentTidy(reasoned, delta.content);
    var (texted, textError) := EmitContent(reasoned, delta.content);
    ToolDeltasTidy(texted, delta.toolCalls, |delta.toolCalls|);
    var (called, callError) := EmitToolDeltas(texted, delta.toolCalls, |delta.toolCalls|);
    FunctionDeltaTidy(called, delta.functionCall);
    var (functioned, functionError) := EmitFunctionDelta(called, delta.functionCall);
    AnnouncedTidy(functioned);
    var announced := if HasRelevantContent(delta) then EmitCreated(functioned) else functioned;
    if choice.finishReason.Some? {
      ReasonTidy(announced, IncompleteReason(choice.finishReason.value));
      AnnouncedTidy(announced.(incompleteReason := IncompleteReason(choice.finishReason.value)));
    }
  }

  // ---- Closing ----

  lemma {:induction false} ToolDonesNames(st: State, keys: seq<nat>, n: nat)
    requires n <= |keys| && (forall i | 0 <= i < |keys| :: keys[i] in st.tools)
    requires Inv(st) && Announced(st) && st.created && !st.completed && Named(st)
    ensures Named(EmitToolDones(st, keys, n))
  {
    hide Inv, EmitToolDone, Named;
    if n > 0 {
      ToolDonesNames(st, keys, n - 1);
      EmitToolDonesKeeps(st, keys, n - 1);
      InvOwns(EmitToolDones(st, keys, n - 1));
      ToolDoneNames(EmitToolDones(st, keys, n - 1), keys[n - 1]);
    }
  }

  lemma FinishNames(st: State)
    requires Tidy(st) && Announced(st)
    ensures Named(Finish(st))
  {
    TidyMeans(st);
    hide Tidy, Live, Announced, EmitCreated, EmitReasoningDone, EmitTextDone, EmitToolDones, Named, Inv, PushTerminal;
    QuietTidy(st);
    CloseItemsKeeps(st);
    EmitCreatedKeeps(st);
    EmitReasoningDoneKeeps(EmitCreated(st));
    var quiet := EmitReasoningDone(EmitCreated(st));
    TidyMeans(quiet);
    EmitTextDoneKeeps(quiet);
    TextDoneNames(quiet);
    var keys := Ascending(st.tools.Keys);
    ToolDonesNames(EmitTextDone(quiet), keys, |keys|);
    InvOwns(CloseItems(st));
    TerminalNames(CloseItems(st));
  }

  lemma TidyMeans(st: State)
    requires Tidy(st)
    ensures Live(st) && Inv(st) && Named(st) && Ownership(st) && !st.completed
  {
    hide Wire, Phases, Buffers, Ownership, Named;
  }

  lemma TranslateNames(st: State, event: ChatEvent)
    requires Live(st) && Announced(st) && Named(st)
    ensures Named(Translate(st, event).0)
  {
    hide Live, EmitChoice, Finish, Named;
    TidyIf(st);
    hide Tidy;
    var counted := if event.usage.Some? then st.(usage := event.usage) else st;
    UsageTidy(st, event.usage);
    TidyMeans(counted);
    if event.choices.Some? && |event.choices.value| == 1 {
      ChoiceTidy(counted, event.choices.value[0]);
      TidyMeans(EmitChoice(counted, event.choices.value[0]).0);
    } else if event.choices == Some([]) && event.usage.Some? {
      FinishNames(counted);
    }
    assert st.completed == false by {
      TidyMeans(st);
    }
  }

  lemma TidyIf(st: State)
    requires Live(st) && Named(st)
    ensures Tidy(st)
  {
  }

  lemma InitialNames(strict: bool)
    ensures Named(Initial(strict))
  {
  }

  lemma {:induction false} RunNames(strict: bool, events: seq<ChatEvent>)
    requires Run(strict, events).Some?
    ensures Named(Run(strict, events).value)
  {
    hide Inv, Live, Closed, FaithfulStream, HasEnded, Announced, Translate, Named;
    if events == [] {
      InitialNames(strict);
    } else {
      var init := events[..|events| - 1];
      RunNames(strict, init);
      RunInvariant(strict, init);
      var st := Run(strict, init).value;
      if st.completed {
        TranslateAfterEnd(st, events[|events| - 1]);
      } else {
        TranslateNames(st, events[|events| - 1]);
      }
    }
  }

  lemma EndNames(strict: bool, events: seq<ChatEvent>)
    requires RunToEnd(strict, events).Some?
    ensures Named(RunToEnd(strict, events).value)
  {
    hide Inv, Live, Closed, FaithfulStream, HasEnded, Announced, Named, Run, CloseItems, PushTerminal;
    RunNames(strict, events);
    RunInvariant(strict, events);
    var st := Run(strict, events).value;
    if !st.completed {
      TidyIf(st);
      FinishNames(st);
    }
  }

  // ---- One identity ----

  /** All events about an index carry one item id. */
  ghost predicate OneId(events: seq<Event>, i: nat) {
    forall m, n | 0 <= m < n < |events| && About(events[m], i) && About(events[n], i) :: IdIn(events[m]) == IdIn(events[n])
  }

  /** The event that announced the item at an index. */
  ghost predicate Announces(events: seq<Event>, n: int, i: nat) {
    && 0 <= n < |events| && About(events[n], i) && events[n].ItemAdded?
    && forall m | 0 <= m < n :: !About(events[m], i)
  }

  lemma {:induction false} SomeAnnounces(events: seq<Event>, i: nat) returns (n: nat)
    requires !PhaseOf(events, i).Absent? && !PhaseOf(events, i).Broken?
    ensures Announces(events, n, i) && (IsTool(PhaseOf(events, i)) ==> events[n].item.FunctionCall?)
  {
    var init, last := events[..|events| - 1], events[|events| - 1];
    if PhaseOf(init, i).Absent? {
      n := |init|;
      NothingAbout(init, i);
      assert forall m | 0 <= m < n :: events[m] == init[m];
    } else {
      n := SomeAnnounces(init, i);
      assert forall m | 0 <= m <= n :: events[m] == init[m];
    }
  }

  lemma {:induction false} NothingAbout(events: seq<Event>, i: nat)
    requires PhaseOf(events, i).Absent?
    ensures forall m | 0 <= m < |events| :: !About(events[m], i)
  {
    if events != [] {
      AbsentBefore(PhaseOf(events[..|events| - 1], i), events[|events| - 1]);
      NothingAbout(events[..|events| - 1], i);
    }
  }

  lemma AbsentBefore(phase: Phase, e: Event)
    ensures !Advance(phase, e).Absent?
  {
  }

  /** A closed call was closed by the event that carries its item. */
  lemma {:induction false} ClosingEvent(events: seq<Event>, i: nat) returns (n: nat)
    requires PhaseOf(events, i).ToolClosed?
    ensures n < |events| && About(events[n], i) && IdIn(events[n]) == PhaseOf(events, i).item.id
  {
    var init, last := events[..|events| - 1], events[|events| - 1];
    n := |init|;
    if !About(last, i) {
      n := ClosingEvent(init, i);
    }
  }

  /** What the terminal event lists at an index is what owns it. */
  lemma ListedId(st: State, i: nat)
    requires Ownership(st) && i < |st.owners|
    ensures ItemAt(st, i).id == CurrentId(st, i)
    ensures st.owners[i].ForTool? <==> ItemAt(st, i).FunctionCall?
  {
    assert OwnedBy(st, i, st.owners[i]);
    hide NormalizeArguments;
  }

  /** The announced and the listed id decide: the events agree unless an item announced without an id is listed with
      one. */
  lemma AnnouncedOrListed(strict: bool, events: seq<ChatEvent>, i: nat) returns (n: nat)
    requires RunToEnd(strict, events).Some? && i < |RunToEnd(strict, events).value.owners|
    ensures var st := RunToEnd(strict, events).value;
            && Ownership(st) && Announces(st.emitted, n, i)
            && (st.owners[i].ForTool? ==> st.emitted[n].item.FunctionCall?)
            && (OneId(st.emitted, i) <==> st.emitted[n].item.id != Given("") || CurrentId(st, i) == Given(""))
            && (!st.owners[i].ForTool? ==> OneId(st.emitted, i))
  {
    var st := RunToEnd(strict, events).value;
    EveryRunIsFaithful(strict, events);
    EndNames(strict, events);
    hide RunToEnd, OutputItems, PhaseOf, FaithfulStream, Phases, Wire, Buffers, Ownership, Announces, ItemAt;
    hide CurrentId, Closed;
    ClosedIndex(st, i);
    ListedId(st, i);
    n := SomeAnnounces(st.emitted, i);
    OneIdAt(st, i, n);
  }

  lemma {:induction false} AddedIdListed(events: seq<Event>, n: nat, i: nat)
    requires n < |events| && events[n].ItemAdded? && events[n].item.FunctionCall? && events[n].outputIndex == i
    ensures events[n].item in A.AddedItems(events, i)
  {
    if n < |events| - 1 {
      AddedIdListed(events[..|events| - 1], n, i);
    }
  }

  lemma CallAt(st: State, arrivals: seq<A.Arrival>, key: nat)
    requires A.Tracked(st, arrivals) && Ownership(st) && key in st.tools
    ensures var i, ids, names := st.tools[key].outputIndex, A.IdsAt(arrivals, key), A.NamesAt(arrivals, key);
            && i < |st.owners| && st.owners[i] == ForTool(key)
            && ids != [] && names != [] && A.AddedItems(st.emitted, i) == [A.Announcement(ids[0], names[0])]
            && CurrentId(st, i) == A.Settled(ids)
            && (A.FillsAt(arrivals, key) <==> ids[0] == Given("") && A.Settled(ids) != Given(""))
  {
    assert A.TrackedAt(st, arrivals, key);
    hide A.IdsAt, A.Settled, A.AddedItems, A.DeltasAt, A.FillsAt;
  }

  /** Main result: on every error-free run, all events about one call carry one item id exactly when no fragment
      brings a non-empty id to the call's entry while that has none; that is, when the first id it is sent is not
      empty, or all are. */
  lemma CallOneIdIff(strict: bool, events: seq<ChatEvent>, key: nat)
    requires RunToEnd(strict, events).Some? && key in RunToEnd(strict, events).value.tools
    ensures var st, arrivals := RunToEnd(strict, events).value, A.Arrivals(strict, events);
            var i, ids := st.tools[key].outputIndex, A.IdsAt(arrivals, key);
            && (OneId(st.emitted, i) <==> !A.FillsAt(arrivals, key))
            && ids != []
            && (OneId(st.emitted, i) <==> ids[0] != Given("") || forall j | 0 <= j < |ids| :: ids[j] == Given(""))
  {
    var st, arrivals := RunToEnd(strict, events).value, A.Arrivals(strict, events);
    ArrivalRuns.EndTracked(strict, events);
    EveryRunIsFaithful(strict, events);
    hide RunToEnd, FaithfulStream, Phases, Wire, Buffers, Ownership, A.Tracked, A.Arrivals, Closed;
    CallAt(st, arrivals, key);
    var i, ids := st.tools[key].outputIndex, A.IdsAt(arrivals, key);
    var n := AnnouncedOrListed(strict, events, i);
    hide OneId, CurrentId, A.FillsAt, A.IdsAt;
    AnnouncedFirst(st.emitted, n, i, A.Announcement(ids[0], A.NamesAt(arrivals, key)[0]));
    A.SettledMeaning(ids);
    hide A.Settled;
  }

  lemma AnnouncedFirst(events: seq<Event>, n: nat, i: nat, item: Item)
    requires Announces(events, n, i) && events[n].item.FunctionCall? && A.AddedItems(events, i) == [item]
    ensures events[n].item == item
  {
    AddedIdListed(events, n, i);
    hide A.AddedItems;
  }

  /** The events about the reasoning item or the message always carry one id. */
  lemma ItemOneId(strict: bool, events: seq<ChatEvent>, i: nat)
    requires RunToEnd(strict, events).Some? && i < |RunToEnd(strict, events).value.owners|
    requires !RunToEnd(strict, events).value.owners[i].ForTool?
    ensures OneId(RunToEnd(strict, events).value.emitted, i)
  {
    hide RunToEnd, OneId;
    var n := AnnouncedOrListed(strict, events, i);
  }

  lemma OneIdAt(st: State, i: nat, n: nat)
    requires Named(st) && Ownership(st) && i < |st.owners| && Announces(st.emitted, n, i)
    requires ClosedAs(PhaseOf(st.emitted, i), Some(ItemAt(st, i))) && ItemAt(st, i).id == CurrentId(st, i)
    requires st.owners[i].ForTool? <==> ItemAt(st, i).FunctionCall?
    ensures OneId(st.emitted, i) <==> st.emitted[n].item.id != Given("") || ItemAt(st, i).id == Given("")
    ensures !st.owners[i].ForTool? ==> OneId(st.emitted, i)
  {
    hide PhaseOf, Ownership, ItemAt, CurrentId, Remembered;
    var es := st.emitted;
    assert NamedAt(st, es[n]);
    if es[n].item.id != Given("") || ItemAt(st, i).id == Given("") || !st.owners[i].ForTool? {
      forall a, b | 0 <= a < b < |es| && About(es[a], i) && About(es[b], i)
        ensures IdIn(es[a]) == IdIn(es[b])
      {
        assert NamedAt(st, es[a]) && NamedAt(st, es[b]);
        assert n < a ==> Follows(es[n], es[a]);
        assert n < b ==> Follows(es[n], es[b]);
      }
    }
    if st.owners[i].ForTool? {
      var d := ClosingEvent(es, i);
      assert n <= d;
    }
  }

  /** What a call's announcement says about its name and call id, as far as it says anything, is what the terminal
      event lists. */
  lemma AnnouncementKept(strict: bool, events: seq<ChatEvent>, i: nat, n: nat)
    requires RunToEnd(strict, events).Some? && i < |OutputItems(RunToEnd(strict, events).value)|
    requires Announces(RunToEnd(strict, events).value.emitted, n, i)
    requires RunToEnd(strict, events).value.emitted[n].item.FunctionCall?
    ensures var st := RunToEnd(strict, events).value;
            var announced, listed := st.emitted[n].item, OutputItems(st)[i];
            && listed.FunctionCall?
            && (announced.name != "" ==> listed.name == announced.name)
            && (announced.callId != Given("") ==> listed.callId == announced.callId)
  {
    var st := RunToEnd(strict, events).value;
    EveryRunIsFaithful(strict, events);
    EndNames(strict, events);
    hide RunToEnd, OutputItems, PhaseOf, FaithfulStream, Phases, Wire, Buffers, Ownership, ItemAt;
    OutputByIndex(st);
    KeptAt(st, n);
  }

  lemma KeptAt(st: State, n: nat)
    requires Named(st) && Ownership(st) && n < |st.emitted|
    requires st.emitted[n].ItemAdded? && st.emitted[n].item.FunctionCall?
    ensures st.emitted[n].outputIndex < |st.owners|
    ensures var announced, listed := st.emitted[n].item, ItemAt(st, st.emitted[n].outputIndex);
            && listed.FunctionCall?
            && (announced.name != "" ==> listed.name == announced.name)
            && (announced.callId != Given("") ==> listed.callId == announced.callId)
  {
    hide NormalizeArguments;
    assert NamedAt(st, st.emitted[n]);
    var i := st.emitted[n].outputIndex;
    assert OwnedBy(st, i, st.owners[i]);
  }

  // ---- An empty first id ----

  function CallChunk(id: string, name: Option<string>, arguments: string): ChatEvent {
    ArrivalRuns.OneCall(ToolDelta(Some(0), Some(id), name, arguments))
  }

  lemma CallChunkDoes(st: State, id: string, name: Option<string>, arguments: string)
    requires ArrivalRuns.Plainly(st) && (name.Some? || arguments != "")
    ensures Translate(st, CallChunk(id, name, arguments)) == (ApplyFragment(st, 0, Given(id), name, arguments), None)
    ensures ArrivalRuns.Plainly(ApplyFragment(st, 0, Given(id), name, arguments))
  {
    var d := ToolDelta(Some(0), Some(id), name, arguments);
    assert RouteKey(st, d, 0) == 0;
    hide RouteKey, ApplyFragment, Translate;
    ArrivalRuns.OneCallDoes(st, d);
  }

  /** The call after its two fragments. */
  function Renamed(id: string, arguments: string): State {
    ApplyFragment(ApplyFragment(EmitCreated(Initial(false)), 0, Given(""), Some("f"), ""), 0, Given(id), None, arguments)
  }

  lemma RenamedRun(id: string, arguments: string)
    requires arguments != ""
    ensures Run(false, [ArrivalRuns.HELLO] + [CallChunk("", Some("f"), "")] + [CallChunk(id, None, arguments)])
         == Some(Renamed(id, arguments))
  {
    ArrivalRuns.HelloDoes(false);
    var started := EmitCreated(Initial(false));
    var waiting := ApplyFragment(started, 0, Given(""), Some("f"), "");
    hide Run, ApplyFragment, EmitCreated, Translate, CallChunk, ArrivalRuns.HELLO, ArrivalRuns.Plainly;
    CallChunkDoes(started, "", Some("f"), "");
    ArrivalRuns.RunNext(false, [ArrivalRuns.HELLO], CallChunk("", Some("f"), ""));
    CallChunkDoes(waiting, id, None, arguments);
    ArrivalRuns.RunNext(false, [ArrivalRuns.HELLO] + [CallChunk("", Some("f"), "")], CallChunk(id, None, arguments));
  }

  lemma RenamedEvents(id: string, arguments: string)
    requires arguments != ""
    ensures Renamed(id, arguments).emitted
         == [Created(1), ItemAdded(2, 0, FunctionCall(Given(""), InProgress, Given(""), "f", ""))]
            + [ArgumentsDelta(3, Given(id), 0, arguments)]
  {
    OpensAndWaits(EmitCreated(Initial(false)));
    NamesAndSends(ApplyFragment(EmitCreated(Initial(false)), 0, Given(""), Some("f"), ""), id, arguments);
    hide ApplyFragment;
  }

  /** A call whose first fragment carries an empty id is announced under it, and its deltas follow under the id that a
      later fragment brings. */
  lemma EmptyIdSplits(id: string, arguments: string)
    requires id != "" && arguments != ""
    ensures var run := Run(false, [ArrivalRuns.HELLO] + [CallChunk("", Some("f"), "")] + [CallChunk(id, None,
                                                                                                    arguments)]);
            run.Some? && !OneId(run.value.emitted, 0)
  {
    RenamedRun(id, arguments);
    RenamedEvents(id, arguments);
    hide Run, Renamed, CallChunk, ArrivalRuns.HELLO;
    var events := Renamed(id, arguments).emitted;
    assert About(events[1], 0) && About(events[2], 0) && IdIn(events[1]) != IdIn(events[2]);
  }

  lemma OpensAndWaits(st: State)
    requires st == EmitCreated(Initial(false))
    ensures var next := ApplyFragment(st, 0, Given(""), Some("f"), "");
            && next.tools == map[0 := ToolCall(Given(""), Given(""), 0, Some("f"), "", true, false, false)]
            && next.emitted == [Created(1), ItemAdded(2, 0, FunctionCall(Given(""), InProgress, Given(""), "f", ""))]
            && next.created && !next.completed && next.reasoning.None? && next.strict == false && next.sequence == 2
  {
  }

  lemma NamesAndSends(st: State, id: string, arguments: string)
    requires arguments != "" && !st.strict
    requires st.tools == map[0 := ToolCall(Given(""), Given(""), 0, Some("f"), "", true, false, false)]
    ensures ApplyFragment(st, 0, Given(id), None, arguments).emitted
         == st.emitted + [ArgumentsDelta(st.sequence + 1, Given(id), 0, arguments)]
  {
  }
}
