/** The Chat-to-Responses translator as the object it is: fields updated in place, each method tied to its function. */
module ChatToResponsesTranslator {
  import opened Collections
  import opened Ordering
  import opened StreamEvents
  import opened ToolArguments
  import C2R = ChatToResponses
  import Runs = ChatToResponsesRuns
  import Final = ChatToResponsesFinal

  class Translator {
    var created: bool
    var completed: bool
    var incompleteReason: Option<string>
    var sequence: nat
    var nextIndex: nat
    var textId: Option<Id>
    var textIndex: Option<nat>
    var textAdded: bool
    var textDone: bool
    var text: string
    var usage: Option<Usage>
    var reasoning: Option<C2R.ReasoningState>
    var tools: map<nat, C2R.ToolCall>
    const strict: bool
    var serial: nat
    ghost var emitted: seq<Event>
    ghost var owners: seq<C2R.Owner>
    ghost var received: map<nat, seq<string>>

    ghost function Model(): C2R.State
      reads this
    {
      C2R.State(created, completed, incompleteReason, sequence, nextIndex, textId, textIndex, textAdded, textDone, text,
                usage, reasoning, tools, strict, serial, emitted, owners, received)
    }

    constructor (strict: bool)
      ensures Model() == C2R.Initial(strict)
    {
      this.strict := strict;
      created, completed, incompleteReason, sequence, nextIndex := false, false, None, 0, 0;
      textId, textIndex, textAdded, textDone, text := None, None, false, false, "";
      usage, reasoning, tools, serial := None, None, map[], 0;
      emitted, owners, received := [], [], map[];
    }

    method EmitCreated() returns (output: seq<Event>)
      modifies this
      ensures Model() == C2R.EmitCreated(old(Model())) && emitted == old(emitted) + output
    {
      output := [];
      if !created {
        created, sequence := true, sequence + 1;
        output := [Created(sequence)];
        emitted := emitted + output;
      }
    }

    method StartReasoning() returns (output: seq<Event>)
      modifies this
      ensures Model() == C2R.StartReasoning(old(Model())) && emitted == old(emitted) + output
    {
      output := [];
      if reasoning.None? {
        var id, index := Generated(serial), nextIndex;
        serial, nextIndex, owners := serial + 1, nextIndex + 1, owners + [C2R.ForReasoning];
        reasoning := Some(C2R.ReasoningState(id, index, "", true, false, None));
        sequence := sequence + 1;
        output := [ItemAdded(sequence, index, Reasoning(id, InProgress, ""))];
        emitted := emitted + output;
      }
    }

    method AppendReasoning(delta: string) returns (output: seq<Event>)
      modifies this
      ensures Model() == C2R.AppendReasoning(old(Model()), delta) && emitted == old(emitted) + output
    {
      output := [];
      if reasoning.Some? {
        var r := reasoning.value;
        reasoning, sequence := Some(r.(text := r.text + delta)), sequence + 1;
        output := [ReasoningDelta(sequence, r.itemId, r.outputIndex, delta)];
        emitted := emitted + output;
      }
    }

    method EmitReasoning(delta: string) returns (output: seq<Event>)
      modifies this
      ensures Model() == C2R.EmitReasoning(old(Model()), delta) && emitted == old(emitted) + output
    {
      hide C2R.EmitCreated, C2R.StartReasoning, C2R.AppendReasoning;
      output := [];
      if delta != "" {
        var announced := EmitCreated();
        var started := StartReasoning();
        var appended := AppendReasoning(delta);
        Associate(old(emitted), announced, started, appended);
        output := announced + (started + appended);
      }
    }

    lemma Associate(a: seq<Event>, b: seq<Event>, c: seq<Event>, d: seq<Event>)
      ensures a + b + c + d == a + (b + (c + d))
    {
    }

    method EmitReasoningDone() returns (output: seq<Event>)
      modifies this
      ensures Model() == C2R.EmitReasoningDone(old(Model())) && emitted == old(emitted) + output
    {
      output := [];
      if reasoning.Some? && !reasoning.value.done && reasoning.value.started {
        var r := reasoning.value;
        var status := FinalStatus();
        reasoning := Some(r.(done := true, doneStatus := Some(status)));
        sequence := sequence + 2;
        var e := ReasoningDone(sequence - 1, r.itemId, r.outputIndex, r.text);
        var f := ItemDone(sequence, r.outputIndex, Reasoning(r.itemId, status, r.text));
        output := [e, f];
        emitted := emitted + [e] + [f];
      }
    }

    method IdentifyText()
      modifies this
      ensures Model() == C2R.IdentifyText(old(Model())) && emitted == old(emitted)
      ensures textIndex.Some? && textId.Some?
    {
      if textIndex.None? {
        textIndex, nextIndex, owners := Some(nextIndex), nextIndex + 1, owners + [C2R.ForText];
      }
      if textId.None? {
        textId, serial := Some(Generated(serial)), serial + 1;
      }
    }

    method EnsureTextItem() returns (output: seq<Event>)
      modifies this
      ensures Model() == C2R.EnsureTextItem(old(Model())) && emitted == old(emitted) + output
    {
      hide C2R.IdentifyText;
      output := [];
      IdentifyText();
      if !textAdded {
        textAdded, sequence := true, sequence + 1;
        output := [ItemAdded(sequence, textIndex.value, Message(textId.value, InProgress, ""))];
        emitted := emitted + output;
      }
    }

    method AppendText(delta: string) returns (output: seq<Event>)
      modifies this
      ensures Model() == C2R.AppendText(old(Model()), delta) && emitted == old(emitted) + output
    {
      text, sequence := text + delta, sequence + 1;
      output := [TextDelta(sequence, textId.GetOr(Given("")), textIndex.GetOr(0), delta)];
      emitted := emitted + output;
    }

    method EmitText(delta: string) returns (output: seq<Event>)
      modifies this
      ensures Model() == C2R.EmitText(old(Model()), delta) && emitted == old(emitted) + output
    {
      hide C2R.EmitCreated, C2R.EmitReasoningDone, C2R.EnsureTextItem, C2R.AppendText;
      output := [];
      if delta != "" {
        var announced := EmitCreated();
        var quiet := EmitReasoningDone();
        var opening := EnsureTextItem();
        Associate(old(emitted), announced, quiet, opening);
        var appended := AppendText(delta);
        Associate(old(emitted), announced + (quiet + opening), appended, []);
        output := announced + (quiet + opening) + appended;
      }
    }

    method EmitTextDone() returns (output: seq<Event>)
      modifies this
      ensures Model() == C2R.EmitTextDone(old(Model())) && emitted == old(emitted) + output
    {
      output := [];
      if textAdded && !textDone {
        var status := FinalStatus();
        var id, index := textId.GetOr(Given("")), textIndex.GetOr(0);
        sequence := sequence + 2;
        var e := TextDone(sequence - 1, id, index, text);
        var f := ItemDone(sequence, index, Message(id, status, text));
        textDone := true;
        output := [e, f];
        emitted := emitted + [e] + [f];
      }
    }

    /** Opens or refreshes the entry for `key` and merges the fragment into it; the shared tail of the
        `tool_calls` and `function_call` paths. */
    method ApplyFragment(key: nat, callId: Id, name: Option<string>, fragment: string) returns (output: seq<Event>)
      modifies this
      ensures Model() == C2R.ApplyFragment(old(Model()), key, callId, name, fragment) && emitted == old(emitted) + output
    {
      output := [];
      hide C2R.UpsertTool, C2R.AnnounceTool, C2R.MergeFragment;
      UpsertTool(key, callId, name);
      var added := AnnounceTool(key);
      var merged := MergeFragment(key, fragment);
      output := added + merged;
    }

    method UpsertTool(key: nat, callId: Id, name: Option<string>)
      modifies this
      ensures Model() == C2R.UpsertTool(old(Model()), key, callId, name) && emitted == old(emitted) && key in tools
    {
      if key in tools {
        tools := tools[key := C2R.RefreshTool(tools[key], callId, name)];
      } else {
        tools := tools[key := C2R.ToolCall(callId, callId, nextIndex, name, "", false, false, false)];
        nextIndex, owners, received := nextIndex + 1, owners + [C2R.ForTool(key)], received[key := []];
      }
    }

    method AnnounceTool(key: nat) returns (output: seq<Event>)
      requires key in tools
      modifies this
      ensures Model() == C2R.AnnounceTool(old(Model()), key) && emitted == old(emitted) + output && key in tools
    {
      output := [];
      var t := tools[key];
      if !t.added {
        tools, sequence := tools[key := t.(added := true)], sequence + 1;
        output := [ItemAdded(sequence, t.outputIndex,
                             FunctionCall(t.itemId, InProgress, t.callId, t.name.GetOr(""), ""))];
        emitted := emitted + output;
      }
    }

    method RecordFragment(key: nat, fragment: string)
      requires key in tools
      modifies this
      ensures Model() == C2R.RecordFragment(old(Model()), key, fragment) && emitted == old(emitted) && key in tools
    {
      hide C2R.MergeInto;
      tools := tools[key := C2R.MergeInto(tools[key], fragment, strict)];
      if key in received {
        received := received[key := received[key] + [fragment]];
      } else {
        received := received[key := [] + [fragment]];
      }
    }

    method MergeFragment(key: nat, fragment: string) returns (output: seq<Event>)
      requires key in tools
      modifies this
      ensures Model() == C2R.MergeFragment(old(Model()), key, fragment) && emitted == old(emitted) + output
    {
      hide C2R.RecordFragment;
      output := [];
      if fragment != "" {
        RecordFragment(key, fragment);
        if !tools[key].desynced {
          sequence := sequence + 1;
          output := [ArgumentsDelta(sequence, tools[key].itemId, tools[key].outputIndex, fragment)];
          emitted := emitted + output;
        }
      }
    }

    method EmitToolDelta(d: ToolDelta, position: nat) returns (output: seq<Event>, error: Option<StreamError>)
      modifies this
      ensures (Model(), error) == C2R.EmitToolDelta(old(Model()), d, position) && emitted == old(emitted) + output
    {
      hide C2R.ApplyFragment, C2R.RouteKey;
      output, error := [], None;
      match d {
        case Malformed => error := Some(UnsupportedToolCall);
        case ToolDelta(index, id, name, arguments) =>
          if name.Some? || arguments != "" {
            var key := FindTool(d, position);
            var callId: Id;
            if id.Some? {
              callId := Given(id.value);
            } else {
              callId, serial := Generated(serial), serial + 1;
            }
            output := ApplyFragment(key, callId, name, arguments);
          }
      }
    }

    /** The call a fragment belongs to. */
    method FindTool(d: ToolDelta, position: nat) returns (key: nat)
      requires d.ToolDelta?
      ensures key == C2R.RouteKey(Model(), d, position)
    {
      if d.index.Some? {
        return d.index.value;
      }
      if d.id.Some? {
        var known := set k | k in tools && tools[k].callId == Given(d.id.value);
        return if known != {} then Least(known) else NextKey(tools.Keys);
      }
      if !strict {
        return position;
      }
      var open := set k | k in tools && !tools[k].done;
      if |open| != 1 {
        return NextKey(tools.Keys);
      }
      var only := Least(open);
      var name := tools[only].name;
      if !C2R.NameMissing(d.name) && !C2R.NameMissing(name) && d.name != name {
        return NextKey(tools.Keys);
      }
      return only;
    }

    method EmitToolDeltas(ds: seq<ToolDelta>) returns (output: seq<Event>, error: Option<StreamError>)
      modifies this
      ensures (Model(), error) == C2R.EmitToolDeltas(old(Model()), ds, |ds|) && emitted == old(emitted) + output
    {
      hide C2R.EmitCreated, C2R.EmitReasoningDone, C2R.EmitToolDelta;
      output, error := [], None;
      var i := 0;
      while i < |ds| && error.None?
        invariant 0 <= i <= |ds|
        invariant (Model(), error) == C2R.EmitToolDeltas(old(Model()), ds, i)
        invariant emitted == old(emitted) + output
        decreases |ds| - i
      {
        var announced := EmitCreated();
        var quiet := EmitReasoningDone();
        var step: seq<Event>;
        step, error := EmitToolDelta(ds[i], i);
        Associate(output, announced, quiet, step);
        Associate(old(emitted), output, announced, quiet);
        Associate(old(emitted), output + announced + quiet, step, []);
        output := output + announced + quiet + step;
        i := i + 1;
      }
      if error.Some? {
        ErrorSticks(old(Model()), ds, i, |ds|);
      }
    }

    /** An error in one element ends the loop with that state and error. */
    lemma {:induction false} ErrorSticks(st: C2R.State, ds: seq<ToolDelta>, i: nat, n: nat)
      requires i <= n <= |ds| && C2R.EmitToolDeltas(st, ds, i).1.Some?
      ensures C2R.EmitToolDeltas(st, ds, n) == C2R.EmitToolDeltas(st, ds, i)
    {
      if i < n {
        ErrorSticks(st, ds, i, n - 1);
      }
    }

    method EmitFunctionDelta(d: Option<FunctionDelta>) returns (output: seq<Event>, error: Option<StreamError>)
      modifies this
      ensures (Model(), error) == C2R.EmitFunctionDelta(old(Model()), d) && emitted == old(emitted) + output
    {
      hide C2R.EmitCreated, C2R.EmitReasoningDone, C2R.ApplyFragment;
      output, error := [], None;
      if d.Some? {
        var announced := EmitCreated();
        var quiet := EmitReasoningDone();
        output := announced + quiet;
        match d.value {
          case Unusable(reason) => error := Some(reason);
          case FunctionDelta(id, name, arguments) =>
            var step := ApplyFragment(0, Given(id), Some(name), arguments);
            output := output + step;
        }
      }
    }

    method EmitToolDone(key: nat) returns (output: seq<Event>)
      requires key in tools
      modifies this
      ensures Model() == C2R.EmitToolDone(old(Model()), key) && emitted == old(emitted) + output
      ensures tools.Keys == old(tools.Keys)
    {
      hide NormalizeArguments;
      output := [];
      var t := tools[key];
      if !t.done {
        var item := FunctionCall(t.itemId, FinalStatus(), t.callId, t.name.GetOr(""), NormalizeArguments(t.arguments).0);
        tools, sequence := tools[key := t.(done := true)], sequence + 2;
        var e := ArgumentsDone(sequence - 1, t.itemId, t.outputIndex, item.name, item.arguments);
        var f := ItemDone(sequence, t.outputIndex, item);
        output := [e, f];
        emitted := emitted + [e] + [f];
      }
    }

    function FinalStatus(): (status: Status)
      reads this`incompleteReason
      ensures status == if incompleteReason.Some? then Incomplete else Completed
    {
      if incompleteReason.Some? then Incomplete else Completed
    }

    method EmitToolDones() returns (output: seq<Event>)
      modifies this
      ensures var keys := Ascending(old(tools.Keys));
              Model() == C2R.EmitToolDones(old(Model()), keys, |keys|)
      ensures emitted == old(emitted) + output
    {
      hide C2R.EmitToolDone, C2R.EmitToolDones, Ascending;
      output := [];
      var keys := Ascending(tools.Keys);
      ghost var before := Model();
      var i := 0;
      NoneDone(before, keys);
      while i < |keys|
        invariant 0 <= i <= |keys| && tools.Keys == before.tools.Keys
        invariant Model() == C2R.EmitToolDones(before, keys, i)
        invariant emitted == old(emitted) + output
      {
        OneMoreDone(before, keys, i);
        var step := EmitToolDone(keys[i]);
        Associate(old(emitted), output, step, []);
        output := output + step;
        i := i + 1;
      }
    }

    lemma NoneDone(st: C2R.State, keys: seq<nat>)
      requires forall i | 0 <= i < |keys| :: keys[i] in st.tools
      ensures C2R.EmitToolDones(st, keys, 0) == st
    {
    }

    lemma OneMoreDone(st: C2R.State, keys: seq<nat>, n: nat)
      requires (forall i | 0 <= i < |keys| :: keys[i] in st.tools) && n < |keys|
      ensures C2R.EmitToolDones(st, keys, n + 1) == C2R.EmitToolDone(C2R.EmitToolDones(st, keys, n), keys[n])
    {
      hide C2R.EmitToolDone;
    }

    method CloseItems() returns (output: seq<Event>)
      modifies this
      ensures Model() == C2R.CloseItems(old(Model())) && emitted == old(emitted) + output
    {
      hide C2R.EmitCreated, C2R.EmitReasoningDone, C2R.EmitTextDone, C2R.EmitToolDones;
      var announced := EmitCreated();
      var quiet := EmitReasoningDone();
      var textual := EmitTextDone();
      Associate(old(emitted), announced, quiet, textual);
      var calls := EmitToolDones();
      Associate(old(emitted), announced + (quiet + textual), calls, []);
      output := announced + (quiet + textual) + calls;
    }

    method Finish() returns (output: seq<Event>)
      modifies this
      ensures Model() == C2R.Finish(old(Model())) && emitted == old(emitted) + output
    {
      hide C2R.CloseItems, C2R.PushTerminal;
      output := [];
      if !completed {
        var closing := CloseItems();
        var terminal := PushTerminal();
        Associate(old(emitted), closing, terminal, []);
        output := closing + terminal;
      }
    }

    method PushTerminal() returns (output: seq<Event>)
      modifies this
      ensures Model() == C2R.PushTerminal(old(Model())) && emitted == old(emitted) + output
    {
      hide C2R.OutputItems;
      var items := TerminalItems();
      completed, sequence := true, sequence + 1;
      output := [Terminal(sequence, items, usage, incompleteReason)];
      emitted := emitted + output;
    }

    /** Every item with its output index: reasoning, message, then the calls in key order. */
    method CollectItems() returns (entries: seq<(nat, Item)>)
      ensures entries == C2R.Entries(Model())
    {
      hide Ascending, NormalizeArguments, C2R.ToolEntries, C2R.HeadEntries;
      var status := if incompleteReason.Some? then Incomplete else Completed;
      entries := CollectHead(status);
      var keys, n := Ascending(tools.Keys), 0;
      NoEntries(Model(), keys);
      while n < |keys|
        invariant 0 <= n <= |keys|
        invariant entries == C2R.HeadEntries(Model()) + C2R.ToolEntries(Model(), keys, n)
      {
        OneMoreEntry(Model(), keys, n);
        var t := tools[keys[n]];
        entries := entries + [(t.outputIndex, FunctionCall(t.itemId, status, t.callId, t.name.GetOr(""),
                                                           NormalizeArguments(t.arguments).0))];
        n := n + 1;
      }
    }

    method CollectHead(status: Status) returns (entries: seq<(nat, Item)>)
      requires status == C2R.FinalStatus(Model())
      ensures entries == C2R.HeadEntries(Model())
    {
      entries := [];
      if reasoning.Some? && reasoning.value.started {
        var r := reasoning.value;
        entries := entries + [(r.outputIndex, Reasoning(r.itemId, r.doneStatus.GetOr(status), r.text))];
      }
      if textAdded {
        entries := entries + [(textIndex.GetOr(0), Message(textId.GetOr(Given("")), status, text))];
      }
    }

    lemma NoEntries(st: C2R.State, keys: seq<nat>)
      requires forall i | 0 <= i < |keys| :: keys[i] in st.tools
      ensures C2R.ToolEntries(st, keys, 0) == []
    {
    }

    lemma OneMoreEntry(st: C2R.State, keys: seq<nat>, n: nat)
      requires (forall i | 0 <= i < |keys| :: keys[i] in st.tools) && n < |keys|
      ensures C2R.ToolEntries(st, keys, n + 1) ==
                C2R.ToolEntries(st, keys, n) + [(st.tools[keys[n]].outputIndex, C2R.ToolItem(st, st.tools[keys[n]]))]
    {
    }

    /** The items sorted by output index: position `i` holds the item that owns index `i`. */
    method TerminalItems() returns (items: seq<Item>)
      ensures items == C2R.OutputItems(Model())
      ensures Runs.Ownership(Model()) ==>
                |items| == |owners| && forall i | 0 <= i < |owners| :: items[i] == Final.ItemAt(Model(), i)
    {
      hide C2R.Entries, SortBy, Runs.Ownership, Final.ItemAt;
      var entries := CollectItems();
      var sorted := SortBy(entries, C2R.EarlierIndex);
      items := [];
      while |items| < |sorted|
        invariant |items| <= |sorted| && forall i | 0 <= i < |items| :: items[i] == sorted[i].1
      {
        items := items + [sorted[|items|].1];
      }
      assert items == C2R.OutputItems(Model());
      hide C2R.OutputItems;
      if Runs.Ownership(Model()) {
        Final.OutputByIndex(Model());
      }
    }

    method EmitContent(content: Content) returns (output: seq<Event>, error: Option<StreamError>)
      modifies this
      ensures (Model(), error) == C2R.EmitContent(old(Model()), content) && emitted == old(emitted) + output
    {
      hide C2R.EmitText;
      output, error := [], None;
      match content {
        case NoContent =>
        case BadContent => error := Some(UnsupportedContent);
        case Text(delta) => output := EmitText(delta);
      }
    }

    /** Text first, then the calls; the first error stops the chunk. */
    method EmitDelta(delta: Delta) returns (output: seq<Event>, error: Option<StreamError>)
      modifies this
      ensures (Model(), error) == C2R.EmitDelta(old(Model()), delta) && emitted == old(emitted) + output
    {
      hide C2R.EmitReasoning, C2R.EmitContent, C2R.EmitToolDeltas, C2R.EmitFunctionDelta;
      var thinking := EmitReasoning(delta.reasoning);
      var textual: seq<Event>;
      textual, error := EmitContent(delta.content);
      output := thinking + textual;
      if error.None? {
        var calls: seq<Event>;
        calls, error := EmitToolDeltas(delta.toolCalls);
        Associate(old(emitted), thinking, textual, calls);
        output := thinking + (textual + calls);
        if error.None? {
          var legacy: seq<Event>;
          legacy, error := EmitFunctionDelta(delta.functionCall);
          Associate(old(emitted), thinking + (textual + calls), legacy, []);
          output := thinking + (textual + calls) + legacy;
        }
      }
    }

    method EmitChoice(choice: Choice) returns (output: seq<Event>, error: Option<StreamError>)
      modifies this
      ensures (Model(), error) == C2R.EmitChoice(old(Model()), choice) && emitted == old(emitted) + output
    {
      hide C2R.EmitDelta, C2R.EmitCreated;
      output, error := EmitDelta(choice.delta);
      if error.None? {
        if C2R.HasRelevantContent(choice.delta) {
          var announced := EmitCreated();
          Associate(old(emitted), output, announced, []);
          output := output + announced;
        }
        if choice.finishReason.Some? {
          incompleteReason := C2R.IncompleteReason(choice.finishReason.value);
          var announced := EmitCreated();
          Associate(old(emitted), output, announced, []);
          output := output + announced;
        }
      }
    }

    /** One upstream chunk: the events it causes, or the error that ends the stream. */
    method TranslateEvent(event: ChatEvent) returns (result: Result<seq<Event>, StreamError>)
      modifies this
      ensures (Model(), match result case Err(e) => Some(e) case Ok(_) => None) == C2R.Translate(old(Model()), event)
      ensures result.Ok? ==> emitted == old(emitted) + result.value
    {
      hide C2R.EmitChoice, C2R.Finish;
      if completed {
        return Ok([]);
      }
      if event.usage.Some? {
        usage := event.usage;
      }
      var output: seq<Event>, error: Option<StreamError> := [], None;
      if event.choices.Some? {
        var choices := event.choices.value;
        if |choices| > 1 {
          error := Some(MultipleChoices);
        } else if choices != [] {
          output, error := EmitChoice(choices[0]);
        } else if event.usage.Some? {
          output := Finish();
        }
      }
      result := if error.Some? then Err(error.value) else Ok(output);
    }
  }
}
