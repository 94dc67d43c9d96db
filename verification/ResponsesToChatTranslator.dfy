/** The Responses-to-Chat translator as the object it is: fields updated in place, each method tied to its function. */
module ResponsesToChatTranslator {
  import opened Collections
  import opened StreamEvents
  import opened JsonString
  import R2C = ResponsesToChat

  class Translator {
    var role: bool
    var completed: bool
    var messageIndex: Option<nat>
    var text: string
    var textEmitted: bool
    var textDone: bool
    var agentSent: bool
    var pendingAgent: Option<string>
    var calls: map<nat, R2C.Call>
    ghost var chunks: seq<R2C.Chunk>

    ghost function Model(): R2C.State
      reads this
    {
      R2C.State(role, completed, messageIndex, text, textEmitted, textDone, agentSent, pendingAgent, calls, chunks)
    }

    constructor ()
      ensures Model() == R2C.INITIAL
    {
      role, completed, messageIndex, text, textEmitted, textDone := false, false, None, "", false, false;
      agentSent, pendingAgent, calls, chunks := false, None, map[], [];
    }

    method EmitRole() returns (output: seq<R2C.Chunk>)
      modifies this
      ensures Model() == R2C.EmitRole(old(Model())) && chunks == old(chunks) + output
    {
      output := [];
      if !role {
        role, output := true, [R2C.RoleChunk];
        chunks := chunks + output;
      }
    }

    method ClaimMessage(index: nat) returns (error: Option<StreamError>)
      modifies this
      ensures (Model(), error) == R2C.ClaimMessage(old(Model()), index) && chunks == old(chunks)
    {
      error := None;
      match messageIndex {
        case None => messageIndex := Some(index);
        case Some(claimed) =>
          if claimed != index {
            error := Some(MultipleMessages);
          }
      }
    }

    method EmitTextDelta(delta: string) returns (output: seq<R2C.Chunk>)
      modifies this
      ensures Model() == R2C.EmitTextDelta(old(Model()), delta) && chunks == old(chunks) + output
    {
      output := [];
      if !agentSent && !textDone {
        text, textEmitted := text + delta, textEmitted || delta != "";
        output := [R2C.ContentChunk(delta)];
        chunks := chunks + output;
      }
    }

    method EmitTextDone(full: string) returns (output: seq<R2C.Chunk>)
      modifies this
      ensures Model() == R2C.EmitTextDone(old(Model()), full) && chunks == old(chunks) + output
    {
      output := CompleteText(full);
      textDone := true;
    }

    method EmitAgentText(full: string) returns (output: seq<R2C.Chunk>)
      modifies this
      ensures Model() == R2C.EmitAgentText(old(Model()), full) && chunks == old(chunks) + output
    {
      hide R2C.CompleteText;
      output := [];
      if full != "" {
        output := CompleteText(full);
        agentSent := true;
      }
    }

    method EmitAgentDone(index: nat, full: string) returns (output: seq<R2C.Chunk>, error: Option<StreamError>)
      modifies this
      ensures (Model(), error) == R2C.EmitAgentDone(old(Model()), index, full) && chunks == old(chunks) + output
    {
      hide R2C.ClaimMessage, R2C.EmitAgentText;
      output := [];
      error := ClaimMessage(index);
      if error.None? {
        pendingAgent := None;
        output := EmitAgentText(full);
      }
    }

    method CompleteText(full: string) returns (output: seq<R2C.Chunk>)
      modifies this
      ensures Model() == R2C.CompleteText(old(Model()), full) && chunks == old(chunks) + output
    {
      output := [];
      var missing := if textEmitted && text <= full then full[|text|..] else full;
      text, textEmitted := full, textEmitted || full != "";
      if missing != "" {
        output := [R2C.ContentChunk(missing)];
        chunks := chunks + output;
      }
    }

    method EmitCallAdded(index: nat, item: Item) returns (output: seq<R2C.Chunk>)
      requires item.FunctionCall? || item.CustomToolCall?
      modifies this
      ensures Model() == R2C.EmitCallAdded(old(Model()), index, item) && chunks == old(chunks) + output
    {
      hide R2C.AddItem;
      output := [];
      var before := R2C.Call(item.id, item.callId, Some(item.name), "", false, item.CustomToolCall?, "", false);
      if index in calls {
        before := calls[index];
      }
      var call := R2C.AddItem(before, item);
      calls := calls[index := call];
      if !before.added {
        output := [R2C.CallChunk(index, call.callId, Some(call.name.GetOr("")), call.arguments)];
        chunks := chunks + output;
      }
    }

    method EmitCallDelta(index: nat, itemId: Id, delta: string, custom: bool) returns (output: seq<R2C.Chunk>)
      modifies this
      ensures Model() == R2C.EmitCallDelta(old(Model()), index, itemId, delta, custom) && chunks == old(chunks) + output
    {
      hide Escape;
      var call := R2C.Call(itemId, Generated(index), None, "", false, custom, "", false);
      if index in calls {
        call := calls[index];
      }
      var fragment, open := delta, "";
      if custom {
        fragment := Escape(delta);
        if call.arguments == "" {
          open := R2C.INPUT_OPEN;
        }
        call := call.(custom := true, input := call.input + delta, arguments := call.arguments + open + fragment);
      } else {
        call := call.(arguments := call.arguments + "" + fragment);
      }
      calls := calls[index := call];
      output := [R2C.CallChunk(index, call.callId, Some(call.name.GetOr("")), fragment)];
      chunks := chunks + output;
    }

    method EmitArgumentsDone(index: nat, name: string, arguments: string)
      modifies this
      ensures Model() == R2C.EmitArgumentsDone(old(Model()), index, name, arguments) && chunks == old(chunks)
    {
      if index in calls {
        calls := calls[index := calls[index].(arguments := arguments, name := Some(name))];
      }
    }

    method EmitInputDone(index: nat, input: string) returns (output: seq<R2C.Chunk>, error: Option<StreamError>)
      modifies this
      ensures (Model(), error) == R2C.EmitInputDone(old(Model()), index, input) && chunks == old(chunks) + output
    {
      hide Escape;
      output, error := [], None;
      if index !in calls {
        error := Some(MissingCustomToolCall);
        return;
      }
      var call := calls[index];
      if !call.custom {
        error := Some(NotACustomToolCall);
      } else if !(call.input <= input) {
        error := Some(InputMismatch);
      } else {
        var fragment := Escape(input[|call.input|..]);
        var open := if call.input != input && call.arguments == "" then R2C.INPUT_OPEN else "";
        var suffix := if call.closed then "" else "\"}";
        calls := calls[index :=
          call.(input := input, arguments := call.arguments + open + fragment + suffix, closed := true)];
        if fragment + suffix != "" {
          output := [R2C.CallChunk(index, call.callId, None, fragment + suffix)];
          chunks := chunks + output;
        }
      }
    }

    method EmitItemDone(index: nat, item: Item) returns (output: seq<R2C.Chunk>, error: Option<StreamError>)
      modifies this
      ensures (Model(), error) == R2C.EmitItemDone(old(Model()), index, item) && chunks == old(chunks) + output
    {
      hide R2C.EmitInputDone, R2C.ClaimMessage, R2C.EmitAgentDone;
      output, error := [], None;
      match item {
        case FunctionCall(_, _, _, _, _) =>
        case Reasoning(_, _, _) =>
        case Message(_, _, _) => error := ClaimMessage(index);
        case AgentMessage(_, _, full) => output, error := EmitAgentDone(index, full);
        case CustomToolCall(_, _, _, _, input) =>
          if input.None? {
            error := Some(MissingInput);
          } else {
            output, error := EmitInputDone(index, input.value);
          }
      }
    }

    method Finish() returns (output: seq<R2C.Chunk>)
      modifies this
      ensures Model() == R2C.Finish(old(Model())) && chunks == old(chunks) + output
    {
      hide R2C.EmitRole, R2C.FlushAgent;
      output := [];
      if !completed {
        output := EmitRole();
        var pending := FlushAgent();
        Associate(old(chunks), output, pending);
        output := output + pending;
        completed := true;
        var last := R2C.FinishChunk(if calls == map[] then "stop" else "tool_calls");
        Associate(old(chunks), output, [last]);
        chunks, output := chunks + [last], output + [last];
      }
    }

    method FlushAgent() returns (output: seq<R2C.Chunk>)
      modifies this
      ensures Model() == R2C.FlushAgent(old(Model())) && chunks == old(chunks) + output
    {
      hide R2C.EmitAgentText;
      output := [];
      if pendingAgent.Some? {
        var full := pendingAgent.value;
        pendingAgent := None;
        output := EmitAgentText(full);
      }
    }

    lemma Associate(a: seq<R2C.Chunk>, b: seq<R2C.Chunk>, c: seq<R2C.Chunk>)
      ensures a + b + c == a + (b + c)
    {
    }

    /** At most one message, and no custom call without its input, counted over the terminal list. */
    method CheckOutput(output: seq<Item>) returns (error: Option<StreamError>)
      ensures error == R2C.OutputError(output, 0)
    {
      var messages, i := 0, 0;
      while i < |output|
        invariant 0 <= i <= |output| && 0 <= messages
        invariant R2C.OutputError(output, 0) == R2C.OutputError(output[i..], messages)
      {
        assert output[i..][0] == output[i] && output[i..][1..] == output[i + 1..];
        match output[i] {
          case CustomToolCall(_, _, _, _, None) => return Some(MissingInput);
          case Message(_, _, _) =>
            if messages >= 1 {
              return Some(MultipleMessages);
            }
            messages := messages + 1;
          case AgentMessage(_, _, _) =>
            if messages >= 1 {
              return Some(MultipleMessages);
            }
            messages := messages + 1;
          case _ =>
        }
        i := i + 1;
      }
      return None;
    }

    method EmitTerminal(items: seq<Item>) returns (output: seq<R2C.Chunk>, error: Option<StreamError>)
      modifies this
      ensures (Model(), error) == R2C.EmitTerminal(old(Model()), items) && chunks == old(chunks) + output
    {
      hide R2C.EmitRole, R2C.OutputError, R2C.Finish, R2C.EmitListedAgent;
      output := EmitRole();
      error := CheckOutput(items);
      if error.None? {
        var listed: seq<R2C.Chunk>;
        listed, error := EmitListedAgent(items);
        Associate(old(chunks), output, listed);
        output := output + listed;
        if error.None? {
          var last := Finish();
          Associate(old(chunks), output, last);
          output := output + last;
        }
      }
    }

    /** The first agent message of the terminal list, unless one was sent. */
    method EmitListedAgent(items: seq<Item>) returns (output: seq<R2C.Chunk>, error: Option<StreamError>)
      modifies this
      ensures (Model(), error) == R2C.EmitListedAgent(old(Model()), items) && chunks == old(chunks) + output
    {
      hide R2C.EmitAgentDone;
      output, error := [], None;
      if agentSent {
        return;
      }
      var i := 0;
      while i < |items| && !items[i].AgentMessage?
        invariant 0 <= i <= |items| && forall k | 0 <= k < i :: !items[k].AgentMessage?
      {
        i := i + 1;
      }
      assert i == R2C.AgentPosition(items);
      if i < |items| {
        output, error := EmitAgentDone(i, items[i].text);
      }
    }

    method EmitItemAdded(index: nat, item: Item) returns (output: seq<R2C.Chunk>, error: Option<StreamError>)
      modifies this
      ensures (Model(), error) == R2C.EmitItemAdded(old(Model()), index, item) && chunks == old(chunks) + output
    {
      hide R2C.EmitRole, R2C.ClaimMessage, R2C.EmitCallAdded;
      output, error := [], None;
      match item {
        case Reasoning(_, _, _) =>
        case Message(_, _, _) =>
          error := ClaimMessage(index);
          if error.None? {
            output := EmitRole();
          }
        case AgentMessage(_, _, full) =>
          error := ClaimMessage(index);
          if error.None? {
            output := EmitRole();
            pendingAgent := Some(full);
          }
        case _ =>
          output := EmitRole();
          var call := EmitCallAdded(index, item);
          Associate(old(chunks), output, call);
          output := output + call;
      }
    }

    /** The role chunk, then the step for the item the event is about. */
    method EmitProgress(e: Event) returns (output: seq<R2C.Chunk>, error: Option<StreamError>)
      modifies this
      ensures (Model(), error) == R2C.EmitProgress(old(Model()), e) && chunks == old(chunks) + output
    {
      hide R2C.EmitRole, R2C.ClaimMessage, R2C.EmitTextDelta, R2C.EmitTextDone, R2C.EmitCallDelta;
      hide R2C.EmitArgumentsDone, R2C.EmitInputDone, R2C.EmitItemDone;
      var step: seq<R2C.Chunk> := [];
      output := EmitRole();
      error := None;
      match e {
        case TextDelta(_, _, index, delta) =>
          error := ClaimMessage(index);
          if error.None? {
            step := EmitTextDelta(delta);
          }
        case TextDone(_, _, index, full) =>
          error := ClaimMessage(index);
          if error.None? {
            step := EmitTextDone(full);
          }
        case ArgumentsDelta(_, itemId, index, delta) => step := EmitCallDelta(index, itemId, delta, false);
        case ArgumentsDone(_, _, index, name, arguments) => EmitArgumentsDone(index, name, arguments);
        case InputDelta(_, itemId, index, delta) => step := EmitCallDelta(index, itemId, delta, true);
        case InputDone(_, _, index, input) => step, error := EmitInputDone(index, input);
        case ItemDone(_, index, item) => step, error := EmitItemDone(index, item);
        case _ =>
      }
      Associate(old(chunks), output, step);
      output := output + step;
    }

    /** One Responses event: the chunks it causes, or the error that ends the stream. */
    method TranslateEvent(e: Event) returns (result: Result<seq<R2C.Chunk>, StreamError>)
      modifies this
      ensures (Model(), match result case Err(e) => Some(e) case Ok(_) => None) == R2C.Translate(old(Model()), e)
      ensures result.Ok? ==> chunks == old(chunks) + result.value
    {
      hide R2C.EmitItemAdded, R2C.EmitProgress, R2C.EmitTerminal;
      var output: seq<R2C.Chunk>, error: Option<StreamError> := [], None;
      match e {
        case ItemAdded(_, index, item) => output, error := EmitItemAdded(index, item);
        case Terminal(_, items, _, incompleteReason) =>
          if incompleteReason.None? {
            output, error := EmitTerminal(items);
          }
        case ReasoningDelta(_, _, _, _) =>
        case ReasoningDone(_, _, _, _) =>
        case _ => output, error := EmitProgress(e);
      }
      result := if error.Some? then Err(error.value) else Ok(output);
    }
  }
}
