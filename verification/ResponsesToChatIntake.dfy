/** What a run of the Responses-to-Chat translator has taken in from the events alone, and which events it refuses. */
module ResponsesToChatIntake {
  import opened Collections
  import opened StreamEvents
  import opened ResponsesToChat
  import JsonString
  import CallIdentity

  // ---- The terminal list ----

  predicate IsMessage(item: Item) {
    item.Message? || item.AgentMessage?
  }

  predicate LacksInput(item: Item) {
    item.CustomToolCall? && item.input.None?
  }

  /** The list holds two messages, of either kind, and the second is at `j`. */
  ghost predicate SecondMessage(output: seq<Item>, messages: nat, j: nat)
    requires j < |output|
  {
    IsMessage(output[j]) && (messages > 0 || exists i :: 0 <= i < j && IsMessage(output[i]))
  }

  /** The list is accepted exactly when it holds at most one message and no custom call without its input; otherwise
      the first item at fault is reported. */
  lemma {:induction false} OutputErrorMeaning(output: seq<Item>, messages: nat)
    ensures OutputError(output, messages).None? <==>
              forall j | 0 <= j < |output| :: !LacksInput(output[j]) && !SecondMessage(output, messages, j)
    ensures OutputError(output, messages).Some? ==>
              exists j :: 0 <= j < |output|
                && (forall k | 0 <= k < j :: !LacksInput(output[k]) && !SecondMessage(output, messages, k))
                && if LacksInput(output[j]) then OutputError(output, messages) == Some(MissingInput)
                   else SecondMessage(output, messages, j) && OutputError(output, messages) == Some(MultipleMessages)
  {
    if output != [] {
      var rest, more := output[1..], if IsMessage(output[0]) then messages + 1 else messages;
      OutputErrorMeaning(rest, more);
      forall j | 0 <= j < |rest|
        ensures SecondMessage(output, messages, j + 1) <==> SecondMessage(rest, more, j)
      {
        assert rest[j] == output[j + 1];
        if i :| 0 <= i < j + 1 && IsMessage(output[i]) {
          assert i > 0 ==> IsMessage(rest[i - 1]);
        }
        if i :| 0 <= i < j && IsMessage(rest[i]) {
          assert IsMessage(output[i + 1]);
        }
        assert IsMessage(output[0]) ==> exists i :: 0 <= i < j + 1 && IsMessage(output[i]);
      }
      hide SecondMessage;
      FirstFault(output, messages, rest, more);
    }
  }

  lemma FirstFault(output: seq<Item>, messages: nat, rest: seq<Item>, more: nat)
    requires output != [] && rest == output[1..] && more == if IsMessage(output[0]) then messages + 1 else messages
    requires forall j | 0 <= j < |rest| :: SecondMessage(output, messages, j + 1) <==> SecondMessage(rest, more, j)
    requires OutputError(rest, more).None? <==>
               forall j | 0 <= j < |rest| :: !LacksInput(rest[j]) && !SecondMessage(rest, more, j)
    requires OutputError(rest, more).Some? ==>
               exists j :: 0 <= j < |rest|
                 && (forall k | 0 <= k < j :: !LacksInput(rest[k]) && !SecondMessage(rest, more, k))
                 && if LacksInput(rest[j]) then OutputError(rest, more) == Some(MissingInput)
                    else SecondMessage(rest, more, j) && OutputError(rest, more) == Some(MultipleMessages)
    ensures OutputError(output, messages).None? <==>
              forall j | 0 <= j < |output| :: !LacksInput(output[j]) && !SecondMessage(output, messages, j)
    ensures OutputError(output, messages).Some? ==>
              exists j :: 0 <= j < |output|
                && (forall k | 0 <= k < j :: !LacksInput(output[k]) && !SecondMessage(output, messages, k))
                && if LacksInput(output[j]) then OutputError(output, messages) == Some(MissingInput)
                   else SecondMessage(output, messages, j) && OutputError(output, messages) == Some(MultipleMessages)
  {
    assert SecondMessage(output, messages, 0) <==> IsMessage(output[0]) && messages > 0;
    hide SecondMessage;
    if LacksInput(output[0]) || SecondMessage(output, messages, 0) {
      assert OutputError(output, messages).Some?;
    } else {
      assert OutputError(output, messages) == OutputError(rest, more);
      hide OutputError;
      assert forall j | 0 <= j < |output| :: j > 0 ==> output[j] == rest[j - 1];
      if OutputError(rest, more).Some? {
        var j :| 0 <= j < |rest|
          && (forall k | 0 <= k < j :: !LacksInput(rest[k]) && !SecondMessage(rest, more, k))
          && if LacksInput(rest[j]) then OutputError(rest, more) == Some(MissingInput)
             else SecondMessage(rest, more, j) && OutputError(rest, more) == Some(MultipleMessages);
        forall k | 0 <= k < j + 1
          ensures !LacksInput(output[k]) && !SecondMessage(output, messages, k)
        {
          if k > 0 {
            assert !SecondMessage(rest, more, k - 1);
          }
        }
        assert output[j + 1] == rest[j];
        assert SecondMessage(output, messages, j + 1) <==> SecondMessage(rest, more, j);
      } else {
        forall j | 0 <= j < |output|
          ensures !LacksInput(output[j]) && !SecondMessage(output, messages, j)
        {
          if j > 0 {
            assert !LacksInput(rest[j - 1]) && !SecondMessage(rest, more, j - 1);
          }
        }
      }
    }
  }

  /** The first listed agent message. */
  function ListedAgent(output: seq<Item>): Option<string> {
    if AgentPosition(output) < |output| then Some(output[AgentPosition(output)].text) else None
  }

  // ---- What the events say ----

  /** The response is complete. */
  predicate Ends(e: Event) {
    e.Terminal? && e.incompleteReason.None?
  }

  /** Nothing the client sees follows from the event. */
  predicate Quiet(e: Event) {
    || e.ReasoningDelta? || e.ReasoningDone? || (e.ItemAdded? && e.item.Reasoning?)
    || (e.Terminal? && e.incompleteReason.Some?)
  }

  ghost predicate HasSpoken(events: seq<Event>) {
    exists n :: 0 <= n < |events| && !Quiet(events[n])
  }

  ghost predicate HasEnded(events: seq<Event>) {
    exists n :: 0 <= n < |events| && Ends(events[n])
  }

  ghost predicate TextFinished(events: seq<Event>) {
    exists n :: 0 <= n < |events| && events[n].TextDone?
  }

  /** The text of an agent message that the end of the stream makes known. */
  ghost function EndText(before: seq<Event>, output: seq<Item>): string
    decreases |before|, 1
  {
    if !AgentSent(before) && ListedAgent(output).Some? then ListedAgent(output).value
    else if !HasEnded(before) then Owed(before).GetOr("")
    else ""
  }

  /** The event makes the text of an agent message go out. */
  ghost predicate SendsAgent(before: seq<Event>, e: Event)
    decreases |before|, 2
  {
    if e.ItemDone? && e.item.AgentMessage? then e.item.text != ""
    else Ends(e) && EndText(before, e.output) != ""
  }

  /** The text of an agent message, done or owed at the end, went out. */
  ghost predicate AgentSent(events: seq<Event>)
    decreases |events|, 0
  {
    if events == [] then false
    else
      var before, last := events[..|events| - 1], events[|events| - 1];
      AgentSent(before) || SendsAgent(before, last)
  }

  /** An agent message that was announced and is neither done nor overtaken by the end. */
  ghost function Owed(events: seq<Event>): Option<string>
    decreases |events|, 0
  {
    if events == [] then None else OwedAfter(events[..|events| - 1], events[|events| - 1])
  }

  ghost function OwedAfter(before: seq<Event>, e: Event): Option<string>
    decreases |before|, 2
  {
    if e.ItemAdded? && e.item.AgentMessage? then Some(e.item.text)
    else if e.ItemDone? && e.item.AgentMessage? then None
    else if Ends(e) && (!HasEnded(before) || (!AgentSent(before) && ListedAgent(e.output).Some?)) then None
    else Owed(before)
  }

  /** The assistant's text as far as it is known. */
  ghost function KnownText(events: seq<Event>): string
    decreases |events|, 0
  {
    if events == [] then "" else TextAfter(events[..|events| - 1], events[|events| - 1])
  }

  ghost function TextAfter(before: seq<Event>, e: Event): string
    decreases |before|, 2
  {
    if e.TextDone? then e.text
    else if e.TextDelta? && !AgentSent(before) && !TextFinished(before) then KnownText(before) + e.delta
    else if e.ItemDone? && e.item.AgentMessage? && e.item.text != "" then e.item.text
    else if Ends(e) && EndText(before, e.output) != "" then EndText(before, e.output)
    else KnownText(before)
  }

  /** The output index of the one message, which an event about a message names. */
  ghost function ClaimOf(before: seq<Event>, e: Event): Option<nat> {
    if e.TextDelta? || e.TextDone? || ((e.ItemAdded? || e.ItemDone?) && IsMessage(e.item)) then Some(e.outputIndex)
    else if Ends(e) && !AgentSent(before) && ListedAgent(e.output).Some? then Some(AgentPosition(e.output))
    else None
  }

  ghost function Claimed(events: seq<Event>): Option<nat> {
    if events == [] then None
    else
      var before, last := events[..|events| - 1], events[|events| - 1];
      if Claimed(before).Some? then Claimed(before) else ClaimOf(before, last)
  }

  /** A custom call was announced or streamed at the index. */
  ghost predicate CustomAt(events: seq<Event>, i: nat) {
    exists n :: 0 <= n < |events| && IsCustom(events[n], i)
  }

  predicate IsCustom(e: Event, i: nat) {
    (e.ItemAdded? && e.item.CustomToolCall? && e.outputIndex == i) || (e.InputDelta? && e.outputIndex == i)
  }

  ghost predicate OpenedAt(events: seq<Event>, i: nat) {
    exists n :: 0 <= n < |events| && CallIdentity.OpensCall(events[n], i)
  }

  /** The input of the custom call at the index as far as it is known. */
  function InputAt(events: seq<Event>, i: nat): string {
    if events == [] then "" else InputAfter(InputAt(events[..|events| - 1], i), events[|events| - 1], i)
  }

  function InputAfter(known: string, e: Event, i: nat): string {
    if !About(e, i) then known
    else if e.InputDelta? then known + e.delta
    else if e.InputDone? then e.input
    else if (e.ItemAdded? || e.ItemDone?) && e.item.CustomToolCall? then e.item.input.GetOr(known)
    else known
  }

  // ---- What is refused ----

  /** The complete input of a call that is not open, not custom, or was streamed otherwise. */
  ghost function InputRefusal(before: seq<Event>, i: nat, input: string): Option<StreamError> {
    if !OpenedAt(before, i) then Some(MissingCustomToolCall)
    else if !CustomAt(before, i) then Some(NotACustomToolCall)
    else if !(InputAt(before, i) <= input) then Some(InputMismatch)
    else None
  }

  /** A message at another index than an earlier one. */
  ghost function ClaimRefusal(before: seq<Event>, e: Event): Option<StreamError> {
    var claim := ClaimOf(before, e);
    if claim.Some? && Claimed(before).Some? && claim != Claimed(before) then Some(MultipleMessages) else None
  }

  /** The error of an event after accepted ones. */
  ghost function Refusal(before: seq<Event>, e: Event): Option<StreamError> {
    if e.InputDone? then InputRefusal(before, e.outputIndex, e.input)
    else if e.ItemDone? && e.item.CustomToolCall? then
      if e.item.input.None? then Some(MissingInput) else InputRefusal(before, e.outputIndex, e.item.input.value)
    else if Ends(e) && OutputError(e.output, 0).Some? then OutputError(e.output, 0)
    else ClaimRefusal(before, e)
  }

  // ---- The translator's side ----

  /** The translator's fields that are not about calls. */
  datatype Front = Front(role: bool, completed: bool, message: Option<nat>, text: string, textDone: bool, agentSent: bool,
                         owed: Option<string>)

  function FrontOf(st: State): Front {
    Front(st.role, st.completed, st.messageIndex, st.text, st.textDone, st.agentSent, st.pendingAgent)
  }

  ghost function FrontAfter(events: seq<Event>): Front {
    Front(HasSpoken(events), HasEnded(events), Claimed(events), KnownText(events), TextFinished(events),
          AgentSent(events), Owed(events))
  }

  lemma FrontSnoc(events: seq<Event>, e: Event)
    ensures HasSpoken(events + [e]) <==> HasSpoken(events) || !Quiet(e)
    ensures HasEnded(events + [e]) <==> HasEnded(events) || Ends(e)
    ensures TextFinished(events + [e]) <==> TextFinished(events) || e.TextDone?
    ensures Claimed(events + [e]) == if Claimed(events).Some? then Claimed(events) else ClaimOf(events, e)
    ensures AgentSent(events + [e]) <==> AgentSent(events) || SendsAgent(events, e)
    ensures Owed(events + [e]) == OwedAfter(events, e) && KnownText(events + [e]) == TextAfter(events, e)
  {
    var all := events + [e];
    assert all[..|events|] == events && all[|events|] == e;
    hide Quiet, Ends, ClaimOf, SendsAgent, OwedAfter, TextAfter;
    if HasSpoken(events) {
      var n :| 0 <= n < |events| && !Quiet(events[n]);
      assert !Quiet(all[n]);
    }
    if HasEnded(events) {
      var n :| 0 <= n < |events| && Ends(events[n]);
      assert Ends(all[n]);
    }
    if TextFinished(events) {
      var n :| 0 <= n < |events| && events[n].TextDone?;
      assert all[n].TextDone?;
    }
  }

  lemma CallSnoc(events: seq<Event>, e: Event, i: nat)
    ensures OpenedAt(events + [e], i) <==> OpenedAt(events, i) || CallIdentity.OpensCall(e, i)
    ensures CustomAt(events + [e], i) <==> CustomAt(events, i) || IsCustom(e, i)
    ensures InputAt(events + [e], i) == InputAfter(InputAt(events, i), e, i)
  {
    var all := events + [e];
    assert all[..|events|] == events && all[|events|] == e;
    hide CallIdentity.OpensCall, IsCustom, InputAfter;
    if OpenedAt(events, i) {
      var n :| 0 <= n < |events| && CallIdentity.OpensCall(events[n], i);
      assert CallIdentity.OpensCall(all[n], i);
    }
    if CustomAt(events, i) {
      var n :| 0 <= n < |events| && IsCustom(events[n], i);
      assert IsCustom(all[n], i);
    }
  }

  /** What the translator keeps about the call at the index. */
  ghost predicate CallTaken(st: State, events: seq<Event>, i: nat) {
    && (i in st.calls <==> OpenedAt(events, i))
    && (i in st.calls ==> st.calls[i].custom == CustomAt(events, i))
    && (i in st.calls && st.calls[i].custom ==> st.calls[i].input == InputAt(events, i))
    && (!CustomAt(events, i) ==> InputAt(events, i) == "")
    && (i in st.calls && !st.calls[i].custom ==> st.calls[i].input == "")
  }

  ghost predicate CallsTaken(st: State, events: seq<Event>) {
    forall i: nat :: CallTaken(st, events, i)
  }

  ghost predicate Taken(st: State, events: seq<Event>) {
    FrontOf(st) == FrontAfter(events) && CallsTaken(st, events)
  }

  // ---- Operations ----

  lemma RoleFront(st: State)
    ensures FrontOf(EmitRole(st)) == FrontOf(st).(role := true) && EmitRole(st).calls == st.calls
  {
  }

  lemma ClaimFront(st: State, j: nat)
    ensures var (next, error) := ClaimMessage(st, j);
            && next.calls == st.calls
            && error == (if st.messageIndex.Some? && st.messageIndex != Some(j) then Some(MultipleMessages) else None)
            && FrontOf(next) == FrontOf(st).(message := if st.messageIndex.Some? then st.messageIndex else Some(j))
  {
  }

  lemma AgentFront(st: State, text: string)
    ensures var next := EmitAgentText(st, text);
            && next.calls == st.calls
            && FrontOf(next) == if text == "" then FrontOf(st) else FrontOf(st).(text := text, agentSent := true)
  {
    hide MissingText;
  }

  lemma TextFront(st: State, text: string)
    ensures var next := EmitTextDone(st, text);
            next.calls == st.calls && FrontOf(next) == FrontOf(st).(text := text, textDone := true)
    ensures var next := EmitTextDelta(st, text);
            && next.calls == st.calls
            && FrontOf(next) == if st.agentSent || st.textDone then FrontOf(st) else FrontOf(st).(text := st.text + text)
  {
    hide MissingText;
  }

  lemma AgentDoneFront(st: State, j: nat, text: string)
    ensures var (next, error) := EmitAgentDone(st, j, text);
            && next.calls == st.calls
            && error == (if st.messageIndex.Some? && st.messageIndex != Some(j) then Some(MultipleMessages) else None)
            && (error.None? ==>
                  var front := FrontOf(st).(message := Some(j), owed := None);
                  FrontOf(next) == if text == "" then front else front.(text := text, agentSent := true))
  {
    ClaimFront(st, j);
    AgentFront(ClaimMessage(st, j).0.(pendingAgent := None), text);
    hide ClaimMessage, EmitAgentText;
  }

  lemma FinishFront(st: State)
    requires st.role
    ensures var next, owed := Finish(st), st.pendingAgent.GetOr("");
            && next.calls == st.calls
            && FrontOf(next) == if st.completed then FrontOf(st)
                                else if owed == "" then FrontOf(st).(completed := true, owed := None)
                                else FrontOf(st).(completed := true, owed := None, text := owed, agentSent := true)
  {
    if !st.completed {
      AgentFront(st.(pendingAgent := None), st.pendingAgent.GetOr(""));
      hide EmitAgentText;
    }
  }

  lemma DeltaFront(st: State, j: nat, id: Id, delta: string, custom: bool)
    ensures FrontOf(EmitCallDelta(st, j, id, delta, custom)) == FrontOf(st)
  {
    hide JsonString.Escape;
  }

  lemma ArgumentsFront(st: State, j: nat, name: string, arguments: string)
    ensures FrontOf(EmitArgumentsDone(st, j, name, arguments)) == FrontOf(st)
  {
  }

  lemma InputFront(st: State, j: nat, input: string)
    ensures FrontOf(EmitInputDone(st, j, input).0) == FrontOf(st)
  {
    hide JsonString.Escape;
  }

  lemma AnnouncedFront(st: State, j: nat, item: Item)
    requires item.FunctionCall? || item.CustomToolCall?
    ensures FrontOf(EmitCallAdded(st, j, item)) == FrontOf(st)
  {
    hide AddItem;
  }

  /** What finishing after the listed agent message comes to. */
  lemma EndFront(st: State, output: seq<Item>)
    requires st.role
    ensures var (listed, error) := EmitListedAgent(st, output);
            var claims := !st.agentSent && ListedAgent(output).Some?;
            var owed := if claims then ListedAgent(output).value
                        else if !st.completed then st.pendingAgent.GetOr("") else "";
            && listed.calls == st.calls
            && error == (if claims && st.messageIndex.Some? && st.messageIndex != Some(AgentPosition(output))
                        then Some(MultipleMessages) else None)
            && (error.None? ==>
                  && Finish(listed).calls == st.calls
                  && FrontOf(Finish(listed)) ==
                     Front(true, true, if claims then Some(AgentPosition(output)) else st.messageIndex,
                           if owed == "" then st.text else owed, st.textDone, st.agentSent || owed != "",
                           if claims || !st.completed then None else st.pendingAgent))
  {
    var position := AgentPosition(output);
    hide EmitAgentDone, Finish;
    if !st.agentSent && position < |output| {
      AgentDoneFront(st, position, output[position].text);
    }
    if EmitListedAgent(st, output).1.None? {
      FinishFront(EmitListedAgent(st, output).0);
    }
  }

  /** The terminal event. */
  lemma TerminalFront(st: State, events: seq<Event>, e: Event)
    requires FrontOf(st) == FrontAfter(events) && Ends(e)
    ensures var (next, error) := EmitTerminal(st, e.output);
            && next.calls == st.calls
            && error == Refusal(events, e)
            && (error.None? ==> FrontOf(next) == FrontAfter(events + [e]))
  {
    FrontSnoc(events, e);
    RoleFront(st);
    NotQuiet(e);
    hide Quiet, HasSpoken, HasEnded, Claimed, KnownText, TextFinished, AgentSent, Owed, OutputError, EmitRole;
    hide EmitListedAgent, Finish, ListedAgent;
    if OutputError(e.output, 0).None? {
      EndFront(EmitRole(st), e.output);
    }
  }

  lemma NotQuiet(e: Event)
    requires Ends(e)
    ensures !Quiet(e)
  {
  }

  // ---- One step ----

  lemma MessageEvent(st: State, e: Event)
    ensures e.TextDelta? ==>
      Translate(st, e) == (var (claimed, error) := ClaimMessage(EmitRole(st), e.outputIndex);
                           if error.Some? then (claimed, error) else (EmitTextDelta(claimed, e.delta), None))
    ensures e.TextDone? ==>
      Translate(st, e) == (var (claimed, error) := ClaimMessage(EmitRole(st), e.outputIndex);
                           if error.Some? then (claimed, error) else (EmitTextDone(claimed, e.text), None))
    ensures e.ItemDone? && e.item.AgentMessage? ==> Translate(st, e) == EmitAgentDone(EmitRole(st), e.outputIndex,
                                                                                      e.item.text)
    ensures e.ItemDone? && e.item.Message? ==> Translate(st, e) == ClaimMessage(EmitRole(st), e.outputIndex)
    ensures e.ItemDone? && (e.item.FunctionCall? || e.item.Reasoning?) ==> Translate(st, e) == (EmitRole(st), None)
  {
    hide EmitRole, EmitCallDelta, EmitArgumentsDone, EmitInputDone, EmitTextDelta, EmitTextDone, EmitAgentDone;
    hide ClaimMessage;
  }

  lemma MessageStep(st: State, events: seq<Event>, e: Event)
    requires FrontOf(st) == FrontAfter(events)
    requires e.TextDelta? || e.TextDone? || (e.ItemDone? && !e.item.CustomToolCall?)
    ensures var (next, error) := Translate(st, e);
            && next.calls == st.calls && error == Refusal(events, e)
            && (error.None? ==> FrontOf(next) == FrontAfter(events + [e]))
  {
    FrontSnoc(events, e);
    RoleFront(st);
    MessageEvent(st, e);
    var ready := EmitRole(st);
    ClaimFront(ready, e.outputIndex);
    hide HasSpoken, HasEnded, Claimed, KnownText, TextFinished, AgentSent, Owed, EmitRole, Translate;
    var claimed := ClaimMessage(ready, e.outputIndex).0;
    hide ClaimMessage, EmitTextDelta, EmitTextDone, EmitAgentDone, OutputError, EndText, InputRefusal;
    if e.TextDelta? {
      TextFront(claimed, e.delta);
    } else if e.TextDone? {
      TextFront(claimed, e.text);
    } else if e.item.AgentMessage? {
      AgentDoneFront(ready, e.outputIndex, e.item.text);
    }
  }

  lemma CallAnnounced(st: State, events: seq<Event>, e: Event)
    requires FrontOf(st) == FrontAfter(events) && e.ItemAdded? && (e.item.FunctionCall? || e.item.CustomToolCall?)
    ensures FrontOf(EmitCallAdded(EmitRole(st), e.outputIndex, e.item)) == FrontAfter(events + [e])
    ensures Refusal(events, e).None?
  {
    hide HasSpoken, HasEnded, Claimed, KnownText, TextFinished, AgentSent, Owed, EmitRole, EmitCallAdded;
    hide InputRefusal, OutputError, EndText;
    FrontSnoc(events, e);
    RoleFront(st);
    AnnouncedFront(EmitRole(st), e.outputIndex, e.item);
    hide FrontOf;
  }

  lemma OtherAnnounced(st: State, events: seq<Event>, e: Event)
    requires FrontOf(st) == FrontAfter(events) && e.ItemAdded? && !e.item.FunctionCall? && !e.item.CustomToolCall?
    ensures var (next, error) := EmitItemAdded(st, e.outputIndex, e.item);
            && next.calls == st.calls && error == Refusal(events, e)
            && (error.None? ==> FrontOf(next) == FrontAfter(events + [e]))
  {
    hide HasSpoken, HasEnded, Claimed, KnownText, TextFinished, AgentSent, Owed, EmitRole, ClaimMessage;
    hide InputRefusal, OutputError, EmitCallAdded, EndText;
    FrontSnoc(events, e);
    ClaimFront(st, e.outputIndex);
    RoleFront(ClaimMessage(st, e.outputIndex).0);
  }

  lemma AddedStep(st: State, events: seq<Event>, e: Event)
    requires FrontOf(st) == FrontAfter(events) && e.ItemAdded?
    ensures var (next, error) := Translate(st, e);
            && (!e.item.FunctionCall? && !e.item.CustomToolCall? ==> next.calls == st.calls)
            && error == Refusal(events, e)
            && (error.None? ==> FrontOf(next) == FrontAfter(events + [e]))
  {
    hide *;
    AddedEvent(st, e);
    if e.item.FunctionCall? || e.item.CustomToolCall? {
      CallAnnounced(st, events, e);
    } else {
      OtherAnnounced(st, events, e);
    }
  }

  /** Events about a call that was opened before, or is by its first delta. */
  predicate IsCallEvent(e: Event) {
    || e.ArgumentsDelta? || e.ArgumentsDone? || e.InputDelta? || e.InputDone?
    || (e.ItemDone? && e.item.CustomToolCall?)
  }

  /** An event about a call says nothing about the message. */
  lemma CallSaysNothing(events: seq<Event>, e: Event)
    requires IsCallEvent(e)
    ensures FrontAfter(events + [e]) == FrontAfter(events).(role := true) && ClaimRefusal(events, e).None?
  {
    FrontSnoc(events, e);
    hide HasSpoken, HasEnded, Claimed, KnownText, TextFinished, AgentSent, Owed;
  }

  lemma CallEvent(st: State, e: Event)
    ensures e.ArgumentsDelta? ==>
      Translate(st, e) == (EmitCallDelta(EmitRole(st), e.outputIndex, e.itemId, e.delta, false), None)
    ensures e.InputDelta? ==>
      Translate(st, e) == (EmitCallDelta(EmitRole(st), e.outputIndex, e.itemId, e.delta, true), None)
    ensures e.ArgumentsDone? ==>
      Translate(st, e) == (EmitArgumentsDone(EmitRole(st), e.outputIndex, e.name, e.arguments), None)
    ensures e.InputDone? ==> Translate(st, e) == EmitInputDone(EmitRole(st), e.outputIndex, e.input)
    ensures e.ItemDone? && e.item.CustomToolCall? ==>
      Translate(st, e) == if e.item.input.None? then (EmitRole(st), Some(MissingInput))
                          else EmitInputDone(EmitRole(st), e.outputIndex, e.item.input.value)
  {
    hide EmitRole, EmitCallDelta, EmitArgumentsDone, EmitInputDone, EmitTextDelta, EmitTextDone, EmitAgentDone;
    hide ClaimMessage;
  }

  lemma CallFrontStep(st: State, events: seq<Event>, e: Event)
    requires FrontOf(st) == FrontAfter(events)
    requires IsCallEvent(e)
    ensures FrontOf(Translate(st, e).0) == FrontAfter(events + [e])
  {
    CallSaysNothing(events, e);
    RoleFront(st);
    CallEvent(st, e);
    var ready := EmitRole(st);
    hide FrontOf, FrontAfter, Translate, EmitRole, EmitCallDelta, EmitArgumentsDone, EmitInputDone;
    match e
    case ArgumentsDelta(_, id, j, delta) => DeltaFront(ready, j, id, delta, false);
    case ArgumentsDone(_, _, j, name, arguments) => ArgumentsFront(ready, j, name, arguments);
    case InputDelta(_, id, j, delta) => DeltaFront(ready, j, id, delta, true);
    case InputDone(_, _, j, input) => InputFront(ready, j, input);
    case ItemDone(_, j, item) =>
      if item.input.Some? {
        InputFront(ready, j, item.input.value);
      }
  }

  /** The calls after a step that changes at most the one at `j`. */
  lemma OneCallTaken(st: State, next: State, events: seq<Event>, e: Event, j: nat)
    requires CallsTaken(st, events) && About(e, j)
    requires j in next.calls && next.calls == st.calls[j := next.calls[j]]
    requires CallTaken(next, events + [e], j)
    ensures CallsTaken(next, events + [e])
  {
    forall i: nat
      ensures CallTaken(next, events + [e], i)
    {
      if i != j {
        assert CallTaken(st, events, i);
        CallSnoc(events, e, i);
        hide OpenedAt, CustomAt, InputAt;
      }
    }
  }

  /** Events that say nothing about a call's input. */
  predicate SaysNoInput(e: Event) {
    match e
    case ItemAdded(_, _, item) => !item.FunctionCall? && !item.CustomToolCall?
    case ArgumentsDelta(_, _, _, _) => false
    case InputDelta(_, _, _, _) => false
    case InputDone(_, _, _, _) => false
    case ItemDone(_, _, item) => !item.CustomToolCall? || item.input.None?
    case _ => true
  }

  lemma NoCallTaken(st: State, next: State, events: seq<Event>, e: Event)
    requires CallsTaken(st, events) && SaysNoInput(e)
    requires next.calls.Keys == st.calls.Keys
    requires forall i | i in st.calls ::
               next.calls[i].custom == st.calls[i].custom && next.calls[i].input == st.calls[i].input
    ensures CallsTaken(next, events + [e])
  {
    forall i: nat
      ensures CallTaken(next, events + [e], i)
    {
      assert CallTaken(st, events, i);
      CallSnoc(events, e, i);
      hide OpenedAt, CustomAt, InputAt;
    }
  }

  lemma AddedTaken(st: State, ready: State, events: seq<Event>, e: Event)
    requires CallsTaken(st, events) && ready.calls == st.calls
    requires e.ItemAdded? && (e.item.FunctionCall? || e.item.CustomToolCall?)
    ensures CallsTaken(EmitCallAdded(ready, e.outputIndex, e.item), events + [e])
  {
    var j := e.outputIndex;
    var next := EmitCallAdded(ready, j, e.item);
    assert CallTaken(st, events, j);
    CallSnoc(events, e, j);
    AddedInput(ready, j, e.item);
    hide OpenedAt, CustomAt, InputAt, EmitCallAdded, CallsTaken;
    assert CallTaken(next, events + [e], j);
    OneCallTaken(st, next, events, e, j);
  }

  lemma AddedInput(st: State, j: nat, item: Item)
    requires item.FunctionCall? || item.CustomToolCall?
    ensures var next := EmitCallAdded(st, j, item);
            && j in next.calls && next.calls == st.calls[j := next.calls[j]]
            && next.calls[j].custom == (item.CustomToolCall? || (j in st.calls && st.calls[j].custom))
            && next.calls[j].input == (var known := if j in st.calls then st.calls[j].input else "";
                                       if item.CustomToolCall? then item.input.GetOr(known) else known)
  {
    hide OpeningArguments;
    if j in st.calls {
    } else {
    }
  }

  lemma DeltaTaken(st: State, ready: State, events: seq<Event>, e: Event)
    requires CallsTaken(st, events) && ready.calls == st.calls && (e.ArgumentsDelta? || e.InputDelta?)
    ensures CallsTaken(EmitCallDelta(ready, e.outputIndex, e.itemId, e.delta, e.InputDelta?), events + [e])
  {
    var j := e.outputIndex;
    var next := EmitCallDelta(ready, j, e.itemId, e.delta, e.InputDelta?);
    assert CallTaken(st, events, j);
    CallSnoc(events, e, j);
    hide OpenedAt, CustomAt, InputAt, JsonString.Escape, CallsTaken;
    assert CallTaken(next, events + [e], j) && next.calls == st.calls[j := next.calls[j]];
    hide EmitCallDelta;
    OneCallTaken(st, next, events, e, j);
  }

  lemma InputTaken(st: State, ready: State, events: seq<Event>, e: Event, j: nat, input: string)
    requires CallsTaken(st, events) && ready.calls == st.calls
    requires (e.InputDone? && e.outputIndex == j && e.input == input)
             || (e.ItemDone? && e.outputIndex == j && e.item.CustomToolCall? && e.item.input == Some(input))
    ensures EmitInputDone(ready, j, input).1 == InputRefusal(events, j, input)
    ensures InputRefusal(events, j, input).None? ==> CallsTaken(EmitInputDone(ready, j, input).0, events + [e])
  {
    var next := EmitInputDone(ready, j, input).0;
    assert CallTaken(st, events, j);
    CallSnoc(events, e, j);
    DoneInput(ready, j, input);
    hide OpenedAt, CustomAt, InputAt, EmitInputDone, CallsTaken;
    if InputRefusal(events, j, input).None? {
      assert CallTaken(next, events + [e], j);
      OneCallTaken(st, next, events, e, j);
    }
  }

  lemma DoneInput(st: State, j: nat, input: string)
    ensures var (next, error) := EmitInputDone(st, j, input);
            && error == (if j !in st.calls then Some(MissingCustomToolCall)
                         else if !st.calls[j].custom then Some(NotACustomToolCall)
                         else if !(st.calls[j].input <= input) then Some(InputMismatch)
                         else None)
            && (error.None? ==> j in next.calls && next.calls == st.calls[j := next.calls[j]]
                                && next.calls[j].custom && next.calls[j].input == input)
  {
    hide JsonString.Escape;
  }

  lemma CallStep(st: State, events: seq<Event>, e: Event)
    requires Taken(st, events)
    requires IsCallEvent(e)
    ensures var (next, error) := Translate(st, e);
            error == Refusal(events, e) && (error.None? ==> Taken(next, events + [e]))
  {
    CallFrontStep(st, events, e);
    CallSaysNothing(events, e);
    CallsStep(st, events, e);
    hide Translate, Refusal, FrontOf, FrontAfter, CallsTaken;
  }

  lemma ArgumentsTaken(st: State, ready: State, events: seq<Event>, e: Event)
    requires CallsTaken(st, events) && ready.calls == st.calls && e.ArgumentsDone?
    ensures CallsTaken(EmitArgumentsDone(ready, e.outputIndex, e.name, e.arguments), events + [e])
  {
    hide CallsTaken;
    NoCallTaken(st, EmitArgumentsDone(ready, e.outputIndex, e.name, e.arguments), events, e);
  }

  lemma CallsStep(st: State, events: seq<Event>, e: Event)
    requires CallsTaken(st, events)
    requires IsCallEvent(e)
    ensures Translate(st, e).1 == Refusal(events, e)
    ensures Translate(st, e).1.None? ==> CallsTaken(Translate(st, e).0, events + [e])
  {
    CallSaysNothing(events, e);
    RoleFront(st);
    CallEvent(st, e);
    var ready := EmitRole(st);
    hide EmitRole, Translate, FrontOf, FrontAfter, CallsTaken, EmitCallDelta, EmitInputDone, EmitArgumentsDone;
    hide InputRefusal, ClaimRefusal, OutputError;
    if e.ArgumentsDelta? || e.InputDelta? {
      DeltaTaken(st, ready, events, e);
    } else if e.ArgumentsDone? {
      ArgumentsTaken(st, ready, events, e);
    } else if e.InputDone? {
      InputTaken(st, ready, events, e, e.outputIndex, e.input);
    } else if e.item.input.Some? {
      InputTaken(st, ready, events, e, e.outputIndex, e.item.input.value);
    }
  }

  /** Events after which nothing is known that was not known before. */
  lemma SilentStep(st: State, events: seq<Event>, e: Event)
    requires FrontOf(st) == FrontAfter(events)
    requires e.Created? || (Quiet(e) && !e.ItemAdded?)
    ensures var (next, error) := Translate(st, e);
            next.calls == st.calls && error == Refusal(events, e) == None && FrontOf(next) == FrontAfter(events + [e])
  {
    FrontSnoc(events, e);
    RoleFront(st);
    hide HasSpoken, HasEnded, Claimed, KnownText, TextFinished, AgentSent, Owed, EmitRole;
  }

  /** One event is refused exactly as the earlier events say, and otherwise taken in. */
  lemma StepTaken(st: State, events: seq<Event>, e: Event)
    requires Taken(st, events)
    ensures var (next, error) := Translate(st, e);
            error == Refusal(events, e) && (error.None? ==> Taken(next, events + [e]))
  {
    hide FrontOf, FrontAfter, CallsTaken, EmitItemAdded, EmitProgress, EmitTerminal, Refusal;
    match e
    case Created(_) =>
      SilentStep(st, events, e);
      NoCallTaken(st, Translate(st, e).0, events, e);
    case ItemAdded(_, j, item) => AnnouncedStep(st, events, e);
    case ReasoningDelta(_, _, _, _) =>
      SilentStep(st, events, e);
      NoCallTaken(st, Translate(st, e).0, events, e);
    case ReasoningDone(_, _, _, _) =>
      SilentStep(st, events, e);
      NoCallTaken(st, Translate(st, e).0, events, e);
    case TextDelta(_, _, _, _) =>
      MessageStep(st, events, e);
      NoCallTaken(st, Translate(st, e).0, events, e);
    case TextDone(_, _, _, _) =>
      MessageStep(st, events, e);
      NoCallTaken(st, Translate(st, e).0, events, e);
    case ItemDone(_, _, item) =>
      if item.CustomToolCall? {
        CallStep(st, events, e);
      } else {
        MessageStep(st, events, e);
        NoCallTaken(st, Translate(st, e).0, events, e);
      }
    case Terminal(_, output, _, reason) =>
      if reason.None? {
        TerminalFront(st, events, e);
      } else {
        SilentStep(st, events, e);
      }
      NoCallTaken(st, Translate(st, e).0, events, e);
    case _ => CallStep(st, events, e);
  }

  lemma AddedEvent(st: State, e: Event)
    requires e.ItemAdded?
    ensures Translate(st, e) ==
            if e.item.FunctionCall? || e.item.CustomToolCall? then
              (EmitCallAdded(EmitRole(st), e.outputIndex, e.item), None)
            else EmitItemAdded(st, e.outputIndex, e.item)
  {
    hide EmitCallAdded, EmitRole, ClaimMessage;
  }

  lemma AnnouncedStep(st: State, events: seq<Event>, e: Event)
    requires Taken(st, events) && e.ItemAdded?
    ensures var (next, error) := Translate(st, e);
            error == Refusal(events, e) && (error.None? ==> Taken(next, events + [e]))
  {
    AddedStep(st, events, e);
    AddedEvent(st, e);
    RoleFront(st);
    hide Translate, FrontOf, FrontAfter, CallsTaken, EmitRole, EmitItemAdded, EmitCallAdded, Refusal;
    if e.item.FunctionCall? || e.item.CustomToolCall? {
      AddedTaken(st, EmitRole(st), events, e);
    } else {
      NoCallTaken(st, Translate(st, e).0, events, e);
    }
  }

  // ---- The whole run ----

  lemma NothingTaken()
    ensures Taken(INITIAL, [])
  {
  }

  lemma {:induction false} RunTaken(events: seq<Event>)
    requires Run(events).Some?
    ensures Taken(Run(events).value, events)
  {
    hide Translate, Taken;
    if events == [] {
      NothingTaken();
    } else {
      var init, last := events[..|events| - 1], events[|events| - 1];
      assert events == init + [last];
      RunTaken(init);
      StepTaken(Run(init).value, init, last);
    }
  }

  /** After an error-free run, an event is refused exactly as the events before it say. */
  lemma ErrorIsRefusal(events: seq<Event>, n: nat)
    requires n < |events| && Run(events[..n]).Some?
    ensures Translate(Run(events[..n]).value, events[n]).1 == Refusal(events[..n], events[n])
  {
    RunTaken(events[..n]);
    hide Taken, Translate, Refusal, Run;
    StepTaken(Run(events[..n]).value, events[..n], events[n]);
  }

  /** Main result: a run is free of errors exactly when no event of it is refused by those before it: a message at a
      second output index, a second message or a custom call without input in the terminal list, or the complete
      input of a custom call that was not opened, is no custom call, or was streamed otherwise. */
  lemma {:induction false} RunSucceedsIff(events: seq<Event>)
    ensures Run(events).Some? <==> forall n | 0 <= n < |events| :: Refusal(events[..n], events[n]).None?
  {
    hide Translate, Refusal;
    if events != [] {
      var init := events[..|events| - 1];
      RunSucceedsIff(init);
      assert events[..|init|] == init;
      assert forall n | 0 <= n < |init| :: init[..n] == events[..n] && init[n] == events[n];
      if Run(init).Some? {
        ErrorIsRefusal(events, |init|);
      }
    }
  }

  /** What the client of an error-free run is told about the answer depends on the events alone: it has a role as
      soon as some event concerns it, the text as far as it is known, and the end with the first completed response. */
  lemma RunMeans(events: seq<Event>)
    requires Run(events).Some?
    ensures var st := Run(events).value;
            && st.role == HasSpoken(events) && st.completed == HasEnded(events) && st.text == KnownText(events)
            && st.agentSent == AgentSent(events) && st.pendingAgent == Owed(events)
  {
    RunTaken(events);
    hide Run, CallsTaken;
  }
}
