/** Which Chat streams the Chat-to-Responses translator refuses. */
module ChatToResponsesAcceptance {
  import opened Collections
  import opened StreamEvents
  import opened ChatToResponses
  import opened ChatToResponsesRuns
  import opened ChatToResponsesFinal

  ghost predicate HasMalformed(ds: seq<ToolDelta>) {
    exists i :: 0 <= i < |ds| && ds[i].Malformed?
  }

  /** What is wrong with an event, whatever came before it; the first fault in the order of the fields. */
  ghost function Fault(event: ChatEvent): Option<StreamError> {
    if event.choices.None? || event.choices.value == [] then None
    else if |event.choices.value| > 1 then Some(MultipleChoices)
    else
      var delta := event.choices.value[0].delta;
      if delta.content.BadContent? then Some(UnsupportedContent)
      else if HasMalformed(delta.toolCalls) then Some(UnsupportedToolCall)
      else if delta.functionCall.Some? && delta.functionCall.value.Unusable? then Some(delta.functionCall.value.error)
      else None
  }

  lemma {:induction false} DeltasFail(st: State, ds: seq<ToolDelta>, n: nat)
    requires n <= |ds|
    ensures EmitToolDeltas(st, ds, n).1 == if HasMalformed(ds[..n]) then Some(UnsupportedToolCall) else None
  {
    hide ApplyFragment, RouteKey, EmitCreated, EmitReasoningDone;
    if n > 0 {
      DeltasFail(st, ds, n - 1);
      assert forall i | 0 <= i < n - 1 :: ds[..n][i] == ds[..n - 1][i];
      if HasMalformed(ds[..n - 1]) {
        var i :| 0 <= i < n - 1 && ds[..n - 1][i].Malformed?;
        assert ds[..n][i].Malformed?;
      }
      assert ds[..n][n - 1] == ds[n - 1];
    }
  }

  lemma ChoiceFails(st: State, choice: Choice)
    ensures EmitChoice(st, choice).1 == Fault(ChatEvent(None, Some([choice])))
  {
    hide EmitReasoning, EmitText, EmitToolDeltas, EmitCreated, EmitReasoningDone, ApplyFragment;
    var delta := choice.delta;
    var texted := EmitContent(EmitReasoning(st, delta.reasoning), delta.content).0;
    DeltasFail(texted, delta.toolCalls, |delta.toolCalls|);
    assert delta.toolCalls[..|delta.toolCalls|] == delta.toolCalls;
    assert [choice] != [] && [choice][0] == choice;
    hide HasMalformed;
  }

  lemma EventFails(st: State, event: ChatEvent)
    requires !st.completed
    ensures Translate(st, event).1 == Fault(event)
  {
    hide EmitChoice, Finish;
    if event.choices.Some? && |event.choices.value| == 1 {
      assert event.choices.value == [event.choices.value[0]];
      ChoiceFails(if event.usage.Some? then st.(usage := event.usage) else st, event.choices.value[0]);
    }
  }

  /** Main result: a Chat stream is translated without error exactly when no event before its end has a fault: more
      than one choice, content that is no text, a call that is no object, or an unusable legacy call.  Nothing that
      follows the end is refused, and what came before an event never makes it a fault. */
  lemma {:induction false} RunSucceedsIff(strict: bool, events: seq<ChatEvent>)
    ensures Run(strict, events).Some? <==>
      forall n | 0 <= n < |events| :: HasEnded(events[..n]) || Fault(events[n]).None?
  {
    hide Translate, Fault, HasEnded, Live, Announced, Closed, FaithfulStream, Inv, TextSentUpstream;
    if events != [] {
      var init, last := events[..|events| - 1], events[|events| - 1];
      RunSucceedsIff(strict, init);
      assert forall n | 0 <= n < |init| :: init[..n] == events[..n] && init[n] == events[n];
      assert events[..|init|] == init;
      if Run(strict, init).Some? {
        RunInvariant(strict, init);
        var st := Run(strict, init).value;
        if st.completed {
          TranslateAfterEnd(st, last);
        } else {
          EventFails(st, last);
        }
      }
    }
  }

  /** The error of the first faulty event is the one reported. */
  lemma ErrorIsFault(strict: bool, events: seq<ChatEvent>, event: ChatEvent)
    requires Run(strict, events).Some?
    ensures Translate(Run(strict, events).value, event).1 == if HasEnded(events) then None else Fault(event)
  {
    RunInvariant(strict, events);
    hide Fault, HasEnded, Live, Announced, Closed, FaithfulStream, Inv, TextSentUpstream, Run, Translate;
    if HasEnded(events) {
      TranslateAfterEnd(Run(strict, events).value, event);
    } else {
      EventFails(Run(strict, events).value, event);
    }
  }
}
