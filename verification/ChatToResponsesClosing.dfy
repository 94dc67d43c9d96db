/** In which order the Chat-to-Responses translator closes what it opened. */
module ChatToResponsesClosing {
  import opened Collections
  import opened StreamEvents
  import opened ToolArguments
  import opened ChatToResponses
  import opened ChatToResponsesRuns
  import opened ChatToResponsesFinal

  /** Output indices of the calls in the order in which their arguments were completed. */
  function ClosedCalls(events: seq<Event>): seq<nat> {
    if events == [] then []
    else
      var last := events[|events| - 1];
      ClosedCalls(events[..|events| - 1]) + if last.ArgumentsDone? then [last.outputIndex] else []
  }

  /** Neither the message nor a call is complete. */
  ghost predicate AllOpen(events: seq<Event>) {
    forall n | 0 <= n < |events| :: !events[n].ArgumentsDone? && !events[n].TextDone?
  }

  ghost predicate NoCallClosed(events: seq<Event>) {
    forall n | 0 <= n < |events| :: !events[n].ArgumentsDone?
  }

  predicate ClosesCall(e: Event) {
    e.ArgumentsDone? || (e.ItemDone? && e.item.FunctionCall?) || e.Terminal?
  }

  predicate ClosesText(e: Event) {
    e.ItemDone? && e.item.Message?
  }

  /** Once a call is complete only calls are completed and the stream ends; once the message is, at most its own item
      too. */
  ghost predicate InOrder(events: seq<Event>) {
    forall m, n | 0 <= m < n < |events| ::
      && (events[m].ArgumentsDone? ==> ClosesCall(events[n]))
      && (events[m].TextDone? ==> ClosesCall(events[n]) || ClosesText(events[n]))
  }

  lemma InOrderSnoc(events: seq<Event>, e: Event)
    requires InOrder(events)
    requires AllOpen(events) || (NoCallClosed(events) && ClosesText(e)) || ClosesCall(e)
    ensures InOrder(events + [e])
    ensures ClosedCalls(events + [e]) == ClosedCalls(events) + if e.ArgumentsDone? then [e.outputIndex] else []
  {
    var all := events + [e];
    assert all[..|events|] == events;
    hide ClosesCall, ClosesText;
    forall m, n | 0 <= m < n < |all|
      ensures all[m].ArgumentsDone? ==> ClosesCall(all[n])
      ensures all[m].TextDone? ==> ClosesCall(all[n]) || ClosesText(all[n])
    {
      if n < |events| {
        assert all[m] == events[m] && all[n] == events[n];
      } else {
        assert all[m] == events[m];
      }
    }
  }

  lemma OpenSnoc(events: seq<Event>, e: Event)
    ensures AllOpen(events + [e]) <==> AllOpen(events) && !e.ArgumentsDone? && !e.TextDone?
    ensures NoCallClosed(events + [e]) <==> NoCallClosed(events) && !e.ArgumentsDone?
    ensures ClosedCalls(events + [e]) == ClosedCalls(events) + if e.ArgumentsDone? then [e.outputIndex] else []
  {
    var all := events + [e];
    assert all[..|events|] == events && all[|events|] == e;
    if AllOpen(all) {
      assert forall n | 0 <= n < |events| :: events[n] == all[n];
    }
    if NoCallClosed(all) {
      assert forall n | 0 <= n < |events| :: events[n] == all[n];
    }
  }

  lemma OpenIsInOrder(events: seq<Event>)
    requires AllOpen(events)
    ensures InOrder(events) && NoCallClosed(events)
  {
  }

  lemma {:induction false} OpenClosedNone(events: seq<Event>)
    requires NoCallClosed(events)
    ensures ClosedCalls(events) == []
  {
    if events != [] {
      OpenClosedNone(events[..|events| - 1]);
    }
  }

  // ---- A live translator has completed nothing ----

  /** Completion leaves its mark on the item's progress. */
  lemma {:induction false} CompletionShows(events: seq<Event>, n: nat, i: nat)
    requires n < |events| && (events[n].ArgumentsDone? || events[n].TextDone?) && events[n].outputIndex == i
    ensures var phase := PhaseOf(events, i);
            phase.ToolSent? || phase.ToolClosed? || phase.TextSent? || phase.TextClosed? || phase.Broken?
  {
    var init, last := events[..|events| - 1], events[|events| - 1];
    assert events == init + [last];
    PhaseSnoc(init, last, i);
    if n < |init| {
      CompletionShows(init, n, i);
    }
    hide PhaseOf;
  }

  lemma LiveIsOpen(st: State)
    requires Live(st)
    ensures AllOpen(st.emitted)
  {
    hide PhaseOf, NormalizeArguments;
    forall n | 0 <= n < |st.emitted|
      ensures !st.emitted[n].ArgumentsDone? && !st.emitted[n].TextDone?
    {
      if st.emitted[n].ArgumentsDone? || st.emitted[n].TextDone? {
        CompletionShows(st.emitted, n, st.emitted[n].outputIndex);
        PhaseAt(st, st.emitted[n].outputIndex);
      }
    }
  }

  // ---- Closing ----

  lemma QuietIsOpen(st: State)
    requires Live(st)
    ensures var next := EmitReasoningDone(EmitCreated(st)); Live(next) && next.tools == st.tools && AllOpen(next.emitted)
  {
    hide Inv, EmitCreated, EmitReasoningDone;
    EmitCreatedKeeps(st);
    EmitReasoningDoneKeeps(EmitCreated(st));
    LiveIsOpen(EmitReasoningDone(EmitCreated(st)));
    hide AllOpen, Open;
  }

  lemma TextCloses(st: State)
    requires AllOpen(st.emitted)
    ensures var next := EmitTextDone(st);
            && next.tools == st.tools && InOrder(next.emitted) && NoCallClosed(next.emitted)
            && ClosedCalls(next.emitted) == []
  {
    hide AllOpen, InOrder, NoCallClosed, ClosedCalls;
    OpenIsInOrder(st.emitted);
    OpenClosedNone(st.emitted);
    if st.textAdded && !st.textDone {
      var item := Message(st.textId.GetOr(Given("")), FinalStatus(st), st.text);
      var e := TextDone(st.sequence + 1, item.id, st.textIndex.GetOr(0), st.text);
      var f := ItemDone(st.sequence + 2, st.textIndex.GetOr(0), item);
      assert EmitTextDone(st).emitted == st.emitted + [e] + [f];
      InOrderSnoc(st.emitted, e);
      OpenSnoc(st.emitted, e);
      InOrderSnoc(st.emitted + [e], f);
      OpenSnoc(st.emitted + [e], f);
      OpenClosedNone(EmitTextDone(st).emitted);
    }
  }

  lemma CallCloses(st: State, key: nat)
    requires key in st.tools && !st.tools[key].done && InOrder(st.emitted)
    ensures var next := EmitToolDone(st, key);
            && next.tools == st.tools[key := st.tools[key].(done := true)]
            && InOrder(next.emitted)
            && ClosedCalls(next.emitted) == ClosedCalls(st.emitted) + [st.tools[key].outputIndex]
  {
    hide InOrder, ClosedCalls, AllOpen, NoCallClosed, NormalizeArguments;
    var t := st.tools[key];
    var item := ToolItem(st, t);
    var e := ArgumentsDone(st.sequence + 1, t.itemId, t.outputIndex, item.name, item.arguments);
    var f := ItemDone(st.sequence + 2, t.outputIndex, item);
    assert EmitToolDone(st, key).emitted == st.emitted + [e] + [f];
    InOrderSnoc(st.emitted, e);
    InOrderSnoc(st.emitted + [e], f);
    var closed := ClosedCalls(st.emitted);
    assert closed + [t.outputIndex] + [] == closed + [t.outputIndex];
  }

  /** The output indices of the calls at the first `n` keys. */
  function IndicesOf(tools: map<nat, ToolCall>, keys: seq<nat>, n: nat): seq<nat>
    requires n <= |keys| && forall i | 0 <= i < |keys| :: keys[i] in tools
  {
    if n == 0 then [] else IndicesOf(tools, keys, n - 1) + [tools[keys[n - 1]].outputIndex]
  }

  /** The calls of the two differ at most in being done. */
  ghost predicate SameIndices(tools: map<nat, ToolCall>, next: map<nat, ToolCall>) {
    next.Keys == tools.Keys && forall k | k in tools :: next[k].outputIndex == tools[k].outputIndex
  }

  lemma {:induction false} IndicesAlike(tools: map<nat, ToolCall>, next: map<nat, ToolCall>, keys: seq<nat>, n: nat)
    requires n <= |keys| && (forall i | 0 <= i < |keys| :: keys[i] in tools) && SameIndices(tools, next)
    ensures IndicesOf(next, keys, n) == IndicesOf(tools, keys, n)
  {
    if n > 0 {
      IndicesAlike(tools, next, keys, n - 1);
    }
  }

  lemma {:induction false} CallsClose(st: State, keys: seq<nat>, n: nat)
    requires n <= |keys| && (forall i | 0 <= i < |keys| :: keys[i] in st.tools)
    requires forall i, j | 0 <= i < j < |keys| :: keys[i] < keys[j]
    requires forall k | k in st.tools :: !st.tools[k].done
    requires InOrder(st.emitted) && ClosedCalls(st.emitted) == []
    ensures var next := EmitToolDones(st, keys, n);
            && InOrder(next.emitted) && ClosedCalls(next.emitted) == IndicesOf(st.tools, keys, n)
            && SameIndices(st.tools, next.tools)
            && forall i | n <= i < |keys| :: !next.tools[keys[i]].done
  {
    hide InOrder, ClosedCalls, EmitToolDone;
    if n > 0 {
      CallsClose(st, keys, n - 1);
      CallCloses(EmitToolDones(st, keys, n - 1), keys[n - 1]);
    }
  }

  /** Finishing a live translator. */
  lemma FinishCloses(st: State)
    requires Live(st)
    ensures var next := Finish(st);
            var keys := Ascending(next.tools.Keys);
            InOrder(next.emitted) && ClosedCalls(next.emitted) == IndicesOf(next.tools, keys, |keys|)
  {
    hide Inv, InOrder, ClosedCalls, AllOpen, NoCallClosed, IndicesOf, EmitCreated, EmitReasoningDone, EmitTextDone;
    hide EmitToolDones, OutputItems;
    QuietIsOpen(st);
    var quiet := EmitReasoningDone(EmitCreated(st));
    TextCloses(quiet);
    var texted := EmitTextDone(quiet);
    var keys := Ascending(texted.tools.Keys);
    CallsClose(texted, keys, |keys|);
    var closed := EmitToolDones(texted, keys, |keys|);
    var terminal := Terminal(closed.sequence + 1, OutputItems(closed), closed.usage, closed.incompleteReason);
    InOrderSnoc(closed.emitted, terminal);
    IndicesAlike(texted.tools, closed.tools, keys, |keys|);
    assert Finish(st).emitted == closed.emitted + [terminal] && Finish(st).tools == closed.tools;
    assert ClosedCalls(closed.emitted) + [] == ClosedCalls(closed.emitted);
  }

  /** A finished run was finished from a live state. */
  lemma {:induction false} FinishedLive(strict: bool, events: seq<ChatEvent>) returns (st: State)
    requires RunToEnd(strict, events).Some?
    ensures Live(st) && RunToEnd(strict, events).value == Finish(st)
  {
    RunInvariant(strict, events);
    st := Run(strict, events).value;
    if st.completed {
      var init, last := events[..|events| - 1], events[|events| - 1];
      RunInvariant(strict, init);
      hide Live, Announced, Closed, FaithfulStream, Inv, TextSentUpstream, Finish;
      var before := Run(strict, init).value;
      if before.completed {
        TranslateAfterEnd(before, last);
        st := FinishedLive(strict, init);
      } else {
        EndFinishesLive(before, last);
        st := before.(usage := last.usage);
        FinishedStays(st);
      }
    }
    hide Run;
  }

  lemma FinishedStays(st: State)
    ensures Finish(Finish(st)) == Finish(st)
  {
    hide CloseItems, OutputItems;
  }

  /** Only the end of the stream completes a live translator. */
  lemma EndFinishesLive(st: State, event: ChatEvent)
    requires Live(st) && Announced(st) && Translate(st, event).1.None? && Translate(st, event).0.completed
    ensures Live(st.(usage := event.usage)) && Translate(st, event).0 == Finish(st.(usage := event.usage))
  {
    TranslateKeeps(st, event);
    UsageKeeps(st, event.usage);
    hide Live, Announced, Inv, Closed, FaithfulStream, EmitChoice, Finish;
  }

  /** Main result: a finished stream closes its items last, the message before the calls and the calls in the order of
      their keys, each once. */
  lemma ClosesInOrder(strict: bool, events: seq<ChatEvent>)
    requires RunToEnd(strict, events).Some?
    ensures var st := RunToEnd(strict, events).value;
            var keys := Ascending(st.tools.Keys);
            InOrder(st.emitted) && ClosedCalls(st.emitted) == IndicesOf(st.tools, keys, |keys|)
  {
    hide *;
    var st := FinishedLive(strict, events);
    FinishCloses(st);
  }
}
