/** Streaming a custom tool's input reads the same as translating it in one piece, exactly when the call's
    announcement comes before its input. */
module CustomToolStream {
  import opened Collections
  import opened StreamEvents
  import opened JsonString
  import opened ResponsesToChat

  /** The events of one custom tool call: input deltas with the item's announcement after the first `announced` of
      them, or nowhere, the complete input, and the item's done event sent `repeats` more times. */
  function CustomCall(index: nat, item: Item, deltas: seq<string>, announced: Option<nat>, input: string,
                      repeats: nat): seq<Event>
    requires item.CustomToolCall? && (announced.Some? ==> announced.value <= |deltas|)
  {
    (match announced
     case Some(n) =>
       InputDeltas(index, item.id, deltas[..n]) + [ItemAdded(0, index, item)] + InputDeltas(index, item.id, deltas[n..])
     case None => InputDeltas(index, item.id, deltas))
    + [InputDone(0, item.id, index, input)] + DoneEvents(index, item.(input := Some(input)), repeats)
  }

  function InputDeltas(index: nat, itemId: Id, deltas: seq<string>): seq<Event> {
    seq(|deltas|, k requires 0 <= k < |deltas| => InputDelta(0, itemId, index, deltas[k]))
  }

  function DoneEvents(index: nat, item: Item, repeats: nat): seq<Event> {
    seq(repeats, k => ItemDone(0, index, item))
  }

  // ---- One call ----

  /** Nothing was heard or sent about the call. */
  ghost predicate Unheard(st: State, index: nat) {
    index !in st.calls && ArgumentsOf(st.chunks, index) == ""
  }

  /** The call while its input is still streaming: the input so far, the arguments buffered and the fragments sent. */
  ghost predicate Streaming(st: State, index: nat, added: bool, input: string, buffer: string, sent: string) {
    && index in st.calls && buffer != ""
    && st.calls[index].custom && !st.calls[index].closed && st.calls[index].added == added
    && st.calls[index].input == input && st.calls[index].arguments == buffer
    && ArgumentsOf(st.chunks, index) == sent
  }

  /** The call once its input is closed. */
  ghost predicate Sent(st: State, index: nat, input: string, sent: string) {
    && index in st.calls
    && st.calls[index].custom && st.calls[index].closed && st.calls[index].input == input
    && ArgumentsOf(st.chunks, index) == sent
  }

  lemma RoleKeeps(st: State, index: nat)
    ensures EmitRole(st).calls == st.calls
    ensures ArgumentsOf(EmitRole(st).chunks, index) == ArgumentsOf(st.chunks, index)
  {
    ChunkSnoc(st.chunks, RoleChunk);
  }

  lemma FirstAnnounced(st: State, index: nat, item: Item)
    requires Unheard(st, index) && item.CustomToolCall?
    ensures var (next, error) := Translate(st, ItemAdded(0, index, item));
            var opening := INPUT_OPEN + Escape(item.input.GetOr(""));
            error.None? && Streaming(next, index, true, item.input.GetOr(""), opening, opening)
  {
    hide Escape;
    RoleKeeps(st, index);
    var ready, next := EmitRole(st), EmitCallAdded(EmitRole(st), index, item);
    ChunkSnoc(ready.chunks, next.chunks[|next.chunks| - 1]);
  }

  /** An announcement that comes after input sends the buffer again, with a second opening. */
  lemma LateAnnounced(st: State, index: nat, item: Item, input: string, buffer: string, sent: string)
    requires Streaming(st, index, false, input, buffer, sent) && item.CustomToolCall?
    ensures var (next, error) := Translate(st, ItemAdded(0, index, item));
            var again := buffer + (INPUT_OPEN + Escape(item.input.GetOr("")));
            error.None? && Streaming(next, index, true, item.input.GetOr(input), again, sent + again)
  {
    hide Escape;
    RoleKeeps(st, index);
    var ready := EmitRole(st);
    hide EmitRole, ArgumentsOf;
    var next := EmitCallAdded(ready, index, item);
    ChunkSnoc(ready.chunks, next.chunks[|next.chunks| - 1]);
  }

  /** Input without an announcement opens the buffer, but not the stream. */
  lemma FirstDelta(st: State, index: nat, itemId: Id, delta: string)
    requires Unheard(st, index)
    ensures var (next, error) := Translate(st, InputDelta(0, itemId, index, delta));
            error.None? && Streaming(next, index, false, delta, INPUT_OPEN + Escape(delta), Escape(delta))
  {
    hide Escape, ArgumentsOf;
    RoleKeeps(st, index);
    var ready := EmitRole(st);
    hide EmitRole;
    var next := EmitCallDelta(ready, index, itemId, delta, true);
    ChunkSnoc(ready.chunks, next.chunks[|next.chunks| - 1]);
    assert "" + INPUT_OPEN + Escape(delta) == INPUT_OPEN + Escape(delta);
  }

  lemma NextDelta(st: State, index: nat, itemId: Id, added: bool, input: string, buffer: string, sent: string,
                  delta: string)
    requires Streaming(st, index, added, input, buffer, sent)
    ensures var (next, error) := Translate(st, InputDelta(0, itemId, index, delta));
            error.None? && Streaming(next, index, added, input + delta, buffer + Escape(delta), sent + Escape(delta))
  {
    hide Escape, ArgumentsOf;
    RoleKeeps(st, index);
    var ready := EmitRole(st);
    hide EmitRole;
    var next := EmitCallDelta(ready, index, itemId, delta, true);
    ChunkSnoc(ready.chunks, next.chunks[|next.chunks| - 1]);
    assert buffer + "" == buffer;
  }

  /** Done closes the call exactly when the complete input extends what was streamed; anything else is an error. */
  lemma DoneCloses(st: State, index: nat, added: bool, streamed: string, buffer: string, sent: string, input: string)
    requires Streaming(st, index, added, streamed, buffer, sent)
    ensures var (next, error) := EmitInputDone(st, index, input);
            if streamed <= input
            then error.None? && Sent(next, index, input, sent + (Escape(input[|streamed|..]) + "\"}"))
            else error == Some(InputMismatch)
  {
    if streamed <= input {
      hide Escape, ArgumentsOf;
      var chunk := CallChunk(index, st.calls[index].callId, None, Escape(input[|streamed|..]) + "\"}");
      ChunkSnoc(st.chunks, chunk);
    }
  }

  /** A repeated done changes nothing that was sent. */
  lemma RepeatedDoneIsSilent(st: State, index: nat, input: string, sent: string)
    requires Sent(st, index, input, sent)
    ensures var (next, error) := EmitInputDone(st, index, input);
            error.None? && next.chunks == st.chunks && Sent(next, index, input, sent)
  {
    assert input[|input|..] == "";
  }

  // ---- The whole stream ----

  /** The state after `events`, starting anywhere; `None` after an error. */
  function RunFrom(st: State, events: seq<Event>): Option<State> {
    if events == [] then Some(st)
    else match RunFrom(st, events[..|events| - 1])
      case None => None
      case Some(mid) =>
        var (next, error) := Translate(mid, events[|events| - 1]);
        if error.Some? then None else Some(next)
  }

  lemma RunFromOne(st: State, e: Event)
    ensures var (next, error) := Translate(st, e); RunFrom(st, [e]) == if error.Some? then None else Some(next)
  {
    assert [e][..0] == [];
    assert RunFrom(st, []) == Some(st);
  }

  lemma {:induction false} RunFromAppend(st: State, left: seq<Event>, right: seq<Event>)
    ensures RunFrom(st, left + right) == match RunFrom(st, left) case None => None case Some(mid) => RunFrom(mid, right)
  {
    hide Translate;
    if right == [] {
      assert left + right == left;
    } else {
      var init, last := right[..|right| - 1], right[|right| - 1];
      assert (left + right)[..|left + right| - 1] == left + init;
      RunFromAppend(st, left, init);
    }
  }

  lemma {:induction false} DeltasStream(
    st: State, index: nat, itemId: Id, added: bool, input: string, buffer: string, sent: string, deltas: seq<string>)
    requires Streaming(st, index, added, input, buffer, sent)
    ensures var next := RunFrom(st, InputDeltas(index, itemId, deltas));
            next.Some? && Streaming(next.value, index, added, input + Join(deltas),
                                    buffer + Escape(Join(deltas)), sent + Escape(Join(deltas)))
  {
    hide Translate, Streaming, Escape;
    if deltas == [] {
      EscapeEmpty();
      assert input + "" == input && buffer + "" == buffer && sent + "" == sent;
    } else {
      var init, last := deltas[..|deltas| - 1], deltas[|deltas| - 1];
      DeltasStream(st, index, itemId, added, input, buffer, sent, init);
      assert InputDeltas(index, itemId, deltas)[..|deltas| - 1] == InputDeltas(index, itemId, init);
      var mid := RunFrom(st, InputDeltas(index, itemId, init)).value;
      NextDelta(mid, index, itemId, added, input + Join(init), buffer + Escape(Join(init)), sent + Escape(Join(init)),
                last);
      EscapeAppend(Join(init), last);
      Regroup(input, Join(init), last);
      Regroup(buffer, Escape(Join(init)), Escape(last));
      Regroup(sent, Escape(Join(init)), Escape(last));
    }
  }

  lemma EscapeEmpty()
    ensures Escape("") == ""
  {
  }

  lemma Regroup(a: string, b: string, c: string)
    ensures a + b + c == a + (b + c)
  {
  }

  /** A call's input without an announcement. */
  lemma UnannouncedDeltas(st: State, index: nat, itemId: Id, deltas: seq<string>)
    requires Unheard(st, index) && deltas != []
    ensures var next := RunFrom(st, InputDeltas(index, itemId, deltas));
            next.Some? && Streaming(next.value, index, false, Join(deltas),
                                    INPUT_OPEN + Escape(Join(deltas)), Escape(Join(deltas)))
  {
    hide Translate, Streaming, Unheard, Escape;
    var first, rest := deltas[0], deltas[1..];
    FirstDelta(st, index, itemId, first);
    RunFromOne(st, InputDelta(0, itemId, index, first));
    var mid := RunFrom(st, [InputDelta(0, itemId, index, first)]).value;
    DeltasStream(mid, index, itemId, false, first, INPUT_OPEN + Escape(first), Escape(first), rest);
    RunFromAppend(st, [InputDelta(0, itemId, index, first)], InputDeltas(index, itemId, rest));
    assert InputDeltas(index, itemId, deltas) == [InputDelta(0, itemId, index, first)] + InputDeltas(index, itemId, rest);
    assert deltas == [first] + rest;
    JoinOne(first);
    JoinAppend([first], rest);
    EscapeAppend(first, Join(rest));
    Regroup(INPUT_OPEN, Escape(first), Escape(Join(rest)));
  }

  lemma JoinOne(s: string)
    ensures Join([s]) == s
  {
    assert [s][..0] == [];
    assert Join([]) + s == s;
  }

  lemma {:induction false} RepeatsStaySent(st: State, index: nat, item: Item, input: string, sent: string, repeats: nat)
    requires Sent(st, index, input, sent) && item.CustomToolCall? && item.input == Some(input)
    ensures var next := RunFrom(st, DoneEvents(index, item, repeats)); next.Some? && Sent(next.value, index, input, sent)
  {
    hide Sent, EmitInputDone;
    if repeats > 0 {
      RepeatsStaySent(st, index, item, input, sent, repeats - 1);
      assert DoneEvents(index, item, repeats)[..repeats - 1] == DoneEvents(index, item, repeats - 1);
      var mid := RunFrom(st, DoneEvents(index, item, repeats - 1)).value;
      SentAfterRole(mid, index, input, sent);
      RepeatedDoneIsSilent(EmitRole(mid), index, input, sent);
    }
  }

  lemma SentAfterRole(st: State, index: nat, input: string, sent: string)
    requires Sent(st, index, input, sent)
    ensures Sent(EmitRole(st), index, input, sent)
  {
    RoleKeeps(st, index);
  }

  /** The end of a call: it succeeds exactly when the complete input extends what was streamed. */
  lemma EndsSent(st: State, index: nat, item: Item, added: bool, streamed: string, buffer: string, sent: string,
                 input: string, repeats: nat)
    requires Streaming(st, index, added, streamed, buffer, sent) && item.CustomToolCall?
    ensures var next := RunFrom(st,
            [InputDone(0, item.id, index, input)] + DoneEvents(index, item.(input := Some(input)), repeats));
            && (next.Some? <==> streamed <= input)
            && (next.Some? ==> ArgumentsOf(next.value.chunks, index) == sent + (Escape(input[|streamed|..]) + "\"}"))
  {
    RoleKeeps(st, index);
    DoneCloses(EmitRole(st), index, added, streamed, buffer, sent, input);
    hide EmitInputDone, DoneEvents, Escape;
    var done, repeated := InputDone(0, item.id, index, input), DoneEvents(index, item.(input := Some(input)), repeats);
    RunFromOne(st, done);
    RunFromAppend(st, [done], repeated);
    if streamed <= input {
      var mid := RunFrom(st, [done]).value;
      hide RunFrom, Translate;
      RepeatsStaySent(mid, index, item.(input := Some(input)), input, sent + (Escape(input[|streamed|..]) + "\"}"),
                      repeats);
    }
  }

  /** The input the translator has seen before the complete one arrives. */
  function StreamedInput(item: Item, deltas: seq<string>, announced: Option<nat>): string
    requires item.CustomToolCall? && (announced.Some? ==> announced.value <= |deltas|)
  {
    match announced
    case Some(n) => item.input.GetOr(Join(deltas[..n])) + Join(deltas[n..])
    case None => Join(deltas)
  }

  /** Announced first: the fragments are exactly the batch encoding. */
  lemma AnnouncedFirst(st: State, index: nat, item: Item, deltas: seq<string>, input: string, repeats: nat)
    requires Unheard(st, index) && item.CustomToolCall?
    ensures var next := RunFrom(st, CustomCall(index, item, deltas, Some(0), input, repeats));
            && (next.Some? <==> StreamedInput(item, deltas, Some(0)) <= input)
            && (next.Some? ==> ArgumentsOf(next.value.chunks, index) == InputObject(input))
  {
    hide Translate, Streaming, Unheard, InputDeltas, DoneEvents, Escape;
    var added, streaming := ItemAdded(0, index, item), InputDeltas(index, item.id, deltas);
    var ending := [InputDone(0, item.id, index, input)] + DoneEvents(index, item.(input := Some(input)), repeats);
    var announced := item.input.GetOr("");
    var opening := INPUT_OPEN + Escape(announced);
    FirstAnnounced(st, index, item);
    RunFromOne(st, added);
    var first := RunFrom(st, [added]).value;
    DeltasStream(first, index, item.id, true, announced, opening, opening, deltas);
    RunFromAppend(st, [added], streaming);
    var second := RunFrom(first, streaming).value;
    EndsSent(second, index, item, true, announced + Join(deltas), opening + Escape(Join(deltas)),
             opening + Escape(Join(deltas)),
             input, repeats);
    RunFromAppend(st, [added] + streaming, ending);
    assert deltas[..0] == [] && deltas[0..] == deltas;
    NoDeltas(index, item.id);
    assert CustomCall(index, item, deltas, Some(0), input, repeats) == [added] + streaming + ending;
    if announced + Join(deltas) <= input {
      Encoded(announced, Join(deltas), input);
    }
  }

  lemma NoDeltas(index: nat, itemId: Id)
    ensures InputDeltas(index, itemId, []) == []
  {
  }

  lemma Encoded(announced: string, streamed: string, input: string)
    requires announced + streamed <= input
    ensures INPUT_OPEN + Escape(announced) + Escape(streamed) + (Escape(input[|announced + streamed|..]) + "\"}")
         == InputObject(input)
  {
    var missing := input[|announced + streamed|..];
    assert input == announced + streamed + missing;
    EscapeAppend(announced + streamed, missing);
    EscapeAppend(announced, streamed);
    hide Escape;
    Assemble(INPUT_OPEN, Escape(announced), Escape(streamed), Escape(missing), "\"}");
  }

  lemma Assemble(open: string, a: string, b: string, c: string, close: string)
    ensures open + a + b + (c + close) == open + (a + b + c) + close
  {
  }

  /** Never announced: the opening of the object is not streamed, so the fragments are a bare tail. */
  lemma UnannouncedInputIsTruncated(st: State, index: nat, item: Item, deltas: seq<string>, input: string, repeats: nat)
    requires Unheard(st, index) && item.CustomToolCall?
    ensures var next := RunFrom(st, CustomCall(index, item, deltas, None, input, repeats));
            && (next.Some? <==> deltas != [] && Join(deltas) <= input)
            && (next.Some? ==> ArgumentsOf(next.value.chunks, index) == Escape(input) + "\"}")
  {
    var streaming := InputDeltas(index, item.id, deltas);
    var ending := [InputDone(0, item.id, index, input)] + DoneEvents(index, item.(input := Some(input)), repeats);
    assert CustomCall(index, item, deltas, None, input, repeats) == streaming + ending;
    RunFromAppend(st, streaming, ending);
    if deltas == [] {
      NoDeltas(index, item.id);
      DoneUnheard(st, index, item.id, input);
      RunFromAppend(st, [InputDone(0, item.id, index, input)], DoneEvents(index, item.(input := Some(input)), repeats));
    } else {
      hide Translate, Streaming, Unheard, InputDeltas, DoneEvents, Escape, RunFrom;
      UnannouncedDeltas(st, index, item.id, deltas);
      var mid := RunFrom(st, streaming).value;
      EndsSent(mid, index, item, false, Join(deltas), INPUT_OPEN + Escape(Join(deltas)), Escape(Join(deltas)), input,
               repeats);
      if Join(deltas) <= input {
        EscapeWhole(Join(deltas), input);
      }
    }
  }

  lemma DoneUnheard(st: State, index: nat, itemId: Id, input: string)
    requires Unheard(st, index)
    ensures RunFrom(st, [InputDone(0, itemId, index, input)]).None?
  {
    RoleKeeps(st, index);
    RunFromOne(st, InputDone(0, itemId, index, input));
  }

  lemma EscapeWhole(streamed: string, input: string)
    requires streamed <= input
    ensures Escape(streamed) + (Escape(input[|streamed|..]) + "\"}") == Escape(input) + "\"}"
    ensures |Escape(input)| == |Escape(streamed)| + |Escape(input[|streamed|..])|
  {
    assert input == streamed + input[|streamed|..];
    EscapeAppend(streamed, input[|streamed|..]);
    hide Escape;
    Regroup(Escape(streamed), Escape(input[|streamed|..]), "\"}");
  }

  /** Announced after some input: the fragments are longer than the encoding, with the opening in their middle. */
  lemma AnnouncedLate(st: State, index: nat, item: Item, deltas: seq<string>, n: nat, input: string, repeats: nat)
    requires Unheard(st, index) && item.CustomToolCall? && 0 < n <= |deltas|
    ensures var next := RunFrom(st, CustomCall(index, item, deltas, Some(n), input, repeats));
            && (next.Some? <==> StreamedInput(item, deltas, Some(n)) <= input)
            && (next.Some? ==> |ArgumentsOf(next.value.chunks, index)| > |InputObject(input)|)
  {
    hide Translate, Streaming, Unheard, InputDeltas, DoneEvents, Escape, RunFrom;
    var before, added, after := InputDeltas(index, item.id, deltas[..n]),
      ItemAdded(0, index, item), InputDeltas(index, item.id, deltas[n..]);
    var ending := [InputDone(0, item.id, index, input)] + DoneEvents(index, item.(input := Some(input)), repeats);
    var early, late, given := Join(deltas[..n]), Join(deltas[n..]), item.input.GetOr("");
    var again := INPUT_OPEN + Escape(early) + (INPUT_OPEN + Escape(given));
    UnannouncedDeltas(st, index, item.id, deltas[..n]);
    var first := RunFrom(st, before).value;
    LateAnnounced(first, index, item, early, INPUT_OPEN + Escape(early), Escape(early));
    RunFromOne(first, added);
    RunFromAppend(st, before, [added]);
    var second := RunFrom(first, [added]).value;
    var streamed := item.input.GetOr(early);
    DeltasStream(second, index, item.id, true, streamed, again, Escape(early) + again, deltas[n..]);
    RunFromAppend(st, before + [added], after);
    var third := RunFrom(second, after).value;
    EndsSent(third, index, item, true, streamed + late, again + Escape(late), Escape(early) + again + Escape(late),
             input, repeats);
    RunFromAppend(st, before + [added] + after, ending);
    assert CustomCall(index, item, deltas, Some(n), input, repeats) == before + [added] + after + ending;
    if streamed + late <= input {
      LateIsLonger(early, given, streamed, late, input);
    }
  }

  lemma LateIsLonger(early: string, given: string, streamed: string, late: string, input: string)
    requires (streamed == given || (streamed == early && given == "")) && streamed + late <= input
    ensures |Escape(early) + (INPUT_OPEN + Escape(early) + (INPUT_OPEN + Escape(given))) + Escape(late)
             + (Escape(input[|streamed + late|..]) + "\"}")| > |InputObject(input)|
  {
    EscapeWhole(streamed + late, input);
    EscapeAppend(streamed, late);
    hide Escape;
  }

  /** Main result: for a call at a fresh output index, the translation of its stream succeeds exactly when something
      opened the call and the complete input extends what was streamed; and then the Chat argument fragments spell the
      batch encoding of the input object exactly when the announcement came before all input. */
  lemma StreamedInputEqualsBatch(st: State, index: nat, item: Item, deltas: seq<string>, announced: Option<nat>,
                                 input: string, repeats: nat)
    requires Unheard(st, index) && item.CustomToolCall? && (announced.Some? ==> announced.value <= |deltas|)
    ensures var next := RunFrom(st, CustomCall(index, item, deltas, announced, input, repeats));
            && (next.Some? <==> (announced.Some? || deltas != []) && StreamedInput(item, deltas, announced) <= input)
            && (next.Some? ==> (ArgumentsOf(next.value.chunks, index) == InputObject(input) <==> announced == Some(0)))
  {
    hide RunFrom, CustomCall, Unheard, ArgumentsOf;
    match announced
    case Some(n) =>
      if n == 0 {
        AnnouncedFirst(st, index, item, deltas, input, repeats);
      } else {
        AnnouncedLate(st, index, item, deltas, n, input, repeats);
      }
    case None =>
      UnannouncedInputIsTruncated(st, index, item, deltas, input, repeats);
      TailIsShorter(input);
  }

  lemma TailIsShorter(input: string)
    ensures Escape(input) + "\"}" != InputObject(input)
  {
    assert |Escape(input) + "\"}"| < |InputObject(input)|;
  }
}
