/** Streaming a function call's arguments reads as the upstream sent them, exactly when nothing of them came before
    the call's announcement. */
module FunctionToolStream {
  import opened Collections
  import opened StreamEvents
  import opened ResponsesToChat
  import opened CustomToolStream

  function ArgumentsDeltas(index: nat, itemId: Id, deltas: seq<string>): seq<Event> {
    seq(|deltas|, k requires 0 <= k < |deltas| => ArgumentsDelta(0, itemId, index, deltas[k]))
  }

  /** The events of one function call: its deltas, the complete arguments and the item's done event, with the
      announcement after the first `announced` of the deltas, behind the complete arguments, or nowhere. */
  function CallEvents(index: nat, item: Item, deltas: seq<string>, announced: Option<nat>, arguments: string): seq<Event>
    requires item.FunctionCall? && (announced.Some? ==> announced.value <= |deltas| + 1)
  {
    var added := [ItemAdded(0, index, item)];
    var complete, done := [ArgumentsDone(0, item.id, index, item.name, arguments)], [ItemDone(0, index, item)];
    match announced
    case None => ArgumentsDeltas(index, item.id, deltas) + complete + done
    case Some(n) =>
      if n > |deltas| then ArgumentsDeltas(index, item.id, deltas) + complete + added + done
      else
        ArgumentsDeltas(index, item.id, deltas[..n]) + added + ArgumentsDeltas(index, item.id, deltas[n..])
        + complete + done
  }

  // ---- Steps ----

  /** The call while it is open: whether it was announced, the arguments buffered and the fragments sent. */
  ghost predicate Open(st: State, index: nat, added: bool, buffer: string, sent: string) {
    && index in st.calls && !st.calls[index].custom && st.calls[index].added == added
    && st.calls[index].arguments == buffer
    && ArgumentsOf(st.chunks, index) == sent
  }

  lemma AnnouncedAtOnce(st: State, index: nat, item: Item)
    requires Unheard(st, index) && item.FunctionCall?
    ensures var (next, error) := Translate(st, ItemAdded(0, index, item));
            error.None? && Open(next, index, true, item.arguments, item.arguments)
  {
    RoleKeeps(st, index);
    var ready := EmitRole(st);
    hide EmitRole, ArgumentsOf;
    var next := EmitCallAdded(ready, index, item);
    ChunkSnoc(ready.chunks, next.chunks[|next.chunks| - 1]);
    assert "" + item.arguments == item.arguments;
  }

  /** An announcement that comes late sends what was buffered again. */
  lemma AnnouncedAgain(st: State, index: nat, item: Item, buffer: string, sent: string)
    requires Open(st, index, false, buffer, sent) && item.FunctionCall?
    ensures var (next, error) := Translate(st, ItemAdded(0, index, item));
            error.None? && Open(next, index, true, buffer + item.arguments, sent + (buffer + item.arguments))
  {
    RoleKeeps(st, index);
    var ready := EmitRole(st);
    hide EmitRole, ArgumentsOf;
    var next := EmitCallAdded(ready, index, item);
    ChunkSnoc(ready.chunks, next.chunks[|next.chunks| - 1]);
  }

  lemma DeltaOpens(st: State, index: nat, itemId: Id, delta: string)
    requires Unheard(st, index)
    ensures var (next, error) := Translate(st, ArgumentsDelta(0, itemId, index, delta));
            error.None? && Open(next, index, false, delta, delta)
  {
    RoleKeeps(st, index);
    var ready := EmitRole(st);
    hide EmitRole, ArgumentsOf;
    var next := EmitCallDelta(ready, index, itemId, delta, false);
    ChunkSnoc(ready.chunks, next.chunks[|next.chunks| - 1]);
    assert "" + "" + delta == delta;
  }

  lemma DeltaExtends(st: State, index: nat, itemId: Id, added: bool, buffer: string, sent: string, delta: string)
    requires Open(st, index, added, buffer, sent)
    ensures var (next, error) := Translate(st, ArgumentsDelta(0, itemId, index, delta));
            error.None? && Open(next, index, added, buffer + delta, sent + delta)
  {
    RoleKeeps(st, index);
    var ready := EmitRole(st);
    hide EmitRole, ArgumentsOf;
    var next := EmitCallDelta(ready, index, itemId, delta, false);
    ChunkSnoc(ready.chunks, next.chunks[|next.chunks| - 1]);
    assert buffer + "" == buffer;
  }

  /** Complete arguments replace the buffer of an open call and send nothing. */
  lemma CompleteReplaces(st: State, index: nat, item: Item, added: bool, buffer: string, sent: string, arguments: string)
    requires item.FunctionCall?
    ensures var (next, error) := Translate(st, ArgumentsDone(0, item.id, index, item.name, arguments));
            && error.None?
            && (Open(st, index, added, buffer, sent) ==> Open(next, index, added, arguments, sent))
            && (Unheard(st, index) ==> Unheard(next, index))
  {
    RoleKeeps(st, index);
    hide EmitRole, ArgumentsOf;
  }

  lemma DoneIsSilent(st: State, index: nat, item: Item)
    requires item.FunctionCall?
    ensures var (next, error) := Translate(st, ItemDone(0, index, item));
            error.None? && ArgumentsOf(next.chunks, index) == ArgumentsOf(st.chunks, index)
  {
    RoleKeeps(st, index);
    hide EmitRole, ArgumentsOf;
  }

  // ---- The whole stream ----

  lemma {:induction false} DeltasExtend(
    st: State, index: nat, itemId: Id, added: bool, buffer: string, sent: string, deltas: seq<string>)
    requires Open(st, index, added, buffer, sent)
    ensures var next := RunFrom(st, ArgumentsDeltas(index, itemId, deltas));
            next.Some? && Open(next.value, index, added, buffer + Join(deltas), sent + Join(deltas))
  {
    hide Translate, Open;
    if deltas == [] {
      assert buffer + "" == buffer && sent + "" == sent;
    } else {
      var init, last := deltas[..|deltas| - 1], deltas[|deltas| - 1];
      DeltasExtend(st, index, itemId, added, buffer, sent, init);
      assert ArgumentsDeltas(index, itemId, deltas)[..|deltas| - 1] == ArgumentsDeltas(index, itemId, init);
      DeltaExtends(RunFrom(st, ArgumentsDeltas(index, itemId, init)).value, index, itemId, added,
                   buffer + Join(init), sent + Join(init), last);
      Regroup(buffer, Join(init), last);
      Regroup(sent, Join(init), last);
    }
  }

  /** Deltas open the call, if there are any. */
  lemma DeltasOpen(st: State, index: nat, itemId: Id, deltas: seq<string>)
    requires Unheard(st, index)
    ensures var next := RunFrom(st, ArgumentsDeltas(index, itemId, deltas));
            && next.Some?
            && (deltas == [] ==> Unheard(next.value, index))
            && (deltas != [] ==> Open(next.value, index, false, Join(deltas), Join(deltas)))
  {
    hide Translate, Open, Unheard, ArgumentsOf;
    if deltas == [] {
      assert ArgumentsDeltas(index, itemId, deltas) == [];
    } else {
      var first, rest := deltas[0], deltas[1..];
      DeltaOpens(st, index, itemId, first);
      RunFromOne(st, ArgumentsDelta(0, itemId, index, first));
      var mid := RunFrom(st, [ArgumentsDelta(0, itemId, index, first)]).value;
      DeltasExtend(mid, index, itemId, false, first, first, rest);
      RunFromAppend(st, [ArgumentsDelta(0, itemId, index, first)], ArgumentsDeltas(index, itemId, rest));
      assert ArgumentsDeltas(index, itemId, deltas)
          == [ArgumentsDelta(0, itemId, index, first)] + ArgumentsDeltas(index, itemId, rest);
      assert deltas == [first] + rest;
      JoinOne(first);
      JoinAppend([first], rest);
    }
  }

  /** The announcement, late or first. */
  lemma Announces(st: State, index: nat, item: Item, buffer: string)
    requires item.FunctionCall? && (Open(st, index, false, buffer, buffer) || (Unheard(st, index) && buffer == ""))
    ensures var next := RunFrom(st, [ItemAdded(0, index, item)]);
            next.Some? && Open(next.value, index, true, buffer + item.arguments, buffer + (buffer + item.arguments))
  {
    RunFromOne(st, ItemAdded(0, index, item));
    hide Translate, Open, Unheard, RunFrom;
    if Unheard(st, index) && buffer == "" {
      AnnouncedAtOnce(st, index, item);
      assert "" + item.arguments == item.arguments && "" + ("" + item.arguments) == item.arguments;
    } else {
      AnnouncedAgain(st, index, item, buffer, buffer);
    }
  }

  /** The last two events add nothing. */
  lemma CompletesSilently(st: State, index: nat, item: Item, arguments: string)
    requires item.FunctionCall? && (index in st.calls ==> !st.calls[index].custom)
    requires index !in st.calls ==> Unheard(st, index)
    ensures var next := RunFrom(st, [ArgumentsDone(0, item.id, index, item.name, arguments)] + [ItemDone(0, index,
                                                                                                         item)]);
            next.Some? && ArgumentsOf(next.value.chunks, index) == ArgumentsOf(st.chunks, index)
  {
    var complete, done := ArgumentsDone(0, item.id, index, item.name, arguments), ItemDone(0, index, item);
    RunFromAppend(st, [complete], [done]);
    RunFromOne(st, complete);
    var added, buffer := index in st.calls && st.calls[index].added,
                         if index in st.calls then st.calls[index].arguments else "";
    CompleteReplaces(st, index, item, added, buffer, ArgumentsOf(st.chunks, index), arguments);
    hide Translate, RunFrom, ArgumentsOf;
    var mid := RunFrom(st, [complete]).value;
    RunFromOne(mid, done);
    DoneIsSilent(mid, index, item);
  }

  /** Announced among the deltas, or before them. */
  lemma AnnouncedAmong(st: State, index: nat, item: Item, deltas: seq<string>, n: nat, arguments: string)
    requires Unheard(st, index) && item.FunctionCall? && n <= |deltas|
    ensures var next, early := RunFrom(st, CallEvents(index, item, deltas, Some(n), arguments)), Join(deltas[..n]);
            && next.Some?
            && ArgumentsOf(next.value.chunks, index) == early + (early + item.arguments) + Join(deltas[n..])
  {
    hide Translate, Open, Unheard, ArgumentsDeltas, RunFrom, ArgumentsOf;
    var before, added, after := ArgumentsDeltas(index, item.id, deltas[..n]),
      [ItemAdded(0, index, item)], ArgumentsDeltas(index, item.id, deltas[n..]);
    var complete, done := [ArgumentsDone(0, item.id, index, item.name, arguments)], [ItemDone(0, index, item)];
    var early, late := Join(deltas[..n]), Join(deltas[n..]);
    DeltasOpen(st, index, item.id, deltas[..n]);
    var first := RunFrom(st, before).value;
    Announces(first, index, item, early);
    RunFromAppend(st, before, added);
    var second := RunFrom(first, added).value;
    DeltasExtend(second, index, item.id, true, early + item.arguments, early + (early + item.arguments), deltas[n..]);
    RunFromAppend(st, before + added, after);
    var third := RunFrom(second, after).value;
    OpenIs(third, index, true, early + item.arguments + late, early + (early + item.arguments) + late);
    CompletesSilently(third, index, item, arguments);
    RunFromAppend(st, before + added + after, complete + done);
    assert CallEvents(index, item, deltas, Some(n), arguments) == before + added + after + (complete + done);
  }

  lemma OpenIs(st: State, index: nat, added: bool, buffer: string, sent: string)
    requires Open(st, index, added, buffer, sent)
    ensures index in st.calls && !st.calls[index].custom && ArgumentsOf(st.chunks, index) == sent
  {
  }

  lemma UnheardIs(st: State, index: nat)
    requires Unheard(st, index)
    ensures index !in st.calls && ArgumentsOf(st.chunks, index) == ""
  {
  }

  /** Never announced: the deltas alone. */
  lemma NeverAnnounced(st: State, index: nat, item: Item, deltas: seq<string>, arguments: string)
    requires Unheard(st, index) && item.FunctionCall?
    ensures var next := RunFrom(st, CallEvents(index, item, deltas, None, arguments));
            next.Some? && ArgumentsOf(next.value.chunks, index) == Join(deltas)
  {
    hide Translate, Open, Unheard, ArgumentsDeltas, RunFrom, ArgumentsOf;
    var streaming := ArgumentsDeltas(index, item.id, deltas);
    var complete, done := [ArgumentsDone(0, item.id, index, item.name, arguments)], [ItemDone(0, index, item)];
    DeltasOpen(st, index, item.id, deltas);
    var first := RunFrom(st, streaming).value;
    if deltas == [] {
      UnheardIs(first, index);
    } else {
      OpenIs(first, index, false, Join(deltas), Join(deltas));
    }
    CompletesSilently(first, index, item, arguments);
    RunFromAppend(st, streaming, complete + done);
    assert CallEvents(index, item, deltas, None, arguments) == streaming + (complete + done);
  }

  /** Announced behind the complete arguments: they are sent after the deltas. */
  lemma AnnouncedLast(st: State, index: nat, item: Item, deltas: seq<string>, arguments: string)
    requires Unheard(st, index) && item.FunctionCall?
    ensures var next := RunFrom(st, CallEvents(index, item, deltas, Some(|deltas| + 1), arguments));
            && next.Some?
            && ArgumentsOf(next.value.chunks, index)
               == if deltas == [] then item.arguments else Join(deltas) + (arguments + item.arguments)
  {
    hide Translate, Open, Unheard, ArgumentsDeltas, RunFrom, ArgumentsOf;
    var streaming, added := ArgumentsDeltas(index, item.id, deltas), ItemAdded(0, index, item);
    var complete, done := ArgumentsDone(0, item.id, index, item.name, arguments), ItemDone(0, index, item);
    DeltasOpen(st, index, item.id, deltas);
    var first := RunFrom(st, streaming).value;
    CompleteReplaces(first, index, item, false, Join(deltas), Join(deltas), arguments);
    RunFromOne(first, complete);
    RunFromAppend(st, streaming, [complete]);
    var second := RunFrom(first, [complete]).value;
    RunFromOne(second, added);
    if deltas == [] {
      AnnouncedAtOnce(second, index, item);
    } else {
      AnnouncedAgain(second, index, item, arguments, Join(deltas));
    }
    RunFromAppend(st, streaming + [complete], [added]);
    var third := RunFrom(second, [added]).value;
    if deltas == [] {
      OpenIs(third, index, true, item.arguments, item.arguments);
    } else {
      OpenIs(third, index, true, arguments + item.arguments, Join(deltas) + (arguments + item.arguments));
    }
    RunFromOne(third, done);
    DoneIsSilent(third, index, item);
    RunFromAppend(st, streaming + [complete] + [added], [done]);
    assert CallEvents(index, item, deltas, Some(|deltas| + 1), arguments) == streaming + [complete] + [added] + [done];
  }

  /** What of the arguments reached the translator before the announcement. */
  function Before(deltas: seq<string>, announced: nat, arguments: string): string
    requires announced <= |deltas| + 1
  {
    if announced <= |deltas| then Join(deltas[..announced]) else if deltas == [] then "" else arguments
  }

  /** Main result: a function call at a fresh output index is translated without error wherever its announcement
      comes; and when the complete arguments are those of the announcement followed by the deltas, the Chat
      fragments spell them exactly when nothing of them came before the announcement, or, for a call never
      announced, when the announcement would have had none. */
  lemma StreamedArgumentsAreSentIff(st: State, index: nat, item: Item, deltas: seq<string>, announced: Option<nat>,
                                    arguments: string)
    requires Unheard(st, index) && item.FunctionCall? && (announced.Some? ==> announced.value <= |deltas| + 1)
    requires arguments == item.arguments + Join(deltas)
    ensures var next := RunFrom(st, CallEvents(index, item, deltas, announced, arguments));
            && next.Some?
            && (ArgumentsOf(next.value.chunks, index) == arguments <==>
                match announced
                case Some(n) => Before(deltas, n, arguments) == ""
                case None => item.arguments == "")
  {
    hide RunFrom, CallEvents, Unheard, ArgumentsOf;
    match announced
    case None => NeverAnnounced(st, index, item, deltas, arguments);
    case Some(n) =>
      if n <= |deltas| {
        AnnouncedAmong(st, index, item, deltas, n, arguments);
        JoinAppend(deltas[..n], deltas[n..]);
        assert deltas == deltas[..n] + deltas[n..];
        hide Join;
        SentAmong(Join(deltas[..n]), item.arguments, Join(deltas[n..]));
      } else {
        AnnouncedLast(st, index, item, deltas, arguments);
        hide Join;
        assert deltas == [] ==> arguments == item.arguments + "";
      }
  }

  lemma SentAmong(early: string, given: string, late: string)
    ensures early + (early + given) + late == given + (early + late) <==> early == ""
  {
    if early == "" {
      assert "" + ("" + given) + late == given + late && given + ("" + late) == given + late;
    } else {
      assert |early + (early + given) + late| > |given + (early + late)|;
    }
  }
}
