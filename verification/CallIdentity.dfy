/** Which call id and which name a Chat client is told for the calls of a Responses stream. */
module CallIdentity {
  import opened Collections
  import opened StreamEvents
  import opened ResponsesToChat
  import JsonString
  import Arrivals = ToolArrivals

  // ---- What the stream says about a call ----

  /** The call at the index exists from its first such event on. */
  predicate OpensCall(e: Event, i: nat) {
    match e
    case ItemAdded(_, j, item) => j == i && (item.FunctionCall? || item.CustomToolCall?)
    case ArgumentsDelta(_, _, j, _) => j == i
    case InputDelta(_, _, j, _) => j == i
    case _ => false
  }

  /** The call id: of the announcement, when that comes first; one made up for the index, when a delta does; and of
      the next announcement as long as it is empty. */
  function IdAt(events: seq<Event>, i: nat): Option<Id> {
    if events == [] then None
    else
      var known, last := IdAt(events[..|events| - 1], i), events[|events| - 1];
      if !OpensCall(last, i) then known
      else match known
        case None => Some(if last.ItemAdded? then last.item.callId else Generated(i))
        case Some(id) => Some(if id == Given("") && last.ItemAdded? then last.item.callId else id)
  }

  /** The name: of the announcement that opened the call, or of the first one that has any; and of the last
      completion of its arguments. */
  function NameAt(events: seq<Event>, i: nat): Option<string> {
    if events == [] then None
    else
      var init, last := events[..|events| - 1], events[|events| - 1];
      var known := NameAt(init, i);
      if last.ArgumentsDone? && last.outputIndex == i && IdAt(init, i).Some? then Some(last.name)
      else if OpensCall(last, i) && last.ItemAdded? && known.None? && (IdAt(init, i).None? || last.item.name != "")
      then Some(last.item.name)
      else known
  }

  lemma IdentitySnoc(events: seq<Event>, e: Event, i: nat)
    ensures IdAt(events + [e], i) ==
            if !OpensCall(e, i) then IdAt(events, i)
            else match IdAt(events, i)
              case None => Some(if e.ItemAdded? then e.item.callId else Generated(i))
              case Some(id) => Some(if id == Given("") && e.ItemAdded? then e.item.callId else id)
    ensures NameAt(events + [e], i) ==
            if e.ArgumentsDone? && e.outputIndex == i && IdAt(events, i).Some? then Some(e.name)
            else if OpensCall(e, i) && e.ItemAdded? && NameAt(events, i).None?
                    && (IdAt(events, i).None? || e.item.name != "")
            then Some(e.item.name)
            else NameAt(events, i)
  {
    assert (events + [e])[..|events|] == events;
    hide OpensCall;
  }

  // ---- One step ----

  ghost predicate Identified(st: State, events: seq<Event>) {
    forall i: nat :: IdentifiedAt(st, events, i)
  }

  ghost predicate IdentifiedAt(st: State, events: seq<Event>, i: nat) {
    && (i in st.calls <==> IdAt(events, i).Some?)
    && (i in st.calls ==> IdAt(events, i) == Some(st.calls[i].callId) && NameAt(events, i) == st.calls[i].name)
    && (i !in st.calls ==> NameAt(events, i).None?)
  }

  /** Completes the input of the custom call at the index. */
  predicate EndsInput(e: Event, i: nat) {
    (e.InputDone? || (e.ItemDone? && e.item.CustomToolCall?)) && e.outputIndex == i
  }

  /** A chunk about a call that `e` sends after `events` carries the call id, and the name unless it only ends an
      input. */
  ghost predicate Carries(chunk: Chunk, events: seq<Event>, e: Event) {
    chunk.CallChunk? ==>
      && (OpensCall(e, chunk.index) || EndsInput(e, chunk.index))
      && IdAt(events + [e], chunk.index) == Some(chunk.callId)
      && chunk.name == if EndsInput(e, chunk.index) then None else Some(NameAt(events + [e], chunk.index).GetOr(""))
  }

  /** The chunks sent by `e` carry what the stream says. */
  ghost predicate Sends(st: State, next: State, events: seq<Event>, e: Event) {
    st.chunks <= next.chunks && forall p | |st.chunks| <= p < |next.chunks| :: Carries(next.chunks[p], events, e)
  }

  /** No call is touched and no chunk about one is sent. */
  ghost predicate Uncalled(st: State, next: State) {
    && next.calls == st.calls && st.chunks <= next.chunks
    && forall p | |st.chunks| <= p < |next.chunks| :: !next.chunks[p].CallChunk?
  }

  lemma UncalledTwice(st: State, mid: State, next: State)
    requires Uncalled(st, mid) && Uncalled(mid, next)
    ensures Uncalled(st, next)
  {
    forall p | |st.chunks| <= p < |next.chunks|
      ensures !next.chunks[p].CallChunk?
    {
      if p < |mid.chunks| {
        assert next.chunks[p] == mid.chunks[p];
      }
    }
  }

  lemma UncalledSends(st: State, next: State, events: seq<Event>, e: Event)
    requires Identified(st, events) && Uncalled(st, next)
    requires forall i: nat :: !OpensCall(e, i) && !(e.ArgumentsDone? && e.outputIndex == i)
    ensures Identified(next, events + [e]) && Sends(st, next, events, e)
  {
    forall i: nat
      ensures IdentifiedAt(next, events + [e], i)
    {
      assert IdentifiedAt(st, events, i);
      IdentitySnoc(events, e, i);
      hide IdAt, NameAt;
    }
  }

  lemma RoleUncalled(st: State)
    ensures Uncalled(st, EmitRole(st))
  {
  }

  lemma ClaimUncalled(st: State, index: nat)
    ensures Uncalled(st, ClaimMessage(st, index).0)
  {
  }

  lemma CompleteUncalled(st: State, text: string)
    ensures Uncalled(st, CompleteText(st, text)) && Uncalled(st, EmitAgentText(st, text))
  {
    hide MissingText;
  }

  lemma AgentDoneUncalled(st: State, index: nat, text: string)
    ensures Uncalled(st, EmitAgentDone(st, index, text).0)
  {
    ClaimUncalled(st, index);
    CompleteUncalled(ClaimMessage(st, index).0.(pendingAgent := None), text);
    hide EmitAgentText;
  }

  lemma TextUncalled(st: State, index: nat, text: string)
    ensures Uncalled(st, EmitTextDelta(ClaimMessage(st, index).0, text))
    ensures Uncalled(st, EmitTextDone(ClaimMessage(st, index).0, text))
  {
    CompleteUncalled(ClaimMessage(st, index).0, text);
    hide CompleteText;
  }

  lemma FinishUncalled(st: State)
    ensures Uncalled(st, Finish(st))
  {
    if !st.completed {
      var ready := EmitRole(st);
      RoleUncalled(st);
      if ready.pendingAgent.Some? {
        CompleteUncalled(ready.(pendingAgent := None), ready.pendingAgent.value);
      }
      hide EmitRole, EmitAgentText;
      var flushed := FlushAgent(ready);
      UncalledTwice(st, ready, flushed);
      hide FlushAgent;
      assert Uncalled(flushed, PushFinish(flushed));
      hide PushFinish;
      UncalledTwice(st, flushed, PushFinish(flushed));
    }
  }

  lemma TerminalUncalled(st: State, output: seq<Item>)
    ensures Uncalled(st, EmitTerminal(st, output).0)
  {
    hide Uncalled, OutputError, EmitAgentDone, Finish, EmitRole;
    var ready, position := EmitRole(st), AgentPosition(output);
    RoleUncalled(st);
    var listed := EmitListedAgent(ready, output).0;
    if !ready.agentSent && position < |output| {
      AgentDoneUncalled(ready, position, output[position].text);
      UncalledTwice(st, ready, listed);
    }
    FinishUncalled(listed);
    UncalledTwice(st, listed, Finish(listed));
  }

  /** The events that open or change no call. */
  predicate Uncalling(e: Event) {
    match e
    case ItemAdded(_, _, item) => !item.FunctionCall? && !item.CustomToolCall?
    case ArgumentsDelta(_, _, _, _) => false
    case ArgumentsDone(_, _, _, _, _) => false
    case InputDelta(_, _, _, _) => false
    case InputDone(_, _, _, _) => false
    case ItemDone(_, _, item) => !item.CustomToolCall?
    case _ => true
  }

  lemma UncallingStep(st: State, e: Event)
    requires Uncalling(e)
    ensures Uncalled(st, Translate(st, e).0)
  {
    hide EmitTextDelta, EmitTextDone, EmitTerminal, EmitAgentDone, Uncalled, EmitRole, ClaimMessage;
    var ready := EmitRole(st);
    RoleUncalled(st);
    SameUncalled(st);
    match e
    case ItemAdded(_, index, item) => AddedUncalled(st, index, item);
    case TextDelta(_, _, index, delta) =>
      ClaimUncalled(ready, index);
      UncalledTwice(st, ready, ClaimMessage(ready, index).0);
      TextUncalled(ready, index, delta);
      UncalledTwice(st, ready, EmitTextDelta(ClaimMessage(ready, index).0, delta));
    case TextDone(_, _, index, text) =>
      ClaimUncalled(ready, index);
      UncalledTwice(st, ready, ClaimMessage(ready, index).0);
      TextUncalled(ready, index, text);
      UncalledTwice(st, ready, EmitTextDone(ClaimMessage(ready, index).0, text));
    case ItemDone(_, index, item) =>
      ClaimUncalled(ready, index);
      UncalledTwice(st, ready, ClaimMessage(ready, index).0);
      if item.AgentMessage? {
        AgentDoneUncalled(ready, index, item.text);
        UncalledTwice(st, ready, EmitAgentDone(ready, index, item.text).0);
      }
    case Terminal(_, output, _, _) => TerminalUncalled(st, output);
    case _ =>
  }

  lemma SameUncalled(st: State)
    ensures Uncalled(st, st)
  {
  }

  lemma AddedUncalled(st: State, index: nat, item: Item)
    requires !item.FunctionCall? && !item.CustomToolCall?
    ensures Uncalled(st, EmitItemAdded(st, index, item).0)
  {
    ClaimUncalled(st, index);
    RoleUncalled(ClaimMessage(st, index).0);
    UncalledTwice(st, ClaimMessage(st, index).0, EmitRole(ClaimMessage(st, index).0));
    hide EmitRole, ClaimMessage;
  }

  /** Only the call at `j` changes, and at most one chunk is sent, about it. */
  lemma OneCall(st: State, ready: State, next: State, events: seq<Event>, e: Event, j: nat)
    requires Identified(st, events) && Uncalled(st, ready) && About(e, j)
    requires j in next.calls && next.calls == ready.calls[j := next.calls[j]]
    requires next.chunks == ready.chunks
             || exists chunk: Chunk ::
                  next.chunks == ready.chunks + [chunk] && chunk.CallChunk? && chunk.index == j && Carries(chunk,
                                                                                                           events, e)
    requires IdentifiedAt(next, events + [e], j)
    ensures Identified(next, events + [e]) && Sends(st, next, events, e)
  {
    forall i: nat
      ensures IdentifiedAt(next, events + [e], i)
    {
      if i != j {
        assert IdentifiedAt(st, events, i);
        IdentitySnoc(events, e, i);
      }
    }
    hide Carries, IdAt, NameAt, IdentifiedAt, OpensCall;
    forall p | |st.chunks| <= p < |next.chunks|
      ensures Carries(next.chunks[p], events, e)
    {
      if p < |ready.chunks| {
        assert !next.chunks[p].CallChunk?;
        NotACall(next.chunks[p], events, e);
      }
    }
  }

  lemma NotACall(chunk: Chunk, events: seq<Event>, e: Event)
    requires !chunk.CallChunk?
    ensures Carries(chunk, events, e)
  {
  }

  lemma AnnounceSends(st: State, ready: State, events: seq<Event>, e: Event)
    requires Identified(st, events) && Uncalled(st, ready)
    requires e.ItemAdded? && (e.item.FunctionCall? || e.item.CustomToolCall?)
    ensures var next := EmitCallAdded(ready, e.outputIndex, e.item);
            Identified(next, events + [e]) && Sends(st, next, events, e)
  {
    var j := e.outputIndex;
    var next := EmitCallAdded(ready, j, e.item);
    assert IdentifiedAt(st, events, j);
    IdentitySnoc(events, e, j);
    hide IdAt, NameAt, OpeningArguments, Identified;
    assert OpensCall(e, j);
    AddedIdentified(st, ready, events, e);
    hide IdentifiedAt;
    if next.chunks != ready.chunks {
      var chunk := next.chunks[|ready.chunks|];
      assert next.chunks == ready.chunks + [chunk] && Carries(chunk, events, e) by {
        hide AddItem;
      }
    }
    hide EmitCallAdded;
    OneCall(st, ready, next, events, e, j);
  }

  lemma AddedIdentified(st: State, ready: State, events: seq<Event>, e: Event)
    requires ready.calls == st.calls && e.ItemAdded? && (e.item.FunctionCall? || e.item.CustomToolCall?)
    requires IdentifiedAt(st, events, e.outputIndex)
    ensures var next, j := EmitCallAdded(ready, e.outputIndex, e.item), e.outputIndex;
            && IdentifiedAt(next, events + [e], j) && j in next.calls && next.calls == ready.calls[j := next.calls[j]]
            && (next.chunks == ready.chunks
                || next.chunks == ready.chunks + [CallChunk(j, next.calls[j].callId, Some(next.calls[j].name.GetOr("")),
                                                            next.calls[j].arguments)])
  {
    IdentitySnoc(events, e, e.outputIndex);
    AddedCall(ready, e.outputIndex, e.item);
    hide IdAt, NameAt, EmitCallAdded;
    assert OpensCall(e, e.outputIndex);
  }

  lemma AddedCall(st: State, j: nat, item: Item)
    requires item.FunctionCall? || item.CustomToolCall?
    ensures var next := EmitCallAdded(st, j, item);
            && j in next.calls && next.calls == st.calls[j := next.calls[j]]
            && (next.chunks == st.chunks
                || next.chunks == st.chunks + [CallChunk(j, next.calls[j].callId, Some(next.calls[j].name.GetOr("")),
                                                         next.calls[j].arguments)])
            && (j !in st.calls ==> next.calls[j].callId == item.callId && next.calls[j].name == Some(item.name))
            && (j in st.calls ==>
                  && next.calls[j].callId == (if st.calls[j].callId == Given("") then item.callId else st.calls[j].callId)
                  && next.calls[j].name == if st.calls[j].name.None? && item.name != "" then Some(item.name)
                                           else st.calls[j].name)
  {
    hide OpeningArguments;
    if j in st.calls {
    } else {
    }
  }

  lemma DeltaSends(st: State, ready: State, events: seq<Event>, e: Event)
    requires Identified(st, events) && Uncalled(st, ready)
    requires e.ArgumentsDelta? || e.InputDelta?
    ensures var next := EmitCallDelta(ready, e.outputIndex, e.itemId, e.delta, e.InputDelta?);
            Identified(next, events + [e]) && Sends(st, next, events, e)
  {
    var j := e.outputIndex;
    var next := EmitCallDelta(ready, j, e.itemId, e.delta, e.InputDelta?);
    assert IdentifiedAt(st, events, j);
    IdentitySnoc(events, e, j);
    hide IdAt, NameAt, JsonString.Escape, Identified;
    assert OpensCall(e, j);
    assert IdentifiedAt(next, events + [e], j);
    var chunk := next.chunks[|ready.chunks|];
    assert next.chunks == ready.chunks + [chunk] && Carries(chunk, events, e);
    OneCall(st, ready, next, events, e, j);
  }

  lemma ArgumentsDoneSends(st: State, ready: State, events: seq<Event>, e: Event)
    requires Identified(st, events) && Uncalled(st, ready) && e.ArgumentsDone?
    ensures var next := EmitArgumentsDone(ready, e.outputIndex, e.name, e.arguments);
            Identified(next, events + [e]) && Sends(st, next, events, e)
  {
    var j := e.outputIndex;
    var next := EmitArgumentsDone(ready, j, e.name, e.arguments);
    assert IdentifiedAt(st, events, j);
    if j in st.calls {
      IdentitySnoc(events, e, j);
      hide IdAt, NameAt, Identified;
      assert IdentifiedAt(next, events + [e], j);
      OneCall(st, ready, next, events, e, j);
    } else {
      forall i: nat
        ensures IdentifiedAt(next, events + [e], i)
      {
        assert IdentifiedAt(st, events, i);
        IdentitySnoc(events, e, i);
        hide IdAt, NameAt;
      }
    }
  }

  lemma InputDoneSends(st: State, ready: State, events: seq<Event>, e: Event, j: nat, input: string)
    requires Identified(st, events) && Uncalled(st, ready) && EmitInputDone(ready, j, input).1.None?
    requires EndsInput(e, j)
    ensures var next := EmitInputDone(ready, j, input).0;
            Identified(next, events + [e]) && Sends(st, next, events, e)
  {
    var next := EmitInputDone(ready, j, input).0;
    assert IdentifiedAt(st, events, j);
    IdentitySnoc(events, e, j);
    hide IdAt, NameAt, JsonString.Escape, Identified;
    assert IdentifiedAt(next, events + [e], j);
    if next.chunks != ready.chunks {
      var chunk := next.chunks[|ready.chunks|];
      assert next.chunks == ready.chunks + [chunk] && Carries(chunk, events, e);
    }
    OneCall(st, ready, next, events, e, j);
  }

  /** Whatever the event, the chunks it sends about calls carry what the stream says. */
  lemma StepSends(st: State, events: seq<Event>, e: Event)
    requires Identified(st, events) && Translate(st, e).1.None?
    ensures var next := Translate(st, e).0; Identified(next, events + [e]) && Sends(st, next, events, e)
  {
    hide EmitCallAdded, EmitCallDelta, EmitArgumentsDone, EmitInputDone, EmitRole, Identified, Sends, Uncalled;
    var ready := EmitRole(st);
    RoleUncalled(st);
    if Uncalling(e) {
      hide Translate;
      UncallingStep(st, e);
      UncalledSends(st, Translate(st, e).0, events, e);
    } else {
      match e
      case ItemAdded(_, _, _) => AnnounceSends(st, ready, events, e);
      case ArgumentsDelta(_, _, _, _) => DeltaSends(st, ready, events, e);
      case ArgumentsDone(_, _, _, _, _) => ArgumentsDoneSends(st, ready, events, e);
      case InputDelta(_, _, _, _) => DeltaSends(st, ready, events, e);
      case InputDone(_, _, index, input) => InputDoneSends(st, ready, events, e, index, input);
      case ItemDone(_, index, item) => InputDoneSends(st, ready, events, e, index, item.input.value);
    }
  }

  // ---- The whole run ----

  lemma {:induction false} RunIdentified(events: seq<Event>)
    requires Run(events).Some?
    ensures Identified(Run(events).value, events)
  {
    hide Translate, Identified;
    if events == [] {
      NothingIdentified();
    } else {
      var init, last := events[..|events| - 1], events[|events| - 1];
      RunIdentified(init);
      StepSends(Run(init).value, init, last);
      assert events == init + [last];
    }
  }

  lemma NothingIdentified()
    ensures Identified(INITIAL, [])
  {
  }

  /** On every error-free run, whatever its events: each event only adds chunks, and a chunk about a call comes from
      an event about its output index and carries the call id the stream gave that call and, unless it ends the
      input of a custom call, its name. */
  lemma EveryChunkIdentified(events: seq<Event>, n: nat)
    requires Run(events).Some? && n < |events|
    ensures Run(events[..n]).Some? && Run(events[..n + 1]).Some?
    ensures Sends(Run(events[..n]).value, Run(events[..n + 1]).value, events[..n], events[n])
  {
    RunPrefix(events, n + 1);
    var upTo := events[..n + 1];
    assert upTo[..n] == events[..n] && upTo[n] == events[n];
    RunIdentified(events[..n]);
    StepSends(Run(events[..n]).value, events[..n], events[n]);
    hide Translate, Identified, Sends;
  }

  lemma {:induction false} RunPrefix(events: seq<Event>, n: nat)
    requires Run(events).Some? && n <= |events|
    ensures Run(events[..n]).Some?
  {
    hide Translate;
    if n == |events| {
      assert events[..n] == events;
    } else {
      assert events[..|events| - 1][..n] == events[..n];
      RunPrefix(events[..|events| - 1], n);
    }
  }

  /** A call's chunks, of which there are some, all name it so. */
  ghost predicate CalledAs(chunks: seq<Chunk>, i: nat, callId: Id, name: string) {
    && (exists p :: 0 <= p < |chunks| && chunks[p].CallChunk? && chunks[p].index == i)
    && (forall p | 0 <= p < |chunks| && chunks[p].CallChunk? && chunks[p].index == i ::
          chunks[p].callId == callId && chunks[p].name == Some(name))
  }

  ghost predicate Unmentioned(chunks: seq<Chunk>, i: nat) {
    forall p | 0 <= p < |chunks| && chunks[p].CallChunk? :: chunks[p].index != i
  }

  /** What a client was told about the item at `i`, whose announcements are `added`. */
  ghost predicate Told(chunks: seq<Chunk>, events: seq<Event>, i: nat, phase: Phase, added: seq<Item>) {
    if IsTool(phase) then
      && |added| == 1 && added[0].FunctionCall? && CalledAs(chunks, i, added[0].callId, added[0].name)
      && IdAt(events, i) == Some(added[0].callId)
      && (phase.ToolOpen? ==> NameAt(events, i) == Some(added[0].name))
    else added == [] && Unmentioned(chunks, i) && IdAt(events, i).None? && NameAt(events, i).None?
  }

  lemma MoreUncalled(chunks: seq<Chunk>, more: seq<Chunk>, i: nat, callId: Id, name: string)
    requires chunks <= more
    requires forall p | |chunks| <= p < |more| && more[p].CallChunk? && more[p].index == i ::
               more[p].callId == callId && more[p].name == Some(name)
    ensures CalledAs(chunks, i, callId, name) ==> CalledAs(more, i, callId, name)
  {
    forall p | 0 <= p < |chunks|
      ensures more[p] == chunks[p]
    {
    }
  }

  lemma StillUnmentioned(chunks: seq<Chunk>, more: seq<Chunk>, i: nat)
    requires chunks <= more && Unmentioned(chunks, i)
    requires forall p | |chunks| <= p < |more| && more[p].CallChunk? :: more[p].index != i
    ensures Unmentioned(more, i)
  {
    forall p | 0 <= p < |more| && more[p].CallChunk?
      ensures more[p].index != i
    {
      if p < |chunks| {
        assert more[p] == chunks[p];
      }
    }
  }

  ghost predicate AllCalled(chunks: seq<Chunk>, i: nat, callId: Id) {
    forall p | 0 <= p < |chunks| && chunks[p].CallChunk? && chunks[p].index == i :: chunks[p].callId == callId
  }

  /** The event at `n` is the first about the call and gives it this id, which is not empty. */
  predicate OpensAs(events: seq<Event>, n: nat, i: nat, callId: Id)
    requires n < |events|
  {
    && OpensCall(events[n], i) && (forall m | 0 <= m < n :: !OpensCall(events[m], i))
    && callId == (if events[n].ItemAdded? then events[n].item.callId else Generated(i)) && callId != Given("")
  }

  lemma {:induction false} NotOpened(events: seq<Event>, i: nat)
    requires Run(events).Some? && forall m | 0 <= m < |events| :: !OpensCall(events[m], i)
    ensures IdAt(events, i).None? && Unmentioned(Run(events).value.chunks, i)
  {
    hide Translate, OpensCall;
    if events != [] {
      var init, last := events[..|events| - 1], events[|events| - 1];
      NotOpened(init, i);
      RunIdentified(init);
      StepSends(Run(init).value, init, last);
      assert events == init + [last];
      hide Identified, IdAt, NameAt;
      StillUnmentioned(Run(init).value.chunks, Run(events).value.chunks, i);
    }
  }

  /** On every error-free run, a call whose first event gives it an id that is not empty, its announcement's or the
      one made up for its index, keeps this id in every chunk about it. */
  lemma {:induction false} OneIdPerCall(events: seq<Event>, n: nat, i: nat, callId: Id)
    requires Run(events).Some? && n < |events| && OpensAs(events, n, i, callId)
    ensures IdAt(events, i) == Some(callId) && AllCalled(Run(events).value.chunks, i, callId)
  {
    var init, last := events[..|events| - 1], events[|events| - 1];
    assert events == init + [last];
    hide Translate, OpensCall;
    RunIdentified(init);
    StepSends(Run(init).value, init, last);
    IdentitySnoc(init, last, i);
    if n < |init| {
      assert forall m | 0 <= m <= n :: init[m] == events[m];
      OneIdPerCall(init, n, i, callId);
    } else {
      NotOpened(init, i);
    }
    hide Identified, IdAt, NameAt;
    AddedCalled(Run(init).value.chunks, Run(events).value.chunks, init, last, i, callId);
  }

  lemma AddedCalled(chunks: seq<Chunk>, more: seq<Chunk>, events: seq<Event>, e: Event, i: nat, callId: Id)
    requires chunks <= more && forall p | |chunks| <= p < |more| :: Carries(more[p], events, e)
    requires IdAt(events + [e], i) == Some(callId) && (AllCalled(chunks, i, callId) || Unmentioned(chunks, i))
    ensures AllCalled(more, i, callId)
  {
    hide IdAt, NameAt;
    forall p | 0 <= p < |more| && more[p].CallChunk? && more[p].index == i
      ensures more[p].callId == callId
    {
      if p < |chunks| {
        assert chunks[p] == more[p];
      } else {
        assert Carries(more[p], events, e);
      }
    }
  }

  /** Announcing a new call sends a chunk about it. */
  lemma AnnouncementHeard(st: State, e: Event)
    requires e.ItemAdded? && e.item.FunctionCall? && e.outputIndex !in st.calls
    ensures var next := Translate(st, e).0;
            && next.chunks != [] && |next.chunks| > |st.chunks|
            && next.chunks[|next.chunks| - 1].CallChunk? && next.chunks[|next.chunks| - 1].index == e.outputIndex
  {
    hide AddItem;
  }

  lemma {:induction false} RunTold(events: seq<Event>, i: nat)
    requires Run(events).Some? && !PhaseOf(events, i).Broken?
    ensures Told(Run(events).value.chunks, events, i, PhaseOf(events, i), Arrivals.AddedItems(events, i))
  {
    hide Translate, Told;
    if events == [] {
      NothingTold(i);
    } else {
      var init, last := events[..|events| - 1], events[|events| - 1];
      assert events == init + [last];
      PhaseSnoc(init, last, i);
      RunTold(init, i);
      RunIdentified(init);
      Arrivals.SaidSnoc(init, last, i);
      hide Run, PhaseOf, Arrivals.AddedItems;
      StepTold(Run(init).value, init, last, i, PhaseOf(init, i), Arrivals.AddedItems(init, i));
    }
  }

  lemma NothingTold(i: nat)
    ensures Told([], [], i, Absent, [])
  {
  }

  lemma StepTold(st: State, events: seq<Event>, e: Event, i: nat, phase: Phase, added: seq<Item>)
    requires Identified(st, events) && Translate(st, e).1.None? && Told(st.chunks, events, i, phase, added)
    requires !(if About(e, i) then Advance(phase, e) else phase).Broken? && !phase.Broken?
    ensures Told(Translate(st, e).0.chunks, events + [e], i, if About(e, i) then Advance(phase, e) else phase,
                 added + if e.ItemAdded? && e.item.FunctionCall? && e.outputIndex == i then [e.item] else [])
  {
    var next := Translate(st, e).0;
    StepSends(st, events, e);
    IdentitySnoc(events, e, i);
    assert added + [] == added;
    if !About(e, i) {
      OtherTold(st, next, events, e, i, phase, added);
    } else if e.ItemAdded? && e.item.FunctionCall? {
      assert IdentifiedAt(st, events, i);
      AnnouncementHeard(st, e);
      hide Translate, IdAt, NameAt, Identified;
      assert phase.Absent? && added == [];
      FirstTold(st.chunks, next.chunks, events, e, i);
    } else {
      hide Translate, Identified;
      AboutTold(st.chunks, next.chunks, events, e, i, phase, added);
    }
  }

  lemma OtherTold(st: State, next: State, events: seq<Event>, e: Event, i: nat, phase: Phase, added: seq<Item>)
    requires Sends(st, next, events, e) && Told(st.chunks, events, i, phase, added) && !About(e, i)
    ensures Told(next.chunks, events + [e], i, phase, added)
  {
    IdentitySnoc(events, e, i);
    forall p | |st.chunks| <= p < |next.chunks| && next.chunks[p].CallChunk?
      ensures next.chunks[p].index != i
    {
      assert Carries(next.chunks[p], events, e);
    }
    hide IdAt, NameAt, Carries, CalledAs, Unmentioned;
    if IsTool(phase) {
      MoreUncalled(st.chunks, next.chunks, i, added[0].callId, added[0].name);
    } else {
      StillUnmentioned(st.chunks, next.chunks, i);
    }
  }

  lemma FirstTold(chunks: seq<Chunk>, more: seq<Chunk>, events: seq<Event>, e: Event, i: nat)
    requires Unmentioned(chunks, i) && IdAt(events, i).None? && NameAt(events, i).None?
    requires e.ItemAdded? && e.item.FunctionCall? && e.outputIndex == i
    requires chunks <= more && |more| > |chunks| && more[|more| - 1].CallChunk? && more[|more| - 1].index == i
    requires forall p | |chunks| <= p < |more| :: Carries(more[p], events, e)
    ensures Told(more, events + [e], i, ToolOpen(""), [e.item])
  {
    IdentitySnoc(events, e, i);
    hide IdAt, NameAt;
    forall p | 0 <= p < |more| && more[p].CallChunk? && more[p].index == i
      ensures more[p].callId == e.item.callId && more[p].name == Some(e.item.name)
    {
      if p >= |chunks| {
        assert Carries(more[p], events, e);
      }
    }
  }

  lemma AboutTold(chunks: seq<Chunk>, more: seq<Chunk>, events: seq<Event>, e: Event, i: nat, phase: Phase,
                  added: seq<Item>)
    requires Told(chunks, events, i, phase, added) && About(e, i) && !(e.ItemAdded? && e.item.FunctionCall?)
    requires !Advance(phase, e).Broken? && chunks <= more
    requires forall p | |chunks| <= p < |more| :: Carries(more[p], events, e)
    ensures Told(more, events + [e], i, Advance(phase, e), added)
  {
    IdentitySnoc(events, e, i);
    hide IdAt, NameAt;
    forall p | |chunks| <= p < |more| && more[p].CallChunk? && more[p].index == i
      ensures Carries(more[p], events, e) && e.outputIndex == i
    {
    }
    if IsTool(phase) {
      hide CalledAs, Unmentioned;
      MoreUncalled(chunks, more, i, added[0].callId, added[0].name);
    } else {
      hide CalledAs, Unmentioned;
      StillUnmentioned(chunks, more, i);
    }
  }

  /** Main result: on every error-free run, a call whose events keep to announced, deltas, done was announced
      exactly once, and every chunk about it, of which there is at least one, carries the call id and the name it
      was announced with. */
  lemma CallsAreNamed(events: seq<Event>, i: nat)
    requires Run(events).Some? && IsTool(PhaseOf(events, i))
    ensures var added := Arrivals.AddedItems(events, i);
            && |added| == 1 && added[0].FunctionCall?
            && CalledAs(Run(events).value.chunks, i, added[0].callId, added[0].name)
            && CalledAs(Finish(Run(events).value).chunks, i, added[0].callId, added[0].name)
  {
    RunTold(events, i);
    FinishUncalled(Run(events).value);
    hide Run, PhaseOf, Arrivals.AddedItems, Finish, CalledAs;
    var st, item := Run(events).value, Arrivals.AddedItems(events, i)[0];
    MoreUncalled(st.chunks, Finish(st).chunks, i, item.callId, item.name);
  }
}
