/** Whole streams through the canonicalizer: one terminal per choice, one identity, usage last. */
module ChatCanonicalizerRuns {
  import opened Collections
  import opened ChatCanonicalizer

  // ---- Runs ----

  /** The canonicalizer and everything it emitted. */
  datatype World = World(st: State, emitted: seq<Chunk>)

  function Run(start: State, events: seq<EventIn>): Option<World> {
    if events == [] then Some(World(start, []))
    else match Run(start, events[..|events| - 1])
      case None => None
      case Some(w) =>
        var (st, chunks) := Push(w.st, events[|events| - 1]);
        if chunks.None? then None else Some(World(st, w.emitted + chunks.value))
  }

  /** All chunks of an error-free stream, from the first event to the end. */
  function Stream(start: State, events: seq<EventIn>): Option<seq<Chunk>> {
    match Run(start, events)
    case None => None
    case Some(w) => match Finish(w.st).1 case None => None case Some(tail) => Some(w.emitted + tail)
  }

  // ---- What the client counts ----

  predicate CarriesCall(choice: ChoiceOut, i: nat) {
    choice.index == i && choice.delta.Some? && choice.delta.value.hasCall
  }

  predicate CarriesOutput(choice: ChoiceOut, i: nat) {
    choice.index == i && choice.delta.Some? && choice.delta.value.hasOutput
  }

  predicate IsTerminal(choice: ChoiceOut, i: nat) {
    choice.index == i && choice.finish.Some?
  }

  function CountIn(choices: seq<ChoiceOut>, counts: (ChoiceOut, nat) -> bool, i: nat): nat {
    if choices == [] then 0
    else CountIn(choices[..|choices| - 1], counts, i) + if counts(choices[|choices| - 1], i) then 1 else 0
  }

  function Count(chunks: seq<Chunk>, counts: (ChoiceOut, nat) -> bool, i: nat): nat {
    if chunks == [] then 0
    else Count(chunks[..|chunks| - 1], counts, i) + CountIn(chunks[|chunks| - 1].choices, counts, i)
  }

  lemma CountInSnoc(choices: seq<ChoiceOut>, last: ChoiceOut, counts: (ChoiceOut, nat) -> bool, i: nat)
    ensures CountIn(choices + [last], counts, i) == CountIn(choices, counts, i) + if counts(last, i) then 1 else 0
  {
    assert (choices + [last])[..|choices|] == choices;
  }

  lemma {:induction false} CountAppend(left: seq<Chunk>, right: seq<Chunk>, counts: (ChoiceOut, nat) -> bool, i: nat)
    ensures Count(left + right, counts, i) == Count(left, counts, i) + Count(right, counts, i)
  {
    if right == [] {
      assert left + right == left;
    } else {
      assert (left + right)[..|left + right| - 1] == left + right[..|right| - 1];
      CountAppend(left, right[..|right| - 1], counts, i);
    }
  }

  lemma CountOne(chunk: Chunk, counts: (ChoiceOut, nat) -> bool, i: nat)
    ensures Count([chunk], counts, i) == CountIn(chunk.choices, counts, i)
  {
    assert [chunk][..0] == [];
  }

  // ---- One chunk ----

  /** What the choices of a chunk add to the state's sets. */
  ghost predicate Adds(st: State, next: State, outs: seq<ChoiceOut>) {
    && (forall i: nat :: CountIn(outs, IsTerminal, i) == if i in next.terminals && i !in st.terminals then 1 else 0)
    && (forall i: nat :: i in next.sawCall <==> i in st.sawCall || CountIn(outs, CarriesCall, i) > 0)
    && (forall i: nat :: i in next.sawOutput <==> i in st.sawOutput || CountIn(outs, CarriesOutput, i) > 0)
    && st.terminals <= next.terminals
  }

  ghost predicate Frame(st: State, next: State) {
    && next.id == st.id && next.model == st.model && next.created == st.created
    && next.locked == st.locked && next.usage == st.usage
    && SeenIndices(st) <= SeenIndices(next)
  }

  /** Every index used is one the stream has fixed; a reason of `tool_calls` needs a call. */
  ghost predicate Sound(st: State, outs: seq<ChoiceOut>) {
    forall k | 0 <= k < |outs| ::
      && outs[k].index in SeenIndices(st)
      && (outs[k].finish == Some("tool_calls") ==> outs[k].index in st.sawCall)
  }

  lemma FixedSees(st: State, position: nat, incoming: Option<nat>)
    requires IndexAt(st, position, incoming).Some?
    ensures var index := IndexAt(st, position, incoming).value;
            SeenIndices(st.(indices := Fixed(st.indices, position, index))) == SeenIndices(st) + {index}
  {
    var index := IndexAt(st, position, incoming).value;
    var fixed := Fixed(st.indices, position, index);
    assert fixed[position] == Some(index);
    assert forall p | 0 <= p < |st.indices| && p != position :: fixed[p] == st.indices[p];
    assert forall p | |st.indices| <= p < |fixed| && p != position :: fixed[p] == None;
    var before, after := SeenIndices(st), SeenIndices(st.(indices := fixed));
    forall i | i in before
      ensures i in after
    {
      var p :| 0 <= p < |st.indices| && st.indices[p] == Some(i);
      assert fixed[p] == Some(i);
    }
    forall i | i in after
      ensures i in before || i == index
    {
      var p :| 0 <= p < |fixed| && fixed[p] == Some(i);
    }
  }

  lemma ReasonNeedsCall(hasCall: bool, reason: string)
    ensures NormalizeReason(hasCall, reason) == Some("tool_calls") ==> hasCall
  {
  }

  lemma ChoiceAdds(st: State, position: nat, choice: ChoiceIn)
    requires PushChoice(st, position, choice).1.Some?
    ensures var (next, out) := PushChoice(st, position, choice);
            && Frame(st, next) && out.value.index in SeenIndices(next)
            && next.terminals == With(st.terminals, out.value.index, out.value.finish.Some?)
            && (out.value.finish.Some? ==> out.value.index !in st.terminals)
            && out.value.delta.Some?
            && next.sawCall == With(st.sawCall, out.value.index, out.value.delta.value.hasCall)
            && next.sawOutput == With(st.sawOutput, out.value.index, out.value.delta.value.hasOutput)
            && (out.value.finish == Some("tool_calls") ==> out.value.index in next.sawCall)
            && out.value.delta == choice.delta
  {
    FixedSees(st, position, choice.index);
    hide Fixed, NormalizeReason;
    var (next, out) := PushChoice(st, position, choice);
    var observed := Observe(st, position, out.value.index, choice.delta.value);
    assert SeenIndices(observed) == SeenIndices(next) by {
      SameSeen(observed, next);
    }
    assert SeenIndices(observed) == SeenIndices(st.(indices := observed.indices)) by {
      SameSeen(observed, st.(indices := observed.indices));
    }
    if choice.finish.Present? {
      ReasonNeedsCall(out.value.index in observed.sawCall, choice.finish.value);
    }
  }

  lemma SameSeen(left: State, right: State)
    requires left.indices == right.indices
    ensures SeenIndices(left) == SeenIndices(right)
  {
  }

  lemma {:induction false} ChoicesAdd(st: State, choices: seq<ChoiceIn>, n: nat)
    requires n <= |choices| && PushChoices(st, choices, n).1.Some?
    ensures var (next, outs) := PushChoices(st, choices, n);
            && Frame(st, next) && Adds(st, next, outs.value) && Sound(next, outs.value)
            && |outs.value| == n
            && (forall k | 0 <= k < n :: choices[k].ChoiceIn? && outs.value[k].delta == choices[k].delta)
  {
    if n > 0 {
      ChoicesAdd(st, choices, n - 1);
      var (mid, before) := PushChoices(st, choices, n - 1);
      var (next, out) := PushChoice(mid, n - 1, choices[n - 1]);
      ChoiceAdds(mid, n - 1, choices[n - 1]);
      assert choices[n - 1].ChoiceIn?;
      hide PushChoice, PushChoices, SeenIndices;
      AddsSnoc(st, mid, next, before.value, out.value);
      SoundSnoc(mid, next, before.value, out.value);
    }
  }

  lemma AddsSnoc(st: State, mid: State, next: State, outs: seq<ChoiceOut>, out: ChoiceOut)
    requires Adds(st, mid, outs) && out.delta.Some?
    requires next.terminals == With(mid.terminals, out.index, out.finish.Some?)
    requires out.finish.Some? ==> out.index !in mid.terminals
    requires next.sawCall == With(mid.sawCall, out.index, out.delta.value.hasCall)
    requires next.sawOutput == With(mid.sawOutput, out.index, out.delta.value.hasOutput)
    ensures Adds(st, next, outs + [out])
  {
    hide CountIn;
    forall i: nat
      ensures CountIn(outs + [out], IsTerminal, i) == if i in next.terminals && i !in st.terminals then 1 else 0
      ensures i in next.sawCall <==> i in st.sawCall || CountIn(outs + [out], CarriesCall, i) > 0
      ensures i in next.sawOutput <==> i in st.sawOutput || CountIn(outs + [out], CarriesOutput, i) > 0
    {
      CountInSnoc(outs, out, IsTerminal, i);
      CountInSnoc(outs, out, CarriesCall, i);
      CountInSnoc(outs, out, CarriesOutput, i);
    }
  }

  lemma SoundSnoc(mid: State, next: State, outs: seq<ChoiceOut>, out: ChoiceOut)
    requires Sound(mid, outs) && SeenIndices(mid) <= SeenIndices(next) && mid.sawCall <= next.sawCall
    requires out.index in SeenIndices(next) && (out.finish == Some("tool_calls") ==> out.index in next.sawCall)
    ensures Sound(next, outs + [out])
  {
    hide SeenIndices;
  }

  // ---- The invariant ----

  predicate Same(chunk: Chunk, st: State) {
    chunk.id == st.id && chunk.model == st.model && chunk.created == st.created
  }

  ghost predicate ChunkOk(st: State, chunk: Chunk) {
    st.locked && Same(chunk, st) && chunk.usage.None? && Sound(st, chunk.choices)
  }

  /** The state's sets say exactly what was emitted for each index. */
  ghost predicate Tallied(w: World, i: nat) {
    && Count(w.emitted, IsTerminal, i) == (if i in w.st.terminals then 1 else 0)
    && (i in w.st.sawCall <==> Count(w.emitted, CarriesCall, i) > 0)
    && (i in w.st.sawOutput <==> Count(w.emitted, CarriesOutput, i) > 0)
    && (i in w.st.terminals ==> i in SeenIndices(w.st))
  }

  ghost predicate Inv(w: World) {
    && (forall i: nat :: Tallied(w, i))
    && (forall k | 0 <= k < |w.emitted| :: ChunkOk(w.st, w.emitted[k]))
    && (w.st.indices != [] ==> w.st.locked && SeenIndices(w.st) != {})
  }

  lemma ChunkStaysOk(st: State, next: State, chunk: Chunk)
    requires ChunkOk(st, chunk) && next.locked
    requires next.id == st.id && next.model == st.model && next.created == st.created
    requires SeenIndices(st) <= SeenIndices(next) && st.sawCall <= next.sawCall
    ensures ChunkOk(next, chunk)
  {
    hide SeenIndices;
  }

  /** A step that emits nothing. */
  lemma QuietKeeps(w: World, next: State)
    requires Inv(w)
    requires next.terminals == w.st.terminals && next.sawCall == w.st.sawCall && next.sawOutput == w.st.sawOutput
    requires next.indices == w.st.indices && next.locked
    requires w.st.locked ==> next.id == w.st.id && next.model == w.st.model && next.created == w.st.created
    ensures Inv(World(next, w.emitted))
  {
    SameSeen(w.st, next);
    hide SeenIndices, Sound, Count;
    forall i: nat
      ensures Tallied(World(next, w.emitted), i)
    {
      assert Tallied(w, i);
    }
    forall k | 0 <= k < |w.emitted|
      ensures ChunkOk(next, w.emitted[k])
    {
      assert ChunkOk(w.st, w.emitted[k]);
      ChunkStaysOk(w.st, next, w.emitted[k]);
    }
  }

  /** A step that emits one chunk. */
  lemma ChunkKeeps(w: World, next: State, outs: seq<ChoiceOut>)
    requires Inv(w) && w.st.locked && Frame(w.st, next) && Adds(w.st, next, outs) && Sound(next, outs) && outs != []
    requires forall i: nat | i in next.terminals && i !in w.st.terminals :: i in SeenIndices(next)
    ensures Inv(World(next, w.emitted + [ChunkOf(next, None, outs)]))
  {
    assert outs[0].index in SeenIndices(next);
    hide SeenIndices, Sound, CountIn;
    var chunk := ChunkOf(next, None, outs);
    var after := World(next, w.emitted + [chunk]);
    forall i: nat
      ensures Tallied(after, i)
    {
      assert Tallied(w, i);
      CountAppend(w.emitted, [chunk], IsTerminal, i);
      CountAppend(w.emitted, [chunk], CarriesCall, i);
      CountAppend(w.emitted, [chunk], CarriesOutput, i);
      CountOne(chunk, IsTerminal, i);
      CountOne(chunk, CarriesCall, i);
      CountOne(chunk, CarriesOutput, i);
    }
    hide Count;
    forall k | 0 <= k < |after.emitted|
      ensures ChunkOk(next, after.emitted[k])
    {
      if k < |w.emitted| {
        assert ChunkOk(w.st, w.emitted[k]);
        CallsGrow(w.st, next, outs);
        ChunkStaysOk(w.st, next, w.emitted[k]);
      }
    }
  }

  lemma CallsGrow(st: State, next: State, outs: seq<ChoiceOut>)
    requires Adds(st, next, outs)
    ensures st.sawCall <= next.sawCall
  {
    forall i | i in st.sawCall
      ensures i in next.sawCall
    {
      assert CountIn(outs, CarriesCall, i) >= 0;
    }
  }

  /** A new terminal belongs to a choice of the chunk. */
  lemma {:induction false} CountedIsThere(st: State, outs: seq<ChoiceOut>, i: nat)
    requires Sound(st, outs) && CountIn(outs, IsTerminal, i) > 0
    ensures i in SeenIndices(st)
  {
    hide SeenIndices;
    var last := outs[|outs| - 1];
    if !IsTerminal(last, i) {
      CountedIsThere(st, outs[..|outs| - 1], i);
    }
  }

  lemma IdentifyKeeps(w: World, e: EventIn)
    requires Inv(w) && e.EventIn? && Identify(w.st, e).1
    ensures var st := if e.usage.Some? then Identify(w.st, e).0.(usage := e.usage) else Identify(w.st, e).0;
            Inv(World(st, w.emitted)) && st.locked
  {
    var st := if e.usage.Some? then Identify(w.st, e).0.(usage := e.usage) else Identify(w.st, e).0;
    hide Inv;
    QuietKeeps(w, st);
  }

  lemma PushKeeps(w: World, e: EventIn)
    requires Inv(w) && Push(w.st, e).1.Some?
    ensures Inv(World(Push(w.st, e).0, w.emitted + Push(w.st, e).1.value))
  {
    hide Inv, Identify;
    IdentifyKeeps(w, e);
    var st := if e.usage.Some? then Identify(w.st, e).0.(usage := e.usage) else Identify(w.st, e).0;
    if e.choices.Present? && e.choices.value != [] {
      var choices := e.choices.value;
      ChoicesAdd(st, choices, |choices|);
      var (next, outs) := PushChoices(st, choices, |choices|);
      hide PushChoices;
      forall i: nat | i in next.terminals && i !in st.terminals
        ensures i in SeenIndices(next)
      {
        CountedIsThere(next, outs.value, i);
      }
      ChunkKeeps(World(st, w.emitted), next, outs.value);
    } else {
      assert w.emitted + [] == w.emitted;
    }
  }

  ghost predicate Unused(st: State) {
    st.indices == [] && st.terminals == {} && st.sawOutput == {} && st.sawCall == {} && st.usage.None?
  }

  lemma {:induction false} RunKeeps(start: State, events: seq<EventIn>)
    requires Unused(start) && Run(start, events).Some?
    ensures Inv(Run(start, events).value)
  {
    hide Push;
    if events == [] {
      forall i: nat
        ensures Tallied(World(start, []), i)
      {
      }
    } else {
      hide Inv, Unused;
      RunKeeps(start, events[..|events| - 1]);
      PushKeeps(Run(start, events[..|events| - 1]).value, events[|events| - 1]);
    }
  }

  // ---- The end ----

  lemma {:induction false} InferredMeaning(st: State, owed: seq<nat>, n: nat)
    requires n <= |owed| && Inferred(st, owed, n).Some? && forall i, j | 0 <= i < j < |owed| :: owed[i] < owed[j]
    ensures var outs := Inferred(st, owed, n).value;
            && |outs| == n
            && (forall k | 0 <= k < n ::
                  outs[k].index == owed[k] && outs[k].delta.None? && outs[k].finish == InferredReason(st, owed[k])
                                         && outs[k].finish.Some?)
            && (forall i: nat :: CountIn(outs, IsTerminal, i) == if i in owed[..n] then 1 else 0)
  {
    if n > 0 {
      InferredMeaning(st, owed, n - 1);
      var before := Inferred(st, owed, n - 1).value;
      assert owed[..n] == owed[..n - 1] + [owed[n - 1]];
      forall i: nat
        ensures CountIn(Inferred(st, owed, n).value, IsTerminal, i) == if i in owed[..n] then 1 else 0
      {
        CountInSnoc(before, Inferred(st, owed, n).value[n - 1], IsTerminal, i);
      }
    }
  }

  predicate IsFor(choice: ChoiceOut, i: nat) {
    choice.index == i
  }

  /** What a finished stream looks like, `usage` being the last token count reported: one terminal for every choice
      that appears, `tool_calls` only for a choice that carried a call, one identity, and the usage on a last chunk
      without choices, nowhere else. */
  ghost predicate Canonical(chunks: seq<Chunk>, usage: Option<Usage>) {
    && (forall i: nat :: OneTerminal(chunks, i))
    && (forall k | 0 <= k < |chunks| :: ReasonsFit(chunks, chunks[k].choices))
    && (forall k | 0 <= k < |chunks| ::
          chunks[k].id == chunks[0].id && chunks[k].model == chunks[0].model && chunks[k].created == chunks[0].created)
    && (forall k | 0 <= k < |chunks| - 1 :: chunks[k].usage.None?)
    && chunks != [] && chunks[|chunks| - 1].usage == usage
    && (usage.Some? ==> chunks[|chunks| - 1].choices == [])
  }

  ghost predicate OneTerminal(chunks: seq<Chunk>, i: nat) {
    Count(chunks, IsTerminal, i) == if Count(chunks, IsFor, i) > 0 then 1 else 0
  }

  ghost predicate ReasonsFit(chunks: seq<Chunk>, choices: seq<ChoiceOut>) {
    forall j | 0 <= j < |choices| && choices[j].finish == Some("tool_calls")
      :: Count(chunks, CarriesCall, choices[j].index) > 0
  }

  /** The last token count an event reported. */
  function LastUsage(events: seq<EventIn>): Option<Usage> {
    if events == [] then None
    else
      var last := events[|events| - 1];
      if last.EventIn? && last.usage.Some? then last.usage else LastUsage(events[..|events| - 1])
  }

  lemma {:induction false} UsageIsLast(start: State, events: seq<EventIn>)
    requires Unused(start) && Run(start, events).Some?
    ensures Run(start, events).value.st.usage == LastUsage(events)
  {
    if events != [] {
      UsageIsLast(start, events[..|events| - 1]);
      PushUsage(Run(start, events[..|events| - 1]).value.st, events[|events| - 1]);
      hide Push;
    }
  }

  lemma PushUsage(st: State, e: EventIn)
    requires Push(st, e).1.Some?
    ensures e.EventIn? && Push(st, e).0.usage == if e.usage.Some? then e.usage else st.usage
  {
    if e.choices.Present? && e.choices.value != [] {
      var mid := if e.usage.Some? then Identify(st, e).0.(usage := e.usage) else Identify(st, e).0;
      ChoicesAdd(mid, e.choices.value, |e.choices.value|);
      hide PushChoices;
    }
  }

  /** The chunk that closes the owed choices is in order. */
  lemma ClosingKeeps(w: World)
    requires Inv(w) && Finish(w.st).1.Some? && w.st.indices != [] && OwedIndices(w.st) != {} && w.st.locked
    ensures var owed := Ascending(OwedIndices(w.st));
            var outs := Inferred(w.st, owed, |owed|);
            outs.Some? && outs.value != []
            && Inv(World(w.st.(terminals := w.st.terminals + OwedIndices(w.st)),
                         w.emitted + [ChunkOf(w.st, None, outs.value)]))
  {
    var owed := Ascending(OwedIndices(w.st));
    var outs := Inferred(w.st, owed, |owed|).value;
    InferredMeaning(w.st, owed, |owed|);
    assert owed[..|owed|] == owed;
    var next := w.st.(terminals := w.st.terminals + OwedIndices(w.st));
    SameSeen(w.st, next);
    var some :| some in OwedIndices(w.st);
    assert some in owed;
    hide Ascending, Inferred, Inv;
    InferredSound(w.st, next, owed, outs);
    InferredAdds(w.st, next, owed, outs);
    assert forall i: nat | i in next.terminals && i !in w.st.terminals :: i in SeenIndices(next);
    ChunkKeeps(w, next, outs);
  }

  lemma InferredSound(st: State, next: State, owed: seq<nat>, outs: seq<ChoiceOut>)
    requires |outs| == |owed| && SeenIndices(next) == SeenIndices(st) && next.sawCall == st.sawCall
    requires forall k | 0 <= k < |owed| :: owed[k] in SeenIndices(st)
    requires forall k | 0 <= k < |owed| :: outs[k].index == owed[k] && outs[k].finish == InferredReason(st, owed[k])
    ensures Sound(next, outs)
  {
    hide SeenIndices;
  }

  lemma {:induction false} NoDeltas(outs: seq<ChoiceOut>, i: nat)
    requires forall k | 0 <= k < |outs| :: outs[k].delta.None?
    ensures CountIn(outs, CarriesCall, i) == 0 && CountIn(outs, CarriesOutput, i) == 0
  {
    if outs != [] {
      NoDeltas(outs[..|outs| - 1], i);
    }
  }

  lemma InferredAdds(st: State, next: State, owed: seq<nat>, outs: seq<ChoiceOut>)
    requires next == st.(terminals := st.terminals + OwedIndices(st))
    requires forall i :: i in owed <==> i in OwedIndices(st)
    requires forall i: nat :: CountIn(outs, IsTerminal, i) == if i in owed then 1 else 0
    requires forall k | 0 <= k < |outs| :: outs[k].delta.None?
    ensures Adds(st, next, outs)
  {
    hide CountIn;
    forall i: nat
      ensures CountIn(outs, CarriesCall, i) == 0 && CountIn(outs, CarriesOutput, i) == 0
    {
      NoDeltas(outs, i);
    }
  }

  /** A stream that used no choice cannot be finished. */
  lemma EmptyStreamFails(w: World)
    requires Inv(w) && w.st.indices == []
    ensures Finish(w.st).1.None?
  {
    assert Tallied(w, 0);
    assert SeenIndices(w.st) == {};
    assert OwedIndices(w.st) == {0};
    NothingEmitted(w);
    var owed := Ascending(OwedIndices(w.st));
    assert 0 in owed;
    var k :| 0 <= k < |owed| && owed[k] == 0;
    hide Ascending;
    NoneFrom(w.st, owed, k + 1, |owed|);
  }

  lemma {:induction false} NoneFrom(st: State, owed: seq<nat>, i: nat, n: nat)
    requires 0 < i <= n <= |owed| && InferredReason(st, owed[i - 1]).None?
    ensures Inferred(st, owed, n).None?
  {
    if i < n {
      NoneFrom(st, owed, i, n - 1);
    }
  }

  /** Without choices there was no output and no call. */
  lemma NothingEmitted(w: World)
    requires Inv(w) && w.st.indices == []
    ensures 0 !in w.st.sawCall && 0 !in w.st.sawOutput
  {
    assert Tallied(w, 0);
    forall k | 0 <= k < |w.emitted|
      ensures w.emitted[k].choices == []
    {
      assert ChunkOk(w.st, w.emitted[k]);
      if w.emitted[k].choices != [] {
        ChoicesAreSeen(w.st, w.emitted[k].choices);
      }
    }
    hide Inv, Tallied;
    NoChoices(w.emitted);
  }

  lemma ChoicesAreSeen(st: State, outs: seq<ChoiceOut>)
    requires Sound(st, outs) && outs != []
    ensures st.indices != []
  {
    assert outs[0].index in SeenIndices(st);
  }

  lemma {:induction false} NoChoices(chunks: seq<Chunk>)
    requires forall k | 0 <= k < |chunks| :: chunks[k].choices == []
    ensures Count(chunks, CarriesCall, 0) == 0 && Count(chunks, CarriesOutput, 0) == 0
  {
    if chunks != [] {
      NoChoices(chunks[..|chunks| - 1]);
    }
  }

  // ---- The theorem ----

  lemma {:induction false} TerminalIsFor(choices: seq<ChoiceOut>, i: nat)
    ensures CountIn(choices, IsTerminal, i) <= CountIn(choices, IsFor, i)
  {
    if choices != [] {
      TerminalIsFor(choices[..|choices| - 1], i);
    }
  }

  lemma {:induction false} TerminalsAreFor(chunks: seq<Chunk>, i: nat)
    ensures Count(chunks, IsTerminal, i) <= Count(chunks, IsFor, i)
  {
    if chunks != [] {
      TerminalsAreFor(chunks[..|chunks| - 1], i);
      TerminalIsFor(chunks[|chunks| - 1].choices, i);
    }
  }

  lemma {:induction false} ForIsSeenIn(st: State, outs: seq<ChoiceOut>, i: nat)
    requires Sound(st, outs) && CountIn(outs, IsFor, i) > 0
    ensures i in SeenIndices(st)
  {
    hide SeenIndices;
    if outs[|outs| - 1].index != i {
      ForIsSeenIn(st, outs[..|outs| - 1], i);
    }
  }

  lemma {:induction false} ForIsSeen(st: State, chunks: seq<Chunk>, i: nat)
    requires forall k | 0 <= k < |chunks| :: ChunkOk(st, chunks[k])
    requires Count(chunks, IsFor, i) > 0
    ensures i in SeenIndices(st)
  {
    hide SeenIndices, Sound;
    var last := chunks[|chunks| - 1];
    if CountIn(last.choices, IsFor, i) > 0 {
      assert ChunkOk(st, last);
      ForIsSeenIn(st, last.choices, i);
    } else {
      ForIsSeen(st, chunks[..|chunks| - 1], i);
    }
  }

  /** With nothing owed, the chunks so far have one terminal for every choice that appears. */
  lemma SettledHasOneTerminal(w: World, i: nat)
    requires Inv(w) && SeenIndices(w.st) <= w.st.terminals
    ensures OneTerminal(w.emitted, i)
  {
    assert Tallied(w, i);
    TerminalsAreFor(w.emitted, i);
    hide SeenIndices, Sound, Count;
    if Count(w.emitted, IsFor, i) > 0 {
      ForIsSeen(w.st, w.emitted, i);
    }
  }

  lemma SettledReasonsFit(w: World, k: nat)
    requires Inv(w) && k < |w.emitted|
    ensures ReasonsFit(w.emitted, w.emitted[k].choices)
  {
    hide Count, SeenIndices;
    assert ChunkOk(w.st, w.emitted[k]);
    forall j | 0 <= j < |w.emitted[k].choices| && w.emitted[k].choices[j].finish == Some("tool_calls")
      ensures Count(w.emitted, CarriesCall, w.emitted[k].choices[j].index) > 0
    {
      assert Tallied(w, w.emitted[k].choices[j].index);
    }
  }

  lemma TrailerCounts(chunks: seq<Chunk>, trailer: seq<Chunk>, counts: (ChoiceOut, nat) -> bool, i: nat)
    requires forall k | 0 <= k < |trailer| :: trailer[k].choices == []
    requires |trailer| <= 1
    ensures Count(chunks + trailer, counts, i) == Count(chunks, counts, i)
  {
    CountAppend(chunks, trailer, counts, i);
    if trailer != [] {
      assert trailer == [trailer[0]];
      CountOne(trailer[0], counts, i);
    }
  }

  /** A settled stream with the usage behind it is canonical. */
  lemma SettledIsCanonical(w: World, usage: Option<Usage>)
    requires Inv(w) && SeenIndices(w.st) <= w.st.terminals && w.emitted != []
    ensures Canonical(w.emitted + (if usage.Some? then [ChunkOf(w.st, usage, [])] else []), usage)
  {
    var trailer := if usage.Some? then [ChunkOf(w.st, usage, [])] else [];
    var all := w.emitted + trailer;
    forall i: nat
      ensures OneTerminal(all, i)
    {
      SettledHasOneTerminal(w, i);
      TrailerCounts(w.emitted, trailer, IsTerminal, i);
      TrailerCounts(w.emitted, trailer, IsFor, i);
    }
    forall k | 0 <= k < |all|
      ensures ReasonsFit(all, all[k].choices)
    {
      if k < |w.emitted| {
        SettledReasonsFit(w, k);
        forall i: nat
          ensures Count(all, CarriesCall, i) == Count(w.emitted, CarriesCall, i)
        {
          TrailerCounts(w.emitted, trailer, CarriesCall, i);
        }
      }
    }
    hide OneTerminal, ReasonsFit, Count, Sound, Tallied;
    assert forall k | 0 <= k < |w.emitted| :: ChunkOk(w.st, w.emitted[k]);
  }

  /** The chunks emitted by pushing and finishing, whatever the upstream sent, as long as no error ended the stream. */
  lemma StreamIsCanonical(start: State, events: seq<EventIn>)
    requires Unused(start) && Stream(start, events).Some?
    ensures Canonical(Stream(start, events).value, LastUsage(events))
  {
    RunKeeps(start, events);
    UsageIsLast(start, events);
    hide Run, Unused;
    var w := Run(start, events).value;
    if w.st.indices == [] {
      EmptyStreamFails(w);
    } else {
      FinishIsCanonical(w);
    }
  }

  lemma FinishIsCanonical(w: World)
    requires Inv(w) && w.st.indices != [] && Finish(w.st).1.Some?
    ensures Canonical(w.emitted + Finish(w.st).1.value, w.st.usage)
  {
    var trailer := if w.st.usage.Some? then [ChunkOf(w.st, w.st.usage, [])] else [];
    var owed := Ascending(OwedIndices(w.st));
    if OwedIndices(w.st) == {} {
      NothingOwed(OwedIndices(w.st));
      SomethingEmitted(w);
      hide Canonical, Inv;
      SettledIsCanonical(w, w.st.usage);
      assert [] + trailer == trailer;
    } else {
      assert w.st.locked;
      ClosingKeeps(w);
      var outs := Inferred(w.st, owed, |owed|).value;
      var next := w.st.(terminals := w.st.terminals + OwedIndices(w.st));
      SameSeen(w.st, next);
      var closing := ChunkOf(w.st, None, outs);
      hide Canonical, Inv, Inferred, Ascending;
      SettledIsCanonical(World(next, w.emitted + [closing]), w.st.usage);
      assert w.emitted + ([closing] + trailer) == w.emitted + [closing] + trailer;
    }
  }

  lemma NothingOwed(keys: set<nat>)
    requires keys == {}
    ensures Ascending(keys) == []
  {
  }

  /** A stream that used a choice and owes nothing emitted a terminal. */
  lemma SomethingEmitted(w: World)
    requires Inv(w) && w.st.indices != [] && OwedIndices(w.st) == {}
    ensures w.emitted != []
  {
    if w.emitted == [] {
      assert Count([], IsTerminal, 0) == 0;
      forall i: nat
        ensures i !in w.st.terminals
      {
        assert Tallied(w, i);
      }
    }
  }
}
