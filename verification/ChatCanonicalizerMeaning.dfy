/** What the canonical stream says in terms of the provider's: identity, choice indices and finish reasons. */
module ChatCanonicalizerMeaning {
  import opened Collections
  import opened ChatCanonicalizer
  import opened ChatCanonicalizerRuns

  // ---- Reasons ----

  /** Which reasons pass, and as what: one that claims a call only for a choice that carried one. */
  lemma ReasonMeaning(hasCall: bool, reason: string)
    ensures NormalizeReason(hasCall, reason) == Some("length") <==> reason in {"length", "max_tokens", "max_output_tokens"}
    ensures NormalizeReason(hasCall, reason) == Some("content_filter") <==> reason == "content_filter"
    ensures NormalizeReason(hasCall, reason) == Some("tool_calls") <==>
              hasCall && reason in {"stop", "function_call", "tool_calls", "tool_use"}
    ensures NormalizeReason(hasCall, reason) == Some("stop") <==> !hasCall && reason in {"stop", "end_turn"}
    ensures NormalizeReason(hasCall, reason).Some? ==>
              NormalizeReason(hasCall, reason).value in {"length", "content_filter", "tool_calls", "stop"}
  {
  }

  /** The choice carried a call before this chunk, or in it so far. */
  ghost predicate CalledBy(st: State, outs: seq<ChoiceOut>, k: nat)
    requires k < |outs|
  {
    outs[k].index in st.sawCall || CountIn(outs[..k + 1], CarriesCall, outs[k].index) > 0
  }

  /** Each outgoing choice has the incoming one's reason, normalised by the calls it carried so far, or none. */
  ghost predicate ReasonAt(st: State, choice: ChoiceIn, outs: seq<ChoiceOut>, k: nat)
    requires k < |outs|
  {
    && choice.ChoiceIn? && !choice.finish.Wrong?
    && outs[k].finish == match choice.finish
         case Present(reason) => NormalizeReason(CalledBy(st, outs, k), reason)
         case _ => None
  }

  lemma PushReason(st: State, mid: State, position: nat, choice: ChoiceIn, outs: seq<ChoiceOut>)
    requires Adds(st, mid, outs) && PushChoice(mid, position, choice).1.Some?
    ensures ReasonAt(st, choice, outs + [PushChoice(mid, position, choice).1.value], |outs|)
  {
    var out := PushChoice(mid, position, choice).1.value;
    var all := outs + [out];
    assert all[..|outs| + 1] == all;
    CountInSnoc(outs, out, CarriesCall, out.index);
    hide Fixed, NormalizeReason, CountIn;
  }

  lemma EarlierReason(st: State, choice: ChoiceIn, outs: seq<ChoiceOut>, out: ChoiceOut, k: nat)
    requires k < |outs| && ReasonAt(st, choice, outs, k)
    ensures ReasonAt(st, choice, outs + [out], k)
  {
    assert (outs + [out])[..k + 1] == outs[..k + 1];
    hide NormalizeReason, CountIn;
  }

  lemma {:induction false} ChoicesReasons(st: State, choices: seq<ChoiceIn>, n: nat)
    requires n <= |choices| && PushChoices(st, choices, n).1.Some?
    ensures var outs := PushChoices(st, choices, n).1.value;
            |outs| == n && forall k | 0 <= k < n :: ReasonAt(st, choices[k], outs, k)
  {
    if n > 0 {
      ChoicesReasons(st, choices, n - 1);
      ChoicesAdd(st, choices, n - 1);
      var (mid, before) := PushChoices(st, choices, n - 1);
      PushReason(st, mid, n - 1, choices[n - 1], before.value);
      hide PushChoice, ReasonAt, Adds, Frame, Sound;
      forall k | 0 <= k < n - 1
        ensures ReasonAt(st, choices[k], PushChoices(st, choices, n).1.value, k)
      {
        EarlierReason(st, choices[k], before.value, PushChoice(mid, n - 1, choices[n - 1]).1.value, k);
      }
    }
  }

  // ---- Indices ----

  /** The index of a position: the one fixed before, else the one it comes with, else the position. */
  function IndexOf(indices: seq<Option<nat>>, choice: ChoiceIn, position: nat): nat
    requires choice.ChoiceIn?
  {
    if position < |indices| && indices[position].Some? then indices[position].value else choice.index.GetOr(position)
  }

  /** The indices after the first `n` positions were seen. */
  ghost predicate Seen(before: seq<Option<nat>>, after: seq<Option<nat>>, outs: seq<ChoiceOut>, n: nat)
    requires |outs| == n
  {
    && |after| == (if |before| <= n then n else |before|)
    && (forall p | 0 <= p < n :: after[p] == Some(outs[p].index))
    && (forall p | n <= p < |before| :: after[p] == before[p])
  }

  lemma FixedNext(before: seq<Option<nat>>, mid: seq<Option<nat>>, outs: seq<ChoiceOut>, n: nat, out: ChoiceOut)
    requires |outs| == n && Seen(before, mid, outs, n)
    ensures Seen(before, Fixed(mid, n, out.index), outs + [out], n + 1)
  {
  }

  lemma {:induction false} ChoicesIndices(st: State, choices: seq<ChoiceIn>, n: nat)
    requires n <= |choices| && PushChoices(st, choices, n).1.Some?
    ensures var (next, outs) := PushChoices(st, choices, n);
            && |outs.value| == n && Seen(st.indices, next.indices, outs.value, n)
            && (forall k | 0 <= k < n ::
                  && choices[k].ChoiceIn? && outs.value[k].index == IndexOf(st.indices, choices[k], k)
                  && (choices[k].index.Some? ==> choices[k].index.value == outs.value[k].index))
  {
    if n > 0 {
      ChoicesIndices(st, choices, n - 1);
      var (mid, before) := PushChoices(st, choices, n - 1);
      var (next, out) := PushChoice(mid, n - 1, choices[n - 1]);
      assert IndexOf(mid.indices, choices[n - 1], n - 1) == IndexOf(st.indices, choices[n - 1], n - 1);
      hide Fixed, NormalizeReason;
      assert next.indices == Fixed(mid.indices, n - 1, out.value.index);
      FixedNext(st.indices, mid.indices, before.value, n - 1, out.value);
      hide PushChoice, Seen;
    }
  }

  function ChoicesOf(e: EventIn): seq<ChoiceIn> {
    if e.EventIn? && e.choices.Present? then e.choices.value else []
  }

  /** The index of a position in the stream: that of the first event that has a choice there. */
  function FirstIndex(events: seq<EventIn>, p: nat): Option<nat> {
    if events == [] then None
    else
      var before, choices := FirstIndex(events[..|events| - 1], p), ChoicesOf(events[|events| - 1]);
      if before.Some? then before
      else if p < |choices| && choices[p].ChoiceIn? then Some(choices[p].index.GetOr(p))
      else None
  }

  ghost predicate Indexed(st: State, events: seq<EventIn>) {
    forall p: nat :: FirstIndex(events, p) == if p < |st.indices| then st.indices[p] else None
  }

  /** The choices of the chunk an event gives, against the stream so far. */
  ghost predicate Translates(st: State, events: seq<EventIn>, e: EventIn, outs: seq<ChoiceOut>) {
    var choices := ChoicesOf(e);
    && |outs| == |choices|
    && forall k | 0 <= k < |choices| ::
         && choices[k].ChoiceIn? && outs[k].delta == choices[k].delta
         && Some(outs[k].index) == FirstIndex(events + [e], k)
         && ReasonAt(st, choices[k], outs, k)
  }

  lemma FirstIndexSnoc(events: seq<EventIn>, e: EventIn, p: nat)
    ensures FirstIndex(events + [e], p) ==
              if FirstIndex(events, p).Some? then FirstIndex(events, p)
              else if p < |ChoicesOf(e)| && ChoicesOf(e)[p].ChoiceIn? then Some(ChoicesOf(e)[p].index.GetOr(p))
              else None
  {
    assert (events + [e])[..|events|] == events;
  }

  /** After the choices of an event, the indices are those of the first appearances so far. */
  lemma IndexedNext(st: State, next: State, events: seq<EventIn>, e: EventIn, outs: seq<ChoiceOut>)
    requires Indexed(st, events) && |outs| == |ChoicesOf(e)| && Seen(st.indices, next.indices, outs, |outs|)
    requires forall k | 0 <= k < |outs| ::
               ChoicesOf(e)[k].ChoiceIn? && outs[k].index == IndexOf(st.indices, ChoicesOf(e)[k], k)
    ensures Indexed(next, events + [e])
    ensures forall k | 0 <= k < |outs| :: FirstIndex(events + [e], k) == Some(outs[k].index)
  {
    forall p: nat
      ensures FirstIndex(events + [e], p) == if p < |next.indices| then next.indices[p] else None
      ensures p < |outs| ==> FirstIndex(events + [e], p) == Some(outs[p].index)
    {
      FirstIndexSnoc(events, e, p);
      assert FirstIndex(events, p) == if p < |st.indices| then st.indices[p] else None;
    }
    hide FirstIndex;
  }

  lemma QuietIndexed(st: State, next: State, events: seq<EventIn>, e: EventIn)
    requires Indexed(st, events) && ChoicesOf(e) == [] && next.indices == st.indices
    ensures Indexed(next, events + [e])
  {
    forall p: nat
      ensures FirstIndex(events + [e], p) == FirstIndex(events, p)
    {
      FirstIndexSnoc(events, e, p);
    }
    hide FirstIndex;
  }

  /** The state in which an event's choices are taken. */
  function Counted(st: State, e: EventIn): State
    requires e.EventIn?
  {
    var identified := Identify(st, e).0;
    if e.usage.Some? then identified.(usage := e.usage) else identified
  }

  lemma CountedFrame(st: State, e: EventIn)
    requires e.EventIn?
    ensures var counted := Counted(st, e); counted.indices == st.indices && counted.sawCall == st.sawCall
  {
  }

  lemma PushIs(st: State, e: EventIn)
    requires Push(st, e).1.Some?
    ensures e.EventIn?
    ensures ChoicesOf(e) == [] ==> Push(st, e) == (Counted(st, e), Some([]))
    ensures ChoicesOf(e) != [] ==>
      var (next, outs) := PushChoices(Counted(st, e), ChoicesOf(e), |ChoicesOf(e)|);
      outs.Some? && Push(st, e) == (next, Some([ChunkOf(next, None, outs.value)]))
  {
    hide PushChoices, Identify;
    assert Identify(st, e).1;
    if ChoicesOf(e) != [] {
      assert e.choices == Present(ChoicesOf(e));
      var pushed := PushChoices(Counted(st, e), ChoicesOf(e), |ChoicesOf(e)|);
      assert Push(st, e).0 == pushed.0;
      assert Push(st, e).1 == if pushed.1.None? then None else Some([ChunkOf(pushed.0, None, pushed.1.value)]);
    }
  }

  lemma SameReason(st: State, counted: State, choice: ChoiceIn, outs: seq<ChoiceOut>, k: nat)
    requires k < |outs| && ReasonAt(counted, choice, outs, k) && counted.sawCall == st.sawCall
    ensures ReasonAt(st, choice, outs, k)
  {
    hide NormalizeReason, CountIn;
  }

  /** An event without choices emits nothing; one with choices emits one chunk, whose choices have the indices,
      deltas and reasons the provider's say. */
  lemma PushTranslates(st: State, events: seq<EventIn>, e: EventIn)
    requires Indexed(st, events) && Push(st, e).1.Some?
    ensures var (next, chunks) := Push(st, e);
            && Indexed(next, events + [e])
            && if ChoicesOf(e) == [] then chunks.value == []
               else |chunks.value| == 1 && Translates(st, events, e, chunks.value[0].choices)
  {
    PushIs(st, e);
    CountedFrame(st, e);
    var choices, counted := ChoicesOf(e), Counted(st, e);
    hide Push, PushChoices, Counted, ChoicesOf, FirstIndex, Seen, Indexed, ReasonAt, Adds, Frame, Sound;
    if choices == [] {
      QuietIndexed(st, counted, events, e);
    } else {
      ChoicesIndices(counted, choices, |choices|);
      ChoicesReasons(counted, choices, |choices|);
      ChoicesAdd(counted, choices, |choices|);
      var (next, outs) := PushChoices(counted, choices, |choices|);
      IndexedNextFrom(st, counted, next, events, e, outs.value);
      forall k | 0 <= k < |choices|
        ensures ReasonAt(st, choices[k], outs.value, k)
      {
        SameReason(st, counted, choices[k], outs.value, k);
      }
    }
  }

  lemma IndexedNextFrom(st: State, counted: State, next: State, events: seq<EventIn>, e: EventIn, outs: seq<ChoiceOut>)
    requires Indexed(st, events) && counted.indices == st.indices && |outs| == |ChoicesOf(e)|
    requires Seen(counted.indices, next.indices, outs, |outs|)
    requires forall k | 0 <= k < |outs| ::
               ChoicesOf(e)[k].ChoiceIn? && outs[k].index == IndexOf(counted.indices, ChoicesOf(e)[k], k)
    ensures Indexed(next, events + [e])
    ensures forall k | 0 <= k < |outs| :: FirstIndex(events + [e], k) == Some(outs[k].index)
  {
    hide Seen, FirstIndex, Indexed;
    IndexedNext(st, next, events, e, outs);
  }

  /** In every error-free run, the index of a choice is that of its position's first appearance. */
  lemma {:induction false} RunIndexed(start: State, events: seq<EventIn>)
    requires start.indices == [] && Run(start, events).Some?
    ensures Indexed(Run(start, events).value.st, events)
  {
    if events != [] {
      var init, last := events[..|events| - 1], events[|events| - 1];
      RunIndexed(start, init);
      assert events == init + [last];
      hide Push, Indexed;
      PushTranslates(Run(start, init).value.st, init, last);
    }
  }

  /** Main result: in every error-free run, each event's chunk translates its choices one for one: index of the
      position's first appearance, same delta, and the reason normalised by the calls the choice carried so far. */
  lemma RunTranslates(start: State, events: seq<EventIn>, e: EventIn)
    requires start.indices == [] && Run(start, events + [e]).Some?
    ensures Run(start, events).Some?
    ensures var st, chunks := Run(start, events).value.st, Push(Run(start, events).value.st, e).1;
            && chunks.Some? && Run(start, events + [e]).value.emitted == Run(start, events).value.emitted + chunks.value
            && if ChoicesOf(e) == [] then chunks.value == []
               else |chunks.value| == 1 && Translates(st, events, e, chunks.value[0].choices)
  {
    assert (events + [e])[..|events|] == events;
    RunIndexed(start, events);
    hide Push, Indexed, Translates;
    PushTranslates(Run(start, events).value.st, events, e);
  }

  // ---- Identity ----

  /** The first event's identity, where it has one. */
  ghost predicate IdentifiedBy(st: State, start: State, events: seq<EventIn>) {
    if events == [] || !events[0].EventIn?
    then st.id == start.id && st.model == start.model && st.created == start.created && st.locked == start.locked
    else
      var e := events[0];
      && st.locked
      && st.id == (if e.id.Present? then e.id.value else start.id)
      && st.model == (if e.model.Present? then e.model.value else start.model)
      && st.created == (if e.created.Present? then e.created.value else start.created)
  }

  lemma {:induction false} ChoicesFrame(st: State, choices: seq<ChoiceIn>, n: nat)
    requires n <= |choices| && PushChoices(st, choices, n).1.Some?
    ensures var next := PushChoices(st, choices, n).0;
            next.id == st.id && next.model == st.model && next.created == st.created && next.locked == st.locked
  {
    ChoicesAdd(st, choices, n);
    hide PushChoices;
  }

  lemma PushIdentity(st: State, e: EventIn)
    requires Push(st, e).1.Some?
    ensures var next := Push(st, e).0;
            && e.EventIn? && next.locked
            && (st.locked ==> next.id == st.id && next.model == st.model && next.created == st.created)
            && (!st.locked ==>
                  && next.id == (if e.id.Present? then e.id.value else st.id)
                  && next.model == (if e.model.Present? then e.model.value else st.model)
                  && next.created == (if e.created.Present? then e.created.value else st.created))
  {
    var identified := Identify(st, e).0;
    var counted := if e.usage.Some? then identified.(usage := e.usage) else identified;
    if ChoicesOf(e) != [] {
      ChoicesFrame(counted, ChoicesOf(e), |ChoicesOf(e)|);
    }
    hide PushChoices;
  }

  /** In every error-free run, the identity is what the first event says, whatever later events say. */
  lemma {:induction false} RunIdentity(start: State, events: seq<EventIn>)
    requires !start.locked && Run(start, events).Some?
    ensures IdentifiedBy(Run(start, events).value.st, start, events)
  {
    if events != [] {
      var init, last := events[..|events| - 1], events[|events| - 1];
      RunIdentity(start, init);
      PushIdentity(Run(start, init).value.st, last);
      hide Push;
      assert init != [] ==> init[0] == events[0];
      assert init != [] ==> init[0].EventIn? by {
        if init != [] {
          FirstIsEvent(start, init);
        }
      }
    }
  }

  lemma {:induction false} FirstIsEvent(start: State, events: seq<EventIn>)
    requires Run(start, events).Some? && events != []
    ensures events[0].EventIn?
  {
    var init, last := events[..|events| - 1], events[|events| - 1];
    if init == [] {
      PushIdentity(Run(start, init).value.st, last);
    } else {
      hide Push;
      FirstIsEvent(start, init);
    }
  }

  // ---- The end ----

  /** Finishing fails exactly when some choice without a terminal carried neither a call nor output, so that no
      reason can be inferred for it. */
  lemma FinishFailsIff(st: State)
    ensures Finish(st).1.None? <==> exists i :: i in OwedIndices(st) && i !in st.sawCall && i !in st.sawOutput
  {
    var owed := Ascending(OwedIndices(st));
    InferredIff(st, owed, |owed|);
    hide Inferred, OwedIndices;
    forall i | i in owed
      ensures exists k :: 0 <= k < |owed| && owed[k] == i
    {
    }
  }

  lemma {:induction false} InferredIff(st: State, owed: seq<nat>, n: nat)
    requires n <= |owed|
    ensures Inferred(st, owed, n).None? <==> exists k :: 0 <= k < n && owed[k] !in st.sawCall && owed[k] !in st.sawOutput
    ensures Inferred(st, owed, n).Some? ==>
              && |Inferred(st, owed, n).value| == n
              && forall k | 0 <= k < n ::
                   Inferred(st, owed, n).value[k]
                     == ChoiceOut(owed[k], None, Some(if owed[k] in st.sawCall then "tool_calls" else "stop"))
  {
    if n > 0 {
      InferredIff(st, owed, n - 1);
    }
  }

  /** The choices owed a terminal are those that appeared without one, or choice 0 of a stream without choices. */
  lemma OwedMeaning(st: State, i: nat)
    ensures i in OwedIndices(st) <==>
      i !in st.terminals && (if st.indices == [] then i == 0 else Some(i) in st.indices)
  {
  }

  // ---- Refusal ----

  /** What is wrong with a choice at a position, given what was seen so far. */
  predicate ChoiceFails(st: State, position: nat, choice: ChoiceIn) {
    || choice.NotAChoice?
    || (position < |st.indices| && st.indices[position].Some? && choice.index.Some? && choice.index != st.indices[position])
    || choice.delta.None?
    || choice.finish.Wrong?
    || (choice.finish.Present? && ReasonFails(st, IndexOf(st.indices, choice, position), choice))
  }

  /** The reason is unknown, does not fit what the choice carried, or is its second one. */
  predicate ReasonFails(st: State, index: nat, choice: ChoiceIn)
    requires choice.ChoiceIn? && choice.delta.Some? && choice.finish.Present?
  {
    || index in st.terminals
    || NormalizeReason(index in st.sawCall || choice.delta.value.hasCall, choice.finish.value).None?
  }

  lemma ChoiceFailsIff(st: State, position: nat, choice: ChoiceIn)
    ensures PushChoice(st, position, choice).1.None? <==> ChoiceFails(st, position, choice)
  {
    hide NormalizeReason, Fixed;
  }

  /** The choice at `p` is reached and fails. */
  ghost predicate FailsAt(st: State, choices: seq<ChoiceIn>, p: nat)
    requires p < |choices|
  {
    PushChoices(st, choices, p).1.Some? && ChoiceFails(PushChoices(st, choices, p).0, p, choices[p])
  }

  lemma {:induction false} ChoicesFailIff(st: State, choices: seq<ChoiceIn>, n: nat)
    requires n <= |choices|
    ensures PushChoices(st, choices, n).1.None? <==> exists p :: 0 <= p < n && FailsAt(st, choices, p)
  {
    if n > 0 {
      ChoicesFailIff(st, choices, n - 1);
      FailsNow(st, choices, n - 1);
      hide PushChoices, FailsAt;
    }
  }

  lemma FailsNow(st: State, choices: seq<ChoiceIn>, p: nat)
    requires p < |choices|
    ensures PushChoices(st, choices, p + 1).1.None? <==> PushChoices(st, choices, p).1.None? || FailsAt(st, choices, p)
  {
    ChoiceFailsIff(PushChoices(st, choices, p).0, p, choices[p]);
    hide PushChoice, ChoiceFails;
  }

  /** An event is refused exactly when it is no object, an identity field or the choices have the wrong type, or
      some choice fails given the choices before it. */
  lemma PushFailsIff(st: State, e: EventIn)
    ensures Push(st, e).1.None? <==>
      || e.NotAnEvent?
      || e.id.Wrong? || e.model.Wrong? || e.created.Wrong? || e.choices.Wrong?
      || (e.choices.Present?
          && var counted := Counted(st, e);
             exists p :: 0 <= p < |e.choices.value| && FailsAt(counted, e.choices.value, p))
  {
    hide PushChoices, FailsAt;
    if e.EventIn? && e.choices.Present? {
      ChoicesFailIff(Counted(st, e), e.choices.value, |e.choices.value|);
    }
  }

  /** Finishing a second time sends nothing more. */
  lemma FinishOnce(st: State)
    requires Finish(st).1.Some?
    ensures Finish(Finish(st).0) == (Finish(st).0, Some([]))
  {
    var next := Finish(st).0;
    assert next.usage.None? && SeenIndices(next) == SeenIndices(st);
    assert OwedIndices(next) == {} && next.terminals + {} == next.terminals;
    assert Ascending({}) == [];
    assert Inferred(next, [], 0) == Some([]);
    hide Inferred, OwedIndices, Ascending;
    var nothing: seq<Chunk> := [];
    assert nothing + nothing == [];
  }
}
