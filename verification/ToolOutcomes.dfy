/** What a Chat client has of a call after both translations, and when it is what the call finished with. */
module ToolOutcomes {
  import opened Collections
  import opened StreamEvents
  import opened Text
  import opened JsonText
  import opened ToolArguments
  import opened ToolArrivals
  import ArrivalRuns = ToolArrivalRuns
  import C2R = ChatToResponses
  import Runs = ChatToResponsesRuns
  import Final = ChatToResponsesFinal
  import R2C = ResponsesToChat
  import Trip = StreamRoundTrip
  import Named = CallIdentity

  // ---- What was streamed ----

  /** The stream's deltas about a call are what its phase records. */
  lemma {:induction false} PhaseStreams(events: seq<Event>, i: nat)
    ensures PhaseOf(events, i).Absent? ==> DeltasAt(events, i) == ""
    ensures IsTool(PhaseOf(events, i)) ==> PhaseOf(events, i).streamed == DeltasAt(events, i)
  {
    if events != [] {
      var init, last := events[..|events| - 1], events[|events| - 1];
      assert events == init + [last];
      PhaseStreams(init, i);
      PhaseSnoc(init, last, i);
      SaidSnoc(init, last, i);
      hide PhaseOf, DeltasAt;
      assert DeltasAt(init, i) + "" == DeltasAt(init, i);
    }
  }

  /** The buffer was replaced for the first time by the fragment at `m`, or never. */
  ghost predicate FirstReplaced(fragments: seq<string>, strict: bool, m: nat)
    requires m <= |fragments|
  {
    && !EverReplaced("", fragments[..m], strict)
    && (m < |fragments| ==> EverReplaced("", fragments[..m + 1], strict))
  }

  lemma OneMoreReplaced(init: seq<string>, last: string, strict: bool, m: nat) returns (n: nat)
    requires m <= |init| && FirstReplaced(init, strict, m)
    ensures n <= |init| + 1 && FirstReplaced(init + [last], strict, n)
    ensures if EverReplaced("", init + [last], strict) then n == m else n == |init| + 1 && m == |init|
  {
    hide EverReplaced;
    var all := init + [last];
    assert all[..m] == init[..m] && all[..|all|] == all && init[..|init|] == init;
    n := m;
    if m < |init| {
      assert all[..m + 1] == init[..m + 1];
      StaysReplaced(all, m + 1, strict);
    } else if !EverReplaced("", all, strict) {
      n := |all|;
    }
  }

  /** What was streamed are the fragments before the first one that replaced the buffer. */
  lemma {:induction false} StreamedUntilReplaced(fragments: seq<string>, strict: bool) returns (m: nat)
    ensures m <= |fragments| && FirstReplaced(fragments, strict, m)
    ensures StreamedPart(fragments, strict) == Join(fragments[..m])
  {
    if fragments == [] {
      m := 0;
      assert fragments[..0] == [];
    } else {
      var init, last := fragments[..|fragments| - 1], fragments[|fragments| - 1];
      assert fragments == init + [last];
      StreamedSnoc(init, last, strict);
      var before := StreamedUntilReplaced(init, strict);
      JoinSnoc(init, last);
      hide EverReplaced, StreamedPart, Join, FirstReplaced;
      m := OneMoreReplaced(init, last, strict, before);
      assert init[..|init|] == init && fragments[..|fragments|] == fragments && fragments[..before] == init[..before];
    }
  }

  lemma {:induction false} StaysReplaced(fragments: seq<string>, n: nat, strict: bool)
    requires n <= |fragments| && EverReplaced("", fragments[..n], strict)
    ensures EverReplaced("", fragments, strict)
  {
    var k :| 0 <= k < n
        && MergeArguments(Accumulate("", fragments[..n][..k], strict), fragments[..n][k], strict).1 == Replaced;
    assert fragments[..n][..k] == fragments[..k];
    hide MergeArguments, Accumulate;
  }

  /** After both translations of an error-free run, the Chat client has of every call exactly the fragments that
      reached it before the first one that replaced its buffer. */
  lemma CallsReadBack(strict: bool, events: seq<ChatEvent>, key: nat)
    requires C2R.RunToEnd(strict, events).Some? && key in C2R.RunToEnd(strict, events).value.tools
    ensures var sent := C2R.RunToEnd(strict, events).value;
            && R2C.Run(sent.emitted).Some?
            && R2C.ArgumentsOf(R2C.Finish(R2C.Run(sent.emitted).value).chunks, sent.tools[key].outputIndex)
               == StreamedPart(FragmentsAt(Arrivals(strict, events), key), strict)
  {
    var sent, arrivals := C2R.RunToEnd(strict, events).value, Arrivals(strict, events);
    Final.EveryRunIsFaithful(strict, events);
    Trip.FaithfulReads(sent.emitted);
    ArrivalRuns.EndTracked(strict, events);
    CallIsTool(sent, key);
    hide C2R.RunToEnd, R2C.Run, R2C.Finish, Final.FaithfulStream, Trip.Framed, PhaseOf, Runs.Inv, Final.Closed, Arrivals;
    assert TrackedAt(sent, arrivals, key);
    PhaseStreams(sent.emitted, sent.tools[key].outputIndex);
    hide DeltasAt, StreamedPart, FragmentsAt, IdsAt, AddedItems, Tracked;
  }

  lemma CallIsTool(st: C2R.State, key: nat)
    requires Runs.Inv(st) && Final.Closed(st) && key in st.tools
    ensures IsTool(PhaseOf(st.emitted, st.tools[key].outputIndex))
  {
    hide PhaseOf, NormalizeArguments;
    Runs.PhaseAt(st, st.tools[key].outputIndex);
  }

  // ---- When repair changes nothing ----

  lemma {:induction false} LaterObjectIsShort(s: string, i: nat, found: Option<string>)
    requires 0 < i <= |s| && (found.Some? ==> |found.value| < |s|)
    ensures LastObject(s, i, found).Some? ==> |LastObject(s, i, found).value| < |s|
    decreases |s| - i
  {
    hide NextValue;
    match NextValue(s, i)
    case Value(from, to) => LaterObjectIsShort(s, to, if s[from] == '{' then Some(s[from..to]) else found);
    case _ =>
  }

  /** Finishing leaves a buffer as it is exactly when the buffer is not blank and no data trails its first value. */
  lemma NormalizedIsRawIff(raw: string)
    ensures NormalizeArguments(raw).0 == raw <==> Trim(raw) != "" && NormalizeArguments(raw).1 != Some(TrailingData)
  {
    TrimSplits(raw);
    var s := Trim(raw);
    if s == "" {
      assert raw == "{}" ==> !IsTrimmed(raw[0]);
      assert raw == LeftMargin(raw) + RightMargin(raw);
    } else {
      StartsAtOnce(s);
      hide Trim;
      if NextValue(s, 0).Value? && !NextValue(s, NextValue(s, 0).to).End? {
        EndsAtEnd(s);
        LaterObjectIsShort(s, NextValue(s, 0).to, None);
      }
    }
  }

  lemma StartsAtOnce(s: string)
    requires s != "" && !IsTrimmed(s[0])
    ensures !NextValue(s, 0).End? && (NextValue(s, 0).Value? ==> NextValue(s, 0).from == 0)
  {
    assert SkipSpace(s, 0) == 0;
    hide ScanValue;
  }

  lemma EndsAtEnd(s: string)
    ensures NextValue(s, |s|).End?
  {
  }

  // ---- The client's arguments and the final ones ----

  /** What the done event and the terminal item of a call say of it. */
  lemma ListedCall(strict: bool, events: seq<ChatEvent>, key: nat)
    requires C2R.RunToEnd(strict, events).Some? && key in C2R.RunToEnd(strict, events).value.tools
    ensures var sent := C2R.RunToEnd(strict, events).value;
            var i, fragments := sent.tools[key].outputIndex, FragmentsAt(Arrivals(strict, events), key);
            && i < |C2R.OutputItems(sent)| && C2R.OutputItems(sent)[i].FunctionCall?
            && PhaseOf(sent.emitted, i).ToolClosed? && PhaseOf(sent.emitted, i).item == C2R.OutputItems(sent)[i]
            && C2R.OutputItems(sent)[i].arguments == NormalizeArguments(Accumulate("", fragments, strict)).0
            && C2R.OutputItems(sent)[i].callId == Settled(IdsAt(Arrivals(strict, events), key))
            && C2R.OutputItems(sent)[i].name == FirstName(NamesAt(Arrivals(strict, events), key)).GetOr("")
  {
    var sent, arrivals := C2R.RunToEnd(strict, events).value, Arrivals(strict, events);
    Final.EveryRunIsFaithful(strict, events);
    ArrivalRuns.EndTracked(strict, events);
    hide C2R.RunToEnd, Final.FaithfulStream, PhaseOf, Arrivals, NormalizeArguments, C2R.OutputItems;
    assert TrackedAt(sent, arrivals, key);
    Final.OutputByIndex(sent);
    var i := sent.tools[key].outputIndex;
    Runs.PhaseAt(sent, i);
  }

  /** What was streamed of these fragments is what they finish with. */
  predicate StreamsItsEnd(fragments: seq<string>, strict: bool) {
    var buffer := Accumulate("", fragments, strict);
    if EverReplaced("", fragments, strict) then NormalizeArguments(buffer).0 == StreamedPart(fragments, strict)
    else Trim(buffer) != "" && NormalizeArguments(buffer).1 != Some(TrailingData)
  }

  lemma StreamsItsEndMeaning(fragments: seq<string>, strict: bool)
    ensures StreamsItsEnd(fragments, strict) <==>
      StreamedPart(fragments, strict) == NormalizeArguments(Accumulate("", fragments, strict)).0
  {
    hide NormalizeArguments, Trim;
    if !EverReplaced("", fragments, strict) {
      NormalizedIsRawIff(Accumulate("", fragments, strict));
      NeverReplacedJoins(fragments, strict);
      var m := StreamedUntilReplaced(fragments, strict);
      assert FirstReplaced(fragments, strict, m);
      hide EverReplaced, Accumulate, StreamedPart;
      if m < |fragments| {
        StaysReplaced(fragments, m + 1, strict);
      }
      assert fragments[..|fragments|] == fragments;
    }
  }

  /** Main result: on every error-free run, the argument fragments the Chat client concatenates for a call are the
      arguments of the call's done event and terminal item exactly when, for a buffer no fragment replaced, it is not
      blank and no data trails its first value; and for a replaced one, when what came before the replacement is what
      the call finished with. */
  lemma ClientHasArgumentsIff(strict: bool, events: seq<ChatEvent>, key: nat)
    requires C2R.RunToEnd(strict, events).Some? && key in C2R.RunToEnd(strict, events).value.tools
    ensures var sent, fragments := C2R.RunToEnd(strict, events).value, FragmentsAt(Arrivals(strict, events), key);
            var i := sent.tools[key].outputIndex;
            && R2C.Run(sent.emitted).Some? && i < |C2R.OutputItems(sent)| && C2R.OutputItems(sent)[i].FunctionCall?
            && (R2C.ArgumentsOf(R2C.Finish(R2C.Run(sent.emitted).value).chunks, i)
                 == C2R.OutputItems(sent)[i].arguments <==>
                StreamsItsEnd(fragments, strict))
  {
    hide C2R.RunToEnd, R2C.Run, R2C.Finish, R2C.ArgumentsOf, C2R.OutputItems, PhaseOf, Arrivals, FragmentsAt;
    hide StreamsItsEnd;
    hide StreamedPart, Accumulate, NormalizeArguments;
    CallsReadBack(strict, events, key);
    ListedCall(strict, events, key);
    StreamsItsEndMeaning(FragmentsAt(Arrivals(strict, events), key), strict);
  }

  // ---- The client's name for a call and the final one ----

  lemma {:induction false} FirstNameStays(names: seq<Option<string>>)
    requires names != [] && names[0].Some?
    ensures FirstName(names) == names[0]
  {
    if |names| > 1 {
      FirstNameStays(names[..|names| - 1]);
    } else {
      assert names[..0] == [];
    }
  }

  /** The first fragment brought an id, or none did. */
  predicate KeepsItsId(ids: seq<Id>)
    requires ids != []
  {
    ids[0] != Given("") || forall n | 0 <= n < |ids| :: ids[n] == Given("")
  }

  /** The first fragment brought a name, or none but empty ones came. */
  predicate KeepsItsName(names: seq<Option<string>>)
    requires names != []
  {
    names[0].Some? || FirstName(names).GetOr("") == ""
  }

  /** The last id and name are the first ones exactly so. */
  lemma KeptMeaning(ids: seq<Id>, names: seq<Option<string>>)
    requires ids != [] && names != []
    ensures Settled(ids) == ids[0] <==> KeepsItsId(ids)
    ensures FirstName(names).GetOr("") == names[0].GetOr("") <==> KeepsItsName(names)
  {
    SettledMeaning(ids);
    if names[0].Some? {
      FirstNameStays(names);
    }
    hide Settled, FirstName;
  }

  /** The client knows a call by its first fragment. */
  lemma ClientKnowsFirst(strict: bool, events: seq<ChatEvent>, key: nat)
    requires C2R.RunToEnd(strict, events).Some? && key in C2R.RunToEnd(strict, events).value.tools
    ensures var sent := C2R.RunToEnd(strict, events).value;
            var ids, names := IdsAt(Arrivals(strict, events), key), NamesAt(Arrivals(strict, events), key);
            && R2C.Run(sent.emitted).Some? && ids != [] && names != []
            && Named.CalledAs(R2C.Finish(R2C.Run(sent.emitted).value).chunks, sent.tools[key].outputIndex,
                              ids[0], names[0].GetOr(""))
  {
    var sent := C2R.RunToEnd(strict, events).value;
    Final.EveryRunIsFaithful(strict, events);
    Trip.FaithfulReads(sent.emitted);
    ArrivalRuns.EndTracked(strict, events);
    CallIsTool(sent, key);
    hide C2R.RunToEnd, R2C.Run, R2C.Finish, Final.FaithfulStream, Trip.Framed, PhaseOf, Arrivals, Named.CalledAs;
    hide Runs.Inv, Final.Closed, StreamedPart, FragmentsAt, IdsAt, NamesAt, AddedItems, DeltasAt, FillsAt;
    assert TrackedAt(sent, Arrivals(strict, events), key);
    assert Trip.NamedAlike(R2C.Finish(R2C.Run(sent.emitted).value).chunks, sent.emitted, sent.tools[key].outputIndex);
  }

  /** Main result: after both translations of an error-free run, the Chat client knows every call by the id and the
      name of its first fragment; these are the id and the name the terminal event lists exactly when the first
      fragment had an id, or none ever came, and had a name, or none but empty ones ever came. */
  lemma ClientKnowsCallIff(strict: bool, events: seq<ChatEvent>, key: nat)
    requires C2R.RunToEnd(strict, events).Some? && key in C2R.RunToEnd(strict, events).value.tools
    ensures var sent, i := C2R.RunToEnd(strict, events).value, C2R.RunToEnd(strict, events).value.tools[key].outputIndex;
            var ids, names := IdsAt(Arrivals(strict, events), key), NamesAt(Arrivals(strict, events), key);
            && R2C.Run(sent.emitted).Some? && ids != [] && names != []
            && Named.CalledAs(R2C.Finish(R2C.Run(sent.emitted).value).chunks, i, ids[0], names[0].GetOr(""))
            && i < |C2R.OutputItems(sent)| && C2R.OutputItems(sent)[i].FunctionCall?
            && (C2R.OutputItems(sent)[i].callId == ids[0] <==> KeepsItsId(ids))
            && (C2R.OutputItems(sent)[i].name == names[0].GetOr("") <==> KeepsItsName(names))
  {
    hide C2R.RunToEnd, R2C.Run, R2C.Finish, PhaseOf, Arrivals, FragmentsAt, IdsAt, NamesAt, Named.CalledAs;
    hide C2R.OutputItems, KeepsItsId, KeepsItsName, Settled, FirstName, NormalizeArguments;
    ClientKnowsFirst(strict, events, key);
    ListedCall(strict, events, key);
    KeptMeaning(IdsAt(Arrivals(strict, events), key), NamesAt(Arrivals(strict, events), key));
  }
}
