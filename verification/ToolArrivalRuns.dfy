/** Whole runs of arrivals: what every call has come to, and which fragments reach one call. */
module ToolArrivalRuns {
  import opened Collections
  import opened StreamEvents
  import opened ToolArguments
  import opened ChatToResponses
  import opened ChatToResponsesFinal
  import opened ToolArrivals

  // ---- One id, one call ----

  /** The fragment names its call by this id, without an index. */
  predicate NamesById(a: Arrival, id: string) {
    a.byId && a.callId == Given(id)
  }

  /** The fragment gives the id to a call: a new one, or one that had none. */
  predicate Gives(a: Arrival, id: string) {
    a.callId == Given(id) && (a.entry.None? || a.entry.value.callId == Given(""))
  }

  /** Between the two, a fragment gave the id to a call with a smaller key. */
  ghost predicate Undercut(arrivals: seq<Arrival>, m: nat, n: nat, id: string)
    requires m < n <= |arrivals|
  {
    exists p :: m < p < n && Gives(arrivals[p], id) && arrivals[p].key < arrivals[m].key
  }

  function KeysWith(st: State, id: string): set<nat> {
    set k | k in st.tools && st.tools[k].callId == Given(id)
  }

  ghost predicate HasBelow(keys: set<nat>, key: nat) {
    exists k :: k in keys && k < key
  }

  /** A call reached by id has the id, and none with a smaller key has it unless it was undercut. */
  ghost predicate LowestAt(st: State, arrivals: seq<Arrival>, id: string, m: nat)
    requires m < |arrivals|
  {
    NamesById(arrivals[m], id) ==>
      && arrivals[m].key in KeysWith(st, id)
      && (HasBelow(KeysWith(st, id), arrivals[m].key) <==> Undercut(arrivals, m, |arrivals|, id))
  }

  /** Two fragments with the id reach one call unless the first was undercut. */
  ghost predicate PairAt(arrivals: seq<Arrival>, id: string, m: nat, n: nat)
    requires m < n < |arrivals|
  {
    NamesById(arrivals[m], id) && NamesById(arrivals[n], id) ==>
      (arrivals[m].key == arrivals[n].key <==> !Undercut(arrivals, m, n, id))
  }

  ghost predicate Solo(st: State, arrivals: seq<Arrival>, id: string) {
    && (forall m | 0 <= m < |arrivals| :: LowestAt(st, arrivals, id, m))
    && (forall m, n | 0 <= m < n < |arrivals| :: PairAt(arrivals, id, m, n))
  }

  /** The correspondence, and what it says about one id. */
  ghost predicate Following(st: State, arrivals: seq<Arrival>, id: string) {
    Tracked(st, arrivals) && Solo(st, arrivals, id)
  }

  /** A fragment that names its call by id alone goes where that id was last seen, or to a new call. */
  predicate ByIdRule(st: State, a: Arrival) {
    a.byId && a.callId.Given? ==>
      var known := KeysWith(st, a.callId.text);
      a.key == if known == {} then NextKey(st.tools.Keys) else Least(known)
  }

  lemma QuietKeys(st: State, next: State, id: string)
    requires SameCalls(st.tools, next.tools)
    ensures KeysWith(next, id) == KeysWith(st, id)
  {
  }

  lemma QuietFollows(st: State, next: State, arrivals: seq<Arrival>, id: string)
    requires Following(st, arrivals, id) && Quietly(st, next)
    ensures Following(next, arrivals, id)
  {
    QuietTracks(st, next, arrivals);
    QuietKeys(st, next, id);
    hide Tracked, Quietly, KeysWith, PairAt, Undercut;
    forall m | 0 <= m < |arrivals|
      ensures LowestAt(next, arrivals, id, m)
    {
      assert LowestAt(st, arrivals, id, m);
    }
  }

  lemma ReachedId(st: State, a: Arrival)
    requires a.key in st.tools ==> st.tools[a.key].added && st.tools[a.key].itemId == st.tools[a.key].callId
    ensures Reached(st, a.key, a.callId, a.name, a.fragment).callId
         == if a.key in st.tools && st.tools[a.key].callId != Given("") then st.tools[a.key].callId else a.callId
  {
    ReachedCall(st, a.key, a.callId, a.name, a.fragment);
    hide Reached, MergeArguments;
  }

  /** Exactly the fragment that gives the id adds a call that has it. */
  lemma ApplyKeys(st: State, next: State, arrivals: seq<Arrival>, a: Arrival, id: string)
    requires Tracked(st, arrivals) && Applied(st, next, a.key, a.callId, a.name, a.fragment) && id != ""
    requires a.entry == Entry(st, a.key)
    ensures KeysWith(next, id) == if Gives(a, id) then KeysWith(st, id) + {a.key} else KeysWith(st, id)
  {
    assert TrackedAt(st, arrivals, a.key);
    ReachedId(st, a);
    hide Reached, Heard, TrackedAt, Tracked;
    forall k: nat
      ensures k != a.key ==> (k in KeysWith(next, id) <==> k in KeysWith(st, id))
    {
    }
  }

  /** A fragment that names its call by the id reaches the least call that has it. */
  lemma ReachesLeast(st: State, arrivals: seq<Arrival>, a: Arrival, id: string)
    requires Tracked(st, arrivals) && NamesById(a, id) && ByIdRule(st, a) && a.entry == Entry(st, a.key) && id != ""
    ensures if KeysWith(st, id) == {} then Gives(a, id) else !Gives(a, id) && a.key in KeysWith(st, id)
    ensures !HasBelow(KeysWith(st, id), a.key)
  {
    hide Tracked;
  }

  lemma UndercutSnoc(arrivals: seq<Arrival>, a: Arrival, m: nat, n: nat, id: string)
    requires m < n <= |arrivals|
    ensures Undercut(arrivals + [a], m, n, id) <==> Undercut(arrivals, m, n, id)
    ensures Undercut(arrivals + [a], m, |arrivals| + 1, id)
       <==> Undercut(arrivals, m, |arrivals|, id) || (Gives(a, id) && a.key < arrivals[m].key)
  {
    var all := arrivals + [a];
    hide Gives;
    assert forall p | 0 <= p < |arrivals| :: all[p] == arrivals[p];
    assert all[|arrivals|] == a;
    if Undercut(arrivals, m, |arrivals|, id) {
      var p :| m < p < |arrivals| && Gives(arrivals[p], id) && arrivals[p].key < arrivals[m].key;
      assert Gives(all[p], id) && all[p].key < all[m].key;
    }
    if Undercut(arrivals, m, n, id) {
      var p :| m < p < n && Gives(arrivals[p], id) && arrivals[p].key < arrivals[m].key;
      assert Gives(all[p], id) && all[p].key < all[m].key;
    }
  }

  lemma OldLowest(st: State, next: State, arrivals: seq<Arrival>, a: Arrival, id: string, m: nat)
    requires m < |arrivals| && LowestAt(st, arrivals, id, m)
    requires KeysWith(next, id) == if Gives(a, id) then KeysWith(st, id) + {a.key} else KeysWith(st, id)
    ensures LowestAt(next, arrivals + [a], id, m)
  {
    UndercutSnoc(arrivals, a, m, |arrivals|, id);
    hide Undercut, Gives, KeysWith;
    if Gives(a, id) && HasBelow(KeysWith(st, id), arrivals[m].key) {
      var k :| k in KeysWith(st, id) && k < arrivals[m].key;
      assert k in KeysWith(next, id);
    }
    if Gives(a, id) && a.key < arrivals[m].key {
      assert a.key in KeysWith(next, id);
    }
  }

  lemma NewLowest(st: State, next: State, arrivals: seq<Arrival>, a: Arrival, id: string)
    requires KeysWith(next, id) == if Gives(a, id) then KeysWith(st, id) + {a.key} else KeysWith(st, id)
    requires NamesById(a, id) ==>
      && (if KeysWith(st, id) == {} then Gives(a, id) else !Gives(a, id) && a.key in KeysWith(st, id))
      && !HasBelow(KeysWith(st, id), a.key)
    ensures LowestAt(next, arrivals + [a], id, |arrivals|)
  {
    hide Gives, KeysWith;
    assert (arrivals + [a])[|arrivals|] == a;
  }

  lemma NewPair(st: State, arrivals: seq<Arrival>, a: Arrival, id: string, m: nat)
    requires m < |arrivals| && LowestAt(st, arrivals, id, m)
    requires NamesById(a, id) ==>
      (KeysWith(st, id) != {} ==> a.key in KeysWith(st, id)) && !HasBelow(KeysWith(st, id), a.key)
    ensures PairAt(arrivals + [a], id, m, |arrivals|)
  {
    UndercutSnoc(arrivals, a, m, |arrivals|, id);
    hide Undercut, Gives, KeysWith;
    if NamesById(arrivals[m], id) && NamesById(a, id) && arrivals[m].key != a.key {
      assert HasBelow(KeysWith(st, id), arrivals[m].key) || HasBelow(KeysWith(st, id), a.key);
    }
  }

  lemma ApplySolo(st: State, next: State, arrivals: seq<Arrival>, a: Arrival, id: string)
    requires Following(st, arrivals, id) && Applied(st, next, a.key, a.callId, a.name, a.fragment) && id != ""
    requires ByIdRule(st, a)
    requires a.entry == Entry(st, a.key)
    ensures Solo(next, arrivals + [a], id)
  {
    ApplyKeys(st, next, arrivals, a, id);
    if NamesById(a, id) {
      ReachesLeast(st, arrivals, a, id);
    }
    NewLowest(st, next, arrivals, a, id);
    hide Applied, Tracked, KeysWith, Gives, HasBelow, ByIdRule, NamesById;
    var all := arrivals + [a];
    forall m | 0 <= m < |all|
      ensures LowestAt(next, all, id, m)
    {
      if m < |arrivals| {
        OldLowest(st, next, arrivals, a, id, m);
      }
    }
    forall m, n | 0 <= m < n < |all|
      ensures PairAt(all, id, m, n)
    {
      if n < |arrivals| {
        assert PairAt(arrivals, id, m, n);
        UndercutSnoc(arrivals, a, m, n, id);
      } else {
        NewPair(st, arrivals, a, id, m);
      }
    }
  }

  /** One more fragment. */
  lemma ApplyFollows(st: State, arrivals: seq<Arrival>, a: Arrival, id: string)
    requires Following(st, arrivals, id) && id != "" && a.entry == Entry(st, a.key) && ByIdRule(st, a)
    ensures Following(ApplyFragment(st, a.key, a.callId, a.name, a.fragment), arrivals + [a], id)
  {
    ApplyTracks(st, arrivals, a);
    assert TrackedAt(st, arrivals, a.key);
    if a.key in st.tools {
      KnownApplied(st, a.key, a.callId, a.name, a.fragment);
    } else {
      NewApplied(st, a.key, a.callId, a.name, a.fragment);
    }
    hide ApplyFragment, Applied, Tracked, Solo;
    ApplySolo(st, ApplyFragment(st, a.key, a.callId, a.name, a.fragment), arrivals, a, id);
  }

  // ---- Runs ----

  lemma SerialFollows(st: State, next: State, arrivals: seq<Arrival>, id: string)
    requires Following(st, arrivals, id) && next == st.(serial := next.serial)
    ensures Following(next, arrivals, id)
  {
    NothingQuiet(st);
    assert Quietly(st, next);
    hide Quietly, Following;
    QuietFollows(st, next, arrivals, id);
  }

  lemma DeltaFollows(st: State, d: ToolDelta, position: nat, arrivals: seq<Arrival>, id: string)
    requires Following(st, arrivals, id) && id != "" && d.ToolDelta?
    ensures Following(EmitToolDelta(st, d, position).0, arrivals + DeltaArrival(st, d, position), id)
  {
    hide ApplyFragment, Following;
    if IsApplied(d) {
      var key := RouteKey(st, d, position);
      var a := Arrival(key, BroughtId(st, d), d.name, d.arguments, Entry(st, key), d.index.None? && d.id.Some?);
      var named := if d.id.Some? then st else st.(serial := st.serial + 1);
      SerialFollows(st, named, arrivals, id);
      assert ByIdRule(named, a);
      ApplyFollows(named, arrivals, a, id);
    } else {
      assert arrivals + [] == arrivals;
    }
  }

  lemma Regroup(a: seq<Arrival>, b: seq<Arrival>, c: seq<Arrival>)
    ensures a + b + c == a + (b + c)
  {
  }

  lemma {:induction false} DeltasFollow(st: State, ds: seq<ToolDelta>, n: nat, arrivals: seq<Arrival>, id: string)
    requires Following(st, arrivals, id) && id != "" && n <= |ds| && EmitToolDeltas(st, ds, n).1.None?
    ensures Following(EmitToolDeltas(st, ds, n).0, arrivals + DeltaArrivals(st, ds, n), id)
  {
    hide Following, EmitToolDelta, EmitCreated, EmitReasoningDone, DeltaArrival;
    if n == 0 {
      assert arrivals + [] == arrivals;
    } else {
      var (mid, error) := EmitToolDeltas(st, ds, n - 1);
      DeltasFollow(st, ds, n - 1, arrivals, id);
      var before := DeltaArrivals(st, ds, n - 1);
      ReadiedQuiet(mid);
      hide Quietly;
      QuietFollows(mid, Readied(mid), arrivals + before, id);
      MalformedFails(Readied(mid), ds[n - 1], n - 1);
      DeltaFollows(Readied(mid), ds[n - 1], n - 1, arrivals + before, id);
      Regroup(arrivals, before, DeltaArrival(Readied(mid), ds[n - 1], n - 1));
    }
  }

  lemma MalformedFails(st: State, d: ToolDelta, position: nat)
    ensures d.Malformed? ==> EmitToolDelta(st, d, position).1.Some?
  {
  }

  lemma FunctionFollows(st: State, d: Option<FunctionDelta>, arrivals: seq<Arrival>, id: string)
    requires Following(st, arrivals, id) && id != "" && EmitFunctionDelta(st, d).1.None?
    ensures Following(EmitFunctionDelta(st, d).0, arrivals + FunctionArrival(st, d), id)
  {
    assert arrivals + [] == arrivals;
    hide Following, ApplyFragment, EmitCreated, EmitReasoningDone;
    if d.Some? {
      ReadiedQuiet(st);
      hide Quietly;
      QuietFollows(st, Readied(st), arrivals, id);
      var f := d.value;
      var a := Arrival(0, Given(f.id), Some(f.name), f.arguments, Entry(Readied(st), 0), false);
      ApplyFollows(Readied(st), arrivals, a, id);
    }
  }

  lemma ChoiceFollows(st: State, choice: Choice, arrivals: seq<Arrival>, id: string)
    requires Following(st, arrivals, id) && id != "" && EmitChoice(st, choice).1.None?
    ensures Following(EmitChoice(st, choice).0, arrivals + ChoiceArrivals(st, choice), id)
  {
    hide Following, EmitReasoning, EmitContent, EmitToolDeltas, EmitFunctionDelta, EmitCreated, Quietly, DeltaArrivals;
    hide FunctionArrival;
    var delta := choice.delta;
    var reasoned := EmitReasoning(st, delta.reasoning);
    ReasoningQuiet(st, delta.reasoning);
    QuietFollows(st, reasoned, arrivals, id);
    ContentQuiet(reasoned, delta.content);
    var texted := EmitContent(reasoned, delta.content).0;
    QuietFollows(reasoned, texted, arrivals, id);
    DeltasFollow(texted, delta.toolCalls, |delta.toolCalls|, arrivals, id);
    var called := EmitToolDeltas(texted, delta.toolCalls, |delta.toolCalls|).0;
    var first, second := DeltaArrivals(texted, delta.toolCalls, |delta.toolCalls|), FunctionArrival(called,
                                                                                                    delta.functionCall);
    FunctionFollows(called, delta.functionCall, arrivals + first, id);
    Regroup(arrivals, first, second);
    var functioned := EmitFunctionDelta(called, delta.functionCall).0;
    var all := arrivals + (first + second);
    CreatedQuiet(functioned);
    QuietFollows(functioned, EmitCreated(functioned), all, id);
    var announced := if HasRelevantContent(delta) then EmitCreated(functioned) else functioned;
    if choice.finishReason.Some? {
      var reasonable := announced.(incompleteReason := IncompleteReason(choice.finishReason.value));
      FieldQuiet(announced, reasonable);
      QuietFollows(announced, reasonable, all, id);
      CreatedQuiet(reasonable);
      QuietFollows(reasonable, EmitCreated(reasonable), all, id);
    }
  }

  lemma FieldQuiet(st: State, next: State)
    requires next == st.(incompleteReason := next.incompleteReason, usage := next.usage)
    ensures Quietly(st, next)
  {
  }

  lemma EventFollows(st: State, event: ChatEvent, arrivals: seq<Arrival>, id: string)
    requires Following(st, arrivals, id) && id != "" && Translate(st, event).1.None?
    ensures Following(Translate(st, event).0, arrivals + EventArrivals(st, event), id)
  {
    hide Following, EmitChoice, ChoiceArrivals, Finish, Quietly;
    assert arrivals + [] == arrivals;
    if !st.completed {
      var counted := st.(usage := if event.usage.Some? then event.usage else st.usage);
      FieldQuiet(st, counted);
      QuietFollows(st, counted, arrivals, id);
      if event.choices.Some? && |event.choices.value| == 1 {
        ChoiceFollows(counted, event.choices.value[0], arrivals, id);
      } else if event.choices == Some([]) && event.usage.Some? {
        FinishQuiet(counted);
        QuietFollows(counted, Finish(counted), arrivals, id);
      }
    }
  }

  lemma InitialFollows(strict: bool, id: string)
    ensures Following(Initial(strict), [], id)
  {
    forall key: nat
      ensures TrackedAt(Initial(strict), [], key)
    {
    }
    assert KeysWith(Initial(strict), id) == {};
  }

  lemma {:induction false} RunFollows(strict: bool, events: seq<ChatEvent>, id: string)
    requires Run(strict, events).Some? && id != ""
    ensures Following(Run(strict, events).value, Arrivals(strict, events), id)
  {
    hide Following, Translate, EventArrivals;
    if events == [] {
      InitialFollows(strict, id);
    } else {
      var init, last := events[..|events| - 1], events[|events| - 1];
      RunFollows(strict, init, id);
      EventFollows(Run(strict, init).value, last, Arrivals(strict, init), id);
    }
  }

  /** After every error-free run to the end, each call is what its arrivals made of it. */
  lemma EndTracked(strict: bool, events: seq<ChatEvent>)
    requires RunToEnd(strict, events).Some?
    ensures Tracked(RunToEnd(strict, events).value, Arrivals(strict, events))
  {
    RunFollows(strict, events, "id");
    hide Run, Finish, Tracked, Solo, Quietly;
    FinishQuiet(Run(strict, events).value);
    QuietTracks(Run(strict, events).value, RunToEnd(strict, events).value, Arrivals(strict, events));
  }

  /** Main result: in every error-free run, two fragments that name their call by one id and no index reach the same
      call exactly when no fragment between them gave that id to a call with a smaller key. */
  lemma OneIdOneCallIff(strict: bool, events: seq<ChatEvent>, id: string, m: nat, n: nat)
    requires Run(strict, events).Some? && id != "" && m < n < |Arrivals(strict, events)|
    requires NamesById(Arrivals(strict, events)[m], id) && NamesById(Arrivals(strict, events)[n], id)
    ensures Arrivals(strict, events)[m].key == Arrivals(strict, events)[n].key <==>
      !Undercut(Arrivals(strict, events), m, n, id)
  {
    RunFollows(strict, events, id);
    hide Run, Arrivals, Tracked, LowestAt, Undercut;
    assert PairAt(Arrivals(strict, events), id, m, n);
  }

  /** Every fragment that brings the id names its call by it. */
  ghost predicate Alone(arrivals: seq<Arrival>, id: string) {
    forall n | 0 <= n < |arrivals| && arrivals[n].callId == Given(id) :: arrivals[n].byId
  }

  /** In particular, all fragments that bring the id reach one call when none of them names an index. */
  lemma {:induction false} AloneOneCall(strict: bool, events: seq<ChatEvent>, id: string, m: nat, n: nat)
    requires Run(strict, events).Some? && id != "" && Alone(Arrivals(strict, events), id)
    requires m < n < |Arrivals(strict, events)|
    requires NamesById(Arrivals(strict, events)[m], id) && NamesById(Arrivals(strict, events)[n], id)
    ensures Arrivals(strict, events)[m].key == Arrivals(strict, events)[n].key
    decreases n
  {
    OneIdOneCallIff(strict, events, id, m, n);
    hide Run;
    var arrivals := Arrivals(strict, events);
    hide Arrivals;
    if Undercut(arrivals, m, n, id) {
      var p :| m < p < n && Gives(arrivals[p], id) && arrivals[p].key < arrivals[m].key;
      AloneOneCall(strict, events, id, m, p);
    }
  }

  // ---- Concrete runs ----

  /** A chunk that announces the role, and one that carries a single call fragment. */
  const HELLO := ChatEvent(None, Some([Choice(Delta(true, "", NoContent, [], None), None)]))

  function OneCall(d: ToolDelta): ChatEvent {
    ChatEvent(None, Some([Choice(Delta(false, "", NoContent, [d], None), None)]))
  }

  /** Announced, not completed, without reasoning: nothing but the fragment happens next. */
  predicate Plainly(st: State) {
    st.created && !st.completed && st.reasoning.None?
  }

  lemma UpsertPlain(st: State, key: nat, callId: Id, name: Option<string>)
    requires Plainly(st)
    ensures Plainly(UpsertTool(st, key, callId, name)) && key in UpsertTool(st, key, callId, name).tools
  {
    if key in st.tools {
      hide OpenTool, RefreshTool;
    } else {
      assert UpsertTool(st, key, callId, name) == OpenTool(st, key, callId, name);
      hide UpsertTool;
    }
  }

  lemma AnnouncePlain(st: State, key: nat)
    requires Plainly(st) && key in st.tools
    ensures Plainly(AnnounceTool(st, key)) && key in AnnounceTool(st, key).tools
  {
  }

  lemma MergePlain(st: State, key: nat, fragment: string)
    requires Plainly(st) && key in st.tools
    ensures Plainly(MergeFragment(st, key, fragment))
  {
    hide MergeInto;
  }

  lemma ApplyPlain(st: State, key: nat, callId: Id, name: Option<string>, fragment: string)
    requires Plainly(st)
    ensures Plainly(ApplyFragment(st, key, callId, name, fragment))
  {
    UpsertPlain(st, key, callId, name);
    AnnouncePlain(UpsertTool(st, key, callId, name), key);
    MergePlain(AnnounceTool(UpsertTool(st, key, callId, name), key), key, fragment);
    hide UpsertTool, AnnounceTool, MergeFragment, Plainly;
  }

  lemma OneCallDoes(st: State, d: ToolDelta)
    requires Plainly(st) && IsApplied(d) && d.id.Some?
    ensures var key := RouteKey(st, d, 0);
            var next := ApplyFragment(st, key, Given(d.id.value), d.name, d.arguments);
            && Translate(st, OneCall(d)) == (next, None) && Plainly(next)
            && EventArrivals(st, OneCall(d)) == [Arrival(key, Given(d.id.value), d.name, d.arguments, Entry(st, key),
                                                         d.index.None?)]
  {
    var key := RouteKey(st, d, 0);
    ApplyPlain(st, key, Given(d.id.value), d.name, d.arguments);
    hide ApplyFragment, RouteKey;
    assert EmitToolDelta(st, d, 0) == (ApplyFragment(st, key, Given(d.id.value), d.name, d.arguments), None);
    assert EmitToolDeltas(st, [d], 0) == (st, None);
    assert DeltaArrivals(st, [d], 0) == [];
    assert DeltaArrivals(st, [d], 1) == [] + DeltaArrival(st, d, 0);
  }

  lemma RunNext(strict: bool, events: seq<ChatEvent>, e: ChatEvent)
    requires Run(strict, events).Some? && Translate(Run(strict, events).value, e).1.None?
    ensures Run(strict, events + [e]) == Some(Translate(Run(strict, events).value, e).0)
    ensures Arrivals(strict, events + [e]) == Arrivals(strict, events) + EventArrivals(Run(strict, events).value, e)
  {
    hide Translate, EventArrivals;
    assert (events + [e])[..|events|] == events;
  }

  lemma HelloDoes(strict: bool)
    ensures Run(strict, [HELLO]) == Some(EmitCreated(Initial(strict))) && Plainly(EmitCreated(Initial(strict)))
    ensures Arrivals(strict, [HELLO]) == []
  {
    assert Run(strict, []) == Some(Initial(strict));
    assert EmitToolDeltas(Initial(strict), [], 0) == (Initial(strict), None);
    RunNext(strict, [], HELLO);
    assert [] + [HELLO] == [HELLO];
    assert EventArrivals(Initial(strict), HELLO) == [];
    hide Run, Arrivals;
  }

  /** A run goes on with one fragment. */
  lemma NextCall(strict: bool, events: seq<ChatEvent>, d: ToolDelta)
    requires Run(strict, events).Some? && Plainly(Run(strict, events).value) && IsApplied(d) && d.id.Some?
    ensures var st := Run(strict, events).value;
            var key := RouteKey(st, d, 0);
            && Run(strict, events + [OneCall(d)]).Some? && Plainly(Run(strict, events + [OneCall(d)]).value)
            && Arrivals(strict, events + [OneCall(d)])
               == Arrivals(strict, events) + [Arrival(key, Given(d.id.value), d.name, d.arguments, Entry(st, key),
                                                      d.index.None?)]
  {
    hide Run, Arrivals, RouteKey, Plainly, OneCall, ApplyFragment, EventArrivals, Translate;
    OneCallDoes(Run(strict, events).value, d);
    RunNext(strict, events, OneCall(d));
  }

  /** For instance: a call at index 1, its continuation by id, a second call at index 0 under the same id; the next
      continuation by that id goes elsewhere than the first. */
  lemma UndercutHappens(strict: bool, id: string)
    requires id != ""
    ensures var events := ThreeCalls(id) + [OneCall(ToolDelta(None, Some(id), None, "x"))];
            && Run(strict, events).Some?
            && var arrivals := Arrivals(strict, events);
               |arrivals| == 4 && NamesById(arrivals[1], id) && NamesById(arrivals[3], id)
               && arrivals[1].key != arrivals[3].key
  {
    var more := ToolDelta(None, Some(id), None, "x");
    ThreeCallsRun(strict, id);
    hide Run, Arrivals, OneCall, Plainly, ThreeCalls, RouteKey;
    NextCall(strict, ThreeCalls(id), more);
    var events := ThreeCalls(id) + [OneCall(more)];
    var arrivals := Arrivals(strict, events);
    assert arrivals[1] == Arrivals(strict, ThreeCalls(id))[1] && arrivals[2] == Arrivals(strict, ThreeCalls(id))[2];
    assert Undercut(arrivals, 1, 3, id);
    OneIdOneCallIff(strict, events, id, 1, 3);
  }

  function TwoCalls(id: string): seq<ChatEvent> {
    [HELLO] + [OneCall(ToolDelta(Some(1), Some(id), Some("f"), ""))] + [OneCall(ToolDelta(None, Some(id), None, "x"))]
  }

  function ThreeCalls(id: string): seq<ChatEvent> {
    TwoCalls(id) + [OneCall(ToolDelta(Some(0), Some(id), Some("g"), ""))]
  }

  function OneCallOnly(id: string): seq<ChatEvent> {
    [HELLO] + [OneCall(ToolDelta(Some(1), Some(id), Some("f"), ""))]
  }

  lemma OneCallRun(strict: bool, id: string)
    requires id != ""
    ensures Run(strict, OneCallOnly(id)).Some? && Plainly(Run(strict, OneCallOnly(id)).value)
    ensures var arrivals := Arrivals(strict, OneCallOnly(id));
            |arrivals| == 1 && arrivals[0].key == 1 && arrivals[0].callId == Given(id)
  {
    var first := ToolDelta(Some(1), Some(id), Some("f"), "");
    HelloDoes(strict);
    hide Run, Arrivals, OneCall, Plainly;
    NextCall(strict, [HELLO], first);
  }

  lemma TwoAre(id: string)
    ensures TwoCalls(id) == OneCallOnly(id) + [OneCall(ToolDelta(None, Some(id), None, "x"))]
  {
    hide OneCall;
  }

  lemma TwoCallsRun(strict: bool, id: string)
    requires id != ""
    ensures Run(strict, TwoCalls(id)).Some? && Plainly(Run(strict, TwoCalls(id)).value)
    ensures var arrivals := Arrivals(strict, TwoCalls(id));
            && |arrivals| == 2 && arrivals[0].key == arrivals[1].key == 1
            && NamesById(arrivals[1], id)
  {
    hide Run, Arrivals, OneCall, Plainly, RouteKey, KeysWith, Tracked, TwoCalls, OneCallOnly, Solo;
    var more, one := ToolDelta(None, Some(id), None, "x"), OneCallOnly(id);
    OneCallRun(strict, id);
    TwoAre(id);
    RunFollows(strict, one, id);
    OnlyKnown(Run(strict, one).value, Arrivals(strict, one), id, 1);
    RouteById(Run(strict, one).value, more, id);
    NextCall(strict, one, more);
  }

  /** A fragment that names an index nothing reached so far gives its id to a new call. */
  lemma NewCallGives(strict: bool, events: seq<ChatEvent>, d: ToolDelta, key: nat, id: string) returns (a: Arrival)
    requires Run(strict, events).Some? && Plainly(Run(strict, events).value)
    requires IsApplied(d) && d.id == Some(id) && d.index == Some(key)
    requires forall n | 0 <= n < |Arrivals(strict, events)| :: Arrivals(strict, events)[n].key != key
    ensures Run(strict, events + [OneCall(d)]).Some? && Plainly(Run(strict, events + [OneCall(d)]).value)
    ensures Arrivals(strict, events + [OneCall(d)]) == Arrivals(strict, events) + [a] && a.key == key && Gives(a, id)
  {
    var st := Run(strict, events).value;
    assert RouteKey(st, d, 0) == key;
    hide Run, Arrivals, OneCall, Plainly, RouteKey;
    UnknownAt(strict, events, key);
    NextCall(strict, events, d);
    a := Arrival(key, Given(id), d.name, d.arguments, Entry(st, key), false);
  }

  lemma AppliedWithName(d: ToolDelta)
    requires d.ToolDelta? && d.name.Some?
    ensures IsApplied(d)
  {
  }

  lemma ThreeIs(id: string)
    ensures ThreeCalls(id) == TwoCalls(id) + [OneCall(ToolDelta(Some(0), Some(id), Some("g"), ""))]
  {
    hide TwoCalls, OneCall;
  }

  lemma ThreeCallsRun(strict: bool, id: string)
    requires id != ""
    ensures Run(strict, ThreeCalls(id)).Some? && Plainly(Run(strict, ThreeCalls(id)).value)
    ensures var arrivals := Arrivals(strict, ThreeCalls(id));
            && |arrivals| == 3 && arrivals[1].key == 1 && arrivals[2].key == 0
            && NamesById(arrivals[1], id) && Gives(arrivals[2], id)
  {
    hide *;
    TwoCallsRun(strict, id);
    var d := ToolDelta(Some(0), Some(id), Some("g"), "");
    var before := Arrivals(strict, TwoCalls(id));
    assert IsApplied(d) by {
      AppliedWithName(d);
    }
    var a := NewCallGives(strict, TwoCalls(id), d, 0, id);
    ThreeIs(id);
    assert Arrivals(strict, ThreeCalls(id)) == before + [a];
  }

  /** A key that nothing reached has no entry. */
  lemma UnknownAt(strict: bool, events: seq<ChatEvent>, key: nat)
    requires Run(strict, events).Some? &&
      forall n | 0 <= n < |Arrivals(strict, events)| :: Arrivals(strict, events)[n].key != key
    ensures Entry(Run(strict, events).value, key).None?
  {
    RunFollows(strict, events, "id");
    NoIdsAt(Arrivals(strict, events), key);
    hide Run, Arrivals, IdsAt;
    assert TrackedAt(Run(strict, events).value, Arrivals(strict, events), key);
  }

  lemma {:induction false} NoIdsAt(arrivals: seq<Arrival>, key: nat)
    requires forall n | 0 <= n < |arrivals| :: arrivals[n].key != key
    ensures IdsAt(arrivals, key) == []
  {
    if arrivals != [] {
      NoIdsAt(arrivals[..|arrivals| - 1], key);
    }
  }

  lemma RouteById(st: State, d: ToolDelta, id: string)
    requires d.ToolDelta? && d.index.None? && d.id == Some(id)
    ensures RouteKey(st, d, 0) == if KeysWith(st, id) == {} then NextKey(st.tools.Keys) else Least(KeysWith(st, id))
  {
  }

  /** After a single arrival that brought the id, exactly its call has it. */
  lemma OnlyKnown(st: State, arrivals: seq<Arrival>, id: string, key: nat)
    requires Tracked(st, arrivals) && id != ""
    requires |arrivals| == 1 && arrivals[0].key == key && arrivals[0].callId == Given(id)
    ensures KeysWith(st, id) == {key}
  {
    SettledSnoc([], Given(id));
    assert [] + [arrivals[0]] == arrivals && [] + [Given(id)] == [Given(id)];
    forall k: nat
      ensures k in KeysWith(st, id) <==> k == key
    {
      ArrivalSnoc([], arrivals[0], k);
      assert TrackedAt(st, arrivals, k);
      hide Accumulate, EverReplaced, StreamedPart, FillsAt, DeltasAt, AddedItems, Tracked, IdsAt, Settled;
    }
  }
}
