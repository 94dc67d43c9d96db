/** Normalisation of a provider's Chat stream (src/protocol.rs, `ChatStreamCanonicalizer`). */
module ChatCanonicalizer {
  import opened Collections

  /** An optional field of an event: missing or null, of the wrong type, or present. */
  datatype Field<+T> = Missing | Wrong | Present(value: T)

  /** Token counts and choice payloads are carried through unread. */
  type Usage = nat
  type Payload = nat

  /** What the canonicalizer looks at in a delta: whether it carries output text or a call. */
  datatype DeltaIn = DeltaIn(payload: Payload, hasOutput: bool, hasCall: bool)

  /** `finish` is missing for an absent, null or empty reason. */
  datatype ChoiceIn = NotAChoice | ChoiceIn(index: Option<nat>, delta: Option<DeltaIn>, finish: Field<string>)

  datatype EventIn =
    | NotAnEvent
    | EventIn(id: Field<string>, model: Field<string>, created: Field<nat>, usage: Option<Usage>,
              choices: Field<seq<ChoiceIn>>)

  datatype ChoiceOut = ChoiceOut(index: nat, delta: Option<DeltaIn>, finish: Option<string>)

  datatype Chunk = Chunk(id: string, model: string, created: nat, usage: Option<Usage>, choices: seq<ChoiceOut>)

  datatype State = State(
    id: string, model: string, created: nat, locked: bool,
    indices: seq<Option<nat>>, terminals: set<nat>, sawOutput: set<nat>, sawCall: set<nat>, usage: Option<Usage>)

  function Initial(id: string, model: string, created: nat): State {
    State(id, model, created, false, [], {}, {}, {}, None)
  }

  // ---- Identity ----

  /** `stabilize_identity`: the first event fixes it; a field of the wrong type is an error at any time. */
  function Identify(st: State, e: EventIn): (State, bool)
    requires e.EventIn?
  {
    if e.id.Wrong? || e.model.Wrong? || e.created.Wrong? then (st, false)
    else if st.locked then (st, true)
    else
      (st.(id := if e.id.Present? then e.id.value else st.id,
           model := if e.model.Present? then e.model.value else st.model,
           created := if e.created.Present? then e.created.value else st.created,
           locked := true), true)
  }

  function ChunkOf(st: State, usage: Option<Usage>, choices: seq<ChoiceOut>): Chunk {
    Chunk(st.id, st.model, st.created, usage, choices)
  }

  // ---- Choices ----

  /** The index of the choice at a position, fixed at its first appearance; none when it changed. */
  function IndexAt(st: State, position: nat, incoming: Option<nat>): Option<nat> {
    if position < |st.indices| && st.indices[position].Some? then
      if incoming.Some? && incoming != st.indices[position] then None else st.indices[position]
    else Some(incoming.GetOr(position))
  }

  /** The index list with `index` at `position`, padded as needed. */
  function Fixed(indices: seq<Option<nat>>, position: nat, index: nat): seq<Option<nat>> {
    var padded := if |indices| <= position then indices + seq(position + 1 - |indices|, _ => None) else indices;
    padded[position := Some(index)]
  }

  function NormalizeReason(hasCall: bool, reason: string): Option<string> {
    match reason
    case "stop" => Some(if hasCall then "tool_calls" else "stop")
    case "length" => Some("length")
    case "content_filter" => Some("content_filter")
    case "function_call" => if hasCall then Some("tool_calls") else None
    case "tool_calls" => if hasCall then Some("tool_calls") else None
    case "end_turn" => if hasCall then None else Some("stop")
    case "max_tokens" => Some("length")
    case "max_output_tokens" => Some("length")
    case "tool_use" => if hasCall then Some("tool_calls") else None
    case _ => None
  }

  function With(s: set<nat>, i: nat, added: bool): set<nat> {
    if added then s + {i} else s
  }

  /** Records what the choice carries. */
  function Observe(st: State, position: nat, index: nat, delta: DeltaIn): State {
    st.(indices := Fixed(st.indices, position, index),
        sawOutput := With(st.sawOutput, index, delta.hasOutput),
        sawCall := With(st.sawCall, index, delta.hasCall))
  }

  /** The finish reason: normalised, and at most one per choice. */
  function Conclude(st: State, index: nat, finish: Field<string>): (State, Option<Option<string>>) {
    match finish
    case Missing => (st, Some(None))
    case Wrong => (st, None)
    case Present(reason) =>
      var normalized := NormalizeReason(index in st.sawCall, reason);
      if normalized.None? then (st, None)
      else if index in st.terminals then (st, None)
      else (st.(terminals := st.terminals + {index}), Some(normalized))
  }

  /** One choice of a chunk; none stands for an error, with the state as far as it got. */
  function PushChoice(st: State, position: nat, choice: ChoiceIn): (State, Option<ChoiceOut>) {
    if choice.NotAChoice? then (st, None)
    else match IndexAt(st, position, choice.index)
      case None => (st, None)
      case Some(index) =>
        match choice.delta
        case None => (st.(indices := Fixed(st.indices, position, index)), None)
        case Some(delta) =>
          var (next, finish) := Conclude(Observe(st, position, index, delta), index, choice.finish);
          (next, if finish.Some? then Some(ChoiceOut(index, Some(delta), finish.value)) else None)
  }

  /** The first `n` choices. */
  function PushChoices(st: State, choices: seq<ChoiceIn>, n: nat): (State, Option<seq<ChoiceOut>>)
    requires n <= |choices|
  {
    if n == 0 then (st, Some([]))
    else
      var (st, before) := PushChoices(st, choices, n - 1);
      if before.None? then (st, None)
      else
        var (st, out) := PushChoice(st, n - 1, choices[n - 1]);
        (st, if out.None? then None else Some(before.value + [out.value]))
  }

  /** `push`. */
  function Push(st: State, e: EventIn): (State, Option<seq<Chunk>>) {
    if e.NotAnEvent? then (st, None)
    else
      var (st, ok) := Identify(st, e);
      if !ok then (st, None)
      else
        var st := if e.usage.Some? then st.(usage := e.usage) else st;
        match e.choices
        case Wrong => (st, None)
        case Missing => (st, Some([]))
        case Present(choices) =>
          if choices == [] then (st, Some([]))
          else
            var (st, outs) := PushChoices(st, choices, |choices|);
            (st, if outs.None? then None else Some([ChunkOf(st, None, outs.value)]))
  }

  // ---- The end of the stream ----

  /** Indices the stream has used; a stream without choices owes index 0. */
  function SeenIndices(st: State): set<nat> {
    set p | 0 <= p < |st.indices| && st.indices[p].Some? :: st.indices[p].value
  }

  function OwedIndices(st: State): set<nat> {
    (if st.indices == [] then {0} else SeenIndices(st)) - st.terminals
  }

  /** The reason a choice without a terminal gets, if what it carried makes it unambiguous. */
  function InferredReason(st: State, index: nat): Option<string> {
    if index in st.sawCall then Some("tool_calls")
    else if index in st.sawOutput then Some("stop")
    else None
  }

  /** Terminal choices for the first `n` owed indices. */
  function Inferred(st: State, owed: seq<nat>, n: nat): Option<seq<ChoiceOut>>
    requires n <= |owed|
  {
    if n == 0 then Some([])
    else match Inferred(st, owed, n - 1)
      case None => None
      case Some(before) =>
        match InferredReason(st, owed[n - 1])
        case None => None
        case Some(reason) => Some(before + [ChoiceOut(owed[n - 1], None, Some(reason))])
  }

  /** `finish`: the missing terminals, then the deferred usage. */
  function Finish(st: State): (State, Option<seq<Chunk>>) {
    var owed := Ascending(OwedIndices(st));
    match Inferred(st, owed, |owed|)
    case None => (st, None)
    case Some(choices) =>
      var closing := if choices == [] then [] else [ChunkOf(st, None, choices)];
      var trailer := if st.usage.Some? then [ChunkOf(st, st.usage, [])] else [];
      (st.(terminals := st.terminals + OwedIndices(st), usage := None), Some(closing + trailer))
  }

  // ---- The canonicalizer as the object it is ----

  class Canonicalizer {
    var id: string
    var model: string
    var created: nat
    var locked: bool
    var indices: seq<Option<nat>>
    var terminals: set<nat>
    var sawOutput: set<nat>
    var sawCall: set<nat>
    var usage: Option<Usage>

    function Model(): State
      reads this
    {
      State(id, model, created, locked, indices, terminals, sawOutput, sawCall, usage)
    }

    constructor (id: string, model: string, created: nat)
      ensures Model() == Initial(id, model, created)
    {
      this.id, this.model, this.created, locked := id, model, created, false;
      indices, terminals, sawOutput, sawCall, usage := [], {}, {}, {}, None;
    }

    method StabilizeIdentity(e: EventIn) returns (ok: bool)
      requires e.EventIn?
      modifies this
      ensures (Model(), ok) == Identify(old(Model()), e)
    {
      if e.id.Wrong? || e.model.Wrong? || e.created.Wrong? {
        return false;
      }
      if !locked {
        if e.id.Present? {
          id := e.id.value;
        }
        if e.model.Present? {
          model := e.model.value;
        }
        if e.created.Present? {
          created := e.created.value;
        }
        locked := true;
      }
      return true;
    }

    method AcceptChoice(position: nat, choice: ChoiceIn) returns (out: Option<ChoiceOut>)
      modifies this
      ensures (Model(), out) == PushChoice(old(Model()), position, choice)
    {
      hide NormalizeReason, Fixed;
      if choice.NotAChoice? {
        return None;
      }
      var at := IndexAt(Model(), position, choice.index);
      if at.None? {
        return None;
      }
      var index := at.value;
      indices := Fixed(indices, position, index);
      if choice.delta.None? {
        return None;
      }
      var delta := choice.delta.value;
      if delta.hasOutput {
        sawOutput := sawOutput + {index};
      }
      if delta.hasCall {
        sawCall := sawCall + {index};
      }
      if choice.finish.Wrong? {
        return None;
      }
      var finish: Option<string> := None;
      if choice.finish.Present? {
        finish := NormalizeReason(index in sawCall, choice.finish.value);
        if finish.None? || index in terminals {
          return None;
        }
        terminals := terminals + {index};
      }
      return Some(ChoiceOut(index, Some(delta), finish));
    }

    method AcceptChoices(choices: seq<ChoiceIn>) returns (outs: Option<seq<ChoiceOut>>)
      modifies this
      ensures (Model(), outs) == PushChoices(old(Model()), choices, |choices|)
    {
      hide PushChoice;
      outs := Some([]);
      var i := 0;
      while i < |choices| && outs.Some?
        invariant 0 <= i <= |choices|
        invariant (Model(), outs) == PushChoices(old(Model()), choices, i)
        decreases |choices| - i
      {
        var out := AcceptChoice(i, choices[i]);
        outs := if out.None? then None else Some(outs.value + [out.value]);
        i := i + 1;
      }
      if outs.None? {
        ErrorEnds(old(Model()), choices, i, |choices|);
      }
    }

    lemma {:induction false} ErrorEnds(st: State, choices: seq<ChoiceIn>, i: nat, n: nat)
      requires i <= n <= |choices| && PushChoices(st, choices, i).1.None?
      ensures PushChoices(st, choices, n) == PushChoices(st, choices, i)
    {
      if i < n {
        ErrorEnds(st, choices, i, n - 1);
      }
    }

    method PushEvent(e: EventIn) returns (chunks: Option<seq<Chunk>>)
      modifies this
      ensures (Model(), chunks) == Push(old(Model()), e)
    {
      hide Identify, PushChoices;
      if e.NotAnEvent? {
        return None;
      }
      var ok := StabilizeIdentity(e);
      if !ok {
        return None;
      }
      if e.usage.Some? {
        usage := e.usage;
      }
      match e.choices {
        case Wrong => return None;
        case Missing => return Some([]);
        case Present(choices) =>
          if choices == [] {
            return Some([]);
          }
          var outs := AcceptChoices(choices);
          if outs.None? {
            return None;
          }
          return Some([Chunk(id, model, created, None, outs.value)]);
      }
    }

    method FinishStream() returns (chunks: Option<seq<Chunk>>)
      modifies this
      ensures (Model(), chunks) == Finish(old(Model()))
    {
      hide Ascending, OwedIndices, InferredReason;
      var owed := Ascending(OwedIndices(Model()));
      var choices: seq<ChoiceOut>, i := [], 0;
      ghost var st := Model();
      while i < |owed|
        invariant 0 <= i <= |owed| && Inferred(st, owed, i) == Some(choices) && Model() == st
      {
        var reason := InferredReason(Model(), owed[i]);
        if reason.None? {
          NoneEnds(st, owed, i + 1, |owed|);
          return None;
        }
        choices, i := choices + [ChoiceOut(owed[i], None, Some(reason.value))], i + 1;
      }
      terminals := terminals + OwedIndices(Model());
      var output := if choices == [] then [] else [Chunk(id, model, created, None, choices)];
      if usage.Some? {
        output := output + [Chunk(id, model, created, usage, [])];
        usage := None;
      } else {
        assert output + [] == output;
      }
      return Some(output);
    }

    lemma {:induction false} NoneEnds(st: State, owed: seq<nat>, i: nat, n: nat)
      requires i <= n <= |owed| && Inferred(st, owed, i).None?
      ensures Inferred(st, owed, n).None?
    {
      if i < n {
        NoneEnds(st, owed, i, n - 1);
      }
    }
  }
}
