/** What the input fold conserves: no two assistant messages in a row, and every call and every piece of assistant
    text and reasoning in its place among the other messages. */
module InputFoldRuns {
  import opened Collections
  import opened InputFold

  // ---- Traces ----

  /** What a reader of one aspect of the transcript sees: pieces of the assistant's, and other messages whole. */
  datatype Atom = Called(call: Call) | Char(c: char) | Other(message: Message)

  datatype Aspect = Calls | TextOfContent | ReasoningText

  function CharsOf(text: string): seq<Atom> {
    seq(|text|, i requires 0 <= i < |text| => Char(text[i]))
  }

  function CalledOf(calls: seq<Call>): seq<Atom> {
    seq(|calls|, i requires 0 <= i < |calls| => Called(calls[i]))
  }

  /** The text of the text parts, in order. */
  function PartsText(parts: seq<Part>): string {
    if parts == [] then ""
    else PartsText(parts[..|parts| - 1]) + if parts[|parts| - 1].TextPart? then parts[|parts| - 1].text else ""
  }

  function TextIn(content: Content): string {
    match content
    case NoContent => ""
    case Text(text) => text
    case Parts(parts) => PartsText(parts)
  }

  function AtomsOf(aspect: Aspect, message: Message): seq<Atom> {
    match message
    case Assistant(content, reasoning, calls) =>
      (match aspect
       case Calls => CalledOf(calls)
       case TextOfContent => CharsOf(TextIn(content))
       case ReasoningText => CharsOf(reasoning))
    case _ => [Other(message)]
  }

  function Trace(aspect: Aspect, messages: seq<Message>): seq<Atom> {
    if messages == [] then []
    else Trace(aspect, messages[..|messages| - 1]) + AtomsOf(aspect, messages[|messages| - 1])
  }

  /** The messages the first `n` items stand for, one by one. */
  function Unmerged(items: seq<Item>, n: nat, carriesReasoning: bool): seq<Message>
    requires n <= |items|
  {
    if n == 0 then []
    else
      Unmerged(items, n - 1, carriesReasoning)
      + match MessageOf(items[n - 1], carriesReasoning)
        case Ok(Some(message)) => [message]
        case _ => []
  }

  lemma TraceSnoc(aspect: Aspect, messages: seq<Message>, last: Message)
    ensures Trace(aspect, messages + [last]) == Trace(aspect, messages) + AtomsOf(aspect, last)
  {
    assert (messages + [last])[..|messages|] == messages;
  }

  lemma {:induction false} PartsTextAppend(left: seq<Part>, right: seq<Part>)
    ensures PartsText(left + right) == PartsText(left) + PartsText(right)
  {
    if right == [] {
      assert left + right == left;
    } else {
      assert (left + right)[..|left + right| - 1] == left + right[..|right| - 1];
      PartsTextAppend(left, right[..|right| - 1]);
    }
  }

  lemma PartsOfText(content: Content)
    ensures PartsText(PartsOf(content)) == TextIn(content)
  {
    if content.Text? {
      assert [TextPart(content.text)][..0] == [];
    }
  }

  lemma MergeContentText(left: Content, right: Content)
    ensures TextIn(MergeContent(left, right)) == TextIn(left) + TextIn(right)
  {
    PartsTextAppend(PartsOf(left), PartsOf(right));
    PartsOfText(left);
    PartsOfText(right);
  }

  /** Merging two assistant messages loses and reorders nothing of any aspect. */
  lemma MergeAtoms(aspect: Aspect, left: Message, right: Message)
    requires left.Assistant? && right.Assistant?
    ensures AtomsOf(aspect, MergeAssistant(left, right)) == AtomsOf(aspect, left) + AtomsOf(aspect, right)
  {
    MergeContentText(left.content, right.content);
    hide MergeContent, TextIn;
    match aspect
    case Calls => assert CalledOf(left.calls + right.calls) == CalledOf(left.calls) + CalledOf(right.calls);
    case TextOfContent =>
      var a, b := TextIn(left.content), TextIn(right.content);
      assert CharsOf(a + b) == CharsOf(a) + CharsOf(b);
    case ReasoningText =>
      assert CharsOf(left.reasoning + right.reasoning) == CharsOf(left.reasoning) + CharsOf(right.reasoning);
  }

  lemma BlankAtoms(aspect: Aspect)
    ensures AtomsOf(aspect, BLANK) == []
  {
  }

  // ---- The invariant ----

  /** The trace of everything so far, the pending message included. */
  function TraceOf(aspect: Aspect, st: State): seq<Atom> {
    Trace(aspect, st.messages) + if st.pending.Some? then AtomsOf(aspect, st.pending.value) else []
  }

  ghost predicate NoTwoAssistants(messages: seq<Message>) {
    forall i | 0 <= i < |messages| - 1 :: !(messages[i].Assistant? && messages[i + 1].Assistant?)
  }

  /** Finished messages alternate, and the last of them is not the assistant's, so a pending one may follow. */
  ghost predicate Alternating(st: State) {
    && NoTwoAssistants(st.messages)
    && (st.messages != [] ==> !st.messages[|st.messages| - 1].Assistant?)
    && (st.pending.Some? ==> st.pending.value.Assistant?)
  }

  lemma FlushTrace(aspect: Aspect, st: State)
    ensures Trace(aspect, Flush(st).messages) == TraceOf(aspect, st)
  {
    if st.pending.Some? {
      TraceSnoc(aspect, st.messages, st.pending.value);
    } else {
      assert Trace(aspect, st.messages) + [] == Trace(aspect, st.messages);
    }
  }

  lemma SayTrace(aspect: Aspect, st: State, message: Message)
    ensures TraceOf(aspect, Say(st, message)) == TraceOf(aspect, st) + AtomsOf(aspect, message)
  {
    FlushTrace(aspect, st);
    TraceSnoc(aspect, Flush(st).messages, message);
    hide Trace, AtomsOf;
    assert TraceOf(aspect, Say(st, message)) == Trace(aspect, Say(st, message).messages) + [];
  }

  lemma MergeTrace(aspect: Aspect, st: State, message: Message)
    requires message.Assistant? && (st.pending.Some? ==> st.pending.value.Assistant?)
    ensures TraceOf(aspect, Merge(st, message)) == TraceOf(aspect, st) + AtomsOf(aspect, message)
  {
    hide Trace, AtomsOf, MergeAssistant;
    MergeAtoms(aspect, st.pending.GetOr(BLANK), message);
    BlankAtoms(aspect);
    if st.pending.None? {
      assert TraceOf(aspect, st) == Trace(aspect, st.messages);
      assert [] + AtomsOf(aspect, message) == AtomsOf(aspect, message);
    } else {
      assert TraceOf(aspect, st) == Trace(aspect, st.messages) + AtomsOf(aspect, st.pending.value);
    }
  }

  lemma SayAlternates(st: State, message: Message)
    requires Alternating(st) && !message.Assistant?
    ensures Alternating(Say(st, message))
  {
  }

  lemma TranslateKeeps(aspect: Aspect, st: State, item: Item, carriesReasoning: bool)
    requires Alternating(st) && Translate(st, item, carriesReasoning).Ok?
    ensures var next := Translate(st, item, carriesReasoning).value;
            && Alternating(next)
            && TraceOf(aspect, next) == match MessageOf(item, carriesReasoning)
                 case Ok(Some(message)) => TraceOf(aspect, st) + AtomsOf(aspect, message)
                 case _ => TraceOf(aspect, st)
  {
    hide MessageOf, TraceOf, AtomsOf;
    match MessageOf(item, carriesReasoning)
    case Ok(Some(message)) =>
      if message.Assistant? {
        MergeTrace(aspect, st, message);
      } else {
        SayTrace(aspect, st, message);
        SayAlternates(st, message);
      }
    case _ =>
  }

  lemma {:induction false} FoldKeeps(aspect: Aspect, start: State, items: seq<Item>, n: nat, carriesReasoning: bool)
    requires n <= |items| && start.pending.None? && Alternating(start)
    requires FoldFrom(start, items, n, carriesReasoning).Ok?
    ensures var st := FoldFrom(start, items, n, carriesReasoning).value;
            Alternating(st) && TraceOf(aspect, st) == TraceOf(aspect, start) + Trace(aspect,
                                                                                     Unmerged(items, n, carriesReasoning))
  {
    hide Alternating, TraceOf, AtomsOf, Trace, MessageOf, Translate;
    if n == 0 {
      NothingUnmerged(aspect, items, carriesReasoning);
      assert TraceOf(aspect, start) + [] == TraceOf(aspect, start);
    } else {
      hide Unmerged;
      FoldKeeps(aspect, start, items, n - 1, carriesReasoning);
      var st := FoldFrom(start, items, n - 1, carriesReasoning).value;
      TranslateKeeps(aspect, st, items[n - 1], carriesReasoning);
      UnmergedSnoc(aspect, items, n, carriesReasoning);
      match MessageOf(items[n - 1], carriesReasoning)
      case Ok(Some(message)) =>
        Associate(TraceOf(aspect, start), Trace(aspect, Unmerged(items, n - 1, carriesReasoning)),
                  AtomsOf(aspect, message));
      case _ =>
    }
  }

  lemma Associate(a: seq<Atom>, b: seq<Atom>, c: seq<Atom>)
    ensures (a + b) + c == a + (b + c)
  {
  }

  lemma NothingUnmerged(aspect: Aspect, items: seq<Item>, carriesReasoning: bool)
    ensures Trace(aspect, Unmerged(items, 0, carriesReasoning)) == []
  {
  }

  lemma UnmergedSnoc(aspect: Aspect, items: seq<Item>, n: nat, carriesReasoning: bool)
    requires 0 < n <= |items|
    ensures Trace(aspect, Unmerged(items, n, carriesReasoning)) == match MessageOf(items[n - 1], carriesReasoning)
              case Ok(Some(message)) => Trace(aspect, Unmerged(items, n - 1, carriesReasoning)) + AtomsOf(aspect, message)
              case _ => Trace(aspect, Unmerged(items, n - 1, carriesReasoning))
  {
    hide MessageOf, AtomsOf;
    var before := Unmerged(items, n - 1, carriesReasoning);
    match MessageOf(items[n - 1], carriesReasoning)
    case Ok(Some(message)) => TraceSnoc(aspect, before, message);
    case _ => assert before + [] == before;
  }

  /** An accepted request yields messages with no two assistant messages in a row, in which every aspect - the
      calls, the assistant's text, its reasoning - reads, together with all other messages, exactly as in the items
      one by one. */
  lemma FoldConserves(aspect: Aspect, instructions: Option<Content>, items: seq<Item>, carriesReasoning: bool)
    requires Messages(instructions, items, carriesReasoning).Ok?
    ensures var messages := Messages(instructions, items, carriesReasoning).value;
            && NoTwoAssistants(messages)
            && Trace(aspect, messages)
               == Trace(aspect, Opening(instructions).messages) + Trace(aspect,
                                                                        Unmerged(items, |items|, carriesReasoning))
  {
    var start := Opening(instructions);
    OpeningAlternates(aspect, instructions);
    hide Trace, AtomsOf, FoldFrom, Alternating, NoTwoAssistants, Unmerged, TraceOf, Opening;
    FoldKeeps(aspect, start, items, |items|, carriesReasoning);
    var st := FoldFrom(start, items, |items|, carriesReasoning).value;
    FlushTrace(aspect, st);
    FlushAlternates(st);
  }

  lemma OpeningAlternates(aspect: Aspect, instructions: Option<Content>)
    ensures var start := Opening(instructions);
            start.pending.None? && Alternating(start) && TraceOf(aspect, start) == Trace(aspect, start.messages)
  {
    hide Trace;
    assert TraceOf(aspect, Opening(instructions)) == Trace(aspect, Opening(instructions).messages) + [];
  }

  lemma FlushAlternates(st: State)
    requires Alternating(st)
    ensures NoTwoAssistants(Flush(st).messages)
  {
  }

  /** The request is refused exactly when some item is. */
  lemma {:induction false} FoldRefuses(start: State, items: seq<Item>, n: nat, carriesReasoning: bool)
    requires n <= |items| && start.pending.None?
    ensures FoldFrom(start, items, n, carriesReasoning).Err?
       <==> exists k :: 0 <= k < n && MessageOf(items[k], carriesReasoning).Err?
  {
    hide MessageOf;
    if n > 0 {
      FoldRefuses(start, items, n - 1, carriesReasoning);
    }
  }

  // ---- What an item stands for ----

  /** The item is a tool's result: by role, or because it names a call. */
  predicate IsResult(item: Item) {
    item.MessageItem? && (item.role == Some("tool") || item.role == Some("function") || item.hasToolCallId)
  }

  /** The role of an item that is no tool result. */
  predicate Says(item: Item, role: string) {
    item.MessageItem? && !IsResult(item) && (item.role == Some(role) || (item.role.None? && role == "user"))
  }

  /** An item is refused exactly when it is unknown, or a tool result without its call id, without its content, or
      typed as the assistant's. */
  lemma ItemRefusedIff(item: Item, carriesReasoning: bool)
    ensures MessageOf(item, carriesReasoning) == Err(UnsupportedItem) <==> item.Unsupported?
    ensures MessageOf(item, carriesReasoning) == Err(MissingToolCallId) <==> IsResult(item) && item.id.None?
    ensures MessageOf(item, carriesReasoning) == Err(MissingToolContent) <==>
      IsResult(item) && item.id.Some? && item.result.None?
    ensures MessageOf(item, carriesReasoning) == Err(NotAssistant) <==>
      IsResult(item) && item.id.Some? && item.result.Some? && item.typed && item.role == Some("assistant")
  {
    if item.MessageItem? {
      hide ClaimsAssistant;
      if item.typed {
        assert forall message :: ClaimsAssistant(item, message) <==> item.role == Some("assistant") by {
          ClaimsByRole(item);
        }
      } else {
        assert forall message :: ClaimsAssistant(item, message) <==> message.Assistant? by {
          ClaimsByMessage(item);
        }
      }
    }
  }

  lemma ClaimsByRole(item: Item)
    requires item.MessageItem? && item.typed
    ensures forall message :: ClaimsAssistant(item, message) <==> item.role == Some("assistant")
  {
  }

  lemma ClaimsByMessage(item: Item)
    requires item.MessageItem? && !item.typed
    ensures forall message :: ClaimsAssistant(item, message) <==> message.Assistant?
  {
  }

  /** Otherwise it stands for one message with its own content, or for none: reasoning that is empty or not carried. */
  lemma ItemSpeaks(item: Item, carriesReasoning: bool)
    requires MessageOf(item, carriesReasoning).Ok?
    ensures var message := MessageOf(item, carriesReasoning).value;
            && (message.None? <==> item.Reasoning? && (item.text == "" || !carriesReasoning))
            && (item.Plain? ==> message == Some(User(Text(item.text))))
            && (item.Reasoning? && message.Some? ==> message == Some(Assistant(NoContent, item.text, [])))
            && (item.FunctionCall? ==> message == Some(Assistant(NoContent, "", [item.call])))
            && (item.CallOutput? ==> message == Some(Tool(item.callId, item.output)))
            && (item.AgentMessage? ==> message == Some(Assistant(item.content, "", [])))
            && (IsResult(item) ==> message == Some(Tool(item.id.value, item.result.value)))
            && (Says(item, "assistant") ==> message == Some(Assistant(item.content, item.reasoning, item.calls)))
            && (Says(item, "user") ==> message == Some(User(item.content)))
            && (item.MessageItem? && !IsResult(item) && !Says(item, "assistant") && !Says(item, "user") ==>
                  message == Some(System(item.content)))
  {
    hide ClaimsAssistant;
  }

  /** The instructions stand first. */
  lemma {:induction false} InstructionsFirst(instructions: Content, items: seq<Item>, n: nat, carriesReasoning: bool)
    requires n <= |items|
    ensures var folded := FoldFrom(Opening(Some(instructions)), items, n, carriesReasoning);
            folded.Ok? ==> folded.value.messages != [] && folded.value.messages[0] == System(instructions)
  {
    hide MessageOf, MergeAssistant;
    if n > 0 {
      InstructionsFirst(instructions, items, n - 1, carriesReasoning);
    }
  }

  lemma RequestOpens(instructions: Content, items: seq<Item>, carriesReasoning: bool)
    ensures var messages := Messages(Some(instructions), items, carriesReasoning);
            messages.Ok? ==> messages.value != [] && messages.value[0] == System(instructions)
  {
    InstructionsFirst(instructions, items, |items|, carriesReasoning);
    hide FoldFrom, Opening;
  }
}
