/** Folding Responses input items into Chat messages (src/protocol.rs, `translate_responses_input_item` and the
    pending assistant message it merges into). */
module InputFold {
  import opened Collections

  /** A converted call; its fields are carried through unread. */
  type Call = nat

  datatype Part = TextPart(text: string) | OtherPart(payload: nat)

  datatype Content = NoContent | Text(text: string) | Parts(parts: seq<Part>)

  datatype Message =
    | Assistant(content: Content, reasoning: string, calls: seq<Call>)
    | User(content: Content)
    | System(content: Content)
    | Tool(callId: string, output: string)

  /** An input item as the fold dispatches on it.  A `message` item keeps the fields the conversion reads: the call
      id and output matter only when it turns out to be a tool result. */
  datatype Item =
    | Plain(text: string)
    | Reasoning(text: string)
    | FunctionCall(call: Call)
    | CallOutput(callId: string, output: string)
    | AgentMessage(content: Content)
    | MessageItem(typed: bool, role: Option<string>, hasToolCallId: bool, id: Option<string>, result: Option<string>,
                  content: Content, reasoning: string, calls: seq<Call>)
    | Unsupported

  datatype FoldError = UnsupportedItem | MissingToolCallId | MissingToolContent | NotAssistant

  // ---- Conversion of one message ----

  /** `responses_message_object_to_chat_message`. */
  function ConvertMessage(item: Item): Result<Message, FoldError>
    requires item.MessageItem?
  {
    var role := item.role.GetOr("user");
    if role == "tool" || role == "function" || item.hasToolCallId then
      if item.id.None? then Err(MissingToolCallId)
      else if item.result.None? then Err(MissingToolContent)
      else Ok(Tool(item.id.value, item.result.value))
    else match role
      case "user" => Ok(User(item.content))
      case "assistant" => Ok(Assistant(item.content, item.reasoning, item.calls))
      case _ => Ok(System(item.content))
  }

  /** Whether the fold treats the item as the assistant's: by the role it names when it has a type, by the converted
      role otherwise. */
  predicate ClaimsAssistant(item: Item, message: Message)
    requires item.MessageItem?
  {
    if item.typed then item.role == Some("assistant") else message.Assistant?
  }

  // ---- Merging ----

  function PartsOf(content: Content): seq<Part> {
    match content
    case NoContent => []
    case Text(text) => [TextPart(text)]
    case Parts(parts) => parts
  }

  /** `merge_chat_message_content`. */
  function MergeContent(left: Content, right: Content): Content {
    match (left, right)
    case (NoContent, _) => right
    case (_, NoContent) => left
    case (Text(a), Text(b)) => Text(a + b)
    case _ => Parts(PartsOf(left) + PartsOf(right))
  }

  const BLANK := Assistant(NoContent, "", [])

  function MergeAssistant(pending: Message, next: Message): Message
    requires pending.Assistant? && next.Assistant?
  {
    Assistant(MergeContent(pending.content, next.content), pending.reasoning + next.reasoning, pending.calls + next.calls)
  }

  // ---- The fold ----

  /** Messages so far and the assistant message still being put together. */
  datatype State = State(messages: seq<Message>, pending: Option<Message>)

  function Flush(st: State): State {
    match st.pending
    case None => st
    case Some(message) => State(st.messages + [message], None)
  }

  function Merge(st: State, next: Message): State
    requires next.Assistant? && (st.pending.Some? ==> st.pending.value.Assistant?)
  {
    st.(pending := Some(MergeAssistant(st.pending.GetOr(BLANK), next)))
  }

  function Say(st: State, message: Message): State {
    var st := Flush(st);
    st.(messages := st.messages + [message])
  }

  /** The message an item stands for; none for reasoning that the carrier drops or that is empty. */
  function MessageOf(item: Item, carriesReasoning: bool): Result<Option<Message>, FoldError> {
    match item
    case Plain(text) => Ok(Some(User(Text(text))))
    case Reasoning(text) => Ok(if carriesReasoning && text != "" then Some(Assistant(NoContent, text, [])) else None)
    case FunctionCall(call) => Ok(Some(Assistant(NoContent, "", [call])))
    case CallOutput(callId, output) => Ok(Some(Tool(callId, output)))
    case AgentMessage(content) => Ok(Some(Assistant(content, "", [])))
    case MessageItem(_, _, _, _, _, _, _, _) =>
      (match ConvertMessage(item)
       case Err(e) => Err(e)
       case Ok(message) =>
         if ClaimsAssistant(item, message) && !message.Assistant? then Err(NotAssistant) else Ok(Some(message)))
    case Unsupported => Err(UnsupportedItem)
  }

  /** One item: assistant messages merge into the pending one, anything else flushes it first. */
  function Translate(st: State, item: Item, carriesReasoning: bool): Result<State, FoldError>
    requires st.pending.Some? ==> st.pending.value.Assistant?
  {
    match MessageOf(item, carriesReasoning)
    case Err(e) => Err(e)
    case Ok(None) => Ok(st)
    case Ok(Some(message)) => Ok(if message.Assistant? then Merge(st, message) else Say(st, message))
  }

  /** The first `n` items, from a state with nothing pending. */
  function FoldFrom(start: State, items: seq<Item>, n: nat, carriesReasoning: bool): (folded: Result<State, FoldError>)
    requires n <= |items| && start.pending.None?
    ensures folded.Ok? && folded.value.pending.Some? ==> folded.value.pending.value.Assistant?
  {
    if n == 0 then Ok(start)
    else match FoldFrom(start, items, n - 1, carriesReasoning)
      case Err(e) => Err(e)
      case Ok(st) => Translate(st, items[n - 1], carriesReasoning)
  }

  /** A system message for the instructions, if any. */
  function Opening(instructions: Option<Content>): State {
    State(if instructions.Some? then [System(instructions.value)] else [], None)
  }

  /** The Chat messages of a request. */
  function Messages(instructions: Option<Content>, items: seq<Item>,
                    carriesReasoning: bool): Result<seq<Message>, FoldError> {
    match FoldFrom(Opening(instructions), items, |items|, carriesReasoning)
    case Err(e) => Err(e)
    case Ok(st) => Ok(Flush(st).messages)
  }

  // ---- The fold as it runs ----

  class Folder {
    const carriesReasoning: bool
    var messages: seq<Message>
    var pending: Option<Message>

    ghost predicate Valid()
      reads this
    {
      pending.Some? ==> pending.value.Assistant?
    }

    function Model(): State
      reads this
    {
      State(messages, pending)
    }

    constructor (instructions: Option<Content>, carriesReasoning: bool)
      ensures Valid() && this.carriesReasoning == carriesReasoning
      ensures Model() == Opening(instructions)
    {
      this.carriesReasoning := carriesReasoning;
      messages, pending := if instructions.Some? then [System(instructions.value)] else [], None;
    }

    method FlushPending()
      modifies this
      ensures Model() == Flush(old(Model()))
    {
      if pending.Some? {
        messages, pending := messages + [pending.value], None;
      }
    }

    method MergeAssistantMessage(next: Message)
      requires Valid() && next.Assistant?
      modifies this
      ensures Valid() && Model() == Merge(old(Model()), next)
    {
      var current := BLANK;
      if pending.Some? {
        current := pending.value;
      }
      var content := MergeContent(current.content, next.content);
      pending := Some(Assistant(content, current.reasoning + next.reasoning, current.calls + next.calls));
    }

    method TranslateItem(item: Item) returns (error: Option<FoldError>)
      requires Valid()
      modifies this
      ensures Valid()
      ensures match Translate(old(Model()), item, carriesReasoning)
              case Ok(st) => error.None? && Model() == st
              case Err(e) => error == Some(e)
    {
      hide MergeContent, ConvertMessage;
      match item {
        case Plain(text) =>
          FlushPending();
          messages := messages + [User(Text(text))];
        case Reasoning(text) =>
          if carriesReasoning && text != "" {
            MergeAssistantMessage(Assistant(NoContent, text, []));
          }
        case FunctionCall(call) => MergeAssistantMessage(Assistant(NoContent, "", [call]));
        case CallOutput(callId, output) =>
          FlushPending();
          messages := messages + [Tool(callId, output)];
        case AgentMessage(content) => MergeAssistantMessage(Assistant(content, "", []));
        case MessageItem(_, _, _, _, _, _, _, _) =>
          AssistantIsClaimed(item);
          match ConvertMessage(item) {
            case Err(e) => return Some(e);
            case Ok(message) =>
              if ClaimsAssistant(item, message) {
                if !message.Assistant? {
                  return Some(NotAssistant);
                }
                MergeAssistantMessage(message);
              } else {
                FlushPending();
                messages := messages + [message];
              }
          }
        case Unsupported => return Some(UnsupportedItem);
      }
      return None;
    }

    /** A message that converts to the assistant's always names that role itself. */
    lemma AssistantIsClaimed(item: Item)
      requires item.MessageItem?
      ensures ConvertMessage(item).Ok? && ConvertMessage(item).value.Assistant? ==>
                ClaimsAssistant(item, ConvertMessage(item).value)
    {
    }

    method TranslateItems(items: seq<Item>) returns (error: Option<FoldError>)
      requires Valid() && pending.None?
      modifies this
      ensures var start := old(Model());
              match FoldFrom(start, items, |items|, carriesReasoning)
              case Ok(st) => error.None? && Model() == Flush(st)
              case Err(e) => error == Some(e)
    {
      hide Translate;
      ghost var start := Model();
      var i := 0;
      while i < |items|
        invariant 0 <= i <= |items| && Valid()
        invariant FoldFrom(start, items, i, carriesReasoning) == Ok(Model())
      {
        error := TranslateItem(items[i]);
        if error.Some? {
          ErrorEnds(start, items, i + 1, |items|, carriesReasoning);
          return;
        }
        i := i + 1;
      }
      FlushPending();
      return None;
    }

    lemma {:induction false} ErrorEnds(start: State, items: seq<Item>, i: nat, n: nat, carries: bool)
      requires i <= n <= |items| && start.pending.None? && FoldFrom(start, items, i, carries).Err?
      ensures FoldFrom(start, items, n, carries) == FoldFrom(start, items, i, carries)
    {
      if i < n {
        ErrorEnds(start, items, i, n - 1, carries);
      }
    }
  }
}
