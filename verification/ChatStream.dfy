/**
 The streaming half of the chat translation as functions of the translator's state
 (chat_completions.go, chatStreamTranslator). Every function returns the state it leaves
 and stops at the first error, as the code does.
 */
module ChatStream {
  import opened Base
  import opened ChatTypes

  datatype Tool = Tool(index: nat, argumentsEmitted: bool)
  datatype Key = Key(output: int, content: int, refusal: bool)

  /** Why a chunk was written: bookkeeping for the emission theorems, not part of the wire. */
  datatype Origin =
    | Direct
    | Streamed(key: Key)
    | Fallback(key: Key)
    | Announced(tool: string)
    | Arguments(tool: string)

  datatype Write = Write(chunk: Chunk, origin: Origin)

  /**
   What does not change during a stream. `freshId` is the id made up from the clock when
   upstream sends none. `failAt` is the one write attempt that fails, if any: attempts after
   it would succeed again, so anything written after a failure would show in `sent`.
   */
  datatype Config = Config(fallback: string, includeUsage: bool, freshId: string, failAt: Option<nat>)

  datatype State = State(id: string, created: int, model: string, tier: string,
                         roleSent: bool, toolSeen: bool, terminal: bool, usage: Usage,
                         tools: map<string, Tool>, seen: set<Key>,
                         sent: seq<Write>, attempts: nat)

  datatype TranslateError = WriteFailed | Upstream(summary: string)

  datatype Step = Ok(st: State) | Err(st: State, error: TranslateError) {
    predicate IsFailure() { Err? }
    function PropagateFailure(): Step requires Err? { this }
    function Extract(): State requires Ok? { st }
  }

  function Initial(cfg: Config, now: int): State {
    State("", now, cfg.fallback, "", false, false, false, NO_USAGE, map[], {}, [], 0)
  }

  function Put(cfg: Config, st: State, chunk: Chunk, origin: Origin): Step {
    var tried := st.(attempts := st.attempts + 1);
    if cfg.failAt == Some(st.attempts) then Err(tried, WriteFailed)
    else Ok(tried.(sent := st.sent + [Write(chunk, origin)]))
  }

  /** baseChunk settles the identity the first time a chunk needs it. */
  function Identify(cfg: Config, st: State): State {
    st.(id := if st.id == "" then cfg.freshId else st.id,
        model := if st.model == "" then cfg.fallback else st.model)
  }

  function HeaderOf(st: State): Header {
    Header(st.id, st.created, st.model, st.tier)
  }

  function WriteChoice(cfg: Config, st: State, delta: Delta, finish: Option<string>, origin: Origin): Step {
    var st1 := Identify(cfg, st);
    Put(cfg, st1, Choice(HeaderOf(st1), delta, finish), origin)
  }

  function EnsureRole(cfg: Config, st: State): Step {
    if st.roleSent then Ok(st)
    else WriteChoice(cfg, st.(roleSent := true), Role, None, Direct)
  }

  function EnsureTool(cfg: Config, st: State, item: Item, outputIndex: int): (r: Step)
    requires item.Call?
    ensures r.Ok? ==> ToolKey(item.id, outputIndex) in r.st.tools
  {
    var st1 :- EnsureRole(cfg, st);
    var key := ToolKey(item.id, outputIndex);
    if key in st1.tools then Ok(st1)
    else
      var tool := Tool(|st1.tools|, item.arguments != "");
      WriteChoice(cfg, st1.(tools := st1.tools[key := tool], toolSeen := true),
                  ToolOpen(tool.index, ValueOr(item.callId, item.id), item.name, item.arguments),
                  None, Announced(key))
  }

  function WriteArguments(cfg: Config, st: State, key: string, arguments: string): Step
    requires key in st.tools
  {
    var st1 := st.(tools := st.tools[key := st.tools[key].(argumentsEmitted := true)]);
    WriteChoice(cfg, st1, ToolMore(st1.tools[key].index, arguments), None, Arguments(key))
  }

  /** A finished call: announce it if new, then send its arguments unless some were sent. */
  function EmitCall(cfg: Config, st: State, item: Item, outputIndex: int): Step
    requires item.Call?
  {
    var st1 :- EnsureTool(cfg, st, item, outputIndex);
    var key := ToolKey(item.id, outputIndex);
    if item.arguments != "" && !st1.tools[key].argumentsEmitted
    then WriteArguments(cfg, st1, key, item.arguments)
    else Ok(st1)
  }

  function PartKey(part: Part, outputIndex: int, contentIndex: int): Key {
    Key(outputIndex, contentIndex, part.Refusal?)
  }

  function PartDelta(part: Part): Delta
    requires !part.OtherPart?
  {
    if part.Text? then Content(part.text) else Refused(part.text)
  }

  /** emitMessageFallback from content index j on. */
  function EmitParts(cfg: Config, st: State, parts: seq<Part>, outputIndex: int, j: nat): Step
    decreases |parts| - j
  {
    if j >= |parts| then Ok(st)
    else
      var key := PartKey(parts[j], outputIndex, j);
      if parts[j].OtherPart? || key in st.seen then EmitParts(cfg, st, parts, outputIndex, j + 1)
      else
        var st1 :- EnsureRole(cfg, st.(seen := st.seen + {key}));
        var st2 :- WriteChoice(cfg, st1, PartDelta(parts[j]), None, Fallback(key));
        EmitParts(cfg, st2, parts, outputIndex, j + 1)
  }

  function EmitItem(cfg: Config, st: State, item: Item, outputIndex: int): Step {
    match item
    case Message(parts) => EmitParts(cfg, st, parts, outputIndex, 0)
    case Call(_, _, _, _) => EmitCall(cfg, st, item, outputIndex)
    case OtherItem => Ok(st)
  }

  /** emitResponseOutputFallback from output index i on. */
  function EmitOutput(cfg: Config, st: State, output: seq<Item>, i: nat): Step
    decreases |output| - i
  {
    if i >= |output| then Ok(st)
    else
      var st1 :- EmitItem(cfg, st, output[i], i);
      EmitOutput(cfg, st1, output, i + 1)
  }

  /** Identity may change only until the first chunk; usage and tier always. */
  function Capture(st: State, r: Response): State {
    var st1 :=
      if st.roleSent then st
      else st.(id := if r.id != "" then CompletionId(r.id) else st.id,
               model := if r.model != "" then r.model else st.model,
               created := r.created);
    st1.(usage := if r.usage.HasAny() then r.usage else st1.usage,
         tier := if r.tier != "" then r.tier else st1.tier)
  }

  function Fail(cfg: Config, st: State, message: string, summary: string): Step {
    if st.terminal then Ok(st)
    else
      var st1 :- Put(cfg, st.(terminal := true), Error(message), Direct);
      var st2 :- Put(cfg, st1, Done, Direct);
      Err(st2, Upstream(summary))
  }

  const NO_RESPONSE := "terminal event is missing its response object"
  const FAILED := "upstream response failed"
  const NO_TERMINAL := "upstream stream ended without a terminal response event"
  const BAD_JSON := "upstream stream contained an invalid JSON event"

  /** What follows the finish chunk: usage if asked for, then DONE. */
  function WindUp(cfg: Config, st: State): Step {
    var st1 :- if cfg.includeUsage && st.usage.HasAny()
               then var id := Identify(cfg, st); Put(cfg, id, UsageOnly(HeaderOf(id), id.usage), Direct)
               else Ok(st);
    Put(cfg, st1.(terminal := true), Done, Direct)
  }

  function Close(cfg: Config, st: State, status: Status): Step {
    var st1 :- EnsureRole(cfg, st);
    var st2 :- WriteChoice(cfg, st1, NoDelta, Some(FinishReason(status, st1.toolSeen)), Direct);
    WindUp(cfg, st2)
  }

  function Finish(cfg: Config, st: State, response: Option<Response>): Step {
    if st.terminal then Ok(st)
    else if response.None? then Fail(cfg, st, NO_RESPONSE, NO_RESPONSE)
    else if response.value.status.Failed? || response.value.status.Cancelled? then Fail(cfg, st, FAILED, FAILED)
    else
      var st1 :- EmitOutput(cfg, Capture(st, response.value), response.value.output, 0);
      Close(cfg, st1, response.value.status)
  }

  function WriteDelta(cfg: Config, st: State, key: Key, delta: string): Step {
    var st1 :- EnsureRole(cfg, st);
    var st2 := if delta != "" then st1.(seen := st1.seen + {key}) else st1;
    WriteChoice(cfg, st2, if key.refusal then Refused(delta) else Content(delta), None, Streamed(key))
  }

  function ConsumeArguments(cfg: Config, st: State, itemId: string, outputIndex: int, delta: string): Step {
    var key := ToolKey(itemId, outputIndex);
    var st1 :- if key in st.tools then Ok(st)
               else EnsureTool(cfg, st, Call(itemId, itemId, "", ""), outputIndex);
    WriteArguments(cfg, st1, key, delta)
  }

  function Consume(cfg: Config, st: State, event: Event): Step {
    match event
    case Created(response) =>
      EnsureRole(cfg, if response.Some? then Capture(st, response.value) else st)
    case ItemAdded(Some(Call(id, callId, name, arguments)), k) =>
      EnsureTool(cfg, st, event.item.value, k)
    case ItemAdded(Some(Message(_)), _) => EnsureRole(cfg, st)
    case ItemDone(Some(item), k) => EmitItem(cfg, st, item, k)
    case TextDelta(k, j, delta) => WriteDelta(cfg, st, Key(k, j, false), delta)
    case RefusalDelta(k, j, delta) => WriteDelta(cfg, st, Key(k, j, true), delta)
    case ArgumentsDelta(id, k, delta) => ConsumeArguments(cfg, st, id, k, delta)
    case Terminal(response) => Finish(cfg, st, response)
    case ResponseFailed(response) =>
      Fail(cfg, if response.Some? then Capture(st, response.value) else st, FAILED, FAILED)
    case ErrorEvent(message, summary) => Fail(cfg, st, message, summary)
    case _ => Ok(st)
  }

  /** The verdict on one payload; `Ok` with `terminal` set is errSSEComplete. */
  function Receive(cfg: Config, st: State, payload: Payload): Step {
    match payload
    case Blank => Ok(st)
    case DoneMark => Fail(cfg, st, NO_TERMINAL, NO_TERMINAL)
    case Malformed => Fail(cfg, st, BAD_JSON, BAD_JSON)
    case Parsed(event, _, _) => Consume(cfg, st, event)
  }

  /** copyChatCompletionsStream over the payloads its framer would go on delivering. */
  function Translate(cfg: Config, st: State, payloads: seq<Payload>, end: StreamEnd): Step
    decreases |payloads|
  {
    if payloads == [] then
      var message := if end.StreamError? then end.message else NO_TERMINAL;
      Fail(cfg, st, message, message)
    else
      var st1 :- Receive(cfg, st, payloads[0]);
      if st1.terminal then Ok(st1) else Translate(cfg, st1, payloads[1..], end)
  }
}
