/**
 The translator as the code has it: an object whose methods update its fields and stop at
 the first error. Each method is proved to do what the function of the same step in
 ChatStream says, so the theorems about those functions are theorems about this object.
 */
module ChatTranslator {
  import opened Base
  import opened ChatTypes
  import opened ChatStream

  ghost function Outcome(err: Option<TranslateError>, st: State): Step {
    if err.None? then Ok(st) else Err(st, err.value)
  }

  class ChatStreamTranslator {
    const cfg: Config
    var id: string
    var created: int
    var model: string
    var serviceTier: string
    var roleSent: bool
    var toolSeen: bool
    var terminal: bool
    var usage: Usage
    var tools: map<string, Tool>
    var contentSeen: set<Key>
    var sent: seq<Write>
    var attempts: nat

    constructor (cfg: Config, now: int)
      ensures this.cfg == cfg && St() == Initial(cfg, now)
    {
      this.cfg := cfg;
      id, created, model, serviceTier := "", now, cfg.fallback, "";
      roleSent, toolSeen, terminal, usage := false, false, false, NO_USAGE;
      tools, contentSeen, sent, attempts := map[], {}, [], 0;
    }

    ghost function St(): State
      reads this
    {
      State(id, created, model, serviceTier, roleSent, toolSeen, terminal, usage, tools, contentSeen, sent, attempts)
    }

    method WriteObject(chunk: Chunk, origin: Origin) returns (err: Option<TranslateError>)
      modifies this
      ensures Outcome(err, St()) == Put(cfg, old(St()), chunk, origin)
    {
      var n := attempts;
      attempts := n + 1;
      if cfg.failAt == Some(n) { return Some(WriteFailed); }
      sent := sent + [Write(chunk, origin)];
      return None;
    }

    method BaseChunk() returns (header: Header)
      modifies this
      ensures St() == Identify(cfg, old(St())) && header == HeaderOf(St())
    {
      if id == "" { id := cfg.freshId; }
      if model == "" { model := cfg.fallback; }
      header := Header(id, created, model, serviceTier);
    }

    method WriteChoice(delta: Delta, finish: Option<string>, origin: Origin) returns (err: Option<TranslateError>)
      modifies this
      ensures Outcome(err, St()) == ChatStream.WriteChoice(cfg, old(St()), delta, finish, origin)
    {
      var header := BaseChunk();
      err := WriteObject(Choice(header, delta, finish), origin);
    }

    method EnsureRole() returns (err: Option<TranslateError>)
      modifies this
      ensures Outcome(err, St()) == ChatStream.EnsureRole(cfg, old(St()))
    {
      if roleSent { return None; }
      roleSent := true;
      err := WriteChoice(Role, None, Direct);
    }

    method EnsureTool(item: Item, outputIndex: int) returns (err: Option<TranslateError>)
      requires item.Call?
      modifies this
      ensures Outcome(err, St()) == ChatStream.EnsureTool(cfg, old(St()), item, outputIndex)
    {
      err := EnsureRole();
      if err.Some? { return; }
      var key := ToolKey(item.id, outputIndex);
      if key in tools { return None; }
      var tool := Tool(|tools|, item.arguments != "");
      tools := tools[key := tool];
      toolSeen := true;
      err := WriteChoice(ToolOpen(tool.index, ValueOr(item.callId, item.id), item.name, item.arguments),
                         None, Announced(key));
    }

    method WriteToolArguments(key: string, arguments: string) returns (err: Option<TranslateError>)
      requires key in tools
      modifies this
      ensures Outcome(err, St()) == WriteArguments(cfg, old(St()), key, arguments)
    {
      tools := tools[key := tools[key].(argumentsEmitted := true)];
      err := WriteChoice(ToolMore(tools[key].index, arguments), None, Arguments(key));
    }

    /** The function-call branch shared by the done event and the final output. */
    method EmitCall(item: Item, outputIndex: int) returns (err: Option<TranslateError>)
      requires item.Call?
      modifies this
      ensures Outcome(err, St()) == ChatStream.EmitCall(cfg, old(St()), item, outputIndex)
    {
      err := EnsureTool(item, outputIndex);
      if err.Some? { return; }
      var key := ToolKey(item.id, outputIndex);
      if item.arguments != "" && !tools[key].argumentsEmitted {
        err := WriteToolArguments(key, item.arguments);
      }
    }

    method EmitMessageFallback(parts: seq<Part>, outputIndex: int) returns (err: Option<TranslateError>)
      modifies this
      ensures Outcome(err, St()) == EmitParts(cfg, old(St()), parts, outputIndex, 0)
    {
      hide ChatStream.EnsureRole, ChatStream.WriteChoice;
      for j := 0 to |parts|
        invariant EmitParts(cfg, old(St()), parts, outputIndex, 0) == EmitParts(cfg, St(), parts, outputIndex, j)
      {
        if parts[j].OtherPart? { continue; }
        var key := PartKey(parts[j], outputIndex, j);
        if key in contentSeen { continue; }
        contentSeen := contentSeen + {key};
        err := EnsureRole();
        if err.Some? { return; }
        err := WriteChoice(PartDelta(parts[j]), None, Fallback(key));
        if err.Some? { return; }
      }
      return None;
    }

    method EmitItem(item: Item, outputIndex: int) returns (err: Option<TranslateError>)
      modifies this
      ensures Outcome(err, St()) == ChatStream.EmitItem(cfg, old(St()), item, outputIndex)
    {
      match item
      case Message(parts) => err := EmitMessageFallback(parts, outputIndex);
      case Call(_, _, _, _) => err := EmitCall(item, outputIndex);
      case OtherItem => err := None;
    }

    method EmitResponseOutputFallback(output: seq<Item>) returns (err: Option<TranslateError>)
      modifies this
      ensures Outcome(err, St()) == EmitOutput(cfg, old(St()), output, 0)
    {
      hide ChatStream.EmitItem;
      for i := 0 to |output|
        invariant EmitOutput(cfg, old(St()), output, 0) == EmitOutput(cfg, St(), output, i)
      {
        err := EmitItem(output[i], i);
        if err.Some? { return; }
      }
      return None;
    }

    method CaptureResponse(response: Response)
      modifies this
      ensures St() == Capture(old(St()), response)
    {
      if !roleSent {
        if response.id != "" { id := CompletionId(response.id); }
        if response.model != "" { model := response.model; }
        created := response.created;
      }
      if response.usage.HasAny() { usage := response.usage; }
      if response.tier != "" { serviceTier := response.tier; }
    }

    method Fail(message: string, summary: string) returns (err: Option<TranslateError>)
      modifies this
      ensures Outcome(err, St()) == ChatStream.Fail(cfg, old(St()), message, summary)
    {
      if terminal { return None; }
      terminal := true;
      err := WriteObject(Error(message), Direct);
      if err.Some? { return; }
      err := WriteObject(Done, Direct);
      if err.Some? { return; }
      return Some(Upstream(summary));
    }

    method Finish(response: Option<Response>) returns (err: Option<TranslateError>)
      modifies this
      ensures Outcome(err, St()) == ChatStream.Finish(cfg, old(St()), response)
    {
      hide EmitOutput, ChatStream.EnsureRole, ChatStream.WriteChoice, ChatStream.Fail, Capture;
      if terminal { return None; }
      if response.None? {
        err := Fail(NO_RESPONSE, NO_RESPONSE);
        return;
      }
      var status := response.value.status;
      if status.Failed? || status.Cancelled? {
        err := Fail(FAILED, FAILED);
        return;
      }
      CaptureResponse(response.value);
      err := EmitResponseOutputFallback(response.value.output);
      if err.Some? { return; }
      err := EnsureRole();
      if err.Some? { return; }
      err := WriteChoice(NoDelta, Some(FinishReason(status, toolSeen)), Direct);
      if err.Some? { return; }
      if cfg.includeUsage && usage.HasAny() {
        var header := BaseChunk();
        err := WriteObject(UsageOnly(header, usage), Direct);
        if err.Some? { return; }
      }
      terminal := true;
      err := WriteObject(Done, Direct);
    }

    method WriteDelta(key: Key, delta: string) returns (err: Option<TranslateError>)
      modifies this
      ensures Outcome(err, St()) == ChatStream.WriteDelta(cfg, old(St()), key, delta)
    {
      err := EnsureRole();
      if err.Some? { return; }
      if delta != "" { contentSeen := contentSeen + {key}; }
      err := WriteChoice(if key.refusal then Refused(delta) else Content(delta), None, Streamed(key));
    }

    method Consume(event: Event) returns (err: Option<TranslateError>)
      modifies this
      ensures Outcome(err, St()) == ChatStream.Consume(cfg, old(St()), event)
    {
      hide ChatStream.EnsureRole, ChatStream.EnsureTool, ChatStream.EmitItem, ChatStream.WriteDelta, WriteArguments,
           ChatStream.Finish, ChatStream.Fail, Capture, ToolKey;
      match event
      case Created(response) =>
        if response.Some? { CaptureResponse(response.value); }
        err := EnsureRole();
      case ItemAdded(Some(Call(_, _, _, _)), k) => err := EnsureTool(event.item.value, k);
      case ItemAdded(Some(Message(_)), _) => err := EnsureRole();
      case ItemDone(Some(item), k) => err := EmitItem(item, k);
      case TextDelta(k, j, delta) => err := WriteDelta(Key(k, j, false), delta);
      case RefusalDelta(k, j, delta) => err := WriteDelta(Key(k, j, true), delta);
      case ArgumentsDelta(itemId, k, delta) =>
        var key := ToolKey(itemId, k);
        if key !in tools {
          err := EnsureTool(Call(itemId, itemId, "", ""), k);
          if err.Some? { return; }
        }
        err := WriteToolArguments(key, delta);
      case Terminal(response) => err := Finish(response);
      case ResponseFailed(response) =>
        if response.Some? { CaptureResponse(response.value); }
        err := Fail(FAILED, FAILED);
      case ErrorEvent(message, summary) => err := Fail(message, summary);
      case _ => err := None;
    }
  }

  /** The read loop: stop at an error or at the terminal event, fail if neither comes. */
  method CopyChatCompletionsStream(cfg: Config, now: int, payloads: seq<Payload>, end: StreamEnd)
    returns (t: ChatStreamTranslator, err: Option<TranslateError>)
    ensures fresh(t) && Outcome(err, t.St()) == Translate(cfg, Initial(cfg, now), payloads, end)
  {
    hide Consume, Fail;
    t := new ChatStreamTranslator(cfg, now);
    assert payloads[0..] == payloads;
    for i := 0 to |payloads|
      invariant fresh(t) && t.cfg == cfg
      invariant Translate(cfg, Initial(cfg, now), payloads, end) == Translate(cfg, t.St(), payloads[i..], end)
    {
      assert payloads[i..][1..] == payloads[i + 1..];
      match payloads[i] {
        case Blank => err := None;
        case DoneMark => err := t.Fail(NO_TERMINAL, NO_TERMINAL);
        case Malformed => err := t.Fail(BAD_JSON, BAD_JSON);
        case Parsed(event, _, _) => err := t.Consume(event);
      }
      if err.Some? || t.terminal { return; }
    }
    var message := if end.StreamError? then end.message else NO_TERMINAL;
    err := t.Fail(message, message);
  }
}
