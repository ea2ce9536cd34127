/**
 What the translator means to a client. `Reassemble` is the client: it joins deltas the way
 Chat Completions clients do. `Core` is the translator stripped to what the client can
 notice, and the lemmas here show that the real translator refines it event by event.
 */
module ChatCore {
  import opened Base
  import opened ChatTypes
  import opened ChatStream
  import opened ChatGrammar

  datatype CallOut = CallOut(id: string, name: string, arguments: string)
  datatype Client = Client(text: string, refusal: string, calls: seq<CallOut>, finish: Option<string>)

  const SILENCE := Client("", "", [], None)

  function Hear(c: Client, delta: Delta): Client {
    match delta
    case Content(text) => c.(text := c.text + text)
    case Refused(text) => c.(refusal := c.refusal + text)
    case ToolOpen(index, id, name, arguments) =>
      if index == |c.calls| then c.(calls := c.calls + [CallOut(id, name, arguments)]) else c
    case ToolMore(index, arguments) =>
      if index < |c.calls|
      then c.(calls := c.calls[index := c.calls[index].(arguments := c.calls[index].arguments + arguments)])
      else c
    case _ => c
  }

  function HearChunk(c: Client, chunk: Chunk): Client {
    if chunk.Choice? then
      var d := Hear(c, chunk.delta);
      if chunk.finish.Some? then d.(finish := chunk.finish) else d
    else c
  }

  function Reassemble(sent: seq<Write>): Client {
    if sent == [] then SILENCE
    else HearChunk(Reassemble(sent[..|sent| - 1]), sent[|sent| - 1].chunk)
  }

  datatype Core = Core(client: Client, tools: map<string, Tool>, seen: set<Key>)

  const BLANK := Core(SILENCE, map[], {})

  function CoreOf(st: State): Core {
    Core(Reassemble(st.sent), st.tools, st.seen)
  }

  function Say(c: Core, delta: Delta): Core {
    c.(client := Hear(c.client, delta))
  }

  function CoreAnnounce(c: Core, item: Item, k: int): (r: Core)
    requires item.Call?
    ensures ToolKey(item.id, k) in r.tools
  {
    var key := ToolKey(item.id, k);
    if key in c.tools then c
    else
      Say(c.(tools := c.tools[key := Tool(|c.tools|, item.arguments != "")]),
          ToolOpen(|c.tools|, ValueOr(item.callId, item.id), item.name, item.arguments))
  }

  function CoreArguments(c: Core, key: string, arguments: string): Core
    requires key in c.tools
  {
    Say(c.(tools := c.tools[key := c.tools[key].(argumentsEmitted := true)]),
        ToolMore(c.tools[key].index, arguments))
  }

  function CoreCall(c: Core, item: Item, k: int): Core
    requires item.Call?
  {
    var d := CoreAnnounce(c, item, k);
    var key := ToolKey(item.id, k);
    if item.arguments != "" && !d.tools[key].argumentsEmitted then CoreArguments(d, key, item.arguments) else d
  }

  function CoreParts(c: Core, parts: seq<Part>, k: int, j: nat): Core
    decreases |parts| - j
  {
    if j >= |parts| then c
    else
      var key := PartKey(parts[j], k, j);
      if parts[j].OtherPart? || key in c.seen then CoreParts(c, parts, k, j + 1)
      else CoreParts(Say(c.(seen := c.seen + {key}), PartDelta(parts[j])), parts, k, j + 1)
  }

  function CoreItem(c: Core, item: Item, k: int): Core {
    match item
    case Message(parts) => CoreParts(c, parts, k, 0)
    case Call(_, _, _, _) => CoreCall(c, item, k)
    case OtherItem => c
  }

  function CoreOutput(c: Core, output: seq<Item>, i: nat): Core
    decreases |output| - i
  {
    if i >= |output| then c else CoreOutput(CoreItem(c, output[i], i), output, i + 1)
  }

  function CoreDelta(c: Core, key: Key, delta: string): Core {
    Say(if delta != "" then c.(seen := c.seen + {key}) else c,
        if key.refusal then Refused(delta) else Content(delta))
  }

  /** One event that does not end the stream. */
  function CoreStep(c: Core, event: Event): Core {
    match event
    case ItemAdded(Some(Call(_, _, _, _)), k) => CoreAnnounce(c, event.item.value, k)
    case ItemDone(Some(item), k) => CoreItem(c, item, k)
    case TextDelta(k, j, delta) => CoreDelta(c, Key(k, j, false), delta)
    case RefusalDelta(k, j, delta) => CoreDelta(c, Key(k, j, true), delta)
    case ArgumentsDelta(id, k, delta) =>
      var key := ToolKey(id, k);
      var d := if key in c.tools then c else CoreAnnounce(c, Call(id, id, "", ""), k);
      CoreArguments(d, key, delta)
    case _ => c
  }

  // ----- refinement -----

  /** Unless a write failed: the client's view moved as the core says, and the stream is still open. */
  ghost predicate Refines(cfg: Config, st: State, r: Step, c: Core) {
    (cfg.failAt.None? ==> r.Ok?) && (r.Ok? ==> CoreOf(r.st) == c && r.st.terminal == st.terminal)
  }

  lemma ReassembleAppend(sent: seq<Write>, w: Write)
    ensures Reassemble(sent + [w]) == HearChunk(Reassemble(sent), w.chunk)
  {
    hide HearChunk;
    assert (sent + [w])[..|sent|] == sent;
  }

  lemma WriteRefines(cfg: Config, st: State, delta: Delta, origin: Origin)
    ensures Refines(cfg, st, WriteChoice(cfg, st, delta, None, origin), Say(CoreOf(st), delta))
  {
    hide Reassemble, Hear;
    var named := Identify(cfg, st);
    ReassembleAppend(st.sent, Write(Choice(HeaderOf(named), delta, None), origin));
  }

  lemma RoleRefines(cfg: Config, st: State)
    ensures Refines(cfg, st, EnsureRole(cfg, st), CoreOf(st))
  {
    hide WriteChoice;
    if !st.roleSent { WriteRefines(cfg, st.(roleSent := true), Role, Direct); }
  }

  lemma AnnounceRefines(cfg: Config, st: State, item: Item, k: int)
    requires item.Call?
    ensures Refines(cfg, st, EnsureTool(cfg, st, item, k), CoreAnnounce(CoreOf(st), item, k))
  {
    hide WriteChoice, EnsureRole, ToolKey, ValueOr;
    RoleRefines(cfg, st);
    var role := EnsureRole(cfg, st);
    var st1, key := role.st, ToolKey(item.id, k);
    if role.Ok? && key !in st1.tools {
      var tool := Tool(|st1.tools|, item.arguments != "");
      WriteRefines(cfg, st1.(tools := st1.tools[key := tool], toolSeen := true),
        ToolOpen(tool.index, ValueOr(item.callId, item.id), item.name, item.arguments), Announced(key));
    }
  }

  lemma ArgumentsRefine(cfg: Config, st: State, key: string, arguments: string)
    requires key in st.tools
    ensures Refines(cfg, st, WriteArguments(cfg, st, key, arguments), CoreArguments(CoreOf(st), key, arguments))
  {
    hide WriteChoice;
    var st1 := st.(tools := st.tools[key := st.tools[key].(argumentsEmitted := true)]);
    WriteRefines(cfg, st1, ToolMore(st1.tools[key].index, arguments), Arguments(key));
  }

  lemma CallRefines(cfg: Config, st: State, item: Item, k: int)
    requires item.Call?
    ensures Refines(cfg, st, EmitCall(cfg, st, item, k), CoreCall(CoreOf(st), item, k))
  {
    hide EnsureTool, CoreAnnounce, WriteArguments, CoreArguments;
    AnnounceRefines(cfg, st, item, k);
    var r := EnsureTool(cfg, st, item, k);
    var key := ToolKey(item.id, k);
    if r.Ok? && item.arguments != "" && !r.st.tools[key].argumentsEmitted {
      ArgumentsRefine(cfg, r.st, key, item.arguments);
    }
  }

  lemma {:induction false} PartsRefine(cfg: Config, st: State, parts: seq<Part>, k: int, j: nat)
    ensures Refines(cfg, st, EmitParts(cfg, st, parts, k, j), CoreParts(CoreOf(st), parts, k, j))
    decreases |parts| - j
  {
    hide WriteChoice, EnsureRole;
    if j < |parts| {
      var key := PartKey(parts[j], k, j);
      if parts[j].OtherPart? || key in st.seen {
        PartsRefine(cfg, st, parts, k, j + 1);
      } else {
        RoleRefines(cfg, st.(seen := st.seen + {key}));
        var role := EnsureRole(cfg, st.(seen := st.seen + {key}));
        if role.Ok? {
          WriteRefines(cfg, role.st, PartDelta(parts[j]), Fallback(key));
          var r := WriteChoice(cfg, role.st, PartDelta(parts[j]), None, Fallback(key));
          if r.Ok? { PartsRefine(cfg, r.st, parts, k, j + 1); }
        }
      }
    }
  }

  lemma ItemRefines(cfg: Config, st: State, item: Item, k: int)
    ensures Refines(cfg, st, EmitItem(cfg, st, item, k), CoreItem(CoreOf(st), item, k))
  {
    match item
    case Message(parts) => PartsRefine(cfg, st, parts, k, 0);
    case Call(_, _, _, _) => CallRefines(cfg, st, item, k);
    case OtherItem =>
  }

  lemma {:induction false} OutputRefines(cfg: Config, st: State, output: seq<Item>, i: nat)
    ensures Refines(cfg, st, EmitOutput(cfg, st, output, i), CoreOutput(CoreOf(st), output, i))
    decreases |output| - i
  {
    hide EmitItem, CoreItem;
    if i < |output| {
      ItemRefines(cfg, st, output[i], i);
      var r := EmitItem(cfg, st, output[i], i);
      if r.Ok? { OutputRefines(cfg, r.st, output, i + 1); }
    }
  }

  lemma DeltaRefines(cfg: Config, st: State, key: Key, delta: string)
    ensures Refines(cfg, st, WriteDelta(cfg, st, key, delta), CoreDelta(CoreOf(st), key, delta))
  {
    hide WriteChoice, EnsureRole;
    RoleRefines(cfg, st);
    var role := EnsureRole(cfg, st);
    if role.Ok? {
      WriteRefines(cfg, if delta != "" then role.st.(seen := role.st.seen + {key}) else role.st,
        if key.refusal then Refused(delta) else Content(delta), Streamed(key));
    }
  }

  lemma ArgumentsDeltaRefines(cfg: Config, st: State, id: string, k: int, delta: string)
    ensures Refines(cfg, st, ConsumeArguments(cfg, st, id, k, delta), CoreStep(CoreOf(st), ArgumentsDelta(id, k, delta)))
  {
    hide EnsureTool, CoreAnnounce, WriteArguments, CoreArguments;
    var key, call := ToolKey(id, k), Call(id, id, "", "");
    if key in st.tools {
      ArgumentsRefine(cfg, st, key, delta);
    } else {
      AnnounceRefines(cfg, st, call, k);
      var r := EnsureTool(cfg, st, call, k);
      if r.Ok? { ArgumentsRefine(cfg, r.st, key, delta); }
    }
  }

  /** The simulation: each event that leaves the stream open moves the client as Core says. */
  lemma ConsumeRefines(cfg: Config, st: State, event: Event)
    requires !Ends(event)
    ensures Refines(cfg, st, Consume(cfg, st, event), CoreStep(CoreOf(st), event))
  {
    hide EmitItem, CoreItem, EnsureTool, CoreAnnounce, ConsumeArguments, CoreArguments, WriteDelta, CoreDelta, EnsureRole;
    match event
    case Created(response) => RoleRefines(cfg, if response.Some? then Capture(st, response.value) else st);
    case ItemAdded(Some(Call(_, _, _, _)), k) => AnnounceRefines(cfg, st, event.item.value, k);
    case ItemAdded(Some(Message(_)), _) => RoleRefines(cfg, st);
    case ItemDone(Some(item), k) => ItemRefines(cfg, st, item, k);
    case TextDelta(k, j, delta) => DeltaRefines(cfg, st, Key(k, j, false), delta);
    case RefusalDelta(k, j, delta) => DeltaRefines(cfg, st, Key(k, j, true), delta);
    case ArgumentsDelta(id, k, delta) => ArgumentsDeltaRefines(cfg, st, id, k, delta);
    case _ =>
  }

  /** A successful terminal event: the rest of the output, then the finish reason. */
  lemma FinishRefines(cfg: Config, st: State, response: Response)
    requires Live(cfg, st) && !response.status.Failed? && !response.status.Cancelled?
    ensures var r := Finish(cfg, st, Some(response));
            var c := CoreOutput(CoreOf(st), response.output, 0);
            (cfg.failAt.None? ==> r.Ok?) &&
            (r.Ok? ==> r.st.terminal && r.st.tools == c.tools) &&
            (r.Ok? ==>
               Reassemble(r.st.sent) == c.client.(finish := Some(FinishReason(response.status, c.tools != map[]))))
  {
    hide Broken, Tracked, Orderly, Body, EnsureRole, EmitOutput, CoreOutput, Recorded, WindUp;
    CaptureKeepsLive(cfg, st, response);
    var st0 := Capture(st, response);
    OutputRefines(cfg, st0, response.output, 0);
    EmitOutputKeepsLive(cfg, st0, response.output, 0);
    var out := EmitOutput(cfg, st0, response.output, 0);
    if out.Ok? { CloseRefines(cfg, out.st, response.status); }
  }

  lemma CloseRefines(cfg: Config, st: State, status: Status)
    requires Live(cfg, st)
    ensures var r := Close(cfg, st, status);
            (cfg.failAt.None? ==> r.Ok?) &&
            (r.Ok? ==> r.st.terminal && r.st.tools == st.tools) &&
            (r.Ok? ==>
               Reassemble(r.st.sent) == Reassemble(st.sent).(finish := Some(FinishReason(status, st.tools != map[]))))
  {
    hide Broken, Tracked, Orderly, Body, EnsureRole, WindUp;
    RoleRefines(cfg, st);
    RoleKeepsLive(cfg, st);
    var role := EnsureRole(cfg, st);
    if role.Ok? {
      var named := Identify(cfg, role.st);
      var w := Write(Choice(HeaderOf(named), NoDelta, Some(FinishReason(status, role.st.toolSeen))), Direct);
      ReassembleAppend(role.st.sent, w);
      WindUpKeepsClient(cfg, named.(sent := role.st.sent + [w], attempts := role.st.attempts + 1));
    }
  }

  lemma WindUpKeepsClient(cfg: Config, st: State)
    ensures var r := WindUp(cfg, st);
            (cfg.failAt.None? ==> r.Ok?) &&
            (r.Ok? ==> r.st.terminal && r.st.tools == st.tools && Reassemble(r.st.sent) == Reassemble(st.sent))
  {
    hide Reassemble;
    var id := Identify(cfg, st);
    var usage := Write(UsageOnly(HeaderOf(id), id.usage), Direct);
    ReassembleAppend(st.sent, usage);
    ReassembleAppend(st.sent, Write(Done, Direct));
    ReassembleAppend(st.sent + [usage], Write(Done, Direct));
  }
}
