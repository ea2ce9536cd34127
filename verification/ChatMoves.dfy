/**
 What a step of the translator changes besides its books: chunks are only added, usage and tier
 come from captured responses alone, and the first chunk of a step bears the identity the
 stream had settled on.
 */
module ChatMoves {
  import opened Base
  import opened ChatTypes
  import opened ChatStream
  import opened ChatGrammar

  predicate Bears(chunk: Chunk, h: Header) {
    (chunk.Choice? || chunk.UsageOnly?) ==> chunk.header == h
  }

  ghost predicate SameName(cfg: Config, a: State, b: State) {
    var x, y := Identify(cfg, a), Identify(cfg, b);
    x.id == y.id && x.created == y.created && x.model == y.model && a.tier == b.tier && a.usage == b.usage
  }

  /** A step that adds chunks, if any, under the name the stream goes by. */
  ghost predicate Moves(cfg: Config, st: State, r: Step) {
    && st.sent <= r.st.sent && SameName(cfg, st, r.st)
    && (|r.st.sent| > |st.sent| ==> Bears(r.st.sent[|st.sent|].chunk, HeaderOf(Identify(cfg, st))))
  }

  lemma MovesOn(cfg: Config, a: State, b: State, r: Step)
    requires Moves(cfg, a, Ok(b)) && Moves(cfg, b, r)
    ensures Moves(cfg, a, r)
  {
    if |b.sent| > |a.sent| { assert r.st.sent[|a.sent|] == b.sent[|a.sent|]; }
  }

  lemma MovesFrom(cfg: Config, a: State, b: State, r: Step)
    requires a.sent == b.sent && SameName(cfg, a, b) && Moves(cfg, b, r)
    ensures Moves(cfg, a, r)
  {
  }

  lemma WriteMoves(cfg: Config, st: State, delta: Delta, finish: Option<string>, origin: Origin)
    ensures Moves(cfg, st, WriteChoice(cfg, st, delta, finish, origin))
  {
  }

  lemma RoleMoves(cfg: Config, st: State)
    ensures Moves(cfg, st, EnsureRole(cfg, st))
  {
    hide WriteChoice;
    if !st.roleSent {
      WriteMoves(cfg, st.(roleSent := true), Role, None, Direct);
      MovesFrom(cfg, st, st.(roleSent := true), EnsureRole(cfg, st));
    }
  }

  lemma ToolMoves(cfg: Config, st: State, item: Item, k: int)
    requires item.Call?
    ensures Moves(cfg, st, EnsureTool(cfg, st, item, k))
  {
    hide WriteChoice, EnsureRole, ToolKey, ValueOr, Moves, SameName;
    RoleMoves(cfg, st);
    var role := EnsureRole(cfg, st);
    var key := ToolKey(item.id, k);
    if role.Ok? && key !in role.st.tools {
      var tool := Tool(|role.st.tools|, item.arguments != "");
      var mid := role.st.(tools := role.st.tools[key := tool], toolSeen := true);
      var r := EnsureTool(cfg, st, item, k);
      WriteMoves(cfg, mid, ToolOpen(tool.index, ValueOr(item.callId, item.id), item.name, item.arguments), None,
        Announced(key));
      NamesKept(cfg, role.st, mid);
      MovesFrom(cfg, role.st, mid, r);
      MovesOn(cfg, st, role.st, r);
    }
  }

  lemma NamesKept(cfg: Config, a: State, b: State)
    requires b == a.(tools := b.tools, toolSeen := b.toolSeen, seen := b.seen, terminal := b.terminal)
    ensures SameName(cfg, a, b)
  {
  }

  lemma ArgumentsMove(cfg: Config, st: State, key: string, arguments: string)
    requires key in st.tools
    ensures Moves(cfg, st, WriteArguments(cfg, st, key, arguments))
  {
    hide WriteChoice, Moves, SameName;
    var mid := st.(tools := st.tools[key := st.tools[key].(argumentsEmitted := true)]);
    WriteMoves(cfg, mid, ToolMore(mid.tools[key].index, arguments), None, Arguments(key));
    NamesKept(cfg, st, mid);
    MovesFrom(cfg, st, mid, WriteArguments(cfg, st, key, arguments));
  }

  lemma CallMoves(cfg: Config, st: State, item: Item, k: int)
    requires item.Call?
    ensures Moves(cfg, st, EmitCall(cfg, st, item, k))
  {
    hide EnsureTool, WriteArguments, Moves;
    ToolMoves(cfg, st, item, k);
    var r := EnsureTool(cfg, st, item, k);
    var key := ToolKey(item.id, k);
    if r.Ok? && item.arguments != "" && !r.st.tools[key].argumentsEmitted {
      ArgumentsMove(cfg, r.st, key, item.arguments);
      MovesOn(cfg, st, r.st, EmitCall(cfg, st, item, k));
    }
  }

  lemma NothingMoves(cfg: Config, st: State)
    ensures Moves(cfg, st, Ok(st))
  {
  }

  lemma PartMoves(cfg: Config, st: State, part: Part, key: Key)
    requires !part.OtherPart?
    ensures var role := EnsureRole(cfg, st.(seen := st.seen + {key}));
            Moves(cfg, st, role) &&
            (role.Ok? ==> Moves(cfg, st, WriteChoice(cfg, role.st, PartDelta(part), None, Fallback(key))))
  {
    hide EnsureRole, WriteChoice, Moves, SameName;
    var mid := st.(seen := st.seen + {key});
    var role := EnsureRole(cfg, mid);
    NamesKept(cfg, st, mid);
    RoleMoves(cfg, mid);
    MovesFrom(cfg, st, mid, role);
    if role.Ok? {
      WriteMoves(cfg, role.st, PartDelta(part), None, Fallback(key));
      MovesOn(cfg, st, role.st, WriteChoice(cfg, role.st, PartDelta(part), None, Fallback(key)));
    }
  }

  lemma {:induction false} PartsMove(cfg: Config, st: State, parts: seq<Part>, k: int, j: nat)
    ensures Moves(cfg, st, EmitParts(cfg, st, parts, k, j))
    decreases |parts| - j
  {
    hide EnsureRole, WriteChoice, Moves;
    NothingMoves(cfg, st);
    if j < |parts| {
      var key := PartKey(parts[j], k, j);
      if parts[j].OtherPart? || key in st.seen {
        PartsMove(cfg, st, parts, k, j + 1);
      } else {
        PartMoves(cfg, st, parts[j], key);
        var role := EnsureRole(cfg, st.(seen := st.seen + {key}));
        if role.Ok? {
          var r := WriteChoice(cfg, role.st, PartDelta(parts[j]), None, Fallback(key));
          if r.Ok? {
            PartsMove(cfg, r.st, parts, k, j + 1);
            MovesOn(cfg, st, r.st, EmitParts(cfg, st, parts, k, j));
          }
        }
      }
    }
  }

  lemma ItemMoves(cfg: Config, st: State, item: Item, k: int)
    ensures Moves(cfg, st, EmitItem(cfg, st, item, k))
  {
    hide Moves;
    match item
    case Message(parts) => PartsMove(cfg, st, parts, k, 0);
    case Call(_, _, _, _) => CallMoves(cfg, st, item, k);
    case OtherItem => NothingMoves(cfg, st);
  }

  lemma {:induction false} OutputMoves(cfg: Config, st: State, output: seq<Item>, i: nat)
    ensures Moves(cfg, st, EmitOutput(cfg, st, output, i))
    decreases |output| - i
  {
    hide EmitItem, Moves;
    NothingMoves(cfg, st);
    if i < |output| {
      ItemMoves(cfg, st, output[i], i);
      var r := EmitItem(cfg, st, output[i], i);
      if r.Ok? {
        OutputMoves(cfg, r.st, output, i + 1);
        MovesOn(cfg, st, r.st, EmitOutput(cfg, st, output, i));
      }
    }
  }

  lemma DeltaMoves(cfg: Config, st: State, key: Key, delta: string)
    ensures Moves(cfg, st, WriteDelta(cfg, st, key, delta))
  {
    hide EnsureRole, WriteChoice, Moves, SameName;
    RoleMoves(cfg, st);
    var role := EnsureRole(cfg, st);
    if role.Ok? {
      var mid := if delta != "" then role.st.(seen := role.st.seen + {key}) else role.st;
      WriteMoves(cfg, mid, if key.refusal then Refused(delta) else Content(delta), None, Streamed(key));
      NamesKept(cfg, role.st, mid);
      MovesFrom(cfg, role.st, mid, WriteDelta(cfg, st, key, delta));
      MovesOn(cfg, st, role.st, WriteDelta(cfg, st, key, delta));
    }
  }

  lemma ArgumentsDeltaMoves(cfg: Config, st: State, id: string, k: int, delta: string)
    ensures Moves(cfg, st, ConsumeArguments(cfg, st, id, k, delta))
  {
    hide EnsureTool, WriteArguments, Moves;
    var key, call := ToolKey(id, k), Call(id, id, "", "");
    if key in st.tools {
      ArgumentsMove(cfg, st, key, delta);
    } else {
      ToolMoves(cfg, st, call, k);
      var r := EnsureTool(cfg, st, call, k);
      if r.Ok? {
        ArgumentsMove(cfg, r.st, key, delta);
        MovesOn(cfg, st, r.st, ConsumeArguments(cfg, st, id, k, delta));
      }
    }
  }

  lemma WindUpMoves(cfg: Config, st: State)
    ensures Moves(cfg, st, WindUp(cfg, st))
  {
  }

  lemma CloseMoves(cfg: Config, st: State, status: Status)
    ensures Moves(cfg, st, Close(cfg, st, status))
  {
    hide EnsureRole, WriteChoice, WindUp, Moves;
    RoleMoves(cfg, st);
    var role := EnsureRole(cfg, st);
    if role.Ok? {
      WriteMoves(cfg, role.st, NoDelta, Some(FinishReason(status, role.st.toolSeen)), Direct);
      var r := WriteChoice(cfg, role.st, NoDelta, Some(FinishReason(status, role.st.toolSeen)), Direct);
      MovesOn(cfg, st, role.st, r);
      if r.Ok? {
        WindUpMoves(cfg, r.st);
        MovesOn(cfg, st, r.st, Close(cfg, st, status));
      }
    }
  }

  lemma FailMoves(cfg: Config, st: State, message: string, summary: string)
    ensures Moves(cfg, st, Fail(cfg, st, message, summary))
  {
  }

  /** The response an event carries, whose usage, tier and, before the first chunk, name are taken over. */
  function Carried(event: Event): Option<Response> {
    match event
    case Created(response) => response
    case Terminal(response) => response
    case ResponseFailed(response) => response
    case _ => None
  }

  /** A response that cannot finish a stream is not taken over by a terminal event. */
  predicate TakesOver(event: Event) {
    Carried(event).Some? &&
    (event.Terminal? ==> !event.response.value.status.Failed? && !event.response.value.status.Cancelled?)
  }

  function TakenOver(st: State, event: Event): State {
    if TakesOver(event) then Capture(st, Carried(event).value) else st
  }

  lemma EventMoves(cfg: Config, st: State, event: Event)
    requires !st.terminal
    ensures Moves(cfg, TakenOver(st, event), Consume(cfg, st, event))
  {
    hide EnsureRole, EnsureTool, EmitItem, WriteDelta, ConsumeArguments, Fail, Close, EmitOutput, Capture, Moves;
    var taken := TakenOver(st, event);
    NothingMoves(cfg, st);
    match event
    case Created(_) => RoleMoves(cfg, taken);
    case ItemAdded(Some(Call(_, _, _, _)), k) => ToolMoves(cfg, st, event.item.value, k);
    case ItemAdded(Some(Message(_)), _) => RoleMoves(cfg, st);
    case ItemDone(Some(item), k) => ItemMoves(cfg, st, item, k);
    case TextDelta(k, j, delta) => DeltaMoves(cfg, st, Key(k, j, false), delta);
    case RefusalDelta(k, j, delta) => DeltaMoves(cfg, st, Key(k, j, true), delta);
    case ArgumentsDelta(id, k, delta) => ArgumentsDeltaMoves(cfg, st, id, k, delta);
    case Terminal(response) => FinishMoves(cfg, st, response);
    case ResponseFailed(_) => FailMoves(cfg, taken, FAILED, FAILED);
    case ErrorEvent(message, summary) => FailMoves(cfg, st, message, summary);
    case _ =>
  }

  lemma FinishMoves(cfg: Config, st: State, response: Option<Response>)
    requires !st.terminal
    ensures Moves(cfg, TakenOver(st, Terminal(response)), Finish(cfg, st, response))
  {
    hide Fail, Close, EmitOutput, Capture, Moves;
    if response.None? {
      FailMoves(cfg, st, NO_RESPONSE, NO_RESPONSE);
    } else if response.value.status.Failed? || response.value.status.Cancelled? {
      FailMoves(cfg, st, FAILED, FAILED);
    } else {
      var taken := Capture(st, response.value);
      OutputMoves(cfg, taken, response.value.output, 0);
      var out := EmitOutput(cfg, taken, response.value.output, 0);
      if out.Ok? {
        CloseMoves(cfg, out.st, response.value.status);
        MovesOn(cfg, taken, out.st, Finish(cfg, st, response));
      }
    }
  }

  // ----- over a stream -----

  /** Chunks already sent stay as they are. */
  lemma {:induction false} TranslateGrows(cfg: Config, st: State, payloads: seq<Payload>, end: StreamEnd)
    requires !st.terminal
    ensures st.sent <= Translate(cfg, st, payloads, end).st.sent
    decreases |payloads|
  {
    hide Fail, Consume;
    if payloads == [] {
      var message := if end.StreamError? then end.message else NO_TERMINAL;
      FailMoves(cfg, st, message, message);
    } else {
      match payloads[0] {
        case Blank =>
        case DoneMark => FailMoves(cfg, st, NO_TERMINAL, NO_TERMINAL);
        case Malformed => FailMoves(cfg, st, BAD_JSON, BAD_JSON);
        case Parsed(event, _, _) =>
          EventMoves(cfg, st, event);
          assert TakenOver(st, event).sent == st.sent;
      }
      var r := Receive(cfg, st, payloads[0]);
      if r.Ok? && !r.st.terminal { TranslateGrows(cfg, r.st, payloads[1..], end); }
    }
  }

  /** The last usage that upstream has sent, if it has sent any. */
  function LastUsage(events: seq<Event>): Usage {
    if events == [] then NO_USAGE
    else
      var last := Carried(events[|events| - 1]);
      if last.Some? && last.value.usage != NO_USAGE then last.value.usage else LastUsage(events[..|events| - 1])
  }

  /** And the last service tier. */
  function LastTier(events: seq<Event>): string {
    if events == [] then ""
    else
      var last := Carried(events[|events| - 1]);
      if last.Some? && last.value.tier != "" then last.value.tier else LastTier(events[..|events| - 1])
  }

  datatype Told = Told(usage: Usage, tier: string)

  function Telling(told: Told, event: Event): Told {
    var r := Carried(event);
    if r.None? then told
    else Told(if r.value.usage != NO_USAGE then r.value.usage else told.usage,
              if r.value.tier != "" then r.value.tier else told.tier)
  }

  /** What upstream has told by the end, on top of what was known before. */
  function ToldAfter(told: Told, events: seq<Event>): Told
    decreases |events|
  {
    if events == [] then told else ToldAfter(Telling(told, events[0]), events[1..])
  }

  lemma {:induction false} ToldSnoc(told: Told, events: seq<Event>, last: Event)
    ensures ToldAfter(told, events + [last]) == Telling(ToldAfter(told, events), last)
    decreases |events|
  {
    hide Telling;
    if events == [] {
      assert (events + [last])[1..] == [];
    } else {
      assert (events + [last])[1..] == events[1..] + [last] && (events + [last])[0] == events[0];
      ToldSnoc(Telling(told, events[0]), events[1..], last);
    }
  }

  lemma {:induction false} ToldIsLast(events: seq<Event>)
    ensures ToldAfter(Told(NO_USAGE, ""), events) == Told(LastUsage(events), LastTier(events))
  {
    hide Carried;
    if events != [] {
      ToldIsLast(events[..|events| - 1]);
      ToldSnoc(Told(NO_USAGE, ""), events[..|events| - 1], events[|events| - 1]);
      assert events == events[..|events| - 1] + [events[|events| - 1]];
    }
  }

  function ToldTo(st: State): Told {
    Told(st.usage, st.tier)
  }

  lemma ConsumeTells(cfg: Config, st: State, event: Event)
    requires !st.terminal && !Ends(event)
    ensures ToldTo(Consume(cfg, st, event).st) == Telling(ToldTo(st), event)
  {
    hide Consume;
    EventMoves(cfg, st, event);
  }
}
