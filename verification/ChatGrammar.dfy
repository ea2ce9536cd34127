/**
 What every run of the streaming translator writes: the grammar of its output, the fixed
 identity, the numbering of tool calls, and that no part is written twice or lost.
 */
module ChatGrammar {
  import opened Base
  import opened ChatTypes
  import opened ChatStream

  // ----- the grammar -----

  predicate IsOpen(w: Write) {
    w.chunk.Choice? && w.chunk.delta.ToolOpen?
  }

  /** Number of tool calls announced so far. */
  function Opens(sent: seq<Write>): nat {
    if sent == [] then 0 else Opens(sent[..|sent| - 1]) + if IsOpen(sent[|sent| - 1]) then 1 else 0
  }

  predicate Identified(h: Header, id: string, created: int, model: string) {
    h.id == id && h.created == created && h.model == model
  }

  /** What may follow `before` while the stream is open: the role first, then the body. */
  predicate Fits(before: seq<Write>, chunk: Chunk) {
    chunk.Choice? && chunk.finish.None? &&
    match chunk.delta
    case Role => before == []
    case Content(_) => before != []
    case Refused(_) => before != []
    case ToolOpen(index, _, _, _) => before != [] && index == Opens(before)
    case ToolMore(index, _) => before != [] && index < Opens(before)
    case NoDelta => false
  }

  /** An open stream: each chunk fits what precedes it and all carry one identity. */
  ghost predicate Body(sent: seq<Write>, id: string, created: int, model: string) {
    forall i :: 0 <= i < |sent| ==>
      Fits(sent[..i], sent[i].chunk) && Identified(sent[i].chunk.header, id, created, model)
  }

  predicate IsFinish(chunk: Chunk, id: string, created: int, model: string) {
    chunk.Choice? && chunk.delta == NoDelta && chunk.finish.Some? && Identified(chunk.header, id, created, model)
  }

  /** What may follow the body: a finish chunk and perhaps usage, or one error. */
  predicate Closing(tail: seq<Write>, id: string, created: int, model: string) {
    match |tail|
    case 0 => true
    case 1 => tail[0].chunk.Error? || IsFinish(tail[0].chunk, id, created, model)
    case 2 => IsFinish(tail[0].chunk, id, created, model) && tail[1].chunk.UsageOnly? &&
              Identified(tail[1].chunk.header, id, created, model)
    case _ => false
  }

  /** m body chunks and then a closing; without a body the closing is an error. */
  ghost predicate Undone(sent: seq<Write>, m: nat, id: string, created: int, model: string) {
    m <= |sent| && Body(sent[..m], id, created, model) && Closing(sent[m..], id, created, model) &&
    (m == 0 && sent != [] ==> sent[0].chunk.Error?)
  }

  /** A whole stream: body, nonempty closing, and exactly one DONE, at the very end. */
  ghost predicate Grammatical(sent: seq<Write>, m: nat, id: string, created: int, model: string) {
    m + 2 <= |sent| && sent[|sent| - 1].chunk == Done && Undone(sent[..|sent| - 1], m, id, created, model)
  }

  // ----- who wrote what -----

  function TextOf(chunk: Chunk): string {
    if chunk.Choice? && chunk.delta.Content? then chunk.delta.text
    else if chunk.Choice? && chunk.delta.Refused? then chunk.delta.text
    else ""
  }

  /** The chunk is text, or a refusal, as the key says. */
  predicate Voices(chunk: Chunk, k: Key) {
    chunk.Choice? && if k.refusal then chunk.delta.Refused? else chunk.delta.Content?
  }

  /** w puts the content of part k on the wire. */
  predicate Covers(w: Write, k: Key) {
    Voices(w.chunk, k) && (w.origin == Fallback(k) || (w.origin == Streamed(k) && TextOf(w.chunk) != ""))
  }

  /** w announces the tool as the n-th call. */
  predicate Announces(w: Write, tool: string, n: nat) {
    w.origin == Announced(tool) && IsOpen(w) && w.chunk.delta.index == n
  }

  predicate Continues(w: Write, n: nat) {
    w.chunk.Choice? && w.chunk.delta.ToolMore? && w.chunk.delta.index == n
  }

  /** The chunk carries arguments of the n-th call, not just an empty string. */
  predicate HasArguments(w: Write, n: nat) {
    (IsOpen(w) && w.chunk.delta.index == n && w.chunk.delta.arguments != "") ||
    (Continues(w, n) && w.chunk.delta.arguments != "")
  }

  /** The chunk uses up the n-th call's arguments: it carries some, or is an empty continuation. */
  predicate Spends(w: Write, n: nat) {
    HasArguments(w, n) || Continues(w, n)
  }

  ghost predicate Opened(sent: seq<Write>, tool: string, n: nat) {
    exists i :: 0 <= i < |sent| && Announces(sent[i], tool, n)
  }

  ghost predicate Spent(sent: seq<Write>, n: nat) {
    exists i :: 0 <= i < |sent| && Spends(sent[i], n)
  }

  /**
   The fallback writes parts of the right kind, none that any earlier write covered; a call is
   announced once, and its arguments follow its announcement and bear its index.
   */
  ghost predicate Orderly(sent: seq<Write>) {
    forall j :: 0 <= j < |sent| ==> Follows(sent[..j], sent[j])
  }

  ghost predicate Follows(before: seq<Write>, w: Write) {
    match w.origin
    case Fallback(k) => Covers(w, k) && forall i :: 0 <= i < |before| ==> !Covers(before[i], k)
    case Announced(tool) => IsOpen(w) && forall n :: !Opened(before, tool, n)
    case Arguments(tool) => exists n :: Opened(before, tool, n) && Continues(w, n)
    case _ => true
  }

  ghost predicate Tracked(sent: seq<Write>, seen: set<Key>, tools: map<string, Tool>) {
    && (forall i, k :: 0 <= i < |sent| && Covers(sent[i], k) ==> k in seen)
    && (forall k :: k in seen ==> exists i :: 0 <= i < |sent| && Covers(sent[i], k))
    && (forall t :: t in tools ==> Opened(sent, t, tools[t].index))
    && (forall t, n :: Opened(sent, t, n) ==> t in tools && tools[t].index == n)
    && (forall t :: t in tools && tools[t].argumentsEmitted ==> Spent(sent, tools[t].index))
  }

  // ----- the invariant -----

  /** The open stream so far is lawful and the state agrees with it. */
  ghost predicate Shaped(cfg: Config, st: State) {
    && !st.terminal
    && st.attempts == |st.sent|
    && (cfg.failAt.Some? ==> st.attempts <= cfg.failAt.value)
    && (st.roleSent <==> st.sent != [])
    && (st.roleSent ==> Identify(cfg, st) == st)
    && Body(st.sent, st.id, st.created, st.model)
    && |st.tools| == Opens(st.sent)
    && (forall t :: t in st.tools ==> st.tools[t].index < |st.tools|)
    && (st.toolSeen <==> st.tools != map[])
  }

  ghost predicate Live(cfg: Config, st: State) {
    Shaped(cfg, st) && Orderly(st.sent) && Tracked(st.sent, st.seen, st.tools)
  }

  /** A write failed: it was the last attempt, and what had been sent is a lawful beginning. */
  ghost predicate Broken(cfg: Config, st: State) {
    && cfg.failAt == Some(|st.sent|)
    && st.attempts == |st.sent| + 1
    && Orderly(st.sent)
    && exists m :: Undone(st.sent, m, st.id, st.created, st.model)
  }

  ghost predicate Extends(a: State, b: State) {
    && a.sent <= b.sent && a.seen <= b.seen
    && (forall t :: t in a.tools ==> t in b.tools && a.tools[t].index == b.tools[t].index)
    && (forall t :: t in a.tools && a.tools[t].argumentsEmitted ==> t in b.tools && b.tools[t].argumentsEmitted)
  }

  /** A step of an open stream either keeps the invariant or ends in a failed write. */
  ghost predicate Good(cfg: Config, st: State, r: Step) {
    if r.Ok? then Live(cfg, r.st) && Extends(st, r.st) else r.error == WriteFailed && Broken(cfg, r.st)
  }

  lemma BodyAppend(sent: seq<Write>, w: Write, id: string, created: int, model: string)
    requires Body(sent, id, created, model)
    requires Fits(sent, w.chunk) && Identified(w.chunk.header, id, created, model)
    ensures Body(sent + [w], id, created, model)
    ensures Opens(sent + [w]) == Opens(sent) + if IsOpen(w) then 1 else 0
  {
    var more := sent + [w];
    assert more[..|sent|] == sent;
    forall i | 0 <= i < |more|
      ensures Fits(more[..i], more[i].chunk) && Identified(more[i].chunk.header, id, created, model)
    {
      if i < |sent| { assert more[..i] == sent[..i]; }
    }
  }

  lemma TrackedAppend(sent: seq<Write>, seen: set<Key>, tools: map<string, Tool>, w: Write,
                      seen': set<Key>, tools': map<string, Tool>)
    requires Tracked(sent, seen, tools)
    requires seen <= seen' && (forall k :: k in seen' && k !in seen ==> Covers(w, k))
    requires forall k :: Covers(w, k) ==> k in seen'
    requires forall t :: t in tools' ==>
               (t in tools && tools[t].index == tools'[t].index) || Announces(w, t, tools'[t].index)
    requires forall t :: t in tools ==> t in tools' && tools'[t].index == tools[t].index
    requires forall t, n :: Announces(w, t, n) ==> t in tools' && tools'[t].index == n
    requires forall t :: t in tools' && tools'[t].argumentsEmitted ==>
               (t in tools && tools[t].argumentsEmitted && tools[t].index == tools'[t].index) ||
               Spends(w, tools'[t].index)
    ensures Tracked(sent + [w], seen', tools')
  {
    hide Covers, Announces, Spends;
    var more := sent + [w];
    assert more[|sent|] == w;
    forall k | k in seen' ensures exists i :: 0 <= i < |more| && Covers(more[i], k) {
      if k in seen {
        var i :| 0 <= i < |sent| && Covers(sent[i], k);
        assert Covers(more[i], k);
      }
    }
    forall t | t in tools' ensures Opened(more, t, tools'[t].index) {
      if t in tools && tools[t].index == tools'[t].index {
        var i :| 0 <= i < |sent| && Announces(sent[i], t, tools[t].index);
        assert Announces(more[i], t, tools[t].index);
      }
    }
    forall t, n: nat | Opened(more, t, n) ensures t in tools' && tools'[t].index == n {
      var i :| 0 <= i < |more| && Announces(more[i], t, n);
      if i < |sent| {
        assert Announces(sent[i], t, n);
        assert Opened(sent, t, n);
      }
    }
    forall t | t in tools' && tools'[t].argumentsEmitted ensures Spent(more, tools'[t].index) {
      if !Spends(w, tools'[t].index) {
        var i :| 0 <= i < |sent| && Spends(sent[i], tools[t].index);
        assert Spends(more[i], tools[t].index);
      }
    }
  }

  /** From st to mid the books were updated for writing w, and nothing else changed. */
  ghost predicate Moved(st: State, mid: State, w: Write) {
    && mid == st.(roleSent := true, toolSeen := mid.toolSeen, tools := mid.tools, seen := mid.seen)
    && |mid.tools| == |st.tools| + (if IsOpen(w) then 1 else 0)
    && (forall t :: t in mid.tools ==> mid.tools[t].index < |mid.tools|)
    && (mid.toolSeen <==> mid.tools != map[])
  }

  ghost predicate Booked(st: State, mid: State, w: Write) {
    && (w.origin.Fallback? ==> w.origin.key !in st.seen && Covers(w, w.origin.key))
    && (w.origin.Announced? ==> IsOpen(w) && w.origin.tool !in st.tools)
    && (forall t, n :: Announces(w, t, n) ==> t in mid.tools && mid.tools[t].index == n)
    && (w.origin.Arguments? ==> w.origin.tool in st.tools && Continues(w, st.tools[w.origin.tool].index))
    && st.seen <= mid.seen
    && (forall k :: k in mid.seen && k !in st.seen ==> Covers(w, k))
    && (forall k :: Covers(w, k) ==> k in mid.seen)
    && (forall t :: t in st.tools ==>
          t in mid.tools && st.tools[t].index == mid.tools[t].index &&
          (st.tools[t].argumentsEmitted ==> mid.tools[t].argumentsEmitted))
    && (forall t :: t in mid.tools ==> t in st.tools || Announces(w, t, mid.tools[t].index))
    && (forall t :: t in mid.tools && mid.tools[t].argumentsEmitted ==>
          (t in st.tools && st.tools[t].argumentsEmitted) || Spends(w, mid.tools[t].index))
  }

  lemma OrderlyAppend(sent: seq<Write>, seen: set<Key>, tools: map<string, Tool>, w: Write)
    requires Orderly(sent) && Tracked(sent, seen, tools)
    requires w.origin.Fallback? ==> w.origin.key !in seen && Covers(w, w.origin.key)
    requires w.origin.Announced? ==> IsOpen(w) && w.origin.tool !in tools
    requires w.origin.Arguments? ==> w.origin.tool in tools && Continues(w, tools[w.origin.tool].index)
    ensures Orderly(sent + [w])
  {
    hide Covers, Opened, Continues, Spent;
    var more := sent + [w];
    forall j | 0 <= j < |more| ensures Follows(more[..j], more[j]) {
      if j < |sent| { assert more[..j] == sent[..j]; } else { assert more[..j] == sent; }
    }
  }

  lemma BrokenWrite(cfg: Config, st: State, named: State)
    requires Shaped(cfg, st) && Orderly(st.sent) && cfg.failAt == Some(st.attempts)
    requires named.sent == st.sent && named.attempts == st.attempts + 1
    requires st.roleSent ==> named.id == st.id && named.created == st.created && named.model == st.model
    ensures Broken(cfg, named)
  {
    assert st.sent[..|st.sent|] == st.sent;
    assert Undone(st.sent, |st.sent|, named.id, named.created, named.model);
  }

  lemma EmptyBody(id: string, created: int, model: string)
    ensures Body([], id, created, model)
  {
  }

  lemma WriteKeepsShape(cfg: Config, st: State, mid: State, delta: Delta, origin: Origin)
    requires Shaped(cfg, st)
    requires var w := Write(Choice(HeaderOf(Identify(cfg, mid)), delta, None), origin);
             Moved(st, mid, w) && Fits(st.sent, w.chunk)
    ensures var r := WriteChoice(cfg, mid, delta, None, origin); r.Ok? ==> Shaped(cfg, r.st)
  {
    hide Body, Fits, Opens;
    var named := Identify(cfg, mid);
    var w := Write(Choice(HeaderOf(named), delta, None), origin);
    if st.sent == [] { EmptyBody(named.id, named.created, named.model); }
    BodyAppend(st.sent, w, named.id, named.created, named.model);
    assert Identify(cfg, named) == named;
  }

  lemma WriteKeepsLive(cfg: Config, st: State, mid: State, delta: Delta, origin: Origin)
    requires Live(cfg, st)
    requires var w := Write(Choice(HeaderOf(Identify(cfg, mid)), delta, None), origin);
             Moved(st, mid, w) && Booked(st, mid, w) && Fits(st.sent, w.chunk)
    ensures Good(cfg, st, WriteChoice(cfg, mid, delta, None, origin))
    ensures var r := WriteChoice(cfg, mid, delta, None, origin);
            r.Ok? ==> r.st.roleSent && r.st.tools == mid.tools && r.st.seen == mid.seen
  {
    var named := Identify(cfg, mid);
    var w := Write(Choice(HeaderOf(named), delta, None), origin);
    WriteKeepsShape(cfg, st, mid, delta, origin);
    if cfg.failAt == Some(st.attempts) {
      BrokenWrite(cfg, st, named.(attempts := st.attempts + 1));
    } else {
      OrderlyAppend(st.sent, st.seen, st.tools, w);
      TrackedAppend(st.sent, st.seen, st.tools, w, mid.seen, mid.tools);
    }
  }

  lemma RoleKeepsLive(cfg: Config, st: State)
    requires Live(cfg, st)
    ensures Good(cfg, st, EnsureRole(cfg, st))
    ensures var r := EnsureRole(cfg, st); r.Ok? ==>
              r.st.roleSent && r.st.sent != [] && r.st.tools == st.tools && r.st.seen == st.seen
  {
    if !st.roleSent { WriteKeepsLive(cfg, st, st.(roleSent := true), Role, Direct); }
  }

  lemma LiveTools(cfg: Config, st: State)
    requires Live(cfg, st)
    ensures |st.tools| == Opens(st.sent) && (st.toolSeen <==> st.tools != map[])
    ensures forall t :: t in st.tools ==> st.tools[t].index < |st.tools|
    ensures st.roleSent <==> st.sent != []
  {
  }

  lemma EnsureToolKeepsLive(cfg: Config, st: State, item: Item, outputIndex: int)
    requires Live(cfg, st) && item.Call?
    ensures Good(cfg, st, EnsureTool(cfg, st, item, outputIndex))
    ensures var r := EnsureTool(cfg, st, item, outputIndex); r.Ok? ==> r.st.roleSent
  {
    hide Live, Broken, EnsureRole, ToolKey, WriteChoice, ValueOr;
    RoleKeepsLive(cfg, st);
    var role := EnsureRole(cfg, st);
    var key := ToolKey(item.id, outputIndex);
    if role.Ok? && key !in role.st.tools {
      LiveTools(cfg, role.st);
      var st1 := role.st;
      var tool := Tool(|st1.tools|, item.arguments != "");
      var mid := st1.(tools := st1.tools[key := tool], toolSeen := true);
      MapGrows(st1.tools, key, tool);
      WriteKeepsLive(cfg, st1, mid,
        ToolOpen(tool.index, ValueOr(item.callId, item.id), item.name, item.arguments), Announced(key));
    }
  }

  lemma ArgumentsKeepLive(cfg: Config, st: State, key: string, arguments: string)
    requires Live(cfg, st) && key in st.tools && st.roleSent
    ensures Good(cfg, st, WriteArguments(cfg, st, key, arguments))
    ensures var r := WriteArguments(cfg, st, key, arguments);
            r.Ok? ==> r.st.roleSent && key in r.st.tools && r.st.tools[key].argumentsEmitted
  {
    hide Live, Broken, WriteChoice;
    LiveTools(cfg, st);
    var mid := st.(tools := st.tools[key := st.tools[key].(argumentsEmitted := true)]);
    assert mid.tools.Keys == st.tools.Keys;
    assert |mid.tools| == |mid.tools.Keys| && |st.tools| == |st.tools.Keys|;
    WriteKeepsLive(cfg, st, mid, ToolMore(mid.tools[key].index, arguments), Arguments(key));
  }

  /** The translator's books say that this item of the output has been dealt with. */
  ghost predicate Recorded(st: State, item: Item, outputIndex: int) {
    match item
    case Message(parts) =>
      forall j :: 0 <= j < |parts| && !parts[j].OtherPart? ==> PartKey(parts[j], outputIndex, j) in st.seen
    case Call(id, _, _, arguments) =>
      var key := ToolKey(id, outputIndex);
      key in st.tools && (arguments != "" ==> st.tools[key].argumentsEmitted)
    case OtherItem => true
  }

  lemma EmitCallKeepsLive(cfg: Config, st: State, item: Item, outputIndex: int)
    requires Live(cfg, st) && item.Call?
    ensures Good(cfg, st, EmitCall(cfg, st, item, outputIndex))
    ensures var r := EmitCall(cfg, st, item, outputIndex); r.Ok? ==> Recorded(r.st, item, outputIndex)
  {
    hide Body, Tracked, Orderly, Undone, EnsureTool, WriteArguments;
    EnsureToolKeepsLive(cfg, st, item, outputIndex);
    var r := EnsureTool(cfg, st, item, outputIndex);
    var key := ToolKey(item.id, outputIndex);
    if r.Ok? && item.arguments != "" && !r.st.tools[key].argumentsEmitted {
      ArgumentsKeepLive(cfg, r.st, key, item.arguments);
    }
  }

  lemma RoleIgnoresSeen(cfg: Config, st: State, seen: set<Key>)
    ensures EnsureRole(cfg, st.(seen := seen)) == var r := EnsureRole(cfg, st); r.(st := r.st.(seen := seen))
  {
  }

  lemma BrokenIgnoresSeen(cfg: Config, st: State, seen: set<Key>)
    requires Broken(cfg, st)
    ensures Broken(cfg, st.(seen := seen))
  {
  }

  /** One part written by the fallback. */
  lemma FallbackKeepsLive(cfg: Config, st: State, part: Part, key: Key)
    requires Live(cfg, st) && !part.OtherPart? && key !in st.seen && key.refusal == part.Refusal?
    ensures var role := EnsureRole(cfg, st.(seen := st.seen + {key}));
            if role.Err? then role.error == WriteFailed && Broken(cfg, role.st)
            else
              var r := WriteChoice(cfg, role.st, PartDelta(part), None, Fallback(key));
              Good(cfg, st, r) && (r.Ok? ==> key in r.st.seen)
  {
    hide Live, Broken, EnsureRole, WriteChoice;
    RoleKeepsLive(cfg, st);
    var role := EnsureRole(cfg, st);
    var marked := EnsureRole(cfg, st.(seen := st.seen + {key}));
    RoleIgnoresSeen(cfg, st, st.seen + {key});
    if role.Err? { BrokenIgnoresSeen(cfg, role.st, st.seen + {key}); }
    if role.Ok? {
      LiveTools(cfg, role.st);
      WriteKeepsLive(cfg, role.st, marked.st, PartDelta(part), Fallback(key));
    }
  }

  lemma {:induction false} EmitPartsKeepsLive(cfg: Config, st: State, parts: seq<Part>, outputIndex: int, j: nat)
    requires Live(cfg, st)
    ensures Good(cfg, st, EmitParts(cfg, st, parts, outputIndex, j))
    ensures var r := EmitParts(cfg, st, parts, outputIndex, j);
            r.Ok? ==> forall i :: j <= i < |parts| && !parts[i].OtherPart? ==>
                        PartKey(parts[i], outputIndex, i) in r.st.seen
    decreases |parts| - j
  {
    hide Live, Broken;
    if j < |parts| {
      var key := PartKey(parts[j], outputIndex, j);
      if parts[j].OtherPart? || key in st.seen {
        EmitPartsKeepsLive(cfg, st, parts, outputIndex, j + 1);
      } else {
        FallbackKeepsLive(cfg, st, parts[j], key);
        var role := EnsureRole(cfg, st.(seen := st.seen + {key}));
        if role.Ok? {
          var r := WriteChoice(cfg, role.st, PartDelta(parts[j]), None, Fallback(key));
          if r.Ok? { EmitPartsKeepsLive(cfg, r.st, parts, outputIndex, j + 1); }
        }
      }
    }
  }

  lemma EmitItemKeepsLive(cfg: Config, st: State, item: Item, outputIndex: int)
    requires Live(cfg, st)
    ensures Good(cfg, st, EmitItem(cfg, st, item, outputIndex))
    ensures var r := EmitItem(cfg, st, item, outputIndex); r.Ok? ==> Recorded(r.st, item, outputIndex)
  {
    match item
    case Message(parts) => EmitPartsKeepsLive(cfg, st, parts, outputIndex, 0);
    case Call(_, _, _, _) => EmitCallKeepsLive(cfg, st, item, outputIndex);
    case OtherItem =>
  }

  lemma {:induction false} EmitOutputKeepsLive(cfg: Config, st: State, output: seq<Item>, i: nat)
    requires Live(cfg, st)
    requires forall n :: 0 <= n < i && n < |output| ==> Recorded(st, output[n], n)
    ensures Good(cfg, st, EmitOutput(cfg, st, output, i))
    ensures var r := EmitOutput(cfg, st, output, i);
            r.Ok? ==> forall n :: 0 <= n < |output| ==> Recorded(r.st, output[n], n)
    decreases |output| - i
  {
    hide Live, Broken, EmitItem, Recorded, Extends;
    if i < |output| {
      EmitItemKeepsLive(cfg, st, output[i], i);
      var r := EmitItem(cfg, st, output[i], i);
      if r.Ok? {
        forall n | 0 <= n < i ensures Recorded(r.st, output[n], n) { RecordedGrows(st, r.st, output[n], n); }
        EmitOutputKeepsLive(cfg, r.st, output, i + 1);
        ExtendsOn(st, r.st, EmitOutput(cfg, r.st, output, i + 1).st);
      }
    } else {
      ExtendsOn(st, st, st);
    }
  }

  lemma RecordedGrows(a: State, b: State, item: Item, outputIndex: int)
    requires Recorded(a, item, outputIndex) && Extends(a, b)
    ensures Recorded(b, item, outputIndex)
  {
    hide ToolKey;
  }

  lemma ExtendsOn(a: State, b: State, c: State)
    ensures Extends(a, a)
    ensures Extends(a, b) && Extends(b, c) ==> Extends(a, c)
  {
  }

  lemma CaptureKeepsLive(cfg: Config, st: State, response: Response)
    requires Live(cfg, st)
    ensures Live(cfg, Capture(st, response)) && Extends(st, Capture(st, response))
  {
  }

  lemma DeltaKeepsLive(cfg: Config, st: State, key: Key, delta: string)
    requires Live(cfg, st)
    ensures Good(cfg, st, WriteDelta(cfg, st, key, delta))
  {
    hide Live, Broken, EnsureRole, WriteChoice;
    RoleKeepsLive(cfg, st);
    var role := EnsureRole(cfg, st);
    if role.Ok? {
      LiveTools(cfg, role.st);
      var mid := if delta != "" then role.st.(seen := role.st.seen + {key}) else role.st;
      WriteKeepsLive(cfg, role.st, mid, if key.refusal then Refused(delta) else Content(delta), Streamed(key));
    }
  }

  lemma ConsumeArgumentsKeepsLive(cfg: Config, st: State, id: string, outputIndex: int, delta: string)
    requires Live(cfg, st)
    ensures Good(cfg, st, ConsumeArguments(cfg, st, id, outputIndex, delta))
  {
    hide Body, Tracked, Orderly, Undone, EnsureTool, WriteArguments;
    var key := ToolKey(id, outputIndex);
    var call := Call(id, id, "", "");
    if key in st.tools {
      ArgumentsKeepLive(cfg, st, key, delta);
    } else {
      EnsureToolKeepsLive(cfg, st, call, outputIndex);
      var r := EnsureTool(cfg, st, call, outputIndex);
      if r.Ok? { ArgumentsKeepLive(cfg, r.st, key, delta); }
    }
  }

  predicate Ends(event: Event) {
    event.Terminal? || event.ResponseFailed? || event.ErrorEvent?
  }

  lemma ConsumeKeepsLive(cfg: Config, st: State, event: Event)
    requires Live(cfg, st) && !Ends(event)
    ensures Good(cfg, st, Consume(cfg, st, event))
  {
    hide Live, Broken;
    match event
    case Created(response) =>
      var st1 := if response.Some? then Capture(st, response.value) else st;
      if response.Some? { CaptureKeepsLive(cfg, st, response.value); }
      RoleKeepsLive(cfg, st1);
    case ItemAdded(Some(Call(_, _, _, _)), k) => EnsureToolKeepsLive(cfg, st, event.item.value, k);
    case ItemAdded(Some(Message(_)), _) => RoleKeepsLive(cfg, st);
    case ItemDone(Some(item), k) => EmitItemKeepsLive(cfg, st, item, k);
    case TextDelta(k, j, delta) => DeltaKeepsLive(cfg, st, Key(k, j, false), delta);
    case RefusalDelta(k, j, delta) => DeltaKeepsLive(cfg, st, Key(k, j, true), delta);
    case ArgumentsDelta(id, k, delta) => ConsumeArgumentsKeepsLive(cfg, st, id, k, delta);
    case _ =>
  }

  // ----- how a stream ends -----

  /** The last word: every write attempted went out, in the grammar, or the last one failed. */
  ghost predicate Ended(cfg: Config, r: Step) {
    if r.Err? && r.error == WriteFailed then Broken(cfg, r.st)
    else
      && r.st.terminal
      && r.st.attempts == |r.st.sent| >= 2
      && Orderly(r.st.sent)
      && (exists m :: Grammatical(r.st.sent, m, r.st.id, r.st.created, r.st.model))
      && (r.Err? <==> r.st.sent[|r.st.sent| - 2].chunk.Error?)
  }

  /** The body is over: m chunks of it were sent and the closing is under way. */
  ghost predicate Winding(cfg: Config, st: State, m: nat) {
    && st.attempts == |st.sent|
    && (cfg.failAt.Some? ==> st.attempts <= cfg.failAt.value)
    && Orderly(st.sent)
    && Undone(st.sent, m, st.id, st.created, st.model)
  }

  lemma LiveWinds(cfg: Config, st: State)
    requires Live(cfg, st)
    ensures Winding(cfg, st, |st.sent|) && Winding(cfg, st.(terminal := true), |st.sent|)
  {
    assert st.sent[..|st.sent|] == st.sent;
  }

  lemma OrderlyDirect(sent: seq<Write>, w: Write)
    requires Orderly(sent) && w.origin.Direct?
    ensures Orderly(sent + [w])
  {
    hide Follows;
    var more := sent + [w];
    forall j | 0 <= j < |more| ensures Follows(more[..j], more[j]) {
      if j < |sent| { assert more[..j] == sent[..j]; } else { DirectFollows(more[..j], w); }
    }
  }

  lemma DirectFollows(before: seq<Write>, w: Write)
    requires w.origin.Direct?
    ensures Follows(before, w)
  {
  }

  lemma UndoneAppend(sent: seq<Write>, m: nat, w: Write, id: string, created: int, model: string)
    requires Undone(sent, m, id, created, model) && Closing(sent[m..] + [w], id, created, model)
    requires m == 0 && sent == [] ==> w.chunk.Error?
    ensures Undone(sent + [w], m, id, created, model)
  {
    hide Body;
    assert (sent + [w])[..m] == sent[..m] && (sent + [w])[m..] == sent[m..] + [w];
  }

  lemma PutWinds(cfg: Config, st: State, m: nat, chunk: Chunk)
    requires Winding(cfg, st, m)
    requires Closing(st.sent[m..] + [Write(chunk, Direct)], st.id, st.created, st.model)
    requires m == 0 && st.sent == [] ==> chunk.Error?
    ensures var r := Put(cfg, st, chunk, Direct);
            if r.Ok? then Winding(cfg, r.st, m) else r.error == WriteFailed && Broken(cfg, r.st)
  {
    hide Orderly, Undone, Closing;
    UndoneAppend(st.sent, m, Write(chunk, Direct), st.id, st.created, st.model);
    OrderlyDirect(st.sent, Write(chunk, Direct));
  }

  lemma PutDoneEnds(cfg: Config, st: State, m: nat)
    requires Winding(cfg, st, m) && m < |st.sent|
    ensures var r := Put(cfg, st, Done, Direct);
            if r.Ok?
            then Orderly(r.st.sent) && r.st.attempts == |r.st.sent| &&
                 Grammatical(r.st.sent, m, r.st.id, r.st.created, r.st.model)
            else r.error == WriteFailed && Broken(cfg, r.st)
  {
    hide Orderly, Undone;
    assert (st.sent + [Write(Done, Direct)])[..|st.sent|] == st.sent;
    OrderlyDirect(st.sent, Write(Done, Direct));
  }

  lemma ErrorEnds(cfg: Config, st: State, m: nat, message: string)
    requires Winding(cfg, st, m) && m == |st.sent| && st.terminal
    ensures var r := Put(cfg, st, Error(message), Direct);
            if r.Err? then r.error == WriteFailed && Broken(cfg, r.st)
            else
              var d := Put(cfg, r.st, Done, Direct);
              if d.Err? then d.error == WriteFailed && Broken(cfg, d.st)
              else Ended(cfg, Err(d.st, Upstream(message)))
  {
    hide Orderly, Undone, Grammatical, Broken;
    assert st.sent[m..] + [Write(Error(message), Direct)] == [Write(Error(message), Direct)];
    PutWinds(cfg, st, m, Error(message));
    var r := Put(cfg, st, Error(message), Direct);
    if r.Ok? { PutDoneEnds(cfg, r.st, m); }
  }

  lemma FailEnds(cfg: Config, st: State, message: string, summary: string)
    requires Live(cfg, st)
    ensures Ended(cfg, Fail(cfg, st, message, summary))
    ensures !Fail(cfg, st, message, summary).Ok?
  {
    hide Orderly, Tracked, Body, Winding, Grammatical, Broken, Put;
    LiveWinds(cfg, st);
    ErrorEnds(cfg, st.(terminal := true), |st.sent|, message);
  }

  lemma UsageWinds(cfg: Config, st: State, m: nat)
    requires Winding(cfg, st, m) && |st.sent| == m + 1 && Identify(cfg, st) == st
    requires IsFinish(st.sent[m].chunk, st.id, st.created, st.model)
    ensures var r := Put(cfg, st, UsageOnly(HeaderOf(st), st.usage), Direct);
            if r.Ok? then Winding(cfg, r.st, m) else r.error == WriteFailed && Broken(cfg, r.st)
  {
    hide Winding, Broken, Put;
    var usage := UsageOnly(HeaderOf(st), st.usage);
    assert st.sent[m..] + [Write(usage, Direct)] == [st.sent[m], Write(usage, Direct)];
    PutWinds(cfg, st, m, usage);
  }

  lemma WindUpEnds(cfg: Config, st: State, m: nat)
    requires Winding(cfg, st, m) && |st.sent| == m + 1 && Identify(cfg, st) == st
    requires IsFinish(st.sent[m].chunk, st.id, st.created, st.model)
    ensures var r := WindUp(cfg, st);
            Ended(cfg, r) && (r.Ok? ==> st.sent <= r.st.sent) && (r.Err? ==> r.error == WriteFailed)
  {
    hide Orderly, Undone, Grammatical, Broken, Closing;
    if cfg.includeUsage && st.usage.HasAny() {
      UsageWinds(cfg, st, m);
      var r := Put(cfg, st, UsageOnly(HeaderOf(st), st.usage), Direct);
      if r.Ok? { PutDoneEnds(cfg, r.st.(terminal := true), m); }
    } else {
      PutDoneEnds(cfg, st.(terminal := true), m);
    }
  }

  lemma CloseOpenEnds(cfg: Config, st: State, status: Status)
    requires Live(cfg, st) && st.roleSent
    ensures var r := Close(cfg, st, status);
            Ended(cfg, r) && (r.Ok? ==> st.sent <= r.st.sent) && (r.Err? ==> r.error == WriteFailed)
  {
    hide Orderly, Tracked, Body, Undone, Grammatical, Broken, WindUp;
    LiveWinds(cfg, st);
    var m := |st.sent|;
    var finish := Choice(HeaderOf(st), NoDelta, Some(FinishReason(status, st.toolSeen)));
    assert st.sent[m..] + [Write(finish, Direct)] == [Write(finish, Direct)];
    PutWinds(cfg, st, m, finish);
    var r := Put(cfg, st, finish, Direct);
    if r.Ok? { WindUpEnds(cfg, r.st, m); }
  }

  lemma CloseEnds(cfg: Config, st: State, status: Status)
    requires Live(cfg, st)
    ensures var r := Close(cfg, st, status);
            Ended(cfg, r) && (r.Ok? ==> st.sent <= r.st.sent) && (r.Err? ==> r.error == WriteFailed)
  {
    hide Live, Broken, WriteChoice, WindUp, Grammatical, Orderly;
    RoleKeepsLive(cfg, st);
    var role := EnsureRole(cfg, st);
    if role.Ok? {
      CloseOpenEnds(cfg, role.st, status);
      assert Close(cfg, role.st, status) == Close(cfg, st, status);
    }
  }

  // ----- nothing is lost -----

  /**
   The item is on the wire: each of its parts, or its announcement and, if it has arguments, a
   chunk that carries some or used them up.
   */
  ghost predicate Emitted(sent: seq<Write>, item: Item, outputIndex: int) {
    match item
    case Message(parts) =>
      forall j :: 0 <= j < |parts| && !parts[j].OtherPart? ==>
        exists i :: 0 <= i < |sent| && Covers(sent[i], PartKey(parts[j], outputIndex, j))
    case Call(id, _, _, arguments) =>
      exists n :: Opened(sent, ToolKey(id, outputIndex), n) && (arguments != "" ==> Spent(sent, n))
    case OtherItem => true
  }

  lemma OpenedGrows(sent: seq<Write>, more: seq<Write>, tool: string, n: nat)
    requires sent <= more
    ensures Opened(sent, tool, n) ==> Opened(more, tool, n)
    ensures Spent(sent, n) ==> Spent(more, n)
  {
    hide Announces, Spends;
    if Opened(sent, tool, n) {
      var i :| 0 <= i < |sent| && Announces(sent[i], tool, n);
      assert Announces(more[i], tool, n);
    }
    if Spent(sent, n) {
      var i :| 0 <= i < |sent| && Spends(sent[i], n);
      assert Spends(more[i], n);
    }
  }

  lemma RecordedIsEmitted(st: State, more: seq<Write>, item: Item, outputIndex: int)
    requires Tracked(st.sent, st.seen, st.tools) && Recorded(st, item, outputIndex) && st.sent <= more
    ensures Emitted(more, item, outputIndex)
  {
    hide Covers, Opened, Spent;
    match item
    case Message(parts) =>
      forall j | 0 <= j < |parts| && !parts[j].OtherPart?
        ensures exists i :: 0 <= i < |more| && Covers(more[i], PartKey(parts[j], outputIndex, j))
      {
        var i :| 0 <= i < |st.sent| && Covers(st.sent[i], PartKey(parts[j], outputIndex, j));
        assert Covers(more[i], PartKey(parts[j], outputIndex, j));
      }
    case Call(id, _, _, arguments) =>
      var key := ToolKey(id, outputIndex);
      OpenedGrows(st.sent, more, key, st.tools[key].index);
    case OtherItem =>
  }

  ghost predicate AllEmitted(sent: seq<Write>, response: Response) {
    forall n :: 0 <= n < |response.output| ==> Emitted(sent, response.output[n], n)
  }

  lemma FinishEnds(cfg: Config, st: State, response: Option<Response>)
    requires Live(cfg, st)
    ensures var r := Finish(cfg, st, response);
            Ended(cfg, r) && (r.Ok? ==> response.Some? && AllEmitted(r.st.sent, response.value))
  {
    hide Broken, Tracked, Orderly, Body, Undone, Recorded, Grammatical, Put, EnsureRole, WindUp, Emitted;
    if response.None? {
      FailEnds(cfg, st, NO_RESPONSE, NO_RESPONSE);
    } else if response.value.status.Failed? || response.value.status.Cancelled? {
      FailEnds(cfg, st, FAILED, FAILED);
    } else {
      CaptureKeepsLive(cfg, st, response.value);
      var st0 := Capture(st, response.value);
      EmitOutputKeepsLive(cfg, st0, response.value.output, 0);
      var out := EmitOutput(cfg, st0, response.value.output, 0);
      if out.Ok? {
        CloseEnds(cfg, out.st, response.value.status);
        var r := Close(cfg, out.st, response.value.status);
        if r.Ok? {
          forall n | 0 <= n < |response.value.output| ensures Emitted(r.st.sent, response.value.output[n], n) {
            RecordedIsEmitted(out.st, r.st.sent, response.value.output[n], n);
          }
        }
      }
    }
  }

  /** A payload after which the stream may go on. */
  predicate GoesOn(payload: Payload) {
    payload.Blank? || (payload.Parsed? && !Ends(payload.event))
  }

  /** What one payload does to an open stream. */
  lemma ReceiveKeepsLive(cfg: Config, st: State, payload: Payload)
    requires Live(cfg, st)
    ensures var r := Receive(cfg, st, payload);
            if r.Ok? && !r.st.terminal then Live(cfg, r.st) else Ended(cfg, r)
    ensures var r := Receive(cfg, st, payload);
            r.Ok? && r.st.terminal ==>
              payload.Parsed? && payload.event.Terminal? && payload.event.response.Some? &&
              AllEmitted(r.st.sent, payload.event.response.value)
    ensures var r := Receive(cfg, st, payload); r.Ok? && !r.st.terminal ==> GoesOn(payload)
  {
    hide Broken, Tracked, Orderly, Body, Undone, Grammatical, AllEmitted, Finish, Fail;
    match payload
    case Blank =>
    case DoneMark => FailEnds(cfg, st, NO_TERMINAL, NO_TERMINAL);
    case Malformed => FailEnds(cfg, st, BAD_JSON, BAD_JSON);
    case Parsed(event, _, _) =>
      match event {
        case Terminal(response) => FinishEnds(cfg, st, response);
        case ResponseFailed(response) =>
          if response.Some? { CaptureKeepsLive(cfg, st, response.value); }
          FailEnds(cfg, if response.Some? then Capture(st, response.value) else st, FAILED, FAILED);
        case ErrorEvent(message, summary) => FailEnds(cfg, st, message, summary);
        case _ => ConsumeKeepsLive(cfg, st, event);
      }
  }

  /** The stream went on up to payload n, a terminal event whose output has been sent. */
  ghost predicate SucceededAt(payloads: seq<Payload>, n: nat, sent: seq<Write>) {
    && n < |payloads| && (forall i :: 0 <= i < n ==> GoesOn(payloads[i]))
    && payloads[n].Parsed? && payloads[n].event.Terminal? && payloads[n].event.response.Some?
    && AllEmitted(sent, payloads[n].event.response.value)
  }

  /**
   Every stream the translator sends, whatever upstream sent: grammatical to its single
   DONE, or cut at its one failed write; and success means that the items of the terminal
   output have been sent.
   */
  lemma {:induction false} TranslateEnds(cfg: Config, st: State, payloads: seq<Payload>, end: StreamEnd)
    requires Live(cfg, st)
    ensures var r := Translate(cfg, st, payloads, end);
            Ended(cfg, r) && (r.Ok? ==> exists n :: SucceededAt(payloads, n, r.st.sent))
    decreases |payloads|
  {
    hide Live, Ended, Receive, Fail, AllEmitted;
    if payloads == [] {
      var message := if end.StreamError? then end.message else NO_TERMINAL;
      FailEnds(cfg, st, message, message);
    } else {
      ReceiveKeepsLive(cfg, st, payloads[0]);
      var r := Receive(cfg, st, payloads[0]);
      if r.Ok? && !r.st.terminal {
        TranslateEnds(cfg, r.st, payloads[1..], end);
        var t := Translate(cfg, r.st, payloads[1..], end);
        if t.Ok? {
          var n: nat :| SucceededAt(payloads[1..], n, t.st.sent);
          assert SucceededAt(payloads, n + 1, t.st.sent);
        }
      } else if r.Ok? {
        assert SucceededAt(payloads, 0, r.st.sent);
      }
    }
  }

  lemma InitialIsLive(cfg: Config, now: int)
    ensures Live(cfg, Initial(cfg, now))
  {
  }

  /** With working writes, every stream is grammatical and repeats nothing. */
  lemma EveryStream(cfg: Config, now: int, payloads: seq<Payload>, end: StreamEnd)
    requires cfg.failAt.None?
    ensures var st := Translate(cfg, Initial(cfg, now), payloads, end).st;
            (exists m :: Grammatical(st.sent, m, st.id, st.created, st.model)) && Orderly(st.sent) &&
            st.attempts == |st.sent|
  {
    hide Live, Translate, Initial, Orderly, Grammatical, AllEmitted;
    InitialIsLive(cfg, now);
    TranslateEnds(cfg, Initial(cfg, now), payloads, end);
  }
}
