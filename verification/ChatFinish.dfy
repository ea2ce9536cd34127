/**
 What a stream says of itself: the name its chunks go by, why it finished, what it used, and what
 went wrong; and what a completion says of the response it was made from.
 */
module ChatFinish {
  import opened Base
  import opened ChatTypes
  import opened ChatStream
  import opened ChatGrammar
  import opened ChatMoves
  import opened ChatCore
  import opened ChatBatch
  import opened ChatAgreement
  import opened ChatTheorem

  // ----- why it finished -----

  /** Some tool call was announced. */
  ghost predicate SomeOpen(sent: seq<Write>) {
    exists i :: 0 <= i < |sent| && IsOpen(sent[i])
  }

  lemma {:induction false} OpensCounts(sent: seq<Write>)
    ensures Opens(sent) > 0 <==> SomeOpen(sent)
  {
    if sent != [] {
      var front := sent[..|sent| - 1];
      OpensCounts(front);
      if SomeOpen(front) {
        var i :| 0 <= i < |front| && IsOpen(front[i]);
        assert IsOpen(sent[i]);
      }
      if SomeOpen(sent) {
        var i :| 0 <= i < |sent| && IsOpen(sent[i]);
        assert i < |front| ==> IsOpen(front[i]);
      }
    }
  }

  /** The reason by its meaning: cut short, calls to make, or done. */
  predicate Means(reason: string, cutShort: bool, calls: bool) {
    (reason == "length" <==> cutShort) && (reason == "tool_calls" <==> !cutShort && calls) &&
    (reason == "stop" <==> !cutShort && !calls)
  }

  predicate Finishes(chunk: Chunk) {
    chunk.Choice? && chunk.finish.Some?
  }

  lemma LiveBody(cfg: Config, st: State)
    requires Live(cfg, st)
    ensures forall w :: w in st.sent ==> !Finishes(w.chunk) && w.chunk != Done
    ensures st.toolSeen <==> SomeOpen(st.sent)
  {
    hide Orderly, Tracked;
    OpensCounts(st.sent);
    forall w | w in st.sent ensures !Finishes(w.chunk) && w.chunk != Done {
      var i :| 0 <= i < |st.sent| && st.sent[i] == w;
      assert Fits(st.sent[..i], st.sent[i].chunk);
    }
  }

  /** The end of a successful stream: a finish chunk with its reason and tier, the usage if wanted and known, DONE. */
  ghost predicate EndsWith(cfg: Config, sent: seq<Write>, f: nat, cutShort: bool, usage: Usage, tier: string) {
    && f < |sent| && Finishes(sent[f].chunk) && sent[f].chunk.header.tier == tier
    && Means(sent[f].chunk.finish.value, cutShort, SomeOpen(sent))
    && (forall i :: 0 <= i < |sent| && Finishes(sent[i].chunk) ==> i == f)
    && (if cfg.includeUsage && usage != NO_USAGE
        then |sent| == f + 3 && sent[f + 1].chunk == UsageOnly(sent[f].chunk.header, usage)
        else |sent| == f + 2)
    && sent[|sent| - 1].chunk == Done
  }

  lemma WindUpEndsWith(cfg: Config, st: State)
    requires Identify(cfg, st) == st && WindUp(cfg, st).Ok?
    ensures WindUp(cfg, st).st.sent ==
            st.sent +
            (if cfg.includeUsage && st.usage != NO_USAGE
             then [Write(UsageOnly(HeaderOf(st), st.usage), Direct)] else []) + [Write(Done, Direct)]
  {
    assert st.usage.HasAny() <==> st.usage != NO_USAGE;
    assert st.sent + [] == st.sent;
  }

  lemma CloseEndsWith(cfg: Config, st: State, status: Status) returns (f: nat)
    requires Live(cfg, st) && Close(cfg, st, status).Ok?
    ensures EndsWith(cfg, Close(cfg, st, status).st.sent, f, status.Incomplete?, st.usage, st.tier)
  {
    hide Live, EnsureRole, WindUp, Broken, Moves;
    RoleKeepsLive(cfg, st);
    RoleMoves(cfg, st);
    var role := EnsureRole(cfg, st).st;
    LiveBody(cfg, role);
    var named := Identify(cfg, role);
    var w := Write(Choice(HeaderOf(named), NoDelta, Some(FinishReason(status, role.toolSeen))), Direct);
    var st2 := named.(sent := role.sent + [w], attempts := role.attempts + 1);
    WindUpEndsWith(cfg, st2);
    RoleTells(cfg, st);
    f := |role.sent|;
    var sent := Close(cfg, st, status).st.sent;
    assert sent[..f] == role.sent && sent[f] == w;
    OpenInFront(sent, role.sent);
  }

  lemma RoleTells(cfg: Config, st: State)
    ensures ToldTo(EnsureRole(cfg, st).st) == ToldTo(st)
  {
  }

  lemma OpenInFront(sent: seq<Write>, front: seq<Write>)
    requires front <= sent && forall i :: |front| <= i < |sent| ==> !IsOpen(sent[i])
    ensures SomeOpen(sent) <==> SomeOpen(front)
  {
    if SomeOpen(front) {
      var i :| 0 <= i < |front| && IsOpen(front[i]);
      assert IsOpen(sent[i]);
    }
  }

  /**
   After every successful stream there is one finish chunk: "length" if the terminal response is
   incomplete, else "tool_calls" if a call was announced, else "stop". Then comes the last usage
   upstream sent, if there was one and it is wanted, then DONE. The finish chunk bears the last tier.
   */
  lemma FinishExactly(cfg: Config, now: int, payloads: seq<Payload>, end: StreamEnd) returns (n: nat, f: nat)
    requires Translate(cfg, Initial(cfg, now), payloads, end).Ok?
    ensures var sent := Translate(cfg, Initial(cfg, now), payloads, end).st.sent;
            SucceededAt(payloads, n, sent) &&
            EndsWith(cfg, sent, f, payloads[n].event.response.value.status.Incomplete?,
                     LastUsage(Events(payloads[..n]) + [payloads[n].event]),
                     LastTier(Events(payloads[..n]) + [payloads[n].event]))
  {
    hide Live, Translate, Close, EmitOutput, EndsWith, CoreOf, Steps, AllEmitted, Broken, Capture, Recorded, Extends;
    var mid;
    n, mid := SuccessSplits(cfg, now, payloads, end);
    var response, events := payloads[n].event.response.value, Events(payloads[..n]);
    CaptureKeepsLive(cfg, mid, response);
    var taken := Capture(mid, response);
    EmitOutputKeepsLive(cfg, taken, response.output, 0);
    LiveIsOpen(cfg, mid);
    var out := EmitOutput(cfg, taken, response.output, 0).st;
    OutputTells(cfg, taken, response.output);
    f := CloseEndsWith(cfg, out, response.status);
    ToldSnoc(Told(NO_USAGE, ""), events, payloads[n].event);
    ToldIsLast(events + [payloads[n].event]);
    CaptureTells(mid, response);
  }

  lemma OutputTells(cfg: Config, st: State, output: seq<Item>)
    ensures ToldTo(EmitOutput(cfg, st, output, 0).st) == ToldTo(st)
  {
    hide EmitOutput;
    OutputMoves(cfg, st, output, 0);
  }

  lemma CaptureTells(st: State, response: Response)
    ensures ToldTo(Capture(st, response)) == Telling(ToldTo(st), Terminal(Some(response)))
  {
    assert response.usage.HasAny() <==> response.usage != NO_USAGE;
  }

  // ----- the name it goes by -----

  /** An event that, at the start of a stream, puts its first chunk on the wire. */
  predicate StartsStream(event: Event) {
    match event
    case OtherEvent => false
    case ItemAdded(item, _) => item.Some? && !item.value.OtherItem?
    case ItemDone(None, _) => false
    case ItemDone(Some(item), _) =>
      item.Call? || (item.Message? && exists j :: 0 <= j < |item.parts| && !item.parts[j].OtherPart?)
    case _ => true
  }

  /** Index of the first payload that is neither blank nor silent. */
  function FirstVoice(payloads: seq<Payload>): (i: nat)
    ensures i <= |payloads|
  {
    if payloads == [] then 0
    else if payloads[0].Blank? || (payloads[0].Parsed? && !StartsStream(payloads[0].event)) then 1 + FirstVoice(payloads[1..])
    else 0
  }

  /** The name that a stream started by this event goes by: from its response, else made up here. */
  ghost predicate NamedAfter(h: Header, cfg: Config, now: int, event: Event) {
    match Carried(event)
    case Some(r) =>
      && h.id == (if r.id != "" then CompletionId(r.id) else cfg.freshId) && h.created == r.created
      && h.model == (if r.model != "" then r.model else cfg.fallback) && h.tier == r.tier
    case None => h == Header(cfg.freshId, now, cfg.fallback, "")
  }

  /** How upstream ids become completion ids: the part behind "resp_", if any, behind "chatcmpl-", once. */
  lemma CompletionIds(stem: string, other: string)
    requires !("chatcmpl-" <= other) && !("resp_" <= other)
    ensures CompletionId("chatcmpl-" + stem) == "chatcmpl-" + stem && CompletionId("resp_" + stem) == "chatcmpl-" + stem
    ensures CompletionId(other) == "chatcmpl-" + other
  {
    assert ("resp_" + stem)[5..] == stem;
    assert ("resp_" + stem)[0] == 'r';
  }

  lemma {:induction false} SilentParts(cfg: Config, st: State, parts: seq<Part>, k: int, j: nat)
    requires forall i :: 0 <= i < |parts| ==> parts[i].OtherPart?
    ensures EmitParts(cfg, st, parts, k, j) == Ok(st)
    decreases |parts| - j
  {
    if j < |parts| { SilentParts(cfg, st, parts, k, j + 1); }
  }

  lemma SilentEvent(cfg: Config, st: State, event: Event)
    requires !StartsStream(event)
    ensures Consume(cfg, st, event) == Ok(st)
  {
    if event.ItemDone? && event.item.Some? && event.item.value.Message? {
      SilentParts(cfg, st, event.item.value.parts, event.outputIndex, 0);
    }
  }

  lemma {:induction false} PartsSpeak(cfg: Config, st: State, parts: seq<Part>, k: int, j: nat, i: nat)
    requires st.seen == {} && j <= i < |parts| && !parts[i].OtherPart?
    ensures EmitParts(cfg, st, parts, k, j).Ok? ==> |EmitParts(cfg, st, parts, k, j).st.sent| > |st.sent|
    decreases |parts| - j
  {
    hide EnsureRole, WriteChoice, Moves;
    if parts[j].OtherPart? {
      PartsSpeak(cfg, st, parts, k, j + 1, i);
    } else {
      var key := PartKey(parts[j], k, j);
      PartMoves(cfg, st, parts[j], key);
      var role := EnsureRole(cfg, st.(seen := st.seen + {key}));
      if role.Ok? {
        var r := WriteChoice(cfg, role.st, PartDelta(parts[j]), None, Fallback(key));
        if r.Ok? {
          PartWritten(cfg, role.st, parts[j], key);
          PartsMove(cfg, r.st, parts, k, j + 1);
          MovesGrow(cfg, r.st, EmitParts(cfg, r.st, parts, k, j + 1));
          RoleMoves(cfg, st.(seen := st.seen + {key}));
          MovesGrow(cfg, st.(seen := st.seen + {key}), role);
        }
      }
    }
  }

  lemma PartWritten(cfg: Config, st: State, part: Part, key: Key)
    requires !part.OtherPart?
    ensures var r := WriteChoice(cfg, st, PartDelta(part), None, Fallback(key)); r.Ok? ==> |r.st.sent| == |st.sent| + 1
  {
  }

  lemma MovesGrow(cfg: Config, st: State, r: Step)
    requires Moves(cfg, st, r)
    ensures |st.sent| <= |r.st.sent|
  {
  }

  lemma RoleSpeaks(cfg: Config, st: State)
    requires !st.roleSent
    ensures EnsureRole(cfg, st).Ok? ==> EnsureRole(cfg, st).st.sent != []
  {
  }

  /** From a fresh state every such event writes, unless the write fails. */
  lemma StartSpeaks(cfg: Config, now: int, event: Event)
    requires StartsStream(event)
    ensures var r := Consume(cfg, Initial(cfg, now), event); r.Ok? ==> r.st.sent != []
  {
    hide EnsureRole, WriteChoice, Fail, Close, EmitParts, WriteArguments, Moves;
    var st := Initial(cfg, now);
    RoleSpeaks(cfg, st);
    var role := EnsureRole(cfg, st);
    match event
    case Created(response) => RoleSpeaks(cfg, TakenOver(st, event));
    case ItemAdded(Some(Call(_, _, _, _)), k) => ToolSpeaks(cfg, st, event.item.value, k);
    case ItemDone(Some(Call(_, _, _, _)), k) => CallSpeaks(cfg, st, event.item.value, k);
    case ItemDone(Some(Message(parts)), k) =>
      var i :| 0 <= i < |parts| && !parts[i].OtherPart?;
      PartsSpeak(cfg, st, parts, k, 0, i);
    case TextDelta(k, j, delta) => DeltaSpeaks(cfg, st, Key(k, j, false), delta);
    case RefusalDelta(k, j, delta) => DeltaSpeaks(cfg, st, Key(k, j, true), delta);
    case ArgumentsDelta(id, k, delta) =>
      ToolSpeaks(cfg, st, Call(id, id, "", ""), k);
      var r := EnsureTool(cfg, st, Call(id, id, "", ""), k);
      if r.Ok? {
        ArgumentsMove(cfg, r.st, ToolKey(id, k), delta);
        MovesGrow(cfg, r.st, WriteArguments(cfg, r.st, ToolKey(id, k), delta));
      }
    case Terminal(response) => TerminalSpeaks(cfg, st, response);
    case ResponseFailed(response) => FailSays(cfg, TakenOver(st, event), FAILED, FAILED);
    case ErrorEvent(message, summary) => FailSays(cfg, st, message, summary);
    case _ =>
  }

  lemma ToolSpeaks(cfg: Config, st: State, item: Item, k: int)
    requires !st.roleSent && item.Call?
    ensures EnsureTool(cfg, st, item, k).Ok? ==> EnsureTool(cfg, st, item, k).st.sent != []
  {
    hide EnsureRole, ToolKey, ValueOr;
    RoleSpeaks(cfg, st);
  }

  lemma CallSpeaks(cfg: Config, st: State, item: Item, k: int)
    requires !st.roleSent && item.Call?
    ensures EmitCall(cfg, st, item, k).Ok? ==> EmitCall(cfg, st, item, k).st.sent != []
  {
    hide EnsureTool, WriteArguments, Moves;
    ToolSpeaks(cfg, st, item, k);
    var r := EnsureTool(cfg, st, item, k);
    var key := ToolKey(item.id, k);
    if r.Ok? && item.arguments != "" && !r.st.tools[key].argumentsEmitted {
      ArgumentsMove(cfg, r.st, key, item.arguments);
      MovesGrow(cfg, r.st, WriteArguments(cfg, r.st, key, item.arguments));
    }
  }

  lemma DeltaSpeaks(cfg: Config, st: State, key: Key, delta: string)
    requires !st.roleSent
    ensures WriteDelta(cfg, st, key, delta).Ok? ==> WriteDelta(cfg, st, key, delta).st.sent != []
  {
    hide EnsureRole;
    RoleSpeaks(cfg, st);
  }

  lemma TerminalSpeaks(cfg: Config, st: State, response: Option<Response>)
    requires !st.terminal
    ensures Finish(cfg, st, response).Ok? ==> Finish(cfg, st, response).st.sent != []
  {
    hide EmitOutput, EnsureRole, Capture;
    if response.None? {
      FailSays(cfg, st, NO_RESPONSE, NO_RESPONSE);
    } else if response.value.status.Failed? || response.value.status.Cancelled? {
      FailSays(cfg, st, FAILED, FAILED);
    }
  }

  /** The first event to put anything on the wire names the whole stream. */
  lemma {:induction false} FirstHeader(cfg: Config, now: int, payloads: seq<Payload>, end: StreamEnd)
    ensures var sent, i := Translate(cfg, Initial(cfg, now), payloads, end).st.sent, FirstVoice(payloads);
            sent != [] && sent[0].chunk.Choice? ==>
              i < |payloads| && payloads[i].Parsed? && NamedAfter(sent[0].chunk.header, cfg, now, payloads[i].event)
    decreases |payloads|
  {
    hide Consume, Fail, NamedAfter, StartsStream;
    var st := Initial(cfg, now);
    if payloads == [] {
      var message := if end.StreamError? then end.message else NO_TERMINAL;
      FailSays(cfg, st, message, message);
    } else if payloads[0].Blank? || (payloads[0].Parsed? && !StartsStream(payloads[0].event)) {
      if payloads[0].Parsed? { SilentEvent(cfg, st, payloads[0].event); }
      FirstHeader(cfg, now, payloads[1..], end);
    } else if payloads[0].Parsed? {
      var event := payloads[0].event;
      var r := Consume(cfg, st, event);
      EventMoves(cfg, st, event);
      StartSpeaks(cfg, now, event);
      StartNamed(cfg, now, event);
      if r.Ok? && !r.st.terminal { TranslateGrows(cfg, r.st, payloads[1..], end); }
    } else {
      FailSays(cfg, st, NO_TERMINAL, NO_TERMINAL);
      FailSays(cfg, st, BAD_JSON, BAD_JSON);
    }
  }

  lemma StartNamed(cfg: Config, now: int, event: Event)
    ensures var r := Consume(cfg, Initial(cfg, now), event);
            r.st.sent != [] && r.st.sent[0].chunk.Choice? ==> NamedAfter(r.st.sent[0].chunk.header, cfg, now, event)
  {
    hide Consume;
    var st := Initial(cfg, now);
    EventMoves(cfg, st, event);
    if Carried(event).Some? && !TakesOver(event) { RefusedStart(cfg, now, event); }
  }

  /** A terminal event that cannot finish writes no named chunk. */
  lemma RefusedStart(cfg: Config, now: int, event: Event)
    requires event.Terminal? && event.response.Some? && !TakesOver(event)
    ensures var r := Consume(cfg, Initial(cfg, now), event); r.st.sent != [] ==> r.st.sent[0].chunk.Error?
  {
    FailSays(cfg, Initial(cfg, now), FAILED, FAILED);
  }

  // ----- what went wrong -----

  lemma FailSays(cfg: Config, st: State, message: string, summary: string)
    requires !st.terminal
    ensures var r := Fail(cfg, st, message, summary);
            && r.Err?
            && (r.error != WriteFailed ==>
                  r.st.sent == st.sent + [Write(Error(message), Direct), Write(Done, Direct)] && r.error == Upstream(summary))
            && (r.error == WriteFailed ==> r.st.sent == st.sent || r.st.sent == st.sent + [Write(Error(message), Direct)])
  {
  }

  /** Index of the first payload at which a stream ends, a DONE mark included. */
  function Stop(payloads: seq<Payload>): (i: nat)
    ensures i <= |payloads|
  {
    if payloads == [] || payloads[0].DoneMark? || Stops(payloads[0]) then 0 else 1 + Stop(payloads[1..])
  }

  /** What a failing stream tells the client, and what it returns for the log. */
  ghost predicate Complaint(payloads: seq<Payload>, end: StreamEnd, message: string, summary: string) {
    var i := Stop(payloads);
    if i == |payloads| then
      message == summary ==
        (if end.StreamError? then end.message else "upstream stream ended without a terminal response event")
    else match payloads[i]
      case DoneMark => message == summary == "upstream stream ended without a terminal response event"
      case Malformed => message == summary == "upstream stream contained an invalid JSON event"
      case Parsed(ErrorEvent(m, s), _, _) => message == m && summary == s
      case Parsed(Terminal(None), _, _) => message == summary == "terminal event is missing its response object"
      case _ => message == summary == "upstream response failed"
  }

  lemma EventComplains(cfg: Config, st: State, event: Event)
    requires Live(cfg, st) && Ends(event) && Consume(cfg, st, event).Err?
    requires Consume(cfg, st, event).error != WriteFailed
    ensures var r := Consume(cfg, st, event);
            |r.st.sent| >= 2 && r.st.sent[|r.st.sent| - 2].chunk.Error? && r.error.Upstream? &&
            Complaint([Parsed(event, 0, true)], EndOfStream, r.st.sent[|r.st.sent| - 2].chunk.message, r.error.summary)
  {
    hide Live, Fail, EmitOutput, Close, Capture, Ended, Broken, AllEmitted;
    LiveIsOpen(cfg, st);
    match event
    case Terminal(response) =>
      if response.None? {
        FailSays(cfg, st, NO_RESPONSE, NO_RESPONSE);
      } else if response.value.status.Failed? || response.value.status.Cancelled? {
        FailSays(cfg, st, FAILED, FAILED);
      } else {
        FinishOnlyWrites(cfg, st, response.value);
      }
    case ResponseFailed(response) =>
      FailSays(cfg, if response.Some? then Capture(st, response.value) else st, FAILED, FAILED) by {
        if response.Some? { CaptureOpen(st, response.value); }
      }
    case ErrorEvent(message, summary) => FailSays(cfg, st, message, summary);
  }

  lemma CaptureOpen(st: State, response: Response)
    ensures Capture(st, response).terminal == st.terminal
  {
  }

  /** A terminal event that may finish fails only by a failed write. */
  lemma FinishOnlyWrites(cfg: Config, st: State, response: Response)
    requires Live(cfg, st) && !response.status.Failed? && !response.status.Cancelled?
    ensures Finish(cfg, st, Some(response)).Err? ==> Finish(cfg, st, Some(response)).error == WriteFailed
  {
    hide Live, EmitOutput, Close, Capture, Broken, Recorded, Ended;
    CaptureKeepsLive(cfg, st, response);
    EmitOutputKeepsLive(cfg, Capture(st, response), response.output, 0);
    var out := EmitOutput(cfg, Capture(st, response), response.output, 0);
    if out.Ok? { CloseEnds(cfg, out.st, response.status); }
    LiveIsOpen(cfg, st);
  }

  /** Every failing stream, unless a write failed, ends in one error that says why, and DONE. */
  lemma {:induction false} FailureSays(cfg: Config, st: State, payloads: seq<Payload>, end: StreamEnd)
    requires Live(cfg, st)
    requires Translate(cfg, st, payloads, end).Err? && Translate(cfg, st, payloads, end).error != WriteFailed
    ensures var r := Translate(cfg, st, payloads, end);
            |r.st.sent| >= 2 && r.st.sent[|r.st.sent| - 2].chunk.Error? && r.error.Upstream? &&
            Complaint(payloads, end, r.st.sent[|r.st.sent| - 2].chunk.message, r.error.summary)
    decreases |payloads|
  {
    hide Live, Consume, Fail, Ended, Broken, AllEmitted;
    LiveIsOpen(cfg, st);
    if payloads == [] {
      var message := if end.StreamError? then end.message else NO_TERMINAL;
      FailSays(cfg, st, message, message);
    } else {
      match payloads[0] {
        case Blank => FailureSays(cfg, st, payloads[1..], end);
        case DoneMark => FailSays(cfg, st, NO_TERMINAL, NO_TERMINAL);
        case Malformed => FailSays(cfg, st, BAD_JSON, BAD_JSON);
        case Parsed(event, _, _) =>
          ReceiveKeepsLive(cfg, st, payloads[0]);
          if Ends(event) {
            EventStops(cfg, st, event);
            EventComplains(cfg, st, event);
          } else {
            ConsumeKeepsLive(cfg, st, event);
            FailureSays(cfg, Consume(cfg, st, event).st, payloads[1..], end);
          }
      }
    }
  }

  /** An ending event that does not fail ends the stream. */
  lemma EventStops(cfg: Config, st: State, event: Event)
    requires Live(cfg, st) && Ends(event)
    ensures Consume(cfg, st, event).Ok? ==> Consume(cfg, st, event).st.terminal
  {
    hide Consume, Live, Broken, AllEmitted;
    ReceiveKeepsLive(cfg, st, Parsed(event, 0, true));
  }

  // ----- what a completion says -----

  lemma {:induction false} SaidCounts(items: seq<Item>)
    ensures ItemsSaid(items).calls != [] <==> exists i :: 0 <= i < |items| && items[i].Call?
    ensures ItemsSaid(items).texts != [] <==>
            exists i, j :: 0 <= i < |items| && items[i].Message? && 0 <= j < |items[i].parts| && items[i].parts[j].Text?
    ensures ItemsSaid(items).refusals != [] <==>
            exists i, j :: 0 <= i < |items| && items[i].Message? && 0 <= j < |items[i].parts| && items[i].parts[j].Refusal?
  {
    if items != [] {
      var rest := items[1..];
      SaidCounts(rest);
      if items[0].Message? { PartsCount(items[0].parts); }
      assert forall i :: 0 <= i < |rest| ==> rest[i] == items[i + 1];
      assert forall i :: 0 < i < |items| ==> items[i] == rest[i - 1];
    }
  }

  lemma {:induction false} PartsCount(parts: seq<Part>)
    ensures PartsSaid(parts).calls == []
    ensures PartsSaid(parts).texts != [] <==> exists j :: 0 <= j < |parts| && parts[j].Text?
    ensures PartsSaid(parts).refusals != [] <==> exists j :: 0 <= j < |parts| && parts[j].Refusal?
  {
    if parts != [] {
      var rest := parts[1..];
      PartsCount(rest);
      assert forall j :: 0 <= j < |rest| ==> rest[j] == parts[j + 1];
      assert forall j :: 0 < j < |parts| ==> parts[j] == rest[j - 1];
    }
  }

  ghost predicate HasCall(items: seq<Item>) {
    exists i :: 0 <= i < |items| && items[i].Call?
  }

  ghost predicate HasText(items: seq<Item>) {
    exists i, j :: 0 <= i < |items| && items[i].Message? && 0 <= j < |items[i].parts| && items[i].parts[j].Text?
  }

  ghost predicate HasRefusal(items: seq<Item>) {
    exists i, j :: 0 <= i < |items| && items[i].Message? && 0 <= j < |items[i].parts| && items[i].parts[j].Refusal?
  }

  /** The completion of any response that has one: its reason, and when its content and refusal are null. */
  lemma CompletionSays(response: Response)
    ensures CompletionOf(response).Some? <==> !response.status.Failed? && !response.status.Cancelled?
    ensures CompletionOf(response).Some? ==>
              var c, output := CompletionOf(response).value, response.output;
              && Means(c.finish, response.status.Incomplete?, HasCall(output))
              && (c.content.None? <==> HasCall(output) && !HasText(output))
              && (c.refusal.None? <==> !HasRefusal(output))
  {
    SaidCounts(response.output);
  }

  /** What one more item of output adds to a completion. */
  lemma CompletionGrows(response: Response, item: Item)
    requires CompletionOf(response).Some?
    ensures var before, after := CompletionOf(response).value,
                                 CompletionOf(response.(output := response.output + [item])).value;
            match item
            case Call(id, callId, name, arguments) =>
              after.calls == before.calls + [CallOut(if IsBlank(callId) then id else callId, name,
                                                     if IsBlank(arguments) then "{}" else arguments)] &&
              after.refusal == before.refusal
            case OtherItem => after == before
            case Message(parts) =>
              after.calls == before.calls &&
              (|parts| == 1 && parts[0].Text? ==>
                 after.refusal == before.refusal &&
                 after.content == Some((if before.content.Some? then before.content.value else "") + parts[0].text)) &&
              (|parts| == 1 && parts[0].Refusal? ==>
                 after.refusal == Some((if before.refusal.Some? then before.refusal.value else "") + parts[0].text))
  {
    hide ItemsSaid, PartsSaid, Join, ValueOr, FinishReason;
    var said := ItemsSaid(response.output);
    SaidGrows(response.output, item);
    match item
    case Call(id, callId, name, arguments) => CallGrows(said, id, callId, name, arguments);
    case OtherItem => PlusLaws(said, NOTHING, NOTHING);
    case Message(parts) =>
      PartsSaidNoCalls(parts);
      assert said.calls + [] == said.calls;
      if |parts| == 1 {
        OnePart(parts[0]);
        assert parts == [parts[0]];
        if !parts[0].OtherPart? { TextGrows(said, parts[0].text); }
      }
  }

  lemma SaidGrows(output: seq<Item>, item: Item)
    ensures ItemsSaid(output + [item]) == ItemsSaid(output).Plus(ItemSaid(item))
  {
    hide ItemSaid;
    ItemsSaidAppend(output, [item]);
    assert [item][1..] == [];
    PlusLaws(ItemSaid(item), NOTHING, NOTHING);
  }

  lemma OnePart(part: Part)
    ensures PartsSaid([part]) == PartSaid(part)
  {
    assert [part][1..] == [];
    PlusLaws(PartSaid(part), NOTHING, NOTHING);
  }

  lemma CallGrows(said: Said, id: string, callId: string, name: string, arguments: string)
    ensures Defaulted(said.calls + [CallOut(ValueOr(callId, id), name, arguments)]) ==
            Defaulted(said.calls) + [CallOut(if IsBlank(callId) then id else callId, name,
                                             if IsBlank(arguments) then "{}" else arguments)]
    ensures said.texts + [] == said.texts && said.refusals + [] == said.refusals
  {
  }

  lemma TextGrows(said: Said, text: string)
    ensures Join(said.texts + [text]) == Join(said.texts) + text
    ensures Join(said.refusals + [text]) == Join(said.refusals) + text
    ensures said.texts + [] == said.texts && said.refusals + [] == said.refusals
    ensures said.texts == [] ==> Join(said.texts) == ""
    ensures said.refusals == [] ==> Join(said.refusals) == ""
  {
    JoinSnoc(said.texts, text);
    JoinSnoc(said.refusals, text);
  }
}
