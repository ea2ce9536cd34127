/**
 Streaming and batch agree: a client that reassembles the chunks of a successful run gets
 the completion the batch path builds from the same events.
 */
module ChatAgreement {
  import opened Base
  import opened ChatTypes
  import opened ChatStream
  import opened ChatGrammar
  import opened ChatCore
  import opened ChatBatch

  // ----- the runs the theorem is about -----

  /**
   How upstream sends one output item. A message streams its first |streams| parts, each as
   any number of deltas, and leaves the others to its done event. A call may be announced
   with some of its arguments and streams the rest, or leaves all of them to its done event.
   */
  datatype ItemRun =
    | MessageRun(parts: seq<Part>, streams: seq<seq<string>>, done: bool)
    | CallRun(call: Item, announced: Option<string>, deltas: seq<string>, done: bool)
    | OtherRun(done: bool)

  function ItemOf(run: ItemRun): Item {
    match run
    case MessageRun(parts, _, _) => Message(parts)
    case CallRun(call, _, _, _) => call
    case OtherRun(_) => OtherItem
  }

  predicate ValidRun(run: ItemRun) {
    match run
    case MessageRun(parts, streams, done) =>
      |streams| <= |parts| && (done || |streams| == |parts|) &&
      forall j :: 0 <= j < |streams| ==>
        if parts[j].OtherPart? then streams[j] == [] else Join(streams[j]) == parts[j].text
    case CallRun(call, announced, deltas, done) =>
      call.Call? &&
      (if announced.None? then deltas == [] && done
       else announced.value + Join(deltas) == call.arguments || (announced.value == "" && deltas == [] && done))
    case OtherRun(_) => true
  }

  function PartDeltas(part: Part, k: int, j: int, deltas: seq<string>): seq<Event> {
    if deltas == [] then []
    else [if part.Refusal? then RefusalDelta(k, j, deltas[0]) else TextDelta(k, j, deltas[0])]
         + PartDeltas(part, k, j, deltas[1..])
  }

  function MessageDeltas(parts: seq<Part>, streams: seq<seq<string>>, k: int, j: nat): seq<Event>
    requires |streams| <= |parts|
    decreases |streams| - j
  {
    if j >= |streams| then []
    else PartDeltas(parts[j], k, j, streams[j]) + MessageDeltas(parts, streams, k, j + 1)
  }

  function CallDeltas(id: string, k: int, deltas: seq<string>): seq<Event> {
    if deltas == [] then [] else [ArgumentsDelta(id, k, deltas[0])] + CallDeltas(id, k, deltas[1..])
  }

  function DoneEvents(run: ItemRun, k: int): seq<Event> {
    if run.done then [ItemDone(Some(ItemOf(run)), k)] else []
  }

  /** The events of item k, apart from those that carry no content. */
  function EventsOf(run: ItemRun, k: int): seq<Event>
    requires ValidRun(run)
  {
    match run
    case MessageRun(parts, streams, _) => MessageDeltas(parts, streams, k, 0) + DoneEvents(run, k)
    case CallRun(call, announced, deltas, _) =>
      (if announced.Some? then [ItemAdded(Some(call.(arguments := announced.value)), k)] else [])
      + CallDeltas(call.id, k, deltas) + DoneEvents(run, k)
    case OtherRun(_) => DoneEvents(run, k)
  }

  function AllEvents(runs: seq<ItemRun>, k: nat): seq<Event>
    requires forall run :: run in runs ==> ValidRun(run)
    decreases |runs| - k
  {
    if k >= |runs| then [] else EventsOf(runs[k], k) + AllEvents(runs, k + 1)
  }

  /** Events that carry no content may appear anywhere: progress, announcements, unknown types. */
  predicate Noise(event: Event) {
    match event
    case Created(_) => true
    case OtherEvent => true
    case ItemAdded(item, _) => item.None? || !item.value.Call?
    case ItemDone(item, _) => item.None?
    case _ => false
  }

  function WithoutNoise(events: seq<Event>): seq<Event> {
    if events == [] then []
    else (if Noise(events[0]) then [] else [events[0]]) + WithoutNoise(events[1..])
  }

  predicate Plain(payload: Payload) {
    payload.Blank? || payload.Parsed?
  }

  function Events(payloads: seq<Payload>): seq<Event> {
    if payloads == [] then []
    else (if payloads[0].Parsed? then [payloads[0].event] else []) + Events(payloads[1..])
  }

  function DoneSize(p: Payload): nat {
    if p.Parsed? && p.exact && p.event.ItemDone? then p.size else 0
  }

  function RetainedBytes(payloads: seq<Payload>): nat {
    if payloads == [] then 0 else DoneSize(payloads[0]) + RetainedBytes(payloads[1..])
  }

  predicate DistinctCalls(items: seq<Item>) {
    forall i, j :: 0 <= i < j < |items| && items[i].Call? && items[j].Call? ==>
      ToolKey(items[i].id, i) != ToolKey(items[j].id, j)
  }

  /** Every done event has its exact type. */
  predicate DonesExact(payloads: seq<Payload>) {
    forall p :: p in payloads && p.Parsed? && p.event.ItemDone? ==> p.exact
  }

  /**
   A successful upstream run: item by item in output order, then a terminal response whose
   output is empty with every item done, or lists the items (those never mentioned included).
   */
  predicate UpstreamRun(payloads: seq<Payload>, runs: seq<ItemRun>, items: seq<Item>, response: Response) {
    && (forall run :: run in runs ==> ValidRun(run))
    && (forall p :: p in payloads ==> Plain(p))
    && WithoutNoise(Events(payloads)) == AllEvents(runs, 0)
    && RetainedBytes(payloads) <= MAX_REQUEST_BODY_BYTES
    && |runs| <= |items| && (forall k :: 0 <= k < |runs| ==> items[k] == ItemOf(runs[k]))
    && DistinctCalls(items)
    && !response.status.Failed? && !response.status.Cancelled?
    && (response.output == items ||
        (response.output == [] && |runs| == |items| && DonesExact(payloads) && forall run :: run in runs ==> run.done))
  }

  // ----- what the core has said after k items -----

  function Add(client: Client, said: Said): Client {
    client.(text := client.text + Join(said.texts), refusal := client.refusal + Join(said.refusals),
            calls := client.calls + said.calls)
  }

  lemma AddPlus(client: Client, a: Said, b: Said)
    ensures Add(Add(client, a), b) == Add(client, a.Plus(b))
  {
    hide Join;
    JoinAppend(a.texts, b.texts);
    JoinAppend(a.refusals, b.refusals);
    assert client.text + Join(a.texts) + Join(b.texts) == client.text + (Join(a.texts) + Join(b.texts));
    assert client.refusal + Join(a.refusals) + Join(b.refusals) ==
           client.refusal + (Join(a.refusals) + Join(b.refusals));
    assert client.calls + a.calls + b.calls == client.calls + (a.calls + b.calls);
  }

  lemma AddNothing(client: Client)
    ensures Add(client, NOTHING) == client
  {
  }

  ghost predicate Owned(tools: map<string, Tool>, items: seq<Item>, k: nat)
    requires k <= |items|
  {
    && |tools| == |ItemsSaid(items[..k]).calls|
    && (forall t :: t in tools ==> exists i :: 0 <= i < k && items[i].Call? && t == ToolKey(items[i].id, i))
    && (forall i :: 0 <= i < k && items[i].Call? ==>
          ToolKey(items[i].id, i) in tools &&
          (items[i].arguments != "" ==> tools[ToolKey(items[i].id, i)].argumentsEmitted))
  }

  ghost predicate Spoken(seen: set<Key>, parts: seq<Part>, k: int, n: nat) {
    forall j :: 0 <= j < n && j < |parts| && !parts[j].OtherPart? && parts[j].text != "" ==>
      PartKey(parts[j], k, j) in seen
  }

  ghost predicate Reached(c: Core, items: seq<Item>, k: nat)
    requires k <= |items|
  {
    && c.client == Add(SILENCE, ItemsSaid(items[..k]))
    && Owned(c.tools, items, k)
    && (forall i :: 0 <= i < k && items[i].Message? ==> Spoken(c.seen, items[i].parts, i, |items[i].parts|))
    && (forall key :: key in c.seen ==> key.output < k)
  }

  function Steps(c: Core, events: seq<Event>): Core
    decreases |events|
  {
    if events == [] then c else Steps(CoreStep(c, events[0]), events[1..])
  }

  lemma {:induction false} StepsAppend(c: Core, a: seq<Event>, b: seq<Event>)
    ensures Steps(c, a + b) == Steps(Steps(c, a), b)
    decreases |a|
  {
    hide CoreStep;
    if a == [] {
      assert a + b == b;
    } else {
      assert (a + b)[1..] == a[1..] + b;
      StepsAppend(CoreStep(c, a[0]), a[1..], b);
    }
  }

  lemma StepsNothing(c: Core)
    ensures Steps(c, []) == c
  {
  }

  lemma {:induction false} StepsIgnoreNoise(c: Core, events: seq<Event>)
    ensures Steps(c, WithoutNoise(events)) == Steps(c, events)
    decreases |events|
  {
    if events != [] {
      StepsIgnoreNoise(CoreStep(c, events[0]), events[1..]);
      var first := if Noise(events[0]) then [] else [events[0]];
      StepsAppend(c, first, WithoutNoise(events[1..]));
      assert Steps(c, first) == CoreStep(c, events[0]) by {
        if !Noise(events[0]) { assert Steps(CoreStep(c, events[0]), []) == CoreStep(c, events[0]); }
      }
    }
  }

  // ----- messages -----

  /** The fallback for a message whose first p parts are out says the rest of it, once. */
  lemma {:induction false} PartsComplete(c: Core, parts: seq<Part>, k: int, j: nat, p: nat)
    requires j <= |parts| && p <= |parts|
    requires Spoken(c.seen, parts, k, p)
    requires forall i :: j <= i && p <= i < |parts| ==> PartKey(parts[i], k, i) !in c.seen
    ensures var d := CoreParts(c, parts, k, j);
            && d.tools == c.tools && c.seen <= d.seen
            && d.client == Add(c.client, PartsSaid(parts[if j < p then p else j..]))
            && (forall i :: j <= i < |parts| && !parts[i].OtherPart? ==> PartKey(parts[i], k, i) in d.seen)
            && (forall key :: key in d.seen && key !in c.seen ==> key.output == k && key.content < |parts|)
    decreases |parts| - j
  {
    hide Join, PartsSaid, Add, Hear;
    if j == |parts| {
      assert parts[if j < p then p else j..] == [];
      assert PartsSaid([]) == NOTHING by { EmptySaid(); }
      AddNothing(c.client);
    } else {
      var key := PartKey(parts[j], k, j);
      if parts[j].OtherPart? || key in c.seen {
        PartsComplete(c, parts, k, j + 1, p);
        if j >= p { SkipOne(parts, j); }
      } else {
        var d := Say(c.(seen := c.seen + {key}), PartDelta(parts[j]));
        PartsComplete(d, parts, k, j + 1, p);
        SayPart(c.client, parts[j]);
        if j >= p { SayRest(c.client, parts, j); }
      }
    }
  }

  lemma EmptySaid()
    ensures PartsSaid([]) == NOTHING
  {
  }

  lemma SkipOne(parts: seq<Part>, j: nat)
    requires j < |parts| && parts[j].OtherPart?
    ensures PartsSaid(parts[j..]) == PartsSaid(parts[j + 1..])
  {
  }

  lemma SayRest(client: Client, parts: seq<Part>, j: nat)
    requires j < |parts|
    ensures Add(Add(client, PartSaid(parts[j])), PartsSaid(parts[j + 1..])) == Add(client, PartsSaid(parts[j..]))
  {
    assert parts[j..][1..] == parts[j + 1..];
    AddPlus(client, PartSaid(parts[j]), PartsSaid(parts[j + 1..]));
  }

  lemma SayPart(client: Client, part: Part)
    requires !part.OtherPart?
    ensures Hear(client, PartDelta(part)) == Add(client, PartSaid(part))
    ensures part.text == "" ==> Hear(client, PartDelta(part)) == client
  {
    assert Join([part.text]) == part.text + Join([]);
  }

  lemma {:induction false} PartStreams(c: Core, part: Part, k: int, j: int, deltas: seq<string>)
    requires !part.OtherPart? || deltas == []
    ensures var d := Steps(c, PartDeltas(part, k, j, deltas));
            && d.tools == c.tools && c.seen <= d.seen <= c.seen + {PartKey(part, k, j)}
            && (Join(deltas) != "" ==> PartKey(part, k, j) in d.seen)
            && d.client == if part.Refusal? then c.client.(refusal := c.client.refusal + Join(deltas))
                           else c.client.(text := c.client.text + Join(deltas))
    decreases |deltas|
  {
    if deltas != [] {
      var event := if part.Refusal? then RefusalDelta(k, j, deltas[0]) else TextDelta(k, j, deltas[0]);
      var events := PartDeltas(part, k, j, deltas);
      assert events[0] == event && events[1..] == PartDeltas(part, k, j, deltas[1..]);
      PartStreams(CoreStep(c, event), part, k, j, deltas[1..]);
    }
  }

  lemma {:induction false} MessageStreams(c: Core, parts: seq<Part>, streams: seq<seq<string>>, k: int, j: nat)
    requires ValidRun(MessageRun(parts, streams, true)) && j <= |streams|
    requires Spoken(c.seen, parts, k, j)
    ensures var d := Steps(c, MessageDeltas(parts, streams, k, j));
            && d.tools == c.tools && c.seen <= d.seen
            && d.client == Add(c.client, PartsSaid(parts[j..|streams|]))
            && Spoken(d.seen, parts, k, |streams|)
            && (forall key :: key in d.seen && key !in c.seen ==> key.output == k && key.content < |streams|)
    decreases |streams| - j
  {
    hide Join, PartsSaid, PartSaid, Add, Steps, PartDeltas;
    if j == |streams| {
      assert parts[j..|streams|] == [];
      StepsNothing(c);
      EmptySaid();
      AddNothing(c.client);
    } else {
      StepsAppend(c, PartDeltas(parts[j], k, j, streams[j]), MessageDeltas(parts, streams, k, j + 1));
      PartStreams(c, parts[j], k, j, streams[j]);
      var d := Steps(c, PartDeltas(parts[j], k, j, streams[j]));
      assert d.client == Add(c.client, PartSaid(parts[j])) by { PartAdded(c.client, parts[j], streams[j]); }
      MessageStreams(d, parts, streams, k, j + 1);
      SayRest(c.client, parts[..|streams|], j);
      assert parts[..|streams|][j + 1..] == parts[j + 1..|streams|] && parts[..|streams|][j..] == parts[j..|streams|];
    }
  }

  lemma PartAdded(client: Client, part: Part, deltas: seq<string>)
    requires if part.OtherPart? then deltas == [] else Join(deltas) == part.text
    ensures Add(client, PartSaid(part)) ==
            if part.Refusal? then client.(refusal := client.refusal + Join(deltas))
            else client.(text := client.text + Join(deltas))
  {
    if !part.OtherPart? { assert Join([part.text]) == part.text + Join([]); }
  }

  lemma MessageExtends(c: Core, d: Core, items: seq<Item>, k: nat)
    requires k < |items| && items[k].Message? && Reached(c, items, k)
    requires d.tools == c.tools && d.client == Add(c.client, ItemSaid(items[k]))
    requires c.seen <= d.seen && Spoken(d.seen, items[k].parts, k, |items[k].parts|)
    requires forall key :: key in d.seen && key !in c.seen ==> key.output == k
    ensures Reached(d, items, k + 1)
  {
    hide PartsSaid, ItemsSaid, Add;
    ItemsSaidSnoc(items, k);
    PartsSaidNoCalls(items[k].parts);
    AddPlus(SILENCE, ItemsSaid(items[..k]), ItemSaid(items[k]));
  }

  /** The done event of a message, or its place in the final output, completes it. */
  lemma MessageDoneReached(c: Core, items: seq<Item>, k: nat, d: Core, p: nat)
    requires k < |items| && items[k].Message? && Reached(c, items, k) && p <= |items[k].parts|
    requires d.tools == c.tools && c.seen <= d.seen
    requires d.client == Add(c.client, PartsSaid(items[k].parts[..p]))
    requires Spoken(d.seen, items[k].parts, k, p)
    requires forall key :: key in d.seen && key !in c.seen ==> key.output == k && key.content < p
    ensures Reached(CoreItem(d, items[k], k), items, k + 1)
  {
    hide PartsSaid, Add, CoreParts, Owned, ItemsSaid;
    var parts := items[k].parts;
    PartsComplete(d, parts, k, 0, p);
    assert (if 0 < p then p else 0) == p;
    PartsSaidAppend(parts[..p], parts[p..]);
    assert parts[..p] + parts[p..] == parts;
    AddPlus(c.client, PartsSaid(parts[..p]), PartsSaid(parts[p..]));
    MessageExtends(c, CoreItem(d, items[k], k), items, k);
  }

  lemma MessageReached(c: Core, items: seq<Item>, k: nat, run: ItemRun)
    requires k < |items| && Reached(c, items, k) && run.MessageRun? && ValidRun(run) && items[k] == ItemOf(run)
    ensures Reached(Steps(c, EventsOf(run, k)), items, k + 1)
  {
    hide PartsSaid, Add, CoreItem, Owned, ItemsSaid, MessageDeltas;
    var parts, p := run.parts, |run.streams|;
    var deltas := MessageDeltas(parts, run.streams, k, 0);
    MessageStreams(c, parts, run.streams, k, 0);
    var d := Steps(c, deltas);
    assert parts[0..p] == parts[..p];
    StepsAppend(c, deltas, DoneEvents(run, k));
    if run.done {
      MessageDoneReached(c, items, k, d, p);
      StepOne(d, ItemDone(Some(items[k]), k));
    } else {
      assert parts[..p] == parts && deltas + [] == deltas;
      MessageExtends(c, d, items, k);
    }
  }

  lemma StepOne(c: Core, event: Event)
    ensures Steps(c, [event]) == CoreStep(c, event)
  {
  }

  // ----- calls -----

  /** c with one more call open: the shape every announced call keeps until it is done. */
  function WithCall(c: Core, key: string, out: CallOut, emitted: bool): Core {
    c.(client := c.client.(calls := c.client.calls + [out]),
       tools := c.tools[key := Tool(|c.client.calls|, emitted)])
  }

  lemma AnnounceOpens(c: Core, item: Item, k: int)
    requires item.Call? && ToolKey(item.id, k) !in c.tools && |c.tools| == |c.client.calls|
    ensures CoreAnnounce(c, item, k) ==
            WithCall(c, ToolKey(item.id, k), CallOut(ValueOr(item.callId, item.id), item.name, item.arguments),
                   item.arguments != "")
  {
  }

  lemma ArgumentsExtend(c: Core, id: string, k: int, out: CallOut, emitted: bool, delta: string)
    ensures CoreStep(WithCall(c, ToolKey(id, k), out, emitted), ArgumentsDelta(id, k, delta)) ==
            WithCall(c, ToolKey(id, k), out.(arguments := out.arguments + delta), true)
  {
    hide ToolKey;
    var open := WithCall(c, ToolKey(id, k), out, emitted);
    assert open.client.calls[|c.client.calls|] == out;
  }

  lemma NothingSaid(said: string)
    ensures said + Join([]) == said
  {
  }

  lemma SaidFirst(said: string, deltas: seq<string>)
    requires deltas != []
    ensures said + deltas[0] + Join(deltas[1..]) == said + Join(deltas)
  {
  }

  lemma {:induction false} CallStreams(c: Core, id: string, k: int, out: CallOut, emitted: bool, deltas: seq<string>)
    ensures Steps(WithCall(c, ToolKey(id, k), out, emitted), CallDeltas(id, k, deltas)) ==
            WithCall(c, ToolKey(id, k), out.(arguments := out.arguments + Join(deltas)), emitted || deltas != [])
    decreases |deltas|
  {
    hide ToolKey, WithCall, CoreStep, Join;
    if deltas == [] {
      NothingSaid(out.arguments);
      assert out.(arguments := out.arguments + Join(deltas)) == out;
    } else {
      var events := CallDeltas(id, k, deltas);
      assert events[0] == ArgumentsDelta(id, k, deltas[0]) && events[1..] == CallDeltas(id, k, deltas[1..]);
      ArgumentsExtend(c, id, k, out, emitted, deltas[0]);
      var more := out.(arguments := out.arguments + deltas[0]);
      CallStreams(c, id, k, more, true, deltas[1..]);
      SaidFirst(out.arguments, deltas);
    }
  }

  lemma KeyIsFresh(tools: map<string, Tool>, items: seq<Item>, k: nat)
    requires k < |items| && items[k].Call? && DistinctCalls(items) && Owned(tools, items, k)
    ensures ToolKey(items[k].id, k) !in tools
  {
  }

  lemma CountExtends(tools: map<string, Tool>, items: seq<Item>, k: nat, key: string, tool: Tool)
    requires k < |items| && items[k].Call? && key !in tools && |tools| == |ItemsSaid(items[..k]).calls|
    ensures |tools[key := tool]| == |ItemsSaid(items[..k + 1]).calls|
  {
    hide ItemsSaid, ValueOr;
    ItemsSaidSnoc(items, k);
    MapGrows(tools, key, tool);
  }

  lemma OwnedExtends(tools: map<string, Tool>, items: seq<Item>, k: nat, tool: Tool)
    requires k < |items| && items[k].Call? && Owned(tools, items, k) && ToolKey(items[k].id, k) !in tools
    requires items[k].arguments != "" ==> tool.argumentsEmitted
    ensures Owned(tools[ToolKey(items[k].id, k) := tool], items, k + 1)
  {
    hide ItemsSaid, ToolKey;
    var key := ToolKey(items[k].id, k);
    var more := tools[key := tool];
    CountExtends(tools, items, k, key, tool);
    forall t | t in more ensures exists i :: 0 <= i < k + 1 && items[i].Call? && t == ToolKey(items[i].id, i) {
      if t == key {
        assert items[k].Call? && t == ToolKey(items[k].id, k);
      } else {
        var i :| 0 <= i < k && items[i].Call? && t == ToolKey(items[i].id, i);
      }
    }
  }

  lemma AddCall(client: Client, out: CallOut)
    ensures Add(client, Said([], [], [out])) == client.(calls := client.calls + [out])
  {
  }

  lemma CallExtends(c: Core, items: seq<Item>, k: nat, emitted: bool)
    requires k < |items| && items[k].Call? && Reached(c, items, k) && DistinctCalls(items)
    requires items[k].arguments != "" ==> emitted
    ensures ToolKey(items[k].id, k) !in c.tools && |c.tools| == |c.client.calls|
    ensures var call := items[k];
            Reached(WithCall(c, ToolKey(call.id, k), CallOut(ValueOr(call.callId, call.id), call.name, call.arguments),
                           emitted), items, k + 1)
  {
    hide ItemsSaid, Join, ToolKey, ValueOr, DistinctCalls, Spoken;
    var call, key := items[k], ToolKey(items[k].id, k);
    KeyIsFresh(c.tools, items, k);
    assert |c.tools| == |c.client.calls| by {
      assert SILENCE.calls + ItemsSaid(items[..k]).calls == ItemsSaid(items[..k]).calls;
    }
    OwnedExtends(c.tools, items, k, Tool(|c.client.calls|, emitted));
    hide Owned;
    ItemsSaidSnoc(items, k);
    AddPlus(SILENCE, ItemsSaid(items[..k]), ItemSaid(call));
    AddCall(c.client, CallOut(ValueOr(call.callId, call.id), call.name, call.arguments));
  }

  lemma CallReached(c: Core, items: seq<Item>, k: nat, run: ItemRun)
    requires k < |items| && Reached(c, items, k) && DistinctCalls(items)
    requires run.CallRun? && ValidRun(run) && items[k] == ItemOf(run)
    ensures Reached(Steps(c, EventsOf(run, k)), items, k + 1)
  {
    hide Reached, ToolKey, ValueOr, CoreAnnounce, CoreArguments, CallDeltas;
    var call, key := run.call, ToolKey(run.call.id, k);
    CallExtends(c, items, k, call.arguments != "");
    CallExtends(c, items, k, true);
    var out := CallOut(ValueOr(call.callId, call.id), call.name, call.arguments);
    if run.announced.None? {
      AnnounceOpens(c, call, k);
      assert CallDeltas(call.id, k, []) == [] by { NoDeltas(call.id, k); }
      assert EventsOf(run, k) == [ItemDone(Some(call), k)];
      StepOne(c, ItemDone(Some(call), k));
    } else {
      var emitted := AnnouncedCall(c, run, k);
    }
  }

  lemma NoDeltas(id: string, k: int)
    ensures CallDeltas(id, k, []) == []
  {
  }

  lemma DoneCall(c: Core, call: Item, k: int, out: CallOut, emitted: bool)
    requires call.Call?
    ensures var key := ToolKey(call.id, k);
            CoreCall(WithCall(c, key, out, emitted), call, k) ==
            if call.arguments != "" && !emitted
            then WithCall(c, key, out.(arguments := out.arguments + call.arguments), true)
            else WithCall(c, key, out, emitted)
  {
  }

  /** An announced call ends up open with exactly its arguments. */
  lemma AnnouncedCall(c: Core, run: ItemRun, k: int) returns (emitted: bool)
    requires run.CallRun? && ValidRun(run) && run.announced.Some?
    requires ToolKey(run.call.id, k) !in c.tools && |c.tools| == |c.client.calls|
    ensures run.call.arguments != "" ==> emitted
    ensures Steps(c, EventsOf(run, k)) ==
            WithCall(c, ToolKey(run.call.id, k),
                   CallOut(ValueOr(run.call.callId, run.call.id), run.call.name, run.call.arguments), emitted)
  {
    hide ToolKey, ValueOr, CoreAnnounce, CoreArguments, CallDeltas;
    var call, key, first := run.call, ToolKey(run.call.id, k), run.announced.value;
    var added := ItemAdded(Some(call.(arguments := first)), k);
    var deltas := CallDeltas(call.id, k, run.deltas);
    var blank := CallOut(ValueOr(call.callId, call.id), call.name, first);
    var streamed := blank.(arguments := first + Join(run.deltas));
    emitted := first != "" || run.deltas != [];
    assert !emitted ==> first + Join(run.deltas) == "";
    AnnounceOpens(c, call.(arguments := first), k);
    StepOne(c, added);
    CallStreams(c, call.id, k, blank, first != "", run.deltas);
    StepsAppend(c, [added], deltas);
    var d := Steps(c, [added] + deltas);
    assert d == WithCall(c, key, streamed, emitted);
    StepsAppend(c, [added] + deltas, DoneEvents(run, k));
    if run.done {
      StepOne(d, ItemDone(Some(call), k));
      DoneCall(c, call, k, streamed, emitted);
      assert "" + call.arguments == call.arguments;
      emitted := emitted || call.arguments != "";
    } else {
      assert Steps(d, []) == d;
    }
  }
}
