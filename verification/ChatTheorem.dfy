/** The agreement theorem, assembled from the per-item lemmas of ChatAgreement. */
module ChatTheorem {
  import opened Base
  import opened ChatTypes
  import opened ChatStream
  import opened ChatGrammar
  import opened ChatMoves
  import opened ChatCore
  import opened ChatBatch
  import opened ChatAgreement

  // ----- the streaming side -----

  lemma OtherReached(c: Core, items: seq<Item>, k: nat)
    requires k < |items| && items[k].OtherItem? && Reached(c, items, k)
    ensures Reached(c, items, k + 1)
  {
    hide ItemsSaid, Join;
    ItemsSaidSnoc(items, k);
    PlusLaws(ItemsSaid(items[..k]), NOTHING, NOTHING);
  }

  lemma {:induction false} RunsReached(c: Core, items: seq<Item>, runs: seq<ItemRun>, k: nat)
    requires k <= |runs| <= |items| && Reached(c, items, k) && DistinctCalls(items)
    requires forall run :: run in runs ==> ValidRun(run)
    requires forall i :: 0 <= i < |runs| ==> items[i] == ItemOf(runs[i])
    ensures Reached(Steps(c, AllEvents(runs, k)), items, |runs|)
    decreases |runs| - k
  {
    hide Reached, EventsOf, ValidRun, DistinctCalls, CoreStep;
    if k == |runs| {
      assert Steps(c, []) == c;
    } else {
      var run := runs[k];
      StepsAppend(c, EventsOf(run, k), AllEvents(runs, k + 1));
      match run {
        case MessageRun(_, _, _) => MessageReached(c, items, k, run);
        case CallRun(_, _, _, _) => CallReached(c, items, k, run);
        case OtherRun(_) => OtherRunReached(c, items, k, run);
      }
      RunsReached(Steps(c, EventsOf(run, k)), items, runs, k + 1);
    }
  }

  lemma OtherRunReached(c: Core, items: seq<Item>, k: nat, run: ItemRun)
    requires k < |items| && run.OtherRun? && items[k] == OtherItem && Reached(c, items, k)
    ensures Reached(Steps(c, EventsOf(run, k)), items, k + 1)
  {
    hide Reached;
    OtherReached(c, items, k);
    StepOne(c, ItemDone(Some(OtherItem), k));
    assert Steps(c, []) == c;
  }

  /** An item that is out already stays as it is when the final output lists it again. */
  lemma ItemAgain(c: Core, items: seq<Item>, k: nat, i: nat)
    requires i < k <= |items| && Reached(c, items, k)
    ensures Reached(CoreItem(c, items[i], i), items, k)
  {
    hide ItemsSaid, Join, ToolKey, CoreParts;
    match items[i]
    case Message(parts) =>
      PartsComplete(c, parts, i, 0, |parts|);
      assert parts[if 0 < |parts| then |parts| else 0..] == [];
      EmptySaid();
      AddNothing(c.client);
    case Call(_, _, _, _) =>
    case OtherItem =>
  }

  lemma ItemNext(c: Core, items: seq<Item>, k: nat)
    requires k < |items| && Reached(c, items, k) && DistinctCalls(items)
    ensures Reached(CoreItem(c, items[k], k), items, k + 1)
  {
    hide Reached, ToolKey, ValueOr;
    match items[k]
    case Message(parts) =>
      assert PartsSaid(parts[..0]) == NOTHING;
      AddNothing(c.client);
      MessageDoneReached(c, items, k, c, 0);
    case Call(_, _, _, arguments) =>
      CallExtends(c, items, k, arguments != "");
      AnnounceOpens(c, items[k], k);
    case OtherItem => OtherReached(c, items, k);
  }

  lemma {:induction false} OutputReached(c: Core, items: seq<Item>, i: nat, k: nat)
    requires i <= |items| && k <= |items| && DistinctCalls(items)
    requires Reached(c, items, if i < k then k else i)
    ensures Reached(CoreOutput(c, items, i), items, |items|)
    decreases |items| - i
  {
    hide Reached, CoreItem, DistinctCalls;
    if i < |items| {
      if i < k { ItemAgain(c, items, k, i); } else { ItemNext(c, items, i); }
      OutputReached(CoreItem(c, items[i], i), items, i + 1, k);
    }
  }

  lemma {:induction false} PrefixTranslated(cfg: Config, st: State, payloads: seq<Payload>, tail: seq<Payload>,
                                            end: StreamEnd)
    returns (mid: State)
    requires Live(cfg, st) && (cfg.failAt.None? || Translate(cfg, st, payloads + tail, end).Ok?)
    requires forall p :: p in payloads ==> GoesOn(p)
    ensures Live(cfg, mid) && CoreOf(mid) == Steps(CoreOf(st), Events(payloads))
    ensures ToldTo(mid) == ToldAfter(ToldTo(st), Events(payloads))
    ensures Translate(cfg, st, payloads + tail, end) == Translate(cfg, mid, tail, end)
    decreases |payloads|
  {
    hide Live, Consume, CoreOf, CoreStep, Broken;
    if payloads == [] {
      assert payloads + tail == tail;
      mid := st;
    } else {
      assert (payloads + tail)[1..] == payloads[1..] + tail && (payloads + tail)[0] == payloads[0];
      assert GoesOn(payloads[0]);
      var next := st;
      if payloads[0].Parsed? {
        ConsumeKeepsLive(cfg, st, payloads[0].event);
        ConsumeRefines(cfg, st, payloads[0].event);
        LiveIsOpen(cfg, st);
        ConsumeTells(cfg, st, payloads[0].event);
        next := Consume(cfg, st, payloads[0].event).st;
        var events := Events(payloads);
        assert events[0] == payloads[0].event && events[1..] == Events(payloads[1..]);
      } else {
        assert [] + Events(payloads[1..]) == Events(payloads[1..]);
      }
      LiveIsOpen(cfg, st);
      mid := PrefixTranslated(cfg, next, payloads[1..], tail, end);
    }
  }

  lemma LiveIsOpen(cfg: Config, st: State)
    requires Live(cfg, st)
    ensures !st.terminal
  {
  }

  // ----- the batch side -----

  function Dones(events: seq<Event>): seq<Indexed> {
    if events == [] then []
    else (if events[0].ItemDone? && events[0].item.Some? then [Indexed(events[0].outputIndex, events[0].item.value)]
          else []) + Dones(events[1..])
  }

  lemma {:induction false} DonesAppend(a: seq<Event>, b: seq<Event>)
    ensures Dones(a + b) == Dones(a) + Dones(b)
  {
    if a == [] {
      assert a + b == b;
    } else {
      assert (a + b)[1..] == a[1..] + b && (a + b)[0] == a[0];
      DonesAppend(a[1..], b);
    }
  }

  lemma {:induction false} DonesOfContent(events: seq<Event>)
    ensures Dones(WithoutNoise(events)) == Dones(events)
  {
    if events != [] {
      DonesOfContent(events[1..]);
      DonesAppend(if Noise(events[0]) then [] else [events[0]], WithoutNoise(events[1..]));
      assert Dones([events[0]]) == (if events[0].ItemDone? && events[0].item.Some?
        then [Indexed(events[0].outputIndex, events[0].item.value)] else []) + Dones([]);
    }
  }

  predicate Quiet(events: seq<Event>) {
    forall e :: e in events ==> !Ends(e) && !e.ItemDone?
  }

  lemma QuietAppend(a: seq<Event>, b: seq<Event>)
    ensures Quiet([])
    ensures Quiet(a) && Quiet(b) ==> Quiet(a + b)
  {
  }

  lemma {:induction false} QuietDones(events: seq<Event>)
    requires Quiet(events)
    ensures Dones(events) == []
  {
    if events != [] { QuietDones(events[1..]); }
  }

  lemma {:induction false} PartDeltasQuiet(part: Part, k: int, j: int, deltas: seq<string>)
    ensures Quiet(PartDeltas(part, k, j, deltas))
    decreases |deltas|
  {
    if deltas != [] { PartDeltasQuiet(part, k, j, deltas[1..]); }
  }

  lemma {:induction false} MessageDeltasQuiet(parts: seq<Part>, streams: seq<seq<string>>, k: int, j: nat)
    requires |streams| <= |parts|
    ensures Quiet(MessageDeltas(parts, streams, k, j))
    decreases |streams| - j
  {
    hide Quiet, PartDeltas;
    QuietAppend([], []);
    if j < |streams| {
      PartDeltasQuiet(parts[j], k, j, streams[j]);
      MessageDeltasQuiet(parts, streams, k, j + 1);
      QuietAppend(PartDeltas(parts[j], k, j, streams[j]), MessageDeltas(parts, streams, k, j + 1));
    }
  }

  lemma {:induction false} CallDeltasQuiet(id: string, k: int, deltas: seq<string>)
    ensures Quiet(CallDeltas(id, k, deltas))
    decreases |deltas|
  {
    if deltas != [] { CallDeltasQuiet(id, k, deltas[1..]); }
  }

  lemma RunShape(run: ItemRun, k: int) returns (quiet: seq<Event>)
    requires ValidRun(run)
    ensures Quiet(quiet) && EventsOf(run, k) == quiet + DoneEvents(run, k)
  {
    match run
    case MessageRun(parts, streams, _) =>
      quiet := MessageDeltas(parts, streams, k, 0);
      MessageDeltasQuiet(parts, streams, k, 0);
    case CallRun(call, announced, deltas, _) =>
      quiet := (if announced.Some? then [ItemAdded(Some(call.(arguments := announced.value)), k)] else [])
               + CallDeltas(call.id, k, deltas);
      CallDeltasQuiet(call.id, k, deltas);
    case OtherRun(_) => quiet := [];
  }

  lemma RunEvents(run: ItemRun, k: int)
    requires ValidRun(run)
    ensures forall e :: e in EventsOf(run, k) ==> !Ends(e)
    ensures run.done ==> Dones(EventsOf(run, k)) == [Indexed(k, ItemOf(run))]
  {
    hide EventsOf, ValidRun;
    var quiet := RunShape(run, k);
    QuietDones(quiet);
    DonesAppend(quiet, DoneEvents(run, k));
    if run.done {
      assert DoneEvents(run, k)[1..] == [];
      assert Dones(DoneEvents(run, k)) == [Indexed(k, ItemOf(run))] + Dones([]);
    }
  }

  lemma {:induction false} AllRunEvents(runs: seq<ItemRun>, k: nat)
    requires forall run :: run in runs ==> ValidRun(run)
    ensures forall e :: e in AllEvents(runs, k) ==> !Ends(e)
    ensures k <= |runs| && (forall run :: run in runs ==> run.done) ==>
            var dones := Dones(AllEvents(runs, k));
            |dones| == |runs| - k && forall i :: 0 <= i < |dones| ==> dones[i] == Indexed(k + i, ItemOf(runs[k + i]))
    decreases |runs| - k
  {
    hide EventsOf, ValidRun, Ends;
    if k < |runs| {
      RunEvents(runs[k], k);
      AllRunEvents(runs, k + 1);
      DonesAppend(EventsOf(runs[k], k), AllEvents(runs, k + 1));
    }
  }

  lemma {:induction false} ContentEnds(events: seq<Event>)
    requires forall e :: e in WithoutNoise(events) ==> !Ends(e)
    ensures forall e :: e in events ==> !Ends(e)
  {
    if events != [] {
      ContentEnds(events[1..]);
      if !Noise(events[0]) { assert WithoutNoise(events)[0] == events[0]; }
    }
  }

  lemma {:induction false} PayloadEnds(payloads: seq<Payload>)
    requires forall e :: e in Events(payloads) ==> !Ends(e)
    ensures forall p :: p in payloads && p.Parsed? ==> !Ends(p.event)
  {
    if payloads != [] {
      PayloadEnds(payloads[1..]);
      if payloads[0].Parsed? { assert Events(payloads)[0] == payloads[0].event; }
    }
  }

  /** Payloads at which the aggregator stops: it does not know a type with blanks around it. */
  predicate BatchStops(p: Payload) {
    p.Malformed? || (p.Parsed? && p.exact && Ends(p.event))
  }

  /** The item that the aggregator retains from a payload. */
  function DoneOf(p: Payload): seq<Indexed> {
    if p.Parsed? && p.exact && p.event.ItemDone? && p.event.item.Some?
    then [Indexed(p.event.outputIndex, p.event.item.value)] else []
  }

  function Collected(payloads: seq<Payload>): seq<Indexed> {
    if payloads == [] then [] else DoneOf(payloads[0]) + Collected(payloads[1..])
  }

  lemma DonesOfPayloads(payloads: seq<Payload>)
    requires payloads != []
    ensures Dones(Events(payloads)) ==
            (if payloads[0].Parsed? then Dones([payloads[0].event]) else []) + Dones(Events(payloads[1..]))
  {
    var p := payloads[0];
    if p.Parsed? {
      DonesAppend([p.event], Events(payloads[1..]));
    } else {
      assert [] + Events(payloads[1..]) == Events(payloads[1..]);
    }
  }

  lemma DonesOfOne(event: Event)
    ensures Dones([event]) ==
            if event.ItemDone? && event.item.Some? then [Indexed(event.outputIndex, event.item.value)] else []
  {
    assert Dones([event][1..]) == [];
  }

  /** With exact types the aggregator retains the items of all done events, otherwise of some. */
  lemma {:induction false} CollectedIsDones(payloads: seq<Payload>)
    ensures DonesExact(payloads) ==> Collected(payloads) == Dones(Events(payloads))
    ensures Dones(Events(payloads)) == [] ==> Collected(payloads) == []
  {
    if payloads != [] {
      CollectedIsDones(payloads[1..]);
      DonesOfPayloads(payloads);
      if payloads[0].Parsed? { DonesOfOne(payloads[0].event); }
      assert payloads[0] in payloads;
    }
  }

  lemma AggregateOne(items: seq<Indexed>, retained: nat, payloads: seq<Payload>)
    requires payloads != [] && !BatchStops(payloads[0])
    requires retained + DoneSize(payloads[0]) <= MAX_REQUEST_BODY_BYTES
    ensures Aggregate(items, retained, payloads) ==
            Aggregate(items + DoneOf(payloads[0]), retained + DoneSize(payloads[0]), payloads[1..])
  {
    assert items + [] == items;
  }

  lemma {:induction false} PrefixAggregated(items: seq<Indexed>, retained: nat, payloads: seq<Payload>,
                                            tail: seq<Payload>)
    requires forall p :: p in payloads ==> GoesOn(p)
    requires retained + RetainedBytes(payloads) <= MAX_REQUEST_BODY_BYTES
    ensures Aggregate(items, retained, payloads + tail) ==
            Aggregate(items + Collected(payloads), retained + RetainedBytes(payloads), tail)
    decreases |payloads|
  {
    hide Aggregate, Ends, DoneOf, DoneSize;
    if payloads == [] {
      assert payloads + tail == tail;
      assert items + [] == items;
    } else {
      var p, all := payloads[0], payloads + tail;
      assert all[1..] == payloads[1..] + tail && all[0] == p && p in payloads;
      AggregateOne(items, retained, all);
      PrefixAggregated(items + DoneOf(p), retained + DoneSize(p), payloads[1..], tail);
      assert items + DoneOf(p) + Collected(payloads[1..]) == items + Collected(payloads);
    }
  }

  // ----- the theorem -----

  /** Equal up to null versus empty content and the default for blank arguments. */
  ghost predicate SameAnswer(client: Client, completion: Completion) {
    && client.text == (if completion.content.Some? then completion.content.value else "")
    && client.refusal == (if completion.refusal.Some? then completion.refusal.value else "")
    && |completion.calls| == |client.calls|
    && (forall i :: 0 <= i < |client.calls| ==>
          completion.calls[i] ==
          client.calls[i].(arguments := if IsBlank(client.calls[i].arguments) then "{}" else client.calls[i].arguments))
    && client.finish == Some(completion.finish)
  }

  lemma RunDoesNotEnd(payloads: seq<Payload>, runs: seq<ItemRun>, items: seq<Item>, response: Response)
    requires UpstreamRun(payloads, runs, items, response)
    ensures forall p :: p in payloads ==> GoesOn(p)
  {
    hide ValidRun, EventsOf, DistinctCalls, Ends;
    AllRunEvents(runs, 0);
    ContentEnds(Events(payloads));
    PayloadEnds(payloads);
  }

  lemma SettledOutput(payloads: seq<Payload>, runs: seq<ItemRun>, items: seq<Item>, response: Response)
    requires UpstreamRun(payloads, runs, items, response)
    ensures var final := Settle(response, Collected(payloads));
            final.output == items && final.status == response.status
  {
    hide ValidRun, DistinctCalls, StableSort, Dones, RetainedBytes, AllEvents, WithoutNoise, Plain, Collected, DonesExact;
    CollectedIsDones(payloads);
    var dones := Dones(Events(payloads));
    if response.output != items {
      AllRunEvents(runs, 0);
      DonesOfContent(Events(payloads));
      SortOfAscending(dones);
      assert Items(dones) == items;
    } else if response.output == [] && dones != [] {
      SettledEmpty(payloads, runs, dones);
    }
  }

  lemma SettledEmpty(payloads: seq<Payload>, runs: seq<ItemRun>, dones: seq<Indexed>)
    requires runs == [] && WithoutNoise(Events(payloads)) == AllEvents(runs, 0) && dones == Dones(Events(payloads))
    ensures dones == []
  {
    DonesOfContent(Events(payloads));
  }

  lemma AggregateTerminal(items: seq<Indexed>, retained: nat, response: Response, size: nat, rest: seq<Payload>)
    ensures Aggregate(items, retained, [Parsed(Terminal(Some(response)), size, true)] + rest) ==
            Some(Settle(response, items))
  {
    hide Settle;
    GatherStopped(Final(Settle(response, items)), rest);
  }

  lemma BatchOutput(payloads: seq<Payload>, runs: seq<ItemRun>, items: seq<Item>, response: Response, size: nat,
                    rest: seq<Payload>)
    requires UpstreamRun(payloads, runs, items, response)
    ensures var final := Aggregate([], 0, payloads + [Parsed(Terminal(Some(response)), size, true)] + rest);
            final.Some? && final.value.output == items && final.value.status == response.status
  {
    hide ValidRun, DistinctCalls, Ends, Plain, Collected, AllEvents, WithoutNoise, Settle, Aggregate;
    RunDoesNotEnd(payloads, runs, items, response);
    SettledOutput(payloads, runs, items, response);
    var last := [Parsed(Terminal(Some(response)), size, true)];
    PrefixAggregated([], 0, payloads, last + rest);
    AggregateTerminal([] + Collected(payloads), RetainedBytes(payloads), response, size, rest);
    assert payloads + last + rest == payloads + (last + rest);
    assert [] + Collected(payloads) == Collected(payloads);
  }

  /**
   For every successful upstream run, whatever noise it carries and whatever follows its
   terminal event, the reassembled stream is the batch completion.
   */
  lemma StreamAgreesWithBatch(cfg: Config, now: int, payloads: seq<Payload>, runs: seq<ItemRun>, items: seq<Item>,
                              response: Response, size: nat, rest: seq<Payload>, end: StreamEnd)
    requires cfg.failAt.None? && UpstreamRun(payloads, runs, items, response)
    ensures var all := payloads + [Parsed(Terminal(Some(response)), size, true)] + rest;
            var stream := Translate(cfg, Initial(cfg, now), all, end);
            stream.Ok? && Batch(all).Some? && SameAnswer(Reassemble(stream.st.sent), Batch(all).value)
  {
    hide Live, ValidRun, EventsOf, Finish, DistinctCalls, Translate, Aggregate, ItemsSaid, Steps, CoreOutput;
    var last := Parsed(Terminal(Some(response)), size, true);
    var all := payloads + [last] + rest;
    assert all == payloads + ([last] + rest);
    BatchOutput(payloads, runs, items, response, size, rest);
    RunDoesNotEnd(payloads, runs, items, response);
    var st := Initial(cfg, now);
    InitialIsLive(cfg, now);
    var mid := PrefixTranslated(cfg, st, payloads, [last] + rest, end);
    StepsIgnoreNoise(BLANK, Events(payloads));
    FinalClient(runs, items, response);
    FinishRefines(cfg, mid, response);
    TranslateTerminal(cfg, mid, response, last, rest, end);
    AddSilence(ItemsSaid(items));
  }

  lemma TranslateTerminal(cfg: Config, st: State, response: Response, last: Payload, rest: seq<Payload>, end: StreamEnd)
    requires last.Parsed? && last.event == Terminal(Some(response))
    requires Finish(cfg, st, Some(response)).Ok? && Finish(cfg, st, Some(response)).st.terminal
    ensures Translate(cfg, st, [last] + rest, end) == Finish(cfg, st, Some(response))
  {
    hide Finish;
    assert ([last] + rest)[0] == last;
  }

  lemma AddSilence(said: Said)
    ensures Add(SILENCE, said) == Client(Join(said.texts), Join(said.refusals), said.calls, None)
    ensures said.texts == [] ==> Join(said.texts) == ""
    ensures said.refusals == [] ==> Join(said.refusals) == ""
  {
  }

  lemma FinalClient(runs: seq<ItemRun>, items: seq<Item>, response: Response)
    requires (forall run :: run in runs ==> ValidRun(run)) && DistinctCalls(items)
    requires |runs| <= |items| && forall k :: 0 <= k < |runs| ==> items[k] == ItemOf(runs[k])
    requires response.output == items || (response.output == [] && |runs| == |items|)
    ensures var c := CoreOutput(Steps(BLANK, AllEvents(runs, 0)), response.output, 0);
            c.client == Add(SILENCE, ItemsSaid(items)) && |c.tools| == |ItemsSaid(items).calls|
  {
    hide ValidRun, DistinctCalls, AllEvents, Steps, ItemsSaid, CoreOutput, Reached, Add;
    BlankReached(items);
    RunsReached(BLANK, items, runs, 0);
    var c := Steps(BLANK, AllEvents(runs, 0));
    if response.output == items { OutputReached(c, items, 0, |runs|); } else { NoOutput(c); }
    ReachedEnd(CoreOutput(c, response.output, 0), items);
  }

  lemma NoOutput(c: Core)
    ensures CoreOutput(c, [], 0) == c
  {
  }

  lemma ReachedEnd(c: Core, items: seq<Item>)
    requires Reached(c, items, |items|)
    ensures c.client == Add(SILENCE, ItemsSaid(items)) && |c.tools| == |ItemsSaid(items).calls|
  {
    hide ItemsSaid, Add, ToolKey;
    assert items[..|items|] == items;
  }

  lemma BlankReached(items: seq<Item>)
    ensures Reached(BLANK, items, 0)
  {
  }

  lemma TerminalSucceeds(cfg: Config, st: State, response: Response, last: Payload, rest: seq<Payload>, end: StreamEnd)
    requires last.Parsed? && last.event == Terminal(Some(response))
    requires Live(cfg, st) && Translate(cfg, st, [last] + rest, end).Ok?
    ensures var r := Finish(cfg, st, Some(response)); r.Ok? && Translate(cfg, st, [last] + rest, end) == r
    ensures !response.status.Failed? && !response.status.Cancelled?
  {
    hide Broken, Tracked, Orderly, Body, Grammatical, AllEmitted, EmitOutput, Close, Fail;
    assert ([last] + rest)[0] == last;
    FinishEnds(cfg, st, Some(response));
    FailEnds(cfg, st, FAILED, FAILED);
  }

  lemma InitialIsBlank(cfg: Config, now: int)
    ensures CoreOf(Initial(cfg, now)) == BLANK
  {
  }

  /** A successful stream, taken apart at its terminal event. */
  lemma SuccessSplits(cfg: Config, now: int, payloads: seq<Payload>, end: StreamEnd) returns (n: nat, mid: State)
    requires Translate(cfg, Initial(cfg, now), payloads, end).Ok?
    ensures SucceededAt(payloads, n, Translate(cfg, Initial(cfg, now), payloads, end).st.sent)
    ensures Live(cfg, mid) && CoreOf(mid) == Steps(BLANK, Events(payloads[..n]))
    ensures ToldTo(mid) == ToldAfter(Told(NO_USAGE, ""), Events(payloads[..n]))
    ensures var response := payloads[n].event.response.value;
            && !response.status.Failed? && !response.status.Cancelled?
            && Finish(cfg, mid, Some(response)).Ok?
            && Translate(cfg, Initial(cfg, now), payloads, end) == Finish(cfg, mid, Some(response))
  {
    hide Live, Translate, Finish, CoreOf, Steps, Orderly, AllEmitted, Broken, Grammatical;
    var st := Initial(cfg, now);
    InitialIsLive(cfg, now);
    InitialIsBlank(cfg, now);
    TranslateEnds(cfg, st, payloads, end);
    n :| SucceededAt(payloads, n, Translate(cfg, st, payloads, end).st.sent);
    var before, last, rest := payloads[..n], payloads[n], payloads[n + 1..];
    assert payloads == before + ([last] + rest);
    mid := PrefixTranslated(cfg, st, before, [last] + rest, end);
    TerminalSucceeds(cfg, mid, last.event.response.value, last, rest, end);
  }

  // ----- when the two paths succeed -----

  /** A failed event with an unfailed status: the batch path looks at the status only. */
  predicate Contradictory(event: Event) {
    event.ResponseFailed? && event.response.Some? &&
    !event.response.value.status.Failed? && !event.response.value.status.Cancelled?
  }

  predicate Successful(event: Event) {
    event.Terminal? && event.response.Some? &&
    !event.response.value.status.Failed? && !event.response.value.status.Cancelled?
  }

  /** Payloads at which the translator stops for good, a DONE mark apart: bad JSON, or an event that ends the stream. */
  predicate Stops(p: Payload) {
    p.Malformed? || (p.Parsed? && Ends(p.event))
  }

  /** Index of the first payload at which a path stops, or |payloads|. */
  function EndIndex(payloads: seq<Payload>, stops: Payload -> bool): (e: nat)
    ensures e <= |payloads|
    ensures e < |payloads| ==> stops(payloads[e])
    ensures forall i :: 0 <= i < e ==> !stops(payloads[i])
  {
    if payloads == [] || stops(payloads[0]) then 0 else 1 + EndIndex(payloads[1..], stops)
  }

  /** What upstream says last on a path: the event at its ending, if there is one. */
  function LastWord(payloads: seq<Payload>, stops: Payload -> bool): Option<Event> {
    var e := EndIndex(payloads, stops);
    if e < |payloads| && payloads[e].Parsed? then Some(payloads[e].event) else None
  }

  predicate NoDoneMark(payloads: seq<Payload>) {
    forall i :: 0 <= i < EndIndex(payloads, Stops) ==> !payloads[i].DoneMark?
  }

  /** The bytes of done events that the batch path retains before its ending. */
  function Kept(payloads: seq<Payload>): nat {
    RetainedBytes(payloads[..EndIndex(payloads, BatchStops)])
  }

  predicate StreamSucceeds(payloads: seq<Payload>) {
    var last := LastWord(payloads, Stops);
    last.Some? && Successful(last.value) && NoDoneMark(payloads)
  }

  predicate BatchSucceeds(retained: nat, payloads: seq<Payload>) {
    var last := LastWord(payloads, BatchStops);
    last.Some? && (Successful(last.value) || Contradictory(last.value)) &&
    retained + Kept(payloads) <= MAX_REQUEST_BODY_BYTES
  }

  lemma EndingOutcome(cfg: Config, st: State, last: Payload, rest: seq<Payload>, end: StreamEnd)
    requires cfg.failAt.None? && last.Parsed? && Ends(last.event) && Live(cfg, st)
    ensures Translate(cfg, st, [last] + rest, end).Ok? <==> Successful(last.event)
  {
    hide Body, Tracked, Orderly, CoreOutput, EmitOutput, Close;
    assert ([last] + rest)[0] == last;
    if Successful(last.event) {
      FinishRefines(cfg, st, last.event.response.value);
      TranslateTerminal(cfg, st, last.event.response.value, last, rest, end);
    }
  }

  lemma EndingBatch(items: seq<Indexed>, retained: nat, last: Payload, rest: seq<Payload>)
    requires last.Parsed? && last.exact && Ends(last.event)
    ensures var final := Aggregate(items, retained, [last] + rest);
            (final.Some? && CompletionOf(final.value).Some?) <==> Successful(last.event) || Contradictory(last.event)
  {
    hide StableSort, ItemsSaid;
    GatherStopped(GatherOne(Collecting(items, retained), last), rest);
    assert ([last] + rest)[1..] == rest && ([last] + rest)[0] == last;
  }

  /** The ending of a path that goes on is that of the rest. */
  lemma EndingStep(payloads: seq<Payload>, stops: Payload -> bool)
    requires payloads != [] && !stops(payloads[0])
    ensures EndIndex(payloads, stops) == 1 + EndIndex(payloads[1..], stops)
    ensures LastWord(payloads, stops) == LastWord(payloads[1..], stops)
  {
  }

  lemma NoDoneMarkStep(payloads: seq<Payload>)
    requires payloads != [] && !Stops(payloads[0])
    ensures NoDoneMark(payloads) <==> !payloads[0].DoneMark? && NoDoneMark(payloads[1..])
  {
    hide Stops;
    var rest := payloads[1..];
    assert forall i :: 0 <= i < |rest| ==> rest[i] == payloads[i + 1];
    if NoDoneMark(rest) && !payloads[0].DoneMark? {
      forall i | 0 <= i < EndIndex(payloads, Stops) ensures !payloads[i].DoneMark? {
        if i > 0 { assert payloads[i] == rest[i - 1]; }
      }
    }
  }

  lemma KeptStep(payloads: seq<Payload>)
    requires payloads != [] && !BatchStops(payloads[0])
    ensures Kept(payloads) == DoneSize(payloads[0]) + Kept(payloads[1..])
  {
    hide BatchStops, DoneSize;
    assert payloads[..EndIndex(payloads, BatchStops)][1..] == payloads[1..][..EndIndex(payloads[1..], BatchStops)];
  }

  lemma NoLastWord(payloads: seq<Payload>, stops: Payload -> bool)
    requires payloads == [] || (payloads[0].Malformed? && stops(payloads[0]))
    ensures LastWord(payloads, stops).None?
  {
  }

  lemma FirstWord(payloads: seq<Payload>, stops: Payload -> bool)
    requires payloads != [] && payloads[0].Parsed? && stops(payloads[0])
    ensures LastWord(payloads, stops) == Some(payloads[0].event) && EndIndex(payloads, stops) == 0
  {
  }

  lemma NothingKept(payloads: seq<Payload>)
    requires payloads != [] && BatchStops(payloads[0])
    ensures Kept(payloads) == 0
  {
    hide BatchStops;
    assert payloads[..0] == [];
  }

  /** A stream succeeds exactly when it ends in success before any DONE mark. */
  lemma {:induction false} StreamOutcome(cfg: Config, st: State, payloads: seq<Payload>, end: StreamEnd)
    requires cfg.failAt.None? && Live(cfg, st)
    ensures Translate(cfg, st, payloads, end).Ok? <==> StreamSucceeds(payloads)
    decreases |payloads|
  {
    hide Live, Fail, Consume, Ended, Broken, NoDoneMark, LastWord;
    if payloads == [] || payloads[0].Malformed? {
      NoLastWord(payloads, Stops);
      var message := if payloads != [] then BAD_JSON else if end.StreamError? then end.message else NO_TERMINAL;
      FailEnds(cfg, st, message, message);
    } else if Stops(payloads[0]) {
      assert payloads == [payloads[0]] + payloads[1..];
      EndingOutcome(cfg, st, payloads[0], payloads[1..], end);
      FirstWord(payloads, Stops);
      assert NoDoneMark(payloads) by { EndsAtOnce(payloads); }
    } else {
      EndingStep(payloads, Stops);
      NoDoneMarkStep(payloads);
      LiveIsOpen(cfg, st);
      match payloads[0] {
        case Blank => StreamOutcome(cfg, st, payloads[1..], end);
        case DoneMark => FailEnds(cfg, st, NO_TERMINAL, NO_TERMINAL);
        case Parsed(event, _, _) =>
          ConsumeKeepsLive(cfg, st, event);
          ConsumeRefines(cfg, st, event);
          StreamOutcome(cfg, Consume(cfg, st, event).st, payloads[1..], end);
      }
    }
  }

  lemma EndsAtOnce(payloads: seq<Payload>)
    requires payloads != [] && Stops(payloads[0])
    ensures NoDoneMark(payloads)
  {
  }

  /** The batch path succeeds exactly when it ends in an unfailed response within its size limit. */
  lemma {:induction false} BatchOutcome(items: seq<Indexed>, retained: nat, payloads: seq<Payload>)
    requires retained <= MAX_REQUEST_BODY_BYTES
    ensures var final := Aggregate(items, retained, payloads);
            (final.Some? && CompletionOf(final.value).Some?) <==> BatchSucceeds(retained, payloads)
    decreases |payloads|
  {
    hide CompletionOf, LastWord, Aggregate, Kept;
    if payloads == [] || payloads[0].Malformed? {
      NoLastWord(payloads, BatchStops);
      AggregateStops(items, retained, payloads);
    } else if BatchStops(payloads[0]) {
      assert payloads == [payloads[0]] + payloads[1..];
      EndingBatch(items, retained, payloads[0], payloads[1..]);
      FirstWord(payloads, BatchStops);
      NothingKept(payloads);
    } else {
      EndingStep(payloads, BatchStops);
      KeptStep(payloads);
      if retained + DoneSize(payloads[0]) > MAX_REQUEST_BODY_BYTES {
        AggregateStops(items, retained, payloads);
      } else {
        AggregateOne(items, retained, payloads);
        BatchOutcome(items + DoneOf(payloads[0]), retained + DoneSize(payloads[0]), payloads[1..]);
      }
    }
  }

  lemma AggregateStops(items: seq<Indexed>, retained: nat, payloads: seq<Payload>)
    requires || payloads == [] || payloads[0].Malformed?
             || retained + DoneSize(payloads[0]) > MAX_REQUEST_BODY_BYTES >= retained
    ensures Aggregate(items, retained, payloads).None?
  {
    if payloads != [] { GatherStopped(Abandoned, payloads[1..]); }
  }

  lemma BothOutcomes(cfg: Config, now: int, payloads: seq<Payload>, end: StreamEnd)
    requires cfg.failAt.None?
    ensures Translate(cfg, Initial(cfg, now), payloads, end).Ok? <==> StreamSucceeds(payloads)
    ensures Batch(payloads).Some? <==> BatchSucceeds(0, payloads)
  {
    hide Live, Translate, Aggregate, CompletionOf, Initial, StreamSucceeds, BatchSucceeds;
    InitialIsLive(cfg, now);
    StreamOutcome(cfg, Initial(cfg, now), payloads, end);
    BatchOutcome([], 0, payloads);
  }

  /** The translator stops at an event whose type has blanks around it, which the aggregator passes over. */
  predicate PaddedEnding(payloads: seq<Payload>) {
    var e := EndIndex(payloads, Stops);
    e < |payloads| && payloads[e].Parsed? && !payloads[e].exact
  }

  /**
   For which inputs the two paths agree on success. Where both stop at the same payload they
   can differ in three ways: a failed event with an unfailed status, a DONE mark before a
   successful ending, and done items over the size limit; the last undoes either of the others,
   since then both fail. After a padded ending the batch path must end as the stream did.
   */
  predicate OutcomesMatch(payloads: seq<Payload>) {
    var last := LastWord(payloads, Stops);
    var within := Kept(payloads) <= 134_217_728;
    if PaddedEnding(payloads) then StreamSucceeds(payloads) <==> BatchSucceeds(0, payloads)
    else
      last.Some? ==>
        (Contradictory(last.value) ==> !within) && (Successful(last.value) ==> (NoDoneMark(payloads) <==> within))
  }

  /** Without a padded ending both paths stop at the same payload. */
  lemma {:induction false} SameEnding(payloads: seq<Payload>)
    requires !PaddedEnding(payloads)
    ensures EndIndex(payloads, Stops) == EndIndex(payloads, BatchStops)
    ensures LastWord(payloads, Stops) == LastWord(payloads, BatchStops)
  {
    if payloads != [] && !Stops(payloads[0]) {
      EndingStep(payloads, Stops);
      EndingStep(payloads, BatchStops);
      SameEnding(payloads[1..]);
    }
  }

  /** Over every payload sequence and every ending, exactly when the paths succeed or fail together. */
  lemma OutcomesAgree(cfg: Config, now: int, payloads: seq<Payload>, end: StreamEnd)
    requires cfg.failAt.None?
    ensures (Translate(cfg, Initial(cfg, now), payloads, end).Ok? <==> Batch(payloads).Some?) <==>
            OutcomesMatch(payloads)
  {
    hide Translate, Batch, Initial, EndIndex, LastWord, NoDoneMark, Kept, PaddedEnding;
    BothOutcomes(cfg, now, payloads, end);
    if !PaddedEnding(payloads) { SameEnding(payloads); }
  }

  /** The ways to differ: each splits the paths for every configuration and response. */
  lemma PathsDiffer(cfg: Config, now: int, response: Response, size: nat, item: Item, end: StreamEnd)
    requires cfg.failAt.None? && !response.status.Failed? && !response.status.Cancelled?
    ensures var marked := [DoneMark, Parsed(Terminal(Some(response)), size, true)];
            Translate(cfg, Initial(cfg, now), marked, end).Err? && Batch(marked).Some?
    ensures var contradictory := [Parsed(ResponseFailed(Some(response)), size, true)];
            Translate(cfg, Initial(cfg, now), contradictory, end).Err? && Batch(contradictory).Some?
    ensures var half := Parsed(ItemDone(Some(item), 0), MAX_REQUEST_BODY_BYTES / 2 + 1, true);
            var oversized := [half, half, Parsed(Terminal(Some(response)), size, true)];
            Translate(cfg, Initial(cfg, now), oversized, end).Ok? && Batch(oversized).None?
    ensures var padded := [Parsed(Terminal(Some(response)), size, false)];
            Translate(cfg, Initial(cfg, now), padded, end).Ok? && Batch(padded).None?
    ensures var padded := [Parsed(ErrorEvent("", ""), size, false), Parsed(Terminal(Some(response)), size, true)];
            Translate(cfg, Initial(cfg, now), padded, end).Err? && Batch(padded).Some?
  {
    hide Translate, Batch, Initial, EndIndex, LastWord, NoDoneMark, Kept;
    var last := Parsed(Terminal(Some(response)), size, true);
    var failed := Parsed(ResponseFailed(Some(response)), size, true);
    var half := Parsed(ItemDone(Some(item), 0), MAX_REQUEST_BODY_BYTES / 2 + 1, true);
    var loose := Parsed(Terminal(Some(response)), size, false);
    var error := Parsed(ErrorEvent("", ""), size, false);
    BothOutcomes(cfg, now, [DoneMark, last], end);
    BothOutcomes(cfg, now, [failed], end);
    BothOutcomes(cfg, now, [half, half, last], end);
    BothOutcomes(cfg, now, [loose], end);
    BothOutcomes(cfg, now, [error, last], end);
    Alone(last);
    Alone(failed);
    Alone(loose);
    Before(DoneMark, [last]);
    Before(half, [last]);
    Before(half, [half, last]);
    Before(error, [last]);
    assert [DoneMark] + [last] == [DoneMark, last] && [error] + [last] == [error, last];
    assert [half] + [last] == [half, last] && [half] + [half, last] == [half, half, last];
  }

  /** How one ending event looks to each path. */
  lemma Alone(last: Payload)
    requires last.Parsed? && Ends(last.event)
    ensures LastWord([last], Stops) == Some(last.event) && NoDoneMark([last])
    ensures last.exact ==> LastWord([last], BatchStops) == Some(last.event) && Kept([last]) == 0
    ensures !last.exact ==> LastWord([last], BatchStops).None?
  {
    FirstWord([last], Stops);
    EndsAtOnce([last]);
    if last.exact {
      FirstWord([last], BatchStops);
      NothingKept([last]);
    } else {
      EndingStep([last], BatchStops);
      NoLastWord([], BatchStops);
    }
  }

  /** What one payload more in front changes. */
  lemma Before(p: Payload, rest: seq<Payload>)
    ensures !Stops(p) ==> LastWord([p] + rest, Stops) == LastWord(rest, Stops)
    ensures !Stops(p) ==> (NoDoneMark([p] + rest) <==> !p.DoneMark? && NoDoneMark(rest))
    ensures !BatchStops(p) ==> LastWord([p] + rest, BatchStops) == LastWord(rest, BatchStops)
    ensures !BatchStops(p) ==> Kept([p] + rest) == DoneSize(p) + Kept(rest)
    ensures p.Parsed? && Stops(p) ==> LastWord([p] + rest, Stops) == Some(p.event)
  {
    hide LastWord, NoDoneMark, Kept, EndIndex;
    var all := [p] + rest;
    assert all[0] == p && all[1..] == rest;
    if !Stops(p) {
      EndingStep(all, Stops);
      NoDoneMarkStep(all);
    } else if p.Parsed? {
      FirstWord(all, Stops);
    }
    if !BatchStops(p) {
      EndingStep(all, BatchStops);
      KeptStep(all);
    }
  }
}
