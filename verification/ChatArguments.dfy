/**
 When a call's arguments reach the client. An empty arguments delta marks a call's arguments as
 sent, so the arguments its done event or the terminal output lists later are withheld: the
 translator's promise holds exactly for the streams described here.
 */
module ChatArguments {
  import opened Base
  import opened ChatTypes
  import opened ChatStream
  import opened ChatGrammar
  import opened ChatCore
  import opened ChatBatch
  import opened ChatAgreement
  import opened ChatTheorem

  // ----- the condition on the input -----

  predicate CallFor(item: Option<Item>, k: int, tool: string) {
    item.Some? && item.value.Call? && ToolKey(item.value.id, k) == tool
  }

  predicate DeltaFor(event: Event, tool: string) {
    event.ArgumentsDelta? && ToolKey(event.itemId, event.outputIndex) == tool
  }

  predicate Touches(event: Event, tool: string) {
    DeltaFor(event, tool) || ((event.ItemAdded? || event.ItemDone?) && CallFor(event.item, event.outputIndex, tool))
  }

  /** Event i brings the call's arguments: a done event does, an announcement if it is the first to mention the call. */
  ghost predicate Offers(events: seq<Event>, i: nat, tool: string) {
    i < |events| && Touches(events[i], tool) && !events[i].ArgumentsDelta? && events[i].item.value.arguments != "" &&
    (events[i].ItemDone? || forall h :: 0 <= h < i ==> !Touches(events[h], tool))
  }

  predicate Speaks(event: Event, tool: string) {
    DeltaFor(event, tool) && event.delta != ""
  }

  /** Some delta for the call was not empty, or each came after the arguments had been brought. */
  ghost predicate Heeded(events: seq<Event>, tool: string) {
    (exists i :: 0 <= i < |events| && Speaks(events[i], tool)) ||
    forall i :: 0 <= i < |events| && DeltaFor(events[i], tool) ==> exists h :: 0 <= h < i && Offers(events, h, tool)
  }

  /** The terminal output lists the call with arguments, from item i on. */
  ghost predicate Lists(output: seq<Item>, i: nat, tool: string) {
    exists j :: i <= j < |output| && CallFor(Some(output[j]), j, tool) && output[j].arguments != ""
  }

  /** Upstream sent arguments for the call at all: in a delta, an announcement, a done event or the terminal output. */
  ghost predicate Supplied(events: seq<Event>, output: seq<Item>, tool: string) {
    || (exists i :: 0 <= i < |events| && Speaks(events[i], tool))
    || (exists i :: 0 <= i < |events| && Offers(events, i, tool))
    || Lists(output, 0, tool)
  }

  // ----- one call, followed through the stream -----

  /** Not mentioned yet; announced only; used up by an empty delta; or heard. */
  datatype Fate = Unheard | Bare | Hushed | Voiced

  function AfterAnnounced(f: Fate, arguments: string): Fate {
    if !f.Unheard? then f else if arguments != "" then Voiced else Bare
  }

  function AfterListed(f: Fate, arguments: string): Fate {
    var g := AfterAnnounced(f, arguments);
    if g.Bare? && arguments != "" then Voiced else g
  }

  function AfterDelta(f: Fate, delta: string): Fate {
    if f.Voiced? || delta != "" then Voiced else Hushed
  }

  function AfterEvent(f: Fate, event: Event, tool: string): Fate {
    if !Touches(event, tool) then f
    else match event
      case ItemAdded(item, _) => AfterAnnounced(f, item.value.arguments)
      case ItemDone(item, _) => AfterListed(f, item.value.arguments)
      case ArgumentsDelta(_, _, delta) => AfterDelta(f, delta)
  }

  function FateOf(events: seq<Event>, tool: string): Fate {
    if events == [] then Unheard
    else AfterEvent(FateOf(events[..|events| - 1], tool), events[|events| - 1], tool)
  }

  function AfterItem(f: Fate, item: Item, k: int, tool: string): Fate {
    if CallFor(Some(item), k, tool) then AfterListed(f, item.arguments) else f
  }

  function AfterOutput(f: Fate, output: seq<Item>, i: nat, tool: string): Fate
    decreases |output| - i
  {
    if i >= |output| then f else AfterOutput(AfterItem(f, output[i], i, tool), output, i + 1, tool)
  }

  /** Every call has a tool of its own, and every tool a call. */
  ghost predicate Paired(c: Core) {
    && |c.tools| == |c.client.calls|
    && (forall t :: t in c.tools ==> c.tools[t].index < |c.client.calls|)
    && (forall t, u :: t in c.tools && u in c.tools && c.tools[t].index == c.tools[u].index ==> t == u)
  }

  ghost predicate Tells(c: Core, f: Fate, tool: string)
    requires Paired(c)
  {
    if f.Unheard? then tool !in c.tools
    else
      && tool in c.tools && (c.tools[tool].argumentsEmitted <==> !f.Bare?)
      && (c.client.calls[c.tools[tool].index].arguments != "" <==> f.Voiced?)
  }

  /** One more call, with a tool of its own. */
  lemma WithCallPaired(c: Core, key: string, out: CallOut, emitted: bool)
    requires Paired(c) && key !in c.tools
    ensures Paired(WithCall(c, key, out, emitted))
  {
    MapGrows(c.tools, key, Tool(|c.client.calls|, emitted));
  }

  lemma WithCallTells(c: Core, f: Fate, key: string, out: CallOut, tool: string)
    requires Paired(c) && key !in c.tools && Tells(c, f, tool)
    ensures var d := WithCall(c, key, out, out.arguments != "");
            Paired(d) && Tells(d, if key == tool then AfterAnnounced(f, out.arguments) else f, tool)
  {
    WithCallPaired(c, key, out, out.arguments != "");
    var d := WithCall(c, key, out, out.arguments != "");
    assert d.client.calls[|c.client.calls|] == out;
    assert forall n :: 0 <= n < |c.client.calls| ==> d.client.calls[n] == c.client.calls[n];
  }

  lemma AnnounceTells(c: Core, f: Fate, item: Item, k: int, tool: string)
    requires item.Call? && Paired(c) && Tells(c, f, tool)
    ensures var d := CoreAnnounce(c, item, k);
            Paired(d) && Tells(d, if ToolKey(item.id, k) == tool then AfterAnnounced(f, item.arguments) else f, tool)
  {
    hide ToolKey, ValueOr, WithCall;
    var key := ToolKey(item.id, k);
    if key !in c.tools {
      AnnounceOpens(c, item, k);
      WithCallTells(c, f, key, CallOut(ValueOr(item.callId, item.id), item.name, item.arguments), tool);
    }
  }

  lemma SaidMore(calls: seq<CallOut>, n: nat, more: string)
    requires n < |calls|
    ensures var after := calls[n := calls[n].(arguments := calls[n].arguments + more)];
            (after[n].arguments != "" <==> calls[n].arguments != "" || more != "") &&
            forall m :: 0 <= m < |calls| && m != n ==> after[m] == calls[m]
  {
    if more == "" {
      assert calls[n].arguments + more == calls[n].arguments;
    } else {
      assert |calls[n].arguments + more| > 0;
    }
  }

  lemma ArgumentsTell(c: Core, f: Fate, key: string, arguments: string, tool: string)
    requires Paired(c) && Tells(c, f, tool) && key in c.tools
    ensures var d := CoreArguments(c, key, arguments);
            Paired(d) && Tells(d, if key == tool then AfterDelta(f, arguments) else f, tool)
  {
    var d := CoreArguments(c, key, arguments);
    SaidMore(c.client.calls, c.tools[key].index, arguments);
    assert d.tools.Keys == c.tools.Keys;
    assert |d.tools| == |d.tools.Keys| && |c.tools| == |c.tools.Keys|;
  }

  lemma CallTells(c: Core, f: Fate, item: Item, k: int, tool: string)
    requires item.Call? && Paired(c) && Tells(c, f, tool)
    ensures var d := CoreCall(c, item, k);
            Paired(d) && Tells(d, if ToolKey(item.id, k) == tool then AfterListed(f, item.arguments) else f, tool)
  {
    hide ToolKey, CoreAnnounce, CoreArguments;
    var key := ToolKey(item.id, k);
    AnnounceTells(c, f, item, k, tool);
    var d := CoreAnnounce(c, item, k);
    if item.arguments != "" && !d.tools[key].argumentsEmitted {
      ArgumentsTell(d, if key == tool then AfterAnnounced(f, item.arguments) else f, key, item.arguments, tool);
    }
  }

  lemma {:induction false} PartsTell(c: Core, f: Fate, parts: seq<Part>, k: int, j: nat, tool: string)
    requires Paired(c) && Tells(c, f, tool)
    ensures Paired(CoreParts(c, parts, k, j)) && Tells(CoreParts(c, parts, k, j), f, tool)
    decreases |parts| - j
  {
    if j < |parts| {
      var key := PartKey(parts[j], k, j);
      if parts[j].OtherPart? || key in c.seen {
        PartsTell(c, f, parts, k, j + 1, tool);
      } else {
        PartsTell(Say(c.(seen := c.seen + {key}), PartDelta(parts[j])), f, parts, k, j + 1, tool);
      }
    }
  }

  lemma ItemTells(c: Core, f: Fate, item: Item, k: int, tool: string)
    requires Paired(c) && Tells(c, f, tool)
    ensures var d := CoreItem(c, item, k);
            Paired(d) && Tells(d, AfterItem(f, item, k, tool), tool)
  {
    hide CoreCall, CoreParts, ToolKey;
    match item
    case Message(parts) => PartsTell(c, f, parts, k, 0, tool);
    case Call(_, _, _, _) => CallTells(c, f, item, k, tool);
    case OtherItem =>
  }

  lemma DeltaTells(c: Core, f: Fate, id: string, k: int, delta: string, tool: string)
    requires Paired(c) && Tells(c, f, tool)
    ensures var d := CoreStep(c, ArgumentsDelta(id, k, delta));
            Paired(d) && Tells(d, if ToolKey(id, k) == tool then AfterDelta(f, delta) else f, tool)
  {
    hide CoreAnnounce, CoreArguments, ToolKey;
    var key, call := ToolKey(id, k), Call(id, id, "", "");
    if key in c.tools {
      ArgumentsTell(c, f, key, delta, tool);
    } else {
      AnnounceTells(c, f, call, k, tool);
      ArgumentsTell(CoreAnnounce(c, call, k), if key == tool then AfterAnnounced(f, "") else f, key, delta, tool);
    }
  }

  lemma TextTells(c: Core, f: Fate, key: Key, delta: string, tool: string)
    requires Paired(c) && Tells(c, f, tool)
    ensures Paired(CoreDelta(c, key, delta)) && Tells(CoreDelta(c, key, delta), f, tool)
  {
  }

  /** One event moves the core's books on a call as its fate says. */
  lemma EventTells(c: Core, f: Fate, event: Event, tool: string)
    requires Paired(c) && Tells(c, f, tool)
    ensures Paired(CoreStep(c, event)) && Tells(CoreStep(c, event), AfterEvent(f, event, tool), tool)
  {
    hide CoreAnnounce, CoreArguments, CoreItem, CoreDelta, ToolKey, AfterAnnounced, AfterListed, AfterDelta, Paired, Tells;
    match event
    case ItemAdded(Some(Call(_, _, _, _)), k) => AnnounceTells(c, f, event.item.value, k, tool);
    case ItemDone(Some(item), k) => ItemTells(c, f, item, k, tool);
    case ArgumentsDelta(id, k, delta) => DeltaTells(c, f, id, k, delta, tool);
    case TextDelta(k, j, delta) => TextTells(c, f, Key(k, j, false), delta, tool);
    case RefusalDelta(k, j, delta) => TextTells(c, f, Key(k, j, true), delta, tool);
    case _ =>
  }

  lemma {:induction false} EventsTell(events: seq<Event>, tool: string)
    ensures Paired(Steps(BLANK, events)) && Tells(Steps(BLANK, events), FateOf(events, tool), tool)
  {
    hide CoreStep, AfterEvent;
    if events == [] {
      StepsNothing(BLANK);
    } else {
      var front, last := events[..|events| - 1], events[|events| - 1];
      EventsTell(front, tool);
      assert events == front + [last];
      StepsAppend(BLANK, front, [last]);
      StepOne(Steps(BLANK, front), last);
      EventTells(Steps(BLANK, front), FateOf(front, tool), last, tool);
    }
  }

  lemma {:induction false} OutputTells(c: Core, f: Fate, output: seq<Item>, i: nat, tool: string)
    requires Paired(c) && Tells(c, f, tool)
    ensures var d := CoreOutput(c, output, i); Paired(d) && Tells(d, AfterOutput(f, output, i, tool), tool)
    decreases |output| - i
  {
    hide CoreItem, Paired, Tells, AfterItem;
    if i < |output| {
      ItemTells(c, f, output[i], i, tool);
      OutputTells(CoreItem(c, output[i], i), AfterItem(f, output[i], i, tool), output, i + 1, tool);
    }
  }

  /** The terminal output makes a call heard if it lists it with arguments, unless it had been hushed. */
  lemma {:induction false} OutputFate(f: Fate, output: seq<Item>, i: nat, tool: string)
    ensures AfterOutput(f, output, i, tool).Hushed? <==> f.Hushed?
    ensures AfterOutput(f, output, i, tool).Voiced? <==> f.Voiced? || (!f.Hushed? && Lists(output, i, tool))
    decreases |output| - i
  {
    hide ToolKey;
    if i < |output| {
      OutputFate(AfterItem(f, output[i], i, tool), output, i + 1, tool);
      ListsNext(output, i, tool);
    }
  }

  lemma ListsNext(output: seq<Item>, i: nat, tool: string)
    requires i < |output|
    ensures Lists(output, i, tool) <==>
            (CallFor(Some(output[i]), i, tool) && output[i].arguments != "") || Lists(output, i + 1, tool)
  {
  }

  // ----- the fate is the condition -----

  /** The arguments were brought before any delta. */
  ghost predicate OfferedFirst(events: seq<Event>, tool: string) {
    exists h :: 0 <= h < |events| && Offers(events, h, tool) && forall i :: 0 <= i < h ==> !DeltaFor(events[i], tool)
  }

  ghost predicate Touched(events: seq<Event>, tool: string) {
    exists i :: 0 <= i < |events| && Touches(events[i], tool)
  }

  ghost predicate AnyDelta(events: seq<Event>, tool: string) {
    exists i :: 0 <= i < |events| && DeltaFor(events[i], tool)
  }

  ghost predicate AnySpeaks(events: seq<Event>, tool: string) {
    exists i :: 0 <= i < |events| && Speaks(events[i], tool)
  }

  lemma TouchedSnoc(front: seq<Event>, last: Event, tool: string)
    ensures Touched(front + [last], tool) <==> Touched(front, tool) || Touches(last, tool)
    ensures AnyDelta(front + [last], tool) <==> AnyDelta(front, tool) || DeltaFor(last, tool)
    ensures AnySpeaks(front + [last], tool) <==> AnySpeaks(front, tool) || Speaks(last, tool)
  {
    hide Touches, DeltaFor, Speaks;
    var all := front + [last];
    assert all[|front|] == last;
    assert forall i :: 0 <= i < |front| ==> all[i] == front[i];
  }

  lemma OffersSnoc(front: seq<Event>, last: Event, i: nat, tool: string)
    ensures i < |front| ==> (Offers(front + [last], i, tool) <==> Offers(front, i, tool))
    ensures Offers(front + [last], |front|, tool) <==>
            Touches(last, tool) && !last.ArgumentsDelta? && last.item.value.arguments != "" &&
            (last.ItemDone? || !Touched(front, tool))
  {
    hide Touches;
    var all := front + [last];
    assert all[|front|] == last;
    assert forall h :: 0 <= h < |front| ==> all[h] == front[h];
  }

  lemma OfferedFirstSnoc(front: seq<Event>, last: Event, tool: string)
    ensures OfferedFirst(front + [last], tool) <==>
            OfferedFirst(front, tool) || (Offers(front + [last], |front|, tool) && !AnyDelta(front, tool))
  {
    hide Offers, DeltaFor;
    var all := front + [last];
    assert forall i :: 0 <= i < |front| ==> all[i] == front[i];
    if OfferedFirst(front, tool) {
      var h :| 0 <= h < |front| && Offers(front, h, tool) && forall i :: 0 <= i < h ==> !DeltaFor(front[i], tool);
      OffersSnoc(front, last, h, tool);
    }
    if OfferedFirst(all, tool) {
      var h :| 0 <= h < |all| && Offers(all, h, tool) && forall i :: 0 <= i < h ==> !DeltaFor(all[i], tool);
      OffersSnoc(front, last, h, tool);
      if h == |front| {
        assert forall i :: 0 <= i < |front| ==> !DeltaFor(front[i], tool);
      }
    }
    if Offers(all, |front|, tool) && !AnyDelta(front, tool) {
      assert forall i :: 0 <= i < |front| ==> !DeltaFor(all[i], tool);
    }
  }

  lemma {:induction false} FateShape(events: seq<Event>, tool: string)
    ensures FateOf(events, tool).Unheard? <==> !Touched(events, tool)
    ensures FateOf(events, tool).Voiced? <==> AnySpeaks(events, tool) || OfferedFirst(events, tool)
    ensures FateOf(events, tool).Bare? ==> !AnyDelta(events, tool)
    ensures FateOf(events, tool).Hushed? ==> AnyDelta(events, tool)
  {
    if events != [] {
      hide Touched, AnyDelta, AnySpeaks, OfferedFirst, Offers, ToolKey;
      var front, last := events[..|events| - 1], events[|events| - 1];
      assert events == front + [last];
      FateShape(front, tool);
      TouchedSnoc(front, last, tool);
      OffersSnoc(front, last, 0, tool);
      OfferedFirstSnoc(front, last, tool);
      NoneTouched(front, tool);
    }
  }

  lemma NoneTouched(events: seq<Event>, tool: string)
    ensures !Touched(events, tool) ==> !AnyDelta(events, tool)
    ensures AnySpeaks(events, tool) ==> AnyDelta(events, tool)
  {
    if AnyDelta(events, tool) {
      var i :| 0 <= i < |events| && DeltaFor(events[i], tool);
      assert Touches(events[i], tool);
    }
    if AnySpeaks(events, tool) {
      var i :| 0 <= i < |events| && Speaks(events[i], tool);
      assert DeltaFor(events[i], tool);
    }
  }

  lemma {:induction false} FirstDelta(events: seq<Event>, tool: string) returns (i: nat)
    requires AnyDelta(events, tool)
    ensures i < |events| && DeltaFor(events[i], tool) && forall h :: 0 <= h < i ==> !DeltaFor(events[h], tool)
  {
    hide DeltaFor;
    if DeltaFor(events[0], tool) {
      i := 0;
    } else {
      var d :| 0 <= d < |events| && DeltaFor(events[d], tool);
      assert events[1..][d - 1] == events[d];
      var n := FirstDelta(events[1..], tool);
      i := n + 1;
      forall h | 0 <= h < i ensures !DeltaFor(events[h], tool) {
        if h > 0 { assert events[h] == events[1..][h - 1]; }
      }
    }
  }

  /** Exactly the streams that do not heed a call leave it hushed. */
  lemma FateExactly(events: seq<Event>, tool: string)
    ensures FateOf(events, tool).Hushed? <==> !Heeded(events, tool)
  {
    hide DeltaFor, Offers, FateOf;
    FateShape(events, tool);
    NoneTouched(events, tool);
    if AnyDelta(events, tool) && !AnySpeaks(events, tool) {
      var i := FirstDelta(events, tool);
      if OfferedFirst(events, tool) {
        var h :| 0 <= h < |events| && Offers(events, h, tool) && forall j :: 0 <= j < h ==> !DeltaFor(events[j], tool);
        OfferIsNoDelta(events, h, tool);
        forall d | 0 <= d < |events| && DeltaFor(events[d], tool) ensures exists g :: 0 <= g < d && Offers(events, g, tool) {
          assert h < d;
        }
      } else {
        forall h | 0 <= h < i ensures !Offers(events, h, tool) {
          if Offers(events, h, tool) { OfferBefore(events, h, i, tool); }
        }
      }
    }
  }

  lemma OfferBefore(events: seq<Event>, h: nat, i: nat, tool: string)
    requires h < i < |events| && Offers(events, h, tool) && forall j :: 0 <= j < i ==> !DeltaFor(events[j], tool)
    ensures OfferedFirst(events, tool)
  {
  }

  lemma OfferIsNoDelta(events: seq<Event>, h: nat, tool: string)
    requires Offers(events, h, tool)
    ensures !DeltaFor(events[h], tool)
  {
  }

  /** After the terminal output a call is heard exactly if upstream supplied arguments and heeded it. */
  lemma FinalFate(events: seq<Event>, output: seq<Item>, tool: string)
    ensures AfterOutput(FateOf(events, tool), output, 0, tool).Voiced? <==>
            Heeded(events, tool) && Supplied(events, output, tool)
  {
    hide DeltaFor, Offers, FateOf, Heeded, AfterOutput, Lists;
    OutputFate(FateOf(events, tool), output, 0, tool);
    FateShape(events, tool);
    FateExactly(events, tool);
    NoneTouched(events, tool);
    if h: nat :| h < |events| && Offers(events, h, tool) {
      if !AnyDelta(events, tool) { assert OfferedFirst(events, tool); }
      OfferTouches(events, h, tool);
    }
  }

  lemma OfferTouches(events: seq<Event>, h: nat, tool: string)
    requires Offers(events, h, tool)
    ensures Touched(events, tool)
  {
  }

  // ----- what the wire says -----

  /** Tool chunks are numbered as their announcements come. */
  ghost predicate Numbered(sent: seq<Write>) {
    forall i :: 0 <= i < |sent| && sent[i].chunk.Choice? ==>
      match sent[i].chunk.delta
      case ToolOpen(index, _, _, _) => index == Opens(sent[..i])
      case ToolMore(index, _) => index < Opens(sent[..i])
      case _ => true
  }

  lemma GrammaticalIsNumbered(sent: seq<Write>, m: nat, id: string, created: int, model: string)
    requires Grammatical(sent, m, id, created, model)
    ensures Numbered(sent)
  {
    forall i | 0 <= i < |sent| && sent[i].chunk.Choice?
      ensures match sent[i].chunk.delta
              case ToolOpen(index, _, _, _) => index == Opens(sent[..i])
              case ToolMore(index, _) => index < Opens(sent[..i])
              case _ => true
    {
      var body := sent[..|sent| - 1];
      if i < m {
        assert body[..m][..i] == sent[..i] && body[..m][i] == sent[i];
      } else if i < |body| {
        assert body[m..][i - m] == sent[i];
      }
    }
  }

  ghost predicate Arrived(sent: seq<Write>, n: nat) {
    exists i :: 0 <= i < |sent| && HasArguments(sent[i], n)
  }

  lemma ArrivedSnoc(front: seq<Write>, w: Write, n: nat)
    ensures Arrived(front + [w], n) <==> Arrived(front, n) || HasArguments(w, n)
  {
    hide HasArguments;
    var all := front + [w];
    assert all[|front|] == w;
    assert forall i :: 0 <= i < |front| ==> all[i] == front[i];
  }

  lemma HearArguments(c: Client, w: Write, n: nat)
    requires w.chunk.Choice? && w.chunk.delta.ToolOpen? ==> w.chunk.delta.index == |c.calls|
    requires w.chunk.Choice? && w.chunk.delta.ToolMore? ==> w.chunk.delta.index < |c.calls|
    ensures var d := HearChunk(c, w.chunk);
            |d.calls| == |c.calls| + (if IsOpen(w) then 1 else 0) &&
            (n < |d.calls| ==>
               (d.calls[n].arguments != "" <==> (n < |c.calls| && c.calls[n].arguments != "") || HasArguments(w, n)))
  {
    if w.chunk.Choice? && w.chunk.delta.ToolMore? { SaidMore(c.calls, w.chunk.delta.index, w.chunk.delta.arguments); }
  }

  /** A client has arguments for the n-th call exactly when some chunk carried some. */
  lemma {:induction false} ClientHears(sent: seq<Write>, n: nat)
    requires Numbered(sent)
    ensures |Reassemble(sent).calls| == Opens(sent)
    ensures n < Opens(sent) ==> (Reassemble(sent).calls[n].arguments != "" <==> Arrived(sent, n))
    ensures Arrived(sent, n) ==> n < Opens(sent)
  {
    if sent != [] {
      hide HearChunk, HasArguments, Arrived;
      var front, w := sent[..|sent| - 1], sent[|sent| - 1];
      assert sent == front + [w];
      NumberedFront(sent);
      ClientHears(front, n);
      ArrivedSnoc(front, w, n);
      HearArguments(Reassemble(front), w, n);
      ArgumentsInRange(w, n, Opens(front));
    } else {
      assert !Arrived(sent, n);
    }
  }

  lemma ArgumentsInRange(w: Write, n: nat, opens: nat)
    requires w.chunk.Choice? && w.chunk.delta.ToolOpen? ==> w.chunk.delta.index == opens
    requires w.chunk.Choice? && w.chunk.delta.ToolMore? ==> w.chunk.delta.index < opens
    ensures HasArguments(w, n) ==> n < opens + if IsOpen(w) then 1 else 0
  {
  }

  lemma NumberedFront(sent: seq<Write>)
    requires sent != [] && Numbered(sent)
    ensures Numbered(sent[..|sent| - 1])
  {
    var front := sent[..|sent| - 1];
    assert forall i :: 0 <= i < |front| ==> front[i] == sent[i] && front[..i] == sent[..i];
  }

  /** A call is announced under one index only. */
  lemma OpenedOnce(sent: seq<Write>, tool: string, n: nat, k: nat)
    requires Orderly(sent) && Opened(sent, tool, n) && Opened(sent, tool, k)
    ensures n == k
  {
    hide Orderly;
    var a :| 0 <= a < |sent| && Announces(sent[a], tool, n);
    var b :| 0 <= b < |sent| && Announces(sent[b], tool, k);
    if a < b { NotAgain(sent, tool, n, a, b); }
    if b < a { NotAgain(sent, tool, k, b, a); }
  }

  lemma NotAgain(sent: seq<Write>, tool: string, n: nat, a: nat, b: nat)
    requires Orderly(sent) && a < b < |sent| && Announces(sent[a], tool, n)
    ensures sent[b].origin != Announced(tool)
  {
    assert Follows(sent[..b], sent[b]);
    assert Announces(sent[..b][a], tool, n);
    assert Opened(sent[..b], tool, n);
  }

  // ----- the theorem -----

  /** Everything sent from m on is neither an announcement nor part of an item. */
  ghost predicate DirectFrom(sent: seq<Write>, m: nat) {
    forall i :: m <= i < |sent| ==> sent[i].origin.Direct?
  }

  lemma WindUpDirect(cfg: Config, st: State, m: nat)
    requires m <= |st.sent| && DirectFrom(st.sent, m)
    ensures DirectFrom(WindUp(cfg, st).st.sent, m)
  {
  }

  lemma CloseDirect(cfg: Config, st: State, status: Status)
    ensures DirectFrom(Close(cfg, st, status).st.sent, |st.sent|)
  {
    hide WindUp;
    var role := EnsureRole(cfg, st);
    assert DirectFrom(role.st.sent, |st.sent|);
    if role.Ok? {
      var r := WriteChoice(cfg, role.st, NoDelta, Some(FinishReason(status, role.st.toolSeen)), Direct);
      if r.Ok? { WindUpDirect(cfg, r.st, |st.sent|); }
    }
  }

  lemma OpenedBefore(sent: seq<Write>, more: seq<Write>, tool: string, n: nat)
    requires sent <= more && DirectFrom(more, |sent|)
    ensures Opened(more, tool, n) ==> Opened(sent, tool, n)
  {
    if Opened(more, tool, n) {
      var i :| 0 <= i < |more| && Announces(more[i], tool, n);
      assert Announces(sent[i], tool, n);
    }
  }

  /** Once terminal, the announcements on the wire are those of the tools, under their indexes. */
  lemma FinishOpened(cfg: Config, st: State, response: Response, tool: string)
    requires Live(cfg, st) && Finish(cfg, st, Some(response)).Ok?
    requires !response.status.Failed? && !response.status.Cancelled?
    ensures var r := Finish(cfg, st, Some(response)).st;
            forall n :: Opened(r.sent, tool, n) <==> tool in r.tools && r.tools[tool].index == n
  {
    hide Broken, Orderly, Body, Undone, Recorded, Grammatical, EmitOutput, Close, Opened, Spent, Covers, DirectFrom;
    CaptureKeepsLive(cfg, st, response);
    EmitOutputKeepsLive(cfg, Capture(st, response), response.output, 0);
    var out := EmitOutput(cfg, Capture(st, response), response.output, 0);
    CloseEnds(cfg, out.st, response.status);
    CloseRefines(cfg, out.st, response.status);
    CloseDirect(cfg, out.st, response.status);
    var sent := Close(cfg, out.st, response.status).st.sent;
    forall n: nat ensures Opened(sent, tool, n) <==> Opened(out.st.sent, tool, n) {
      OpenedGrows(out.st.sent, sent, tool, n);
      OpenedBefore(out.st.sent, sent, tool, n);
    }
  }

  /** The call's announcement is on the wire, and chunks bearing its index carry arguments. */
  ghost predicate ArgumentsArrive(sent: seq<Write>, tool: string) {
    exists n :: Opened(sent, tool, n) && Arrived(sent, n)
  }

  lemma CallOutcome(cfg: Config, st: State, events: seq<Event>, response: Response, tool: string, m: nat)
    requires Live(cfg, st) && CoreOf(st) == Steps(BLANK, events)
    requires !response.status.Failed? && !response.status.Cancelled?
    requires var r := Finish(cfg, st, Some(response));
             r.Ok? && Grammatical(r.st.sent, m, r.st.id, r.st.created, r.st.model)
    ensures ArgumentsArrive(Finish(cfg, st, Some(response)).st.sent, tool) <==>
            Heeded(events, tool) && Supplied(events, response.output, tool)
  {
    hide Live, Finish, Steps, CoreOutput, FateOf, Heeded, Supplied, Grammatical, Opened, Arrived, AfterOutput;
    var r := Finish(cfg, st, Some(response)).st;
    var c, fate := CoreOutput(CoreOf(st), response.output, 0), AfterOutput(FateOf(events, tool), response.output, 0, tool);
    EventsTell(events, tool);
    OutputTells(CoreOf(st), FateOf(events, tool), response.output, 0, tool);
    FinalFate(events, response.output, tool);
    FinishRefines(cfg, st, response);
    FinishOpened(cfg, st, response, tool);
    if tool in c.tools {
      GrammaticalIsNumbered(r.sent, m, r.id, r.created, r.model);
      ClientHears(r.sent, c.tools[tool].index);
    }
  }

  /**
   After every successful stream and for every call, its arguments have reached the client if and
   only if upstream supplied some and the events before the terminal one heeded the call.
   */
  lemma ArgumentsExactly(cfg: Config, now: int, payloads: seq<Payload>, end: StreamEnd) returns (n: nat)
    requires Translate(cfg, Initial(cfg, now), payloads, end).Ok?
    ensures SucceededAt(payloads, n, Translate(cfg, Initial(cfg, now), payloads, end).st.sent)
    ensures var sent, events := Translate(cfg, Initial(cfg, now), payloads, end).st.sent, Events(payloads[..n]);
            forall tool :: ArgumentsArrive(sent, tool) <==>
                           Heeded(events, tool) && Supplied(events, payloads[n].event.response.value.output, tool)
  {
    hide Live, Translate, Finish, Initial, CoreOf, Steps, Heeded, Supplied, ArgumentsArrive, Grammatical, Orderly,
         AllEmitted, Broken, ToolKey;
    InitialIsLive(cfg, now);
    TranslateEnds(cfg, Initial(cfg, now), payloads, end);
    var mid;
    n, mid := SuccessSplits(cfg, now, payloads, end);
    var r, response := Translate(cfg, Initial(cfg, now), payloads, end), payloads[n].event.response.value;
    var m :| Grammatical(r.st.sent, m, r.st.id, r.st.created, r.st.model);
    forall tool
      ensures ArgumentsArrive(r.st.sent, tool) <==>
              Heeded(Events(payloads[..n]), tool) && Supplied(Events(payloads[..n]), response.output, tool)
    {
      CallOutcome(cfg, mid, Events(payloads[..n]), response, tool, m);
    }
  }

  /** Some done event brings arguments for the call. */
  ghost predicate DoneBrings(events: seq<Event>, tool: string) {
    exists i :: 0 <= i < |events| && events[i].ItemDone? && Offers(events, i, tool)
  }

  /** In particular, for a call that a done event or the terminal output brings whole. */
  lemma BroughtArguments(cfg: Config, now: int, payloads: seq<Payload>, end: StreamEnd) returns (n: nat)
    requires Translate(cfg, Initial(cfg, now), payloads, end).Ok?
    ensures SucceededAt(payloads, n, Translate(cfg, Initial(cfg, now), payloads, end).st.sent)
    ensures var sent, events := Translate(cfg, Initial(cfg, now), payloads, end).st.sent, Events(payloads[..n]);
            forall tool :: DoneBrings(events, tool) || Lists(payloads[n].event.response.value.output, 0, tool) ==>
                           (ArgumentsArrive(sent, tool) <==> Heeded(events, tool))
  {
    hide Translate, Initial, Heeded, ArgumentsArrive, Lists, Offers, AllEmitted;
    n := ArgumentsExactly(cfg, now, payloads, end);
  }

  /**
   The failing input, for any call with arguments: announced without them, one empty delta, then
   done, and listed in the terminal output or not. The stream succeeds and never carries them;
   the batch path has them.
   */
  lemma HushedCall(cfg: Config, now: int, call: Item, response: Response, sizes: seq<nat>, end: StreamEnd)
    returns (payloads: seq<Payload>)
    requires cfg.failAt.None? && call.Call? && call.arguments != "" && (response.output == [call] || response.output == [])
    requires !response.status.Failed? && !response.status.Cancelled?
    requires |sizes| == 4 && sizes[2] <= MAX_REQUEST_BODY_BYTES
    ensures payloads == [Parsed(ItemAdded(Some(call.(arguments := "")), 0), sizes[0], true),
                         Parsed(ArgumentsDelta(call.id, 0, ""), sizes[1], true),
                         Parsed(ItemDone(Some(call), 0), sizes[2], true),
                         Parsed(Terminal(Some(response)), sizes[3], true)]
    ensures var r := Translate(cfg, Initial(cfg, now), payloads, end);
            r.Ok? && !ArgumentsArrive(r.st.sent, ToolKey(call.id, 0))
    ensures Batch(payloads) == CompletionOf(response.(output := [call]))
  {
    hide Translate, Initial, Heeded, Supplied, ArgumentsArrive, StreamSucceeds, CompletionOf, ToolKey, AllEmitted, Batch;
    var events := [ItemAdded(Some(call.(arguments := "")), 0), ArgumentsDelta(call.id, 0, ""), ItemDone(Some(call), 0)];
    payloads := [Parsed(events[0], sizes[0], true), Parsed(events[1], sizes[1], true), Parsed(events[2], sizes[2], true),
                 Parsed(Terminal(Some(response)), sizes[3], true)];
    HushedSucceeds(payloads);
    BothOutcomes(cfg, now, payloads, end);
    var n := ArgumentsExactly(cfg, now, payloads, end);
    assert n == 3;
    HushedEvents(payloads, events);
    NotHeeded(events, ToolKey(call.id, 0));
    HushedBatch(payloads, call, response);
  }

  lemma HushedSucceeds(payloads: seq<Payload>)
    requires |payloads| == 4 && (forall i :: 0 <= i < 3 ==> GoesOn(payloads[i]))
    requires payloads[3].Parsed? && Successful(payloads[3].event)
    ensures StreamSucceeds(payloads)
  {
    assert EndIndex(payloads, Stops) == 3;
  }

  lemma HushedEvents(payloads: seq<Payload>, events: seq<Event>)
    requires |payloads| == 4 && |events| == 3
    requires forall i :: 0 <= i < 3 ==> payloads[i].Parsed? && payloads[i].event == events[i]
    ensures Events(payloads[..3]) == events
  {
    var p := payloads[..3];
    assert p[1..][1..][1..] == [];
    assert Events(p[1..][1..]) == [events[2]] + Events([]);
    assert Events(p[1..]) == [events[1]] + Events(p[1..][1..]);
    assert Events(p) == [events[0]] + Events(p[1..]);
  }

  lemma NotHeeded(events: seq<Event>, tool: string)
    requires |events| == 3 && DeltaFor(events[1], tool) && events[1].delta == ""
    requires events[0].ItemAdded? && CallFor(events[0].item, events[0].outputIndex, tool) &&
             events[0].item.value.arguments == "" && events[2].ItemDone?
    ensures !Heeded(events, tool)
  {
    assert forall h :: 0 <= h < 1 ==> !Offers(events, h, tool);
  }

  lemma HushedBatch(payloads: seq<Payload>, call: Item, response: Response)
    requires |payloads| == 4 && (forall i :: 0 <= i < 2 ==> GoesOn(payloads[i]) && DoneOf(payloads[i]) == [])
    requires forall i :: 0 <= i < 2 ==> DoneSize(payloads[i]) == 0
    requires payloads[2].Parsed? && payloads[2].exact && payloads[2].event == ItemDone(Some(call), 0)
    requires payloads[2].size <= MAX_REQUEST_BODY_BYTES
    requires payloads[3].Parsed? && payloads[3].exact && payloads[3].event == Terminal(Some(response))
    requires response.output == [call] || response.output == []
    ensures Batch(payloads) == CompletionOf(response.(output := [call]))
  {
    hide CompletionOf, Aggregate, StableSort;
    var p, dones := payloads, [Indexed(0, call)];
    assert p[1..][1..][1..] == [p[3]] + [];
    AggregateOne([], 0, p);
    AggregateOne([], 0, p[1..]);
    AggregateOne([], 0, p[1..][1..]);
    assert [] + DoneOf(p[0]) == [] && [] + DoneOf(p[1]) == [] && [] + DoneOf(p[2]) == dones;
    AggregateTerminal(dones, p[2].size, response, p[3].size, []);
    SortOfAscending(dones);
    assert Items(dones) == [call];
    assert Settle(response, dones) == response.(output := [call]);
  }
}
