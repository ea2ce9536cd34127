/**
 The batch half: aggregateResponsesSSE (proxy.go) collects a finished response and
 chatCompletionFromResponse (chat_completions.go) translates it once.
 */
module ChatBatch {
  import opened Base
  import opened ChatTypes
  import opened ChatCore

  /** What a piece of output says, in order: texts, refusals and tool calls. */
  datatype Said = Said(texts: seq<string>, refusals: seq<string>, calls: seq<CallOut>) {
    function Plus(other: Said): Said {
      Said(texts + other.texts, refusals + other.refusals, calls + other.calls)
    }
  }

  const NOTHING := Said([], [], [])

  function PartSaid(part: Part): Said {
    match part
    case Text(text) => Said([text], [], [])
    case Refusal(text) => Said([], [text], [])
    case OtherPart => NOTHING
  }

  function PartsSaid(parts: seq<Part>): Said {
    if parts == [] then NOTHING else PartSaid(parts[0]).Plus(PartsSaid(parts[1..]))
  }

  function ItemSaid(item: Item): Said {
    match item
    case Message(parts) => PartsSaid(parts)
    case Call(id, callId, name, arguments) => Said([], [], [CallOut(ValueOr(callId, id), name, arguments)])
    case OtherItem => NOTHING
  }

  function ItemsSaid(items: seq<Item>): Said {
    if items == [] then NOTHING else ItemSaid(items[0]).Plus(ItemsSaid(items[1..]))
  }

  lemma PlusLaws(a: Said, b: Said, c: Said)
    ensures a.Plus(NOTHING) == a && NOTHING.Plus(a) == a
    ensures a.Plus(b).Plus(c) == a.Plus(b.Plus(c))
  {
  }

  lemma {:induction false} PartsSaidAppend(a: seq<Part>, b: seq<Part>)
    ensures PartsSaid(a + b) == PartsSaid(a).Plus(PartsSaid(b))
  {
    if a == [] {
      assert a + b == b;
      PlusLaws(PartsSaid(b), NOTHING, NOTHING);
    } else {
      assert (a + b)[1..] == a[1..] + b;
      PartsSaidAppend(a[1..], b);
      PlusLaws(PartSaid(a[0]), PartsSaid(a[1..]), PartsSaid(b));
    }
  }

  lemma {:induction false} ItemsSaidAppend(a: seq<Item>, b: seq<Item>)
    ensures ItemsSaid(a + b) == ItemsSaid(a).Plus(ItemsSaid(b))
  {
    if a == [] {
      assert a + b == b;
      PlusLaws(ItemsSaid(b), NOTHING, NOTHING);
    } else {
      assert (a + b)[1..] == a[1..] + b;
      ItemsSaidAppend(a[1..], b);
      PlusLaws(ItemSaid(a[0]), ItemsSaid(a[1..]), ItemsSaid(b));
    }
  }

  lemma PartsSaidSnoc(parts: seq<Part>, j: nat)
    requires j < |parts|
    ensures PartsSaid(parts[..j + 1]) == PartsSaid(parts[..j]).Plus(PartSaid(parts[j]))
  {
    assert parts[..j + 1] == parts[..j] + [parts[j]];
    PartsSaidAppend(parts[..j], [parts[j]]);
    PlusLaws(PartSaid(parts[j]), NOTHING, NOTHING);
  }

  lemma ItemsSaidSnoc(items: seq<Item>, k: nat)
    requires k < |items|
    ensures ItemsSaid(items[..k + 1]) == ItemsSaid(items[..k]).Plus(ItemSaid(items[k]))
  {
    assert items[..k + 1] == items[..k] + [items[k]];
    ItemsSaidAppend(items[..k], [items[k]]);
    PlusLaws(ItemSaid(items[k]), NOTHING, NOTHING);
  }

  /** Blank arguments become an empty JSON object. */
  function Defaulted(calls: seq<CallOut>): seq<CallOut> {
    seq(|calls|, i requires 0 <= i < |calls| => calls[i].(arguments := ValueOr(calls[i].arguments, "{}")))
  }

  lemma DefaultedSnoc(calls: seq<CallOut>, call: CallOut)
    ensures Defaulted(calls + [call]) ==
            Defaulted(calls) + [call.(arguments := ValueOr(call.arguments, "{}"))]
  {
  }

  lemma {:induction false} PartsSaidNoCalls(parts: seq<Part>)
    ensures PartsSaid(parts).calls == []
  {
    if parts != [] { PartsSaidNoCalls(parts[1..]); }
  }

  datatype Completion = Completion(content: Option<string>, refusal: Option<string>,
                                   calls: seq<CallOut>, finish: string)

  function CompletionOf(response: Response): Option<Completion> {
    if response.status.Failed? || response.status.Cancelled? then None
    else
      var said := ItemsSaid(response.output);
      Some(Completion(
        if said.texts == [] && said.calls != [] then None else Some(Join(said.texts)),
        if said.refusals == [] then None else Some(Join(said.refusals)),
        Defaulted(said.calls),
        FinishReason(response.status, said.calls != [])))
  }

  method ChatCompletionFromResponse(response: Response) returns (r: Option<Completion>)
    ensures r == CompletionOf(response)
  {
    if response.status.Failed? || response.status.Cancelled? { return None; }
    var texts: seq<string>, refusals: seq<string>, calls: seq<CallOut> := [], [], [];
    var output := response.output;
    ghost var said := NOTHING;
    for i := 0 to |output|
      invariant said == ItemsSaid(output[..i])
      invariant texts == said.texts && refusals == said.refusals && calls == Defaulted(said.calls)
    {
      hide ItemsSaid, PartsSaid, Defaulted, ValueOr;
      ItemsSaidSnoc(output, i);
      match output[i] {
        case Message(parts) =>
          texts, refusals := CollectParts(parts, texts, refusals);
          PartsSaidNoCalls(parts);
          assert said.calls + [] == said.calls;
        case Call(id, callId, name, arguments) =>
          calls := calls + [CallOut(ValueOr(callId, id), name, ValueOr(arguments, "{}"))];
          DefaultedSnoc(said.calls, CallOut(ValueOr(callId, id), name, arguments));
        case OtherItem =>
          PlusLaws(said, NOTHING, NOTHING);
      }
      said := ItemsSaid(output[..i + 1]);
    }
    assert output[..|output|] == output;
    r := Some(Completion(
      if |texts| == 0 && |calls| > 0 then None else Some(Join(texts)),
      if |refusals| > 0 then Some(Join(refusals)) else None,
      calls, FinishReason(response.status, |calls| > 0)));
  }

  /** The inner loop of chatCompletionFromResponse over one message. */
  method CollectParts(parts: seq<Part>, texts0: seq<string>, refusals0: seq<string>)
    returns (texts: seq<string>, refusals: seq<string>)
    ensures texts == texts0 + PartsSaid(parts).texts && refusals == refusals0 + PartsSaid(parts).refusals
  {
    texts, refusals := texts0, refusals0;
    for j := 0 to |parts|
      invariant texts == texts0 + PartsSaid(parts[..j]).texts
      invariant refusals == refusals0 + PartsSaid(parts[..j]).refusals
    {
      hide PartsSaid;
      PartsSaidSnoc(parts, j);
      match parts[j] {
        case Text(text) => texts := texts + [text];
        case Refusal(text) => refusals := refusals + [text];
        case OtherPart =>
      }
    }
    assert parts[..|parts|] == parts;
  }

  // ----- aggregation -----

  const MAX_REQUEST_BODY_BYTES := 128 * 1024 * 1024

  datatype Indexed = Indexed(index: int, item: Item)

  /** Insertion behind equal keys: repeated, it is the stable sort of sort.SliceStable. */
  function Insert(sorted: seq<Indexed>, x: Indexed): seq<Indexed> {
    if sorted == [] || x.index < sorted[0].index then [x] + sorted
    else [sorted[0]] + Insert(sorted[1..], x)
  }

  function StableSort(items: seq<Indexed>): seq<Indexed> {
    if items == [] then [] else Insert(StableSort(items[..|items| - 1]), items[|items| - 1])
  }

  function Items(items: seq<Indexed>): seq<Item> {
    seq(|items|, i requires 0 <= i < |items| => items[i].item)
  }

  /** A nonempty final output is authoritative; done items stand in for an empty one. */
  function Settle(final: Response, items: seq<Indexed>): Response {
    if final.output == [] && items != [] then final.(output := Items(StableSort(items))) else final
  }

  /** The aggregating callback's state: collecting, done with a final response, or failed. */
  datatype Gathering = Collecting(items: seq<Indexed>, retained: nat) | Final(response: Response) | Abandoned

  function GatherOne(g: Gathering, p: Payload): Gathering
    requires g.Collecting?
  {
    match p
    case Blank => g
    case DoneMark => g
    case Malformed => Abandoned
    case Parsed(_, _, false) => g
    case Parsed(event, size, true) =>
      match event
      case ItemDone(item, k) =>
        if g.retained + size > MAX_REQUEST_BODY_BYTES then Abandoned
        else Collecting(if item.Some? then g.items + [Indexed(k, item.value)] else g.items, g.retained + size)
      case Terminal(response) => if response.Some? then Final(Settle(response.value, g.items)) else Abandoned
      case ResponseFailed(response) => if response.Some? then Final(Settle(response.value, g.items)) else Abandoned
      case ErrorEvent(_, _) => Abandoned
      case _ => g
  }

  function GatherAll(g: Gathering, payloads: seq<Payload>): Gathering
    decreases |payloads|
  {
    if payloads == [] || !g.Collecting? then g else GatherAll(GatherOne(g, payloads[0]), payloads[1..])
  }

  lemma GatherStopped(g: Gathering, payloads: seq<Payload>)
    requires !g.Collecting?
    ensures GatherAll(g, payloads) == g
  {
  }

  function Gathered(g: Gathering): Option<Response> {
    if g.Final? then Some(g.response) else None
  }

  /** aggregateResponsesSSE from a state with some items already retained; None is an error. */
  function Aggregate(items: seq<Indexed>, retained: nat, payloads: seq<Payload>): Option<Response> {
    Gathered(GatherAll(Collecting(items, retained), payloads))
  }

  method AggregateResponses(payloads: seq<Payload>) returns (final: Option<Response>)
    ensures final == Aggregate([], 0, payloads)
  {
    hide Settle;
    var items: seq<Indexed>, retained: nat := [], 0;
    assert payloads[0..] == payloads;
    for i := 0 to |payloads|
      invariant GatherAll(Collecting([], 0), payloads) == GatherAll(Collecting(items, retained), payloads[i..])
    {
      assert payloads[i..][1..] == payloads[i + 1..];
      match payloads[i] {
        case Blank =>
        case DoneMark =>
        case Malformed => return None;
        case Parsed(_, _, false) =>
        case Parsed(event, size, true) =>
          match event {
            case ItemDone(item, k) =>
              if retained + size > MAX_REQUEST_BODY_BYTES { return None; }
              retained := retained + size;
              if item.Some? { items := items + [Indexed(k, item.value)]; }
            case Terminal(response) =>
              return if response.Some? then Some(Settle(response.value, items)) else None;
            case ResponseFailed(response) =>
              return if response.Some? then Some(Settle(response.value, items)) else None;
            case ErrorEvent(_, _) => return None;
            case _ =>
          }
      }
    }
    return None;
  }

  /** The whole batch path. */
  function Batch(payloads: seq<Payload>): Option<Completion> {
    var final := Aggregate([], 0, payloads);
    if final.None? then None else CompletionOf(final.value)
  }

  predicate Ascending(items: seq<Indexed>) {
    forall i, j :: 0 <= i < j < |items| ==> items[i].index <= items[j].index
  }

  lemma {:induction false} InsertLast(sorted: seq<Indexed>, x: Indexed)
    requires forall i :: 0 <= i < |sorted| ==> sorted[i].index <= x.index
    ensures Insert(sorted, x) == sorted + [x]
  {
    if sorted != [] {
      InsertLast(sorted[1..], x);
      assert sorted == [sorted[0]] + sorted[1..];
    }
  }

  lemma {:induction false} SortOfAscending(items: seq<Indexed>)
    requires Ascending(items)
    ensures StableSort(items) == items
  {
    if items != [] {
      var n := |items| - 1;
      SortOfAscending(items[..n]);
      InsertLast(items[..n], items[n]);
      assert items == items[..n] + [items[n]];
    }
  }

  function Matching(x: Indexed, index: int): seq<Indexed> {
    if x.index == index then [x] else []
  }

  /** The items with one index, in the order they have. */
  function Having(items: seq<Indexed>, index: int): seq<Indexed> {
    if items == [] then [] else Matching(items[0], index) + Having(items[1..], index)
  }

  lemma {:induction false} InsertAscends(sorted: seq<Indexed>, x: Indexed)
    requires Ascending(sorted)
    ensures Ascending(Insert(sorted, x))
    ensures forall y :: y in Insert(sorted, x) ==> y == x || y in sorted
  {
    if sorted != [] && x.index >= sorted[0].index {
      InsertAscends(sorted[1..], x);
      assert forall y :: y in sorted[1..] ==> y.index >= sorted[0].index;
    }
  }

  lemma HavingCons(x: Indexed, rest: seq<Indexed>, index: int)
    ensures Having([x] + rest, index) == Matching(x, index) + Having(rest, index)
  {
    assert ([x] + rest)[1..] == rest;
  }

  lemma Regroup(a: seq<Indexed>, b: seq<Indexed>, c: seq<Indexed>)
    ensures a + b + c == a + (b + c)
  {
  }

  lemma {:induction false} InsertBehind(sorted: seq<Indexed>, x: Indexed, index: int)
    requires Ascending(sorted)
    ensures Having(Insert(sorted, x), index) == Having(sorted, index) + Matching(x, index)
  {
    if sorted == [] || x.index < sorted[0].index {
      HavingCons(x, sorted, index);
      if x.index == index { NoneHave(sorted, index); }
    } else {
      hide Matching;
      HavingCons(sorted[0], Insert(sorted[1..], x), index);
      InsertBehind(sorted[1..], x, index);
      Regroup(Matching(sorted[0], index), Having(sorted[1..], index), Matching(x, index));
    }
  }

  lemma {:induction false} NoneHave(items: seq<Indexed>, index: int)
    requires forall i :: 0 <= i < |items| ==> items[i].index > index
    ensures Having(items, index) == []
  {
    if items != [] { NoneHave(items[1..], index); }
  }

  lemma {:induction false} HavingSnoc(items: seq<Indexed>, x: Indexed, index: int)
    ensures Having(items + [x], index) == Having(items, index) + Matching(x, index)
  {
    hide Matching;
    if items == [] {
      HavingCons(x, [], index);
    } else {
      assert items + [x] == [items[0]] + (items[1..] + [x]);
      HavingCons(items[0], items[1..] + [x], index);
      HavingSnoc(items[1..], x, index);
      Regroup(Matching(items[0], index), Having(items[1..], index), Matching(x, index));
    }
  }

  /** The done items come out in output order, none lost, and stable within an index. */
  lemma {:induction false} SortIsStable(items: seq<Indexed>, index: int)
    ensures Ascending(StableSort(items)) && Having(StableSort(items), index) == Having(items, index)
  {
    if items != [] {
      var n := |items| - 1;
      SortIsStable(items[..n], index);
      InsertAscends(StableSort(items[..n]), items[n]);
      InsertBehind(StableSort(items[..n]), items[n], index);
      HavingSnoc(items[..n], items[n], index);
      assert items == items[..n] + [items[n]];
    }
  }
}
