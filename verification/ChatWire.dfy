/**
 Both paths on top of the framer, from bytes: copyChatCompletionsStream and
 aggregateResponsesSSE. JSON parsing is a parameter, any function from event data to payloads.
 */
module ChatWire {
  import opened Base
  import opened Sse
  import opened SseLaws
  import opened ChatTypes
  import opened ChatStream
  import opened ChatCore
  import opened ChatBatch
  import opened ChatAgreement
  import opened ChatTheorem
  import opened ChatGrammar
  import opened ChatFinish

  type Decoder = Bytes -> Payload

  function Decoded(decode: Decoder, events: seq<Bytes>): seq<Payload> {
    seq(|events|, i requires 0 <= i < |events| => decode(events[i]))
  }

  /** The translator's state after some payloads; it does not move once stopped. */
  function After(cfg: Config, st: State, payloads: seq<Payload>): Step
    decreases |payloads|
  {
    if payloads == [] then Ok(st)
    else
      var st1 :- Receive(cfg, st, payloads[0]);
      if st1.terminal then Ok(st1) else After(cfg, st1, payloads[1..])
  }

  predicate Open(s: Step) {
    s.Ok? && !s.st.terminal
  }

  /** What the consume callback answers, given every event it has been handed. */
  function Judge(cfg: Config, st: State, decode: Decoder): Consumer {
    (history: seq<Bytes>) =>
      var s := After(cfg, st, Decoded(decode, history));
      if s.Err? then Reject("consumer stopped") else if s.st.terminal then Complete else Continue
  }

  const OVERSIZED := "upstream SSE event exceeds size limit"
  const READ_FAILED := "upstream stream read failed"

  function EndOf(result: Result): StreamEnd {
    match result
    case Oversized => StreamError(OVERSIZED)
    case ReadFailed => StreamError(READ_FAILED)
    case _ => EndOfStream
  }

  /** The code: frame with the translator as consumer, then settle what is left. */
  function CopyStream(cfg: Config, st: State, decode: Decoder, limit: int, bytes: Bytes, ending: Ending): Step {
    var (delivered, result) := Stream(limit, Judge(cfg, st, decode), bytes, ending);
    var s := After(cfg, st, Decoded(decode, delivered));
    if Open(s) then Translate(cfg, s.st, [], EndOf(result)) else s
  }

  lemma {:induction false} TranslateAfter(cfg: Config, st: State, a: seq<Payload>, b: seq<Payload>, end: StreamEnd)
    requires !st.terminal
    ensures var s := After(cfg, st, a);
            Translate(cfg, st, a + b, end) == if Open(s) then Translate(cfg, s.st, b, end) else s
    decreases |a|
  {
    hide Receive, Fail;
    if a == [] {
      assert a + b == b;
    } else {
      assert (a + b)[0] == a[0] && (a + b)[1..] == a[1..] + b;
      var r := Receive(cfg, st, a[0]);
      if Open(r) { TranslateAfter(cfg, r.st, a[1..], b, end); }
    }
  }

  lemma {:induction false} NoStopIsOpen(consume: Consumer, events: seq<Bytes>, k: nat)
    requires FirstStop(consume, events, k).None? && k < |events|
    ensures consume(events).Continue?
    decreases |events| - k
  {
    if k + 1 == |events| {
      assert events[..k + 1] == events;
    } else {
      NoStopIsOpen(consume, events, k + 1);
    }
  }

  /**
   The bytes decide everything: the translation is that of the payloads a patient reader
   frames from the whole input, with the way that reading ends.
   */
  lemma CopyIsTranslate(cfg: Config, st: State, decode: Decoder, limit: int, bytes: Bytes, ending: Ending)
    requires !st.terminal
    ensures var (all, result) := Stream(limit, PATIENT, bytes, ending);
            CopyStream(cfg, st, decode, limit, bytes, ending) ==
            Translate(cfg, st, Decoded(decode, all), EndOf(result))
  {
    hide After, Translate, FirstStop, Stream;
    var judge := Judge(cfg, st, decode);
    StopEarly(limit, judge, bytes, ending);
    var (all, result) := Stream(limit, PATIENT, bytes, ending);
    match FirstStop(judge, all, 0)
    case None =>
      assert Open(After(cfg, st, Decoded(decode, all))) by {
        if all == [] { AfterNothing(cfg, st); } else { NoStopIsOpen(judge, all, 0); }
      }
      TranslateAfter(cfg, st, Decoded(decode, all), [], EndOf(result));
      assert Decoded(decode, all) + [] == Decoded(decode, all);
    case Some(k) =>
      assert !judge(all[..k + 1]).Continue?;
      TranslateAfter(cfg, st, Decoded(decode, all[..k + 1]), Decoded(decode, all[k + 1..]), EndOf(result));
      assert Decoded(decode, all[..k + 1]) + Decoded(decode, all[k + 1..]) == Decoded(decode, all);
  }

  lemma AfterNothing(cfg: Config, st: State)
    ensures After(cfg, st, []) == Ok(st)
  {
  }

  /** Decoding trims: a payload is no larger than its event. */
  ghost predicate Trims(decode: Decoder) {
    forall data :: decode(data).Parsed? ==> decode(data).size <= |data|
  }

  /** Neither path ever sees a payload over the framer's limit. */
  lemma PayloadsFit(decode: Decoder, limit: int, consume: Consumer, bytes: Bytes, ending: Ending)
    requires Trims(decode)
    ensures forall p :: p in Decoded(decode, Stream(limit, consume, bytes, ending).0) && p.Parsed? ==> p.size <= limit
  {
    hide Stream;
    DeliveredFit(limit, consume, bytes, ending);
    var events := Stream(limit, consume, bytes, ending).0;
    forall i | 0 <= i < |events| && decode(events[i]).Parsed? ensures decode(events[i]).size <= limit {
      assert events[i] in events;
    }
  }

  /**
   A stream that ends without a word from upstream fails, and says how the reading ended: too long
   an event, a failed read, or the end of input.
   */
  lemma SilentEnds(cfg: Config, now: int, decode: Decoder, limit: int, bytes: Bytes, ending: Ending)
    requires cfg.failAt.None?
    requires Stop(Decoded(decode, Stream(limit, PATIENT, bytes, ending).0)) ==
             |Decoded(decode, Stream(limit, PATIENT, bytes, ending).0)|
    ensures var r, result := CopyStream(cfg, Initial(cfg, now), decode, limit, bytes, ending),
                             Stream(limit, PATIENT, bytes, ending).1;
            && r.Err? && |r.st.sent| >= 2 && r.st.sent[|r.st.sent| - 2].chunk ==
                 Error(match result
                       case Oversized => "upstream SSE event exceeds size limit"
                       case ReadFailed => "upstream stream read failed"
                       case _ => "upstream stream ended without a terminal response event")
  {
    hide Live, Translate, Stream, CopyStream, Initial, NoDoneMark;
    var (all, result) := Stream(limit, PATIENT, bytes, ending);
    var payloads := Decoded(decode, all);
    CopyIsTranslate(cfg, Initial(cfg, now), decode, limit, bytes, ending) by { InitialIsOpen(cfg, now); }
    InitialIsLive(cfg, now);
    NoStopNoWord(payloads);
    StreamOutcome(cfg, Initial(cfg, now), payloads, EndOf(result));
    NeverWriteFailed(cfg, Initial(cfg, now), payloads, EndOf(result));
    FailureSays(cfg, Initial(cfg, now), payloads, EndOf(result));
  }

  lemma InitialIsOpen(cfg: Config, now: int)
    ensures !Initial(cfg, now).terminal
  {
  }

  lemma {:induction false} NoStopNoWord(payloads: seq<Payload>)
    requires Stop(payloads) == |payloads|
    ensures EndIndex(payloads, Stops) == |payloads|
  {
    if payloads != [] { NoStopNoWord(payloads[1..]); }
  }

  lemma NeverWriteFailed(cfg: Config, st: State, payloads: seq<Payload>, end: StreamEnd)
    requires cfg.failAt.None? && Live(cfg, st)
    ensures Translate(cfg, st, payloads, end).Err? ==> Translate(cfg, st, payloads, end).error != WriteFailed
  {
    hide Live, Translate, Orderly, Grammatical, AllEmitted;
    TranslateEnds(cfg, st, payloads, end);
  }

  // ----- the batch path on bytes -----

  lemma {:induction false} GatherAppend(g: Gathering, a: seq<Payload>, b: seq<Payload>)
    ensures GatherAll(g, a + b) == GatherAll(GatherAll(g, a), b)
    decreases |a|
  {
    hide GatherOne;
    if a == [] || !g.Collecting? {
      assert a == [] ==> a + b == b;
    } else {
      assert (a + b)[0] == a[0] && (a + b)[1..] == a[1..] + b;
      GatherAppend(GatherOne(g, a[0]), a[1..], b);
    }
  }

  function Collector(decode: Decoder): Consumer {
    (history: seq<Bytes>) =>
      match GatherAll(Collecting([], 0), Decoded(decode, history))
      case Collecting(_, _) => Continue
      case Final(_) => Complete
      case Abandoned => Reject("aggregation failed")
  }

  /** aggregateResponsesSSE: any framing error, or no final response, is an error. */
  function AggregateStream(decode: Decoder, limit: int, bytes: Bytes, ending: Ending): Option<Response> {
    var (delivered, result) := Stream(limit, Collector(decode), bytes, ending);
    if result.Success? then Gathered(GatherAll(Collecting([], 0), Decoded(decode, delivered))) else None
  }

  lemma AggregateStreamIsAggregate(decode: Decoder, limit: int, bytes: Bytes, ending: Ending)
    ensures AggregateStream(decode, limit, bytes, ending) ==
            Aggregate([], 0, Decoded(decode, Stream(limit, PATIENT, bytes, ending).0))
  {
    hide GatherAll, FirstStop, Stream;
    var collector := Collector(decode);
    StopEarly(limit, collector, bytes, ending);
    var (all, result) := Stream(limit, PATIENT, bytes, ending);
    match FirstStop(collector, all, 0)
    case None =>
      if all == [] { GatherNothing(); } else { NoStopIsOpen(collector, all, 0); }
    case Some(k) =>
      GatherAppend(Collecting([], 0), Decoded(decode, all[..k + 1]), Decoded(decode, all[k + 1..]));
      assert Decoded(decode, all[..k + 1]) + Decoded(decode, all[k + 1..]) == Decoded(decode, all);
      GatherStopped(GatherAll(Collecting([], 0), Decoded(decode, all[..k + 1])), Decoded(decode, all[k + 1..]));
  }

  lemma GatherNothing()
    ensures GatherAll(Collecting([], 0), []) == Collecting([], 0)
  {
  }

  /**
   From bytes to answers: any input whose frames decode to a successful upstream run gives,
   however it is cut and whatever follows the terminal event, a stream that reassembles to
   the batch completion.
   */
  lemma WireAgreement(cfg: Config, now: int, decode: Decoder, limit: int, bytes: Bytes, ending: Ending,
                      payloads: seq<Payload>, runs: seq<ItemRun>, items: seq<Item>, response: Response, size: nat,
                      rest: seq<Payload>)
    requires cfg.failAt.None? && UpstreamRun(payloads, runs, items, response)
    requires Decoded(decode, Stream(limit, PATIENT, bytes, ending).0) ==
             payloads + [Parsed(Terminal(Some(response)), size, true)] + rest
    ensures var stream := CopyStream(cfg, Initial(cfg, now), decode, limit, bytes, ending);
            var final := AggregateStream(decode, limit, bytes, ending);
            stream.Ok? && final.Some? && CompletionOf(final.value).Some? &&
            SameAnswer(Reassemble(stream.st.sent), CompletionOf(final.value).value)
  {
    hide UpstreamRun, Translate, Aggregate, Stream, CopyStream, AggregateStream, CompletionOf, SameAnswer;
    var (all, result) := Stream(limit, PATIENT, bytes, ending);
    CopyIsTranslate(cfg, Initial(cfg, now), decode, limit, bytes, ending);
    AggregateStreamIsAggregate(decode, limit, bytes, ending);
    StreamAgreesWithBatch(cfg, now, payloads, runs, items, response, size, rest, EndOf(result));
  }
}
