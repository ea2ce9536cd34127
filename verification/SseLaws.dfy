/** Laws of the framing: printing then reading, and a consumer that stops early. */
module SseLaws {
  import opened Base
  import opened Sse

  const DONE: Bytes := [91, 68, 79, 78, 69, 93]  // "[DONE]"

  /** "data: X" and a blank line, as writeObject and writeDone send it. */
  function PrintEvent(payload: Bytes): Bytes {
    DATA_FIELD + [SPACE] + payload + [LF, LF]
  }

  function Print(payloads: seq<Bytes>): Bytes {
    if payloads == [] then [] else PrintEvent(payloads[0]) + Print(payloads[1..])
  }

  const PATIENT: Consumer := (history: seq<Bytes>) => Continue

  predicate Printable(limit: int, payload: Bytes) {
    LF !in payload && (payload != [] ==> payload[|payload| - 1] != CR) && |payload| + 6 <= limit
  }

  lemma ReadLine(limit: int, consume: Consumer, f: Frame, line: Bytes, rest: Bytes)
    requires LF !in line && Held(f) + |line| <= limit && EndLine(consume, f, line).Reading?
    ensures Read(limit, consume, f, line + [LF] + rest) ==
            Read(limit, consume, EndLine(consume, f, line).frame, rest)
  {
    var s := line + [LF] + rest;
    IndexOfUnique(s, LF, |line|);
    assert s[..|line|] == line && s[|line| + 1..] == rest;
  }

  lemma DataLine(delivered: seq<Bytes>, payload: Bytes)
    requires payload != [] ==> payload[|payload| - 1] != CR
    ensures EndLine(PATIENT, Frame(None, delivered), DATA_FIELD + [SPACE] + payload) ==
            Reading(Frame(Some(payload), delivered), [])
  {
  }

  lemma ReadPrinted(limit: int, delivered: seq<Bytes>, payload: Bytes, rest: Bytes)
    requires Printable(limit, payload)
    ensures Read(limit, PATIENT, Frame(None, delivered), PrintEvent(payload) + rest)
         == Read(limit, PATIENT, Frame(None, delivered + [payload]), rest)
  {
    hide Read;
    var line := DATA_FIELD + [SPACE] + payload;
    assert PrintEvent(payload) + rest == line + [LF] + ([] + [LF] + rest);
    DataLine(delivered, payload);
    ReadLine(limit, PATIENT, Frame(None, delivered), line, [] + [LF] + rest);
    ReadLine(limit, PATIENT, Frame(Some(payload), delivered), [], rest);
  }

  lemma {:induction false} ReadAllPrinted(limit: int, delivered: seq<Bytes>, payloads: seq<Bytes>)
    requires forall p :: p in payloads ==> Printable(limit, p)
    ensures Read(limit, PATIENT, Frame(None, delivered), Print(payloads)) ==
            Reading(Frame(None, delivered + payloads), [])
    decreases |payloads|
  {
    hide Read, PrintEvent;
    if payloads == [] {
      assert delivered + payloads == delivered;
      ReadNothing(limit, PATIENT, Frame(None, delivered), []);
    } else {
      ReadPrinted(limit, delivered, payloads[0], Print(payloads[1..]));
      ReadAllPrinted(limit, delivered + [payloads[0]], payloads[1..]);
      assert delivered + [payloads[0]] + payloads[1..] == delivered + payloads;
    }
  }

  /** What the translator prints, any reader of this framing gets back, then the DONE mark. */
  lemma PrintThenRead(limit: int, payloads: seq<Bytes>)
    requires limit >= 12 && forall p :: p in payloads ==> Printable(limit, p)
    ensures Stream(limit, PATIENT, Print(payloads + [DONE]), Eof) == (payloads + [DONE], Success)
  {
    ReadAllPrinted(limit, [], payloads + [DONE]);
    assert [] + (payloads + [DONE]) == payloads + [DONE];
  }

  /** Index of the first event at which the consumer stops, from index k on. */
  function FirstStop(consume: Consumer, events: seq<Bytes>, k: nat): (r: Option<nat>)
    ensures r.Some? ==> k <= r.value < |events| && !consume(events[..r.value + 1]).Continue?
    decreases |events| - k
  {
    if k >= |events| then None
    else if consume(events[..k + 1]).Continue? then FirstStop(consume, events, k + 1)
    else Some(k)
  }

  function DeliveredBy(o: Outcome): seq<Bytes> {
    if o.Reading? then o.frame.delivered else o.delivered
  }

  /** An outcome for a consumer that never stops, cut at the first event where `consume` does. */
  function CutShort(consume: Consumer, from: nat, patient: Outcome): Outcome {
    var all := DeliveredBy(patient);
    match FirstStop(consume, all, from)
    case None => patient
    case Some(k) => Halted(all[..k + 1], Stopped(consume(all[..k + 1])))
  }

  lemma {:induction false} FirstStopPrefix(consume: Consumer, a: seq<Bytes>, b: seq<Bytes>, k: nat)
    requires a <= b
    ensures FirstStop(consume, a, k).Some? ==> FirstStop(consume, b, k) == FirstStop(consume, a, k)
    ensures FirstStop(consume, a, k).None? && k <= |a| ==>
            FirstStop(consume, b, k) == FirstStop(consume, b, |a|)
    decreases |a| - k
  {
    if k < |a| {
      assert a[..k + 1] == b[..k + 1];
      FirstStopPrefix(consume, a, b, k + 1);
    }
  }

  lemma EndLineCut(consume: Consumer, f: Frame, raw: Bytes)
    ensures EndLine(consume, f, raw) == CutShort(consume, |f.delivered|, EndLine(PATIENT, f, raw))
    ensures f.delivered <= DeliveredBy(EndLine(PATIENT, f, raw)) && EndLine(PATIENT, f, raw).Reading?
  {
    var g := EndLine(PATIENT, f, raw).frame;
    if |g.delivered| > |f.delivered| { assert g.delivered[..|f.delivered| + 1] == g.delivered; }
  }

  /** Cutting a run after its first part, or later, is cutting the whole of it. */
  lemma CutShortChain(consume: Consumer, from: nat, first: seq<Bytes>, patient: Outcome)
    requires first <= DeliveredBy(patient) && from <= |first|
    ensures CutShort(consume, from, patient) ==
            match FirstStop(consume, first, from)
            case Some(k) => Halted(first[..k + 1], Stopped(consume(first[..k + 1])))
            case None => CutShort(consume, |first|, patient)
  {
    hide FirstStop;
    var all := DeliveredBy(patient);
    FirstStopPrefix(consume, first, all, from);
    var k := FirstStop(consume, first, from);
    if k.Some? { assert first[..k.value + 1] == all[..k.value + 1]; }
  }

  /** An outcome with nothing more delivered is not cut. */
  lemma NothingToCut(consume: Consumer, patient: Outcome)
    ensures CutShort(consume, |DeliveredBy(patient)|, patient) == patient
  {
  }

  /** One line and then the rest, each cut where the consumer stops, is the whole cut there. */
  lemma CutStep(limit: int, consume: Consumer, f: Frame, line: Bytes, rest: Bytes)
    requires var g := EndLine(PATIENT, f, line).frame;
             Read(limit, consume, g, rest) == CutShort(consume, |g.delivered|, Read(limit, PATIENT, g, rest)) &&
             g.delivered <= DeliveredBy(Read(limit, PATIENT, g, rest))
    ensures var g := EndLine(PATIENT, f, line).frame;
            var next := EndLine(consume, f, line);
            (if next.Halted? then next else Read(limit, consume, next.frame, rest)) ==
            CutShort(consume, |f.delivered|, Read(limit, PATIENT, g, rest))
    ensures f.delivered <= DeliveredBy(Read(limit, PATIENT, EndLine(PATIENT, f, line).frame, rest))
  {
    hide EndLine, Read, FirstStop;
    EndLineCut(consume, f, line);
    var g := EndLine(PATIENT, f, line).frame;
    CutShortChain(consume, |f.delivered|, g.delivered, Read(limit, PATIENT, g, rest));
  }

  lemma {:induction false} ReadCut(limit: int, consume: Consumer, f: Frame, s: Bytes)
    ensures Read(limit, consume, f, s) == CutShort(consume, |f.delivered|, Read(limit, PATIENT, f, s))
    ensures f.delivered <= DeliveredBy(Read(limit, PATIENT, f, s))
    decreases |s|
  {
    hide EndLine, FirstStop, CutShort, IndexOf;
    var n := IndexOf(s, LF);
    if n < |s| && Held(f) + n <= limit {
      EndLineCut(consume, f, s[..n]);
      var g := EndLine(PATIENT, f, s[..n]).frame;
      ReadCut(limit, consume, g, s[n + 1..]);
      CutStep(limit, consume, f, s[..n], s[n + 1..]);
    } else {
      NothingToCut(consume, Read(limit, PATIENT, f, s));
    }
  }

  lemma DispatchCut(consume: Consumer, f: Frame)
    ensures Dispatch(consume, f) == CutShort(consume, |f.delivered|, Dispatch(PATIENT, f))
    ensures Dispatch(PATIENT, f).Reading? && f.delivered <= DeliveredBy(Dispatch(PATIENT, f))
  {
    var all := DeliveredBy(Dispatch(PATIENT, f));
    assert all[..|all|] == all;
  }

  lemma AtEofCut(consume: Consumer, f: Frame, line: Bytes)
    ensures AtEof(consume, f, line) == CutShort(consume, |f.delivered|, AtEof(PATIENT, f, line))
    ensures AtEof(PATIENT, f, line).Reading? && f.delivered <= DeliveredBy(AtEof(PATIENT, f, line))
  {
    hide EndLine, Dispatch, FirstStop;
    if line == [] {
      DispatchCut(consume, f);
    } else {
      EndLineCut(consume, f, line);
      var g := EndLine(PATIENT, f, line).frame;
      DispatchCut(consume, g);
      CutShortChain(consume, |f.delivered|, g.delivered, Dispatch(PATIENT, g));
    }
  }

  /** A consumer that stops sees exactly a patient reader's events up to where it stops. */
  lemma StopEarly(limit: int, consume: Consumer, s: Bytes, ending: Ending)
    ensures var (all, result) := Stream(limit, PATIENT, s, ending);
            Stream(limit, consume, s, ending) ==
            match FirstStop(consume, all, 0)
            case None => (all, result)
            case Some(k) => (all[..k + 1], FailureResult(Stopped(consume(all[..k + 1]))))
  {
    hide Read, AtEof, FirstStop;
    ReadCut(limit, consume, START, s);
    var patient := Read(limit, PATIENT, START, s);
    if patient.Reading? && ending.Eof? {
      AtEofCut(consume, patient.frame, patient.line);
      CutShortChain(consume, 0, patient.frame.delivered, AtEof(PATIENT, patient.frame, patient.line));
    }
  }

  // ----- what is delivered fits -----

  predicate AllFit(limit: int, events: seq<Bytes>) {
    forall e :: e in events ==> |e| <= limit
  }

  predicate Fitting(limit: int, f: Frame) {
    AllFit(limit, f.delivered) && (f.data.Some? ==> |f.data.value| <= limit)
  }

  lemma DispatchFits(limit: int, consume: Consumer, f: Frame)
    requires Fitting(limit, f)
    ensures var r := Dispatch(consume, f);
            AllFit(limit, DeliveredBy(r)) && (r.Reading? ==> Fitting(limit, r.frame))
  {
  }

  lemma EndLineFits(limit: int, consume: Consumer, f: Frame, raw: Bytes)
    requires Fitting(limit, f) && Held(f) + |raw| <= limit
    ensures var r := EndLine(consume, f, raw);
            AllFit(limit, DeliveredBy(r)) && (r.Reading? ==> Fitting(limit, r.frame))
  {
    DispatchFits(limit, consume, f);
  }

  lemma {:induction false} ReadFits(limit: int, consume: Consumer, f: Frame, s: Bytes)
    requires Fitting(limit, f)
    ensures var r := Read(limit, consume, f, s);
            AllFit(limit, DeliveredBy(r)) &&
            (r.Reading? ==> Fitting(limit, r.frame) && (r.line == [] || Held(r.frame) + |r.line| <= limit))
    decreases |s|
  {
    hide EndLine, IndexOf, AllFit;
    var n := IndexOf(s, LF);
    if n < |s| && Held(f) + n <= limit {
      EndLineFits(limit, consume, f, s[..n]);
      var next := EndLine(consume, f, s[..n]);
      if next.Reading? { ReadFits(limit, consume, next.frame, s[n + 1..]); }
    }
  }

  /** No event longer than the limit is ever delivered. */
  lemma DeliveredFit(limit: int, consume: Consumer, s: Bytes, ending: Ending)
    ensures AllFit(limit, Stream(limit, consume, s, ending).0)
  {
    hide Read, EndLine, Dispatch;
    ReadFits(limit, consume, START, s);
    var r := Read(limit, consume, START, s);
    if r.Reading? {
      if r.line == [] {
        DispatchFits(limit, consume, r.frame);
      } else {
        EndLineFits(limit, consume, r.frame, r.line);
        var last := EndLine(consume, r.frame, r.line);
        if last.Reading? { DispatchFits(limit, consume, last.frame); }
      }
    }
  }
}
