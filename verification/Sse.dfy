/**
 Server-sent event framing (sse.go).

 `Read` is the reference: it looks at a whole byte string at once, line by line, and
 knows nothing of reads. `SseFramer` is the code's buffer machine; its methods are proved
 to agree with `Read` on everything fed so far, so how the bytes were cut cannot matter.
 */
module Sse {
  import opened Base

  /** What a consumer answers: nil, errSSEComplete, or some other error. */
  datatype Verdict = Continue | Complete | Reject(reason: string)

  /** A consumer's answer to an event may depend on every event delivered up to it. */
  type Consumer = seq<Bytes> -> Verdict

  const DATA_FIELD: Bytes := [100, 97, 116, 97, 58]  // "data:"

  /** The part of a framer that outlives a line: the open event and the events delivered. */
  datatype Frame = Frame(data: Option<Bytes>, delivered: seq<Bytes>)

  datatype Failure = TooLong | Stopped(verdict: Verdict)

  datatype Outcome =
    | Reading(frame: Frame, line: Bytes)
    | Halted(delivered: seq<Bytes>, failure: Failure)

  const START := Frame(None, [])

  function Held(f: Frame): nat {
    if f.data.Some? then |f.data.value| else 0
  }

  /** A blank line closes the open event, if there is one. */
  function Dispatch(consume: Consumer, f: Frame): (r: Outcome)
    ensures r.Reading? ==> r.line == []
  {
    if f.data.None? then Reading(f, [])
    else
      var delivered := f.delivered + [f.data.value];
      var verdict := consume(delivered);
      if verdict.Continue? then Reading(Frame(None, delivered), [])
      else Halted(delivered, Stopped(verdict))
  }

  function FieldValue(line: Bytes): Bytes
    requires DATA_FIELD <= line
  {
    if |line| > 5 && line[5] == SPACE then line[6..] else line[5..]
  }

  function EndLine(consume: Consumer, f: Frame, raw: Bytes): (r: Outcome)
    ensures r.Reading? ==> r.line == []
  {
    var line := TrimSuffixCR(raw);
    if line == [] then Dispatch(consume, f)
    else if DATA_FIELD <= line then
      var value := FieldValue(line);
      var data := if f.data.Some? then f.data.value + [LF] + value else value;
      Reading(f.(data := Some(data)), [])
    else Reading(f, [])
  }

  /** The reference: what reading exactly the bytes s leaves behind, starting from f. */
  function Read(limit: int, consume: Consumer, f: Frame, s: Bytes): Outcome
    decreases |s|
  {
    var n := IndexOf(s, LF);
    if s != [] && Held(f) + n > limit then Halted(f.delivered, TooLong)
    else if n == |s| then Reading(f, s)
    else
      var next := EndLine(consume, f, s[..n]);
      if next.Halted? then next else Read(limit, consume, next.frame, s[n + 1..])
  }

  datatype Ending = Eof | ReadError
  datatype Result = Success | Rejected(reason: string) | Oversized | ReadFailed

  function FailureResult(failure: Failure): Result
    requires failure.Stopped? ==> !failure.verdict.Continue?
  {
    match failure
    case TooLong => Oversized
    case Stopped(Complete) => Success
    case Stopped(Reject(reason)) => Rejected(reason)
  }

  /** End of input flushes an unfinished line and then an unfinished event. */
  function AtEof(consume: Consumer, f: Frame, line: Bytes): Outcome {
    var last := if line == [] then Reading(f, []) else EndLine(consume, f, line);
    if last.Halted? then last else Dispatch(consume, last.frame)
  }

  /** The whole of readSSE as a function of the bytes and the way they end. */
  function Stream(limit: int, consume: Consumer, s: Bytes, ending: Ending): (seq<Bytes>, Result) {
    ReadHaltsHonestly(limit, consume, START, s);
    match Read(limit, consume, START, s)
    case Halted(delivered, failure) => (delivered, FailureResult(failure))
    case Reading(f, line) =>
      if ending.ReadError? then (f.delivered, ReadFailed)
      else match AtEof(consume, f, line)
        case Reading(g, _) => (g.delivered, Success)
        case Halted(delivered, failure) => (delivered, FailureResult(failure))
  }

  lemma {:induction false} ReadHaltsHonestly(limit: int, consume: Consumer, f: Frame, s: Bytes)
    ensures var r := Read(limit, consume, f, s);
            r.Halted? && r.failure.Stopped? ==> !r.failure.verdict.Continue?
    decreases |s|
  {
    hide EndLine, IndexOf;
    var n := IndexOf(s, LF);
    if n < |s| && Held(f) + n <= limit {
      var next := EndLine(consume, f, s[..n]);
      EndLineHonest(consume, f, s[..n]);
      if next.Reading? { ReadHaltsHonestly(limit, consume, next.frame, s[n + 1..]); }
    }
  }

  lemma EndLineHonest(consume: Consumer, f: Frame, raw: Bytes)
    ensures var r := EndLine(consume, f, raw); r.Halted? ==> r.failure.Stopped? && !r.failure.verdict.Continue?
  {
  }

  /** Read, unfolded once at the first newline. */
  lemma ReadOnce(limit: int, consume: Consumer, f: Frame, s: Bytes, n: nat)
    requires s != [] && n == IndexOf(s, LF)
    ensures Read(limit, consume, f, s) ==
            if Held(f) + n > limit then Halted(f.delivered, TooLong)
            else if n == |s| then Reading(f, s)
            else
              var next := EndLine(consume, f, s[..n]);
              if next.Halted? then next else Read(limit, consume, next.frame, s[n + 1..])
  {
    hide EndLine, IndexOf;
  }

  /** Reading a then b is reading a + b: the law that makes the cut points irrelevant. */
  lemma {:induction false} ReadAppend(limit: int, consume: Consumer, f: Frame, a: Bytes, b: Bytes)
    ensures Read(limit, consume, f, a + b) ==
            match Read(limit, consume, f, a)
            case Halted(_, _) => Read(limit, consume, f, a)
            case Reading(g, line) => Read(limit, consume, g, line + b)
    decreases |a|
  {
    var n := IndexOf(a, LF);
    hide EndLine;
    if n == |a| {
      assert forall i :: 0 <= i < |a| ==> (a + b)[i] == a[i];
    } else {
      IndexOfUnique(a + b, LF, n);
      assert (a + b)[..n] == a[..n];
      var next := EndLine(consume, f, a[..n]);
      if next.Reading? {
        assert (a + b)[n + 1..] == a[n + 1..] + b;
        ReadAppend(limit, consume, next.frame, a[n + 1..], b);
      }
    }
  }

  /** One turn of the feed loop: a partial line meets the rest of a chunk. */
  lemma ReadTurn(limit: int, consume: Consumer, f: Frame, line: Bytes, rest: Bytes)
    requires LF !in line && rest != []
    ensures var n := IndexOf(rest, LF);
            Read(limit, consume, f, line + rest) ==
            if Held(f) + |line| + n > limit then Halted(f.delivered, TooLong)
            else if n == |rest| then Reading(f, line + rest[..n])
            else
              var next := EndLine(consume, f, line + rest[..n]);
              if next.Halted? then next else Read(limit, consume, next.frame, rest[n + 1..])
  {
    hide EndLine, IndexOf, Read;
    var n := IndexOf(rest, LF);
    IndexOfPast(line, rest, LF);
    ReadOnce(limit, consume, f, line + rest, |line| + n);
    UpToPrefix(line, rest, n);
    if n < |rest| { PastPrefix(line, rest, n + 1); }
  }

  lemma ReadNothing(limit: int, consume: Consumer, f: Frame, line: Bytes)
    requires LF !in line && (line == [] || Held(f) + |line| <= limit)
    ensures Read(limit, consume, f, line) == Reading(f, line)
  {
  }

  /** No line or event under construction ever exceeds the limit. */
  lemma {:induction false} BufferBounded(limit: int, consume: Consumer, f: Frame, s: Bytes)
    requires Held(f) <= limit || (f.data.None? && limit < 0)
    ensures var r := Read(limit, consume, f, s);
            r.Reading? ==> LF !in r.line && (Held(r.frame) + |r.line| <= limit || (s == [] && r == Reading(f, [])))
    decreases |s|
  {
    var n := IndexOf(s, LF);
    if s != [] && n < |s| && Held(f) + n <= limit {
      var next := EndLine(consume, f, s[..n]);
      if next.Reading? { BufferBounded(limit, consume, next.frame, s[n + 1..]); }
    }
  }

  /** The framer of sse.go. `delivered` records the calls made to consume; `fed` is ghost. */
  class SseFramer {
    const limit: int
    const consume: Consumer
    var line: Bytes
    var data: Bytes
    var hasData: bool
    var delivered: seq<Bytes>
    ghost var fed: Bytes

    constructor (limit: int, consume: Consumer)
      ensures Valid() && fed == [] && this.limit == limit && this.consume == consume
    {
      this.limit := limit;
      this.consume := consume;
      line, data, hasData, delivered := [], [], false, [];
      fed := [];
      new;
      ReadNothing(limit, consume, START, []);
    }

    ghost function Open(): Frame
      reads this
    {
      Frame(if hasData then Some(data) else None, delivered)
    }

    ghost predicate Bounded()
      reads this
    {
      (!hasData ==> data == []) && LF !in line &&
      (|line| + |data| <= limit || (limit < 0 && line == [] && data == [] && !hasData))
    }

    /** The buffers are exactly what the reference leaves after every byte fed so far. */
    ghost predicate Valid()
      reads this
    {
      Bounded() && Read(limit, consume, START, fed) == Reading(Open(), line)
    }

    method FlushEvent() returns (err: Option<Failure>)
      requires !hasData ==> data == []
      modifies this`data, this`hasData, this`delivered
      ensures data == [] && !hasData
      ensures Dispatch(consume, old(Open())) ==
              if err.None? then Reading(Open(), []) else Halted(delivered, err.value)
    {
      if !hasData { return None; }
      delivered := delivered + [data];
      var verdict := consume(delivered);
      data, hasData := [], false;
      return if verdict.Continue? then None else Some(Stopped(verdict));
    }

    /** The size check here repeats the one in feed: it is proved never to fire. */
    method FlushLine() returns (err: Option<Failure>)
      requires Bounded() && |line| + |data| <= limit
      modifies this`line, this`data, this`hasData, this`delivered
      ensures Bounded() && line == [] && |data| <= limit
      ensures err != Some(TooLong)
      ensures EndLine(consume, old(Open()), old(line)) ==
              if err.None? then Reading(Open(), []) else Halted(delivered, err.value)
    {
      var l := TrimSuffixCR(line);
      if |l| == 0 {
        err := FlushEvent();
        line := [];
        return;
      }
      if DATA_FIELD <= l {
        var value := FieldValue(l);
        var extra := |value| + if hasData then 1 else 0;
        if |data| + extra > limit {
          line := [];
          return Some(TooLong);
        }
        if hasData { data := data + [LF]; }
        assert !hasData ==> data + value == value;
        data := data + value;
        hasData := true;
      }
      line := [];
      return None;
    }

    method Feed(chunk: Bytes) returns (err: Option<Failure>)
      requires Valid()
      modifies this
      ensures err.None? ==> Valid() && fed == old(fed) + chunk
      ensures err.Some? ==> Read(limit, consume, START, old(fed) + chunk) == Halted(delivered, err.value)
    {
      hide Read, EndLine, Dispatch;
      ghost var goal := Read(limit, consume, START, fed + chunk);
      assert goal == Read(limit, consume, Open(), line + chunk) by {
        ReadAppend(limit, consume, START, fed, chunk);
      }
      fed := fed + chunk;
      var rest := chunk;
      while |rest| > 0
        invariant Bounded()
        invariant fed == old(fed) + chunk
        invariant goal == Read(limit, consume, Open(), line + rest)
        decreases |rest|
      {
        var n := IndexOf(rest, LF);
        ghost var open := Open();
        ReadTurn(limit, consume, open, line, rest);
        if |line| + |data| + n > limit {
          return Some(TooLong);
        }
        line := line + rest[..n];
        if n == |rest| { break; }
        rest := rest[n + 1..];
        err := FlushLine();
        if err.Some? { return; }
        assert line + rest == rest;
      }
      assert goal == Reading(Open(), line) by {
        if rest == [] {
          assert line + rest == line;
          ReadNothing(limit, consume, Open(), line);
        }
      }
      return None;
    }

    method Finish() returns (err: Option<Failure>)
      requires Valid()
      modifies this
      ensures AtEof(consume, old(Open()), old(line)) ==
              if err.None? then Reading(Open(), []) else Halted(delivered, err.value)
    {
      if |line| > 0 {
        err := FlushLine();
        if err.Some? { return; }
      }
      err := FlushEvent();
    }
  }

  /** readSSE over any cutting of the input into pieces, empty ones included. */
  method ReadSSE(pieces: seq<Bytes>, ending: Ending, limit: int, consume: Consumer)
    returns (delivered: seq<Bytes>, result: Result)
    ensures (delivered, result) == Stream(limit, consume, Join(pieces), ending)
  {
    hide Read;
    var f := new SseFramer(limit, consume);
    assert pieces[..0] == [];
    for i := 0 to |pieces|
      invariant f.Valid() && f.limit == limit && f.consume == consume && fresh(f)
      invariant f.fed == Join(pieces[..i])
    {
      assert pieces[..i + 1] == pieces[..i] + [pieces[i]];
      JoinSnoc(pieces[..i], pieces[i]);
      var err := f.Feed(pieces[i]);
      if err.Some? {
        assert pieces == pieces[..i + 1] + pieces[i + 1..];
        JoinAppend(pieces[..i + 1], pieces[i + 1..]);
        ReadAppend(limit, consume, START, Join(pieces[..i + 1]), Join(pieces[i + 1..]));
        ReadHaltsHonestly(limit, consume, START, Join(pieces));
        return f.delivered, FailureResult(err.value);
      }
    }
    assert pieces[..|pieces|] == pieces;
    if ending.ReadError? { return f.delivered, ReadFailed; }
    var err := f.Finish();
    return f.delivered, if err.None? then Success else FailureResult(err.value);
  }
}
