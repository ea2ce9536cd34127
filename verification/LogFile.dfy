/**
 The request log as the code has it (persist.go, requests.go): objects, buffers and loops,
 each proved to compute the functions that the log theorems are about.
 */
module LogFile {
  import opened Base
  import opened LogScan
  import opened LogWindow
  import opened LogAppend
  import opened LogRun

  // ----- reading -----

  /** The lines bufio's ReadLine yields, newline and one carriage return before it removed. */
  function RawLines(s: Bytes): seq<Bytes>
    decreases |s|
  {
    if s == [] then []
    else
      var n := IndexOf(s, LF);
      if n == |s| then [s] else [TrimSuffixCR(s[..n])] + RawLines(s[n + 1..])
  }

  function ParseLines(c: Codec, lines: seq<Bytes>): seq<Entry> {
    if lines == [] then [] else ParseLines(c, lines[..|lines| - 1]) + ParseLine(c, lines[|lines| - 1])
  }

  lemma {:induction false} ParseLinesAppend(c: Codec, a: seq<Bytes>, b: seq<Bytes>)
    ensures ParseLines(c, a + b) == ParseLines(c, a) + ParseLines(c, b)
    decreases |b|
  {
    hide ParseLine;
    if b == [] {
      assert a + b == a;
    } else {
      var n := |b| - 1;
      assert (a + b)[..|a| + n] == a + b[..n];
      ParseLinesAppend(c, a, b[..n]);
      Associative(ParseLines(c, a), ParseLines(c, b[..n]), ParseLine(c, b[n]));
    }
  }

  lemma {:induction false} RawLinesScan(c: Codec, s: Bytes)
    ensures ParseLines(c, RawLines(s)) == Scan(c, s)
    decreases |s|
  {
    hide ParseLine, TrimSuffixCR, IndexOf;
    if s == [] {
      ScanNothing(c);
    } else {
      var n := IndexOf(s, LF);
      if n == |s| {
        OneLine(c, s);
      } else {
        var line := TrimSuffixCR(s[..n]);
        RawLinesScan(c, s[n + 1..]);
        ParseLinesAppend(c, [line], RawLines(s[n + 1..]));
        OneLine(c, line);
      }
    }
  }

  lemma OneLine(c: Codec, line: Bytes)
    ensures ParseLines(c, [line]) == ParseLine(c, line)
  {
  }

  /**
   scanRequestLogReader. A long line arrives in several fragments, cut wherever the buffer
   ended; the fragments are given line by line.
   */
  method ScanRequestLogReader(c: Codec, s: Bytes, fragments: seq<seq<Bytes>>) returns (entries: seq<Entry>)
    requires |fragments| == |RawLines(s)|
    requires forall i :: 0 <= i < |fragments| ==> Join(fragments[i]) == RawLines(s)[i]
    ensures entries == Scan(c, s)
  {
    hide ParseLine, RawLines, Scan;
    ghost var lines := RawLines(s);
    entries := [];
    for i := 0 to |fragments|
      invariant entries == ParseLines(c, lines[..i])
    {
      var parsed := ParseFragments(c, fragments[i]);
      entries := entries + parsed;
      assert lines[..i + 1][..i] == lines[..i];
    }
    assert lines[..|lines|] == lines;
    RawLinesScan(c, s);
  }

  /** One line: stop accumulating as soon as it is known to be too long. */
  method ParseFragments(c: Codec, fragments: seq<Bytes>) returns (entries: seq<Entry>)
    ensures entries == ParseLine(c, Join(fragments))
  {
    var line: Bytes, oversized := [], false;
    for k := 0 to |fragments|
      invariant oversized <==> |Join(fragments[..k])| > MAX_ENTRY_BYTES
      invariant !oversized ==> line == Join(fragments[..k])
    {
      hide Join, ParseLine;
      assert fragments[..k + 1] == fragments[..k] + [fragments[k]];
      JoinSnoc(fragments[..k], fragments[k]);
      if !oversized && |fragments[k]| > 0 {
        if |line| + |fragments[k]| > MAX_ENTRY_BYTES {
          line, oversized := [], true;
        } else {
          line := line + fragments[k];
        }
      }
    }
    assert fragments[..|fragments|] == fragments;
    if !oversized && |line| > 0 && c.parse(line).Some? {
      return [c.Sanitize(c.parse(line).value)];
    }
    return [];
  }

  /** collectRequestLogEntries: a ring of the last `limit` entries, unrolled at the end. */
  method CollectRequestLogEntries(limit: nat, scanned: seq<Entry>) returns (entries: seq<Entry>, maxId: int)
    requires limit > 0
    ensures entries == LastN(scanned, limit) && maxId == MaxId(scanned)
  {
    hide Unrolled, NextSlot, LastN;
    var next: nat := 0;
    entries, maxId := [], 0;
    UnrolledFromStart(entries);
    LastNSmall(scanned[..0], limit);
    for m := 0 to |scanned|
      invariant maxId == MaxId(scanned[..m])
      invariant next <= |entries| && |entries| == (if m < limit then m else limit)
      invariant |entries| < limit ==> next == 0
      invariant next < limit
      invariant Unrolled(entries, next) == LastN(scanned[..m], limit)
    {
      var e := scanned[m];
      assert scanned[..m + 1][..m] == scanned[..m];
      if e.id > maxId { maxId := e.id; }
      assert scanned[..m + 1] == scanned[..m] + [e];
      if |entries| < limit {
        UnrolledFromStart(entries);
        LastNSmall(scanned[..m], limit);
        entries := entries + [e];
        UnrolledFromStart(entries);
        LastNSmall(scanned[..m + 1], limit);
      } else {
        Rotate(entries, next, e, NextSlot(next, limit));
        LastNSlides(scanned[..m], limit, e);
        entries := entries[next := e];
        next := NextSlot(next, limit);
      }
    }
    assert scanned[..|scanned|] == scanned;
    entries := Unrolled(entries, next);
  }

  function Unrolled(ring: seq<Entry>, next: nat): seq<Entry>
    requires next <= |ring|
  {
    ring[next..] + ring[..next]
  }

  lemma UnrolledFromStart(ring: seq<Entry>)
    ensures Unrolled(ring, 0) == ring
  {
  }

  function NextSlot(at: nat, limit: nat): (next: nat)
    requires at < limit
    ensures next == if at + 1 == limit then 0 else at + 1
  {
    (at + 1) % limit
  }

  /** Overwriting the oldest slot of a ring drops the oldest entry and adds the new one. */
  lemma Rotate(ring: seq<Entry>, at: nat, e: Entry, next: nat)
    requires at < |ring| && next == if at + 1 == |ring| then 0 else at + 1
    ensures Unrolled(ring[at := e], next) == Unrolled(ring, at)[1..] + [e]
  {
  }

  lemma LastNSmall(s: seq<Entry>, limit: nat)
    requires |s| <= limit
    ensures LastN(s, limit) == s
  {
  }

  lemma LastNSlides(s: seq<Entry>, limit: nat, e: Entry)
    requires 0 < limit <= |s|
    ensures LastN(s + [e], limit) == LastN(s, limit)[1..] + [e]
  {
  }

  // ----- writing -----

  const BUFFER_BYTES := 64 * 1024
  const INTERRUPTED := "request history may be incomplete: interrupted log entry was discarded"
  const WRITE_FAILED := "request history may be incomplete: persistent log write failed"

  /** The queue of compact: lines are dropped from its head while it is too large. */
  method KeepNewest(lines: seq<Bytes>, maxBytes: nat) returns (tooLong: bool, kept: seq<Bytes>)
    ensures tooLong <==> exists i :: 0 <= i < |lines| && |lines[i]| > maxBytes
    ensures !tooLong ==> kept == lines[WindowStart(lines, Target(maxBytes))..]
  {
    hide Join, WindowStart;
    var target := Target(maxBytes);
    var queue: seq<Bytes>, head: nat, size: int := [], 0, 0;
    tooLong := false;
    ghost var w: nat := 0;
    assert Size([]) == 0 by { JoinNothing(); }
    for i := 0 to |lines|
      invariant tooLong <==> exists n :: 0 <= n < i && |lines[n]| > maxBytes
      invariant head <= |queue|
      invariant !tooLong ==> IsWindow(lines[..i], target, w) && queue[head..] == lines[..i][w..]
      invariant !tooLong ==> size == Size(queue[head..])
    {
      var line := lines[i];
      if |line| > maxBytes {
        tooLong := true;
        continue;
      }
      ghost var all := lines[..i + 1];
      if !tooLong { GrowWindow(lines, i, target, w); }
      queue := queue + [line];
      size := size + |line|;
      while size > target && |queue| - head > 1
        invariant head < |queue|
        invariant !tooLong ==> w < |all| && queue[head..] == all[w..] && size == Size(all[w..])
        invariant !tooLong ==> (w > 0 ==> Size(all[w - 1..]) > target)
        decreases |queue| - head
      {
        if !tooLong {
          SizeOfSuffix(all, w);
          assert queue[head] == queue[head..][0] && queue[head + 1..] == all[w + 1..];
        }
        size := size - |queue[head]|;
        head := head + 1;
        w := w + 1;
      }
      if head > 1024 && head * 2 >= |queue| {
        queue := queue[head..];
        head := 0;
      }
      assert !tooLong ==> IsWindow(all, target, w);
    }
    kept := queue[head..];
    if !tooLong {
      assert lines[..|lines|] == lines;
      WindowIsLongest(lines, target, w);
    }
  }

  /** A window with one more line behind it is still as long as it can be. */
  lemma GrowWindow(lines: seq<Bytes>, i: nat, target: int, w: nat)
    requires i < |lines| && IsWindow(lines[..i], target, w)
    ensures var all := lines[..i + 1];
            w < |all| && all[w..] == lines[..i][w..] + [lines[i]] &&
            Size(all[w..]) == Size(lines[..i][w..]) + |lines[i]| && (w > 0 ==> Size(all[w - 1..]) > target)
  {
    hide Join;
    var all := lines[..i + 1];
    assert all[w..] == lines[..i][w..] + [lines[i]];
    JoinSnoc(lines[..i][w..], lines[i]);
    if w > 0 {
      assert all[w - 1..] == lines[..i][w - 1..] + [lines[i]];
      JoinSnoc(lines[..i][w - 1..], lines[i]);
    }
  }

  class RequestLogFile {
    const codec: Codec
    const maxBytes: nat
    var file: Bytes
    var lastError: string

    constructor (codec: Codec, maxBytes: nat, file: Bytes)
      ensures this.codec == codec && this.maxBytes == maxBytes && this.file == file && lastError == ""
    {
      this.codec, this.maxBytes, this.file, lastError := codec, maxBytes, file, "";
    }

    /** Scan backwards, a buffer at a time, for the start of an unfinished last line. */
    method RepairTail() returns (needsNewline: bool)
      modifies this
      ensures (file, needsNewline) == Repair(codec, old(file))
      ensures lastError == if file == old(file) then old(lastError) else INTERRUPTED
    {
      var end := |file|;
      if end == 0 { return false; }
      if file[end - 1] == LF { return false; }
      var tailStart, found := 0, false;
      while end > 0 && !found
        invariant 0 <= end <= |file|
        invariant !found ==> tailStart == 0 && LF !in file[end..]
        invariant found ==> 0 < tailStart <= |file| && file[tailStart - 1] == LF && LF !in file[tailStart..]
        decreases end, !found
      {
        var start := if end > BUFFER_BYTES then end - BUFFER_BYTES else 0;
        var i := end;
        while i > start && !found
          invariant start <= i <= end
          invariant !found ==> tailStart == 0 && LF !in file[i..]
          invariant found ==> 0 < tailStart <= |file| && file[tailStart - 1] == LF && LF !in file[tailStart..]
          decreases i, !found
        {
          if file[i - 1] == LF {
            tailStart, found := i, true;
          } else {
            assert file[i - 1..] == [file[i - 1]] + file[i..];
            i := i - 1;
          }
        }
        end := start;
      }
      TailStartUnique(file, tailStart);
      if |file| - tailStart <= MAX_ENTRY_BYTES && codec.parse(file[tailStart..]).Some? { return true; }
      file := file[..tailStart];
      lastError := INTERRUPTED;
      return false;
    }

    /** A protected replacement: the file changes only if every step up to the rename works. */
    method Compact(extra: seq<Bytes>, fault: Fault) returns (ok: bool)
      modifies this`file
      ensures var f := LogWindow.Compact(codec, maxBytes, old(file), extra);
              if f.None? then !ok && file == old(file)
              else match fault
                case CompactionFails(replaced) => !ok && file == if replaced then f.value else old(file)
                case Crashes(n) => !ok && file == if n > 0 then f.value else old(file)
                case _ => ok && file == f.value
    {
      var lines := Lines(codec, Scan(codec, TailBytes(file, maxBytes))) + extra;
      var tooLong, kept := KeepNewest(lines, maxBytes);
      if tooLong || (|lines| == 0 && |file| > 0) { return false; }
      var replacement := Join(kept);
      match fault {
        case CompactionFails(replaced) =>
          if replaced { file := replacement; }
          ok := false;
        case Crashes(n) =>
          if n > 0 { file := replacement; }
          ok := false;
        case _ =>
          file := replacement;
          ok := true;
      }
    }

    method Append(e: Entry, fault: Fault) returns (ok: bool)
      modifies this
      ensures Appended(file, ok) == LogAppend.Append(codec, maxBytes, old(file), e, fault)
      ensures !ok ==> lastError == WRITE_FAILED
    {
      hide Repair, LogWindow.Compact;
      ok := AppendLine(e, fault);
      if !ok { lastError := WRITE_FAILED; }
    }

    method AppendLine(e: Entry, fault: Fault) returns (ok: bool)
      modifies this
      ensures Appended(file, ok) == LogAppend.Append(codec, maxBytes, old(file), e, fault)
    {
      hide Repair, LogWindow.Compact;
      if fault.FailsEarly? { return false; }
      var encoded := Line(codec, codec.Sanitize(e));
      if maxBytes > 0 && |encoded| > maxBytes { return false; }
      var needsNewline := RepairTail();
      if fault.FailsAfterRepair? { return false; }
      var start := |file|;
      var appendBytes := |encoded| + if needsNewline then 1 else 0;
      if maxBytes > 0 && start > maxBytes - appendBytes {
        ok := Compact([encoded], fault);
        return;
      }
      var text := if needsNewline then [LF] + encoded else [] + encoded;
      if fault.WriteStops? {
        file := file + Prefix(text, fault.n);
        if fault.rolledBack { file := file[..start]; }
        return false;
      }
      if fault.Crashes? {
        file := file + Prefix(text, fault.n);
        return false;
      }
      file := file + text;
      return true;
    }

    /** loadEntries: the retained tail of the file. */
    method LoadEntries(limit: nat) returns (entries: seq<Entry>, maxId: int)
      ensures limit == 0 ==> entries == [] && maxId == 0
      ensures limit > 0 ==> var found := Scan(codec, TailBytes(file, maxBytes));
                            entries == LastN(found, limit) && maxId == MaxId(found)
    {
      if limit == 0 { return [], 0; }
      entries, maxId := CollectRequestLogEntries(limit, Scan(codec, TailBytes(file, maxBytes)));
    }

    method Clear(outcome: ClearOutcome) returns (ok: bool)
      modifies this
      ensures ok == outcome.Cleared?
      ensures file == if outcome.NotTruncated? then old(file) else []
      ensures lastError == if ok then "" else old(lastError)
    {
      if outcome.NotTruncated? { return false; }
      file := [];
      if outcome.Unsynced? { return false; }
      lastError := "";
      return true;
    }
  }

  /** The in-memory ring and its persistent log. */
  class RequestLogStore {
    const setup: Setup
    const persist: RequestLogFile
    var nextId: int
    var entries: seq<Entry>

    constructor (setup: Setup, file: Bytes)
      ensures Valid() && fresh(persist) && this.setup == setup && State() == Log(file, 0, [])
    {
      this.setup := setup;
      persist := new RequestLogFile(setup.codec, setup.maxBytes, file);
      nextId, entries := 0, [];
    }

    ghost predicate Valid()
      reads this, persist
    {
      persist.codec == setup.codec && persist.maxBytes == setup.maxBytes && |entries| <= setup.limit
    }

    ghost function State(): Log
      reads this, persist
    {
      Log(persist.file, nextId, entries)
    }

    method Add(meta: string, fault: Fault)
      requires Valid() && !fault.Crashes?
      modifies this, persist
      ensures Valid() && State() == Apply(setup, old(State()), Op.Add(meta, fault, false))
    {
      hide LogAppend.Append;
      if setup.limit == 0 { return; }
      nextId := nextId + 1;
      var e := Entry(nextId, meta);
      var ok := persist.Append(e, fault);
      entries := entries + [e];
      if |entries| > setup.limit { entries := entries[|entries| - setup.limit..]; }
    }

    /** What startup does with an empty store: load the file's tail and restore from it. */
    method Restore()
      requires Valid() && nextId == 0 && entries == []
      modifies this
      ensures Valid() && State() == Reopened(setup, old(persist.file))
    {
      var loaded, maxId := persist.LoadEntries(setup.limit);
      if setup.limit == 0 || |loaded| == 0 { return; }
      entries := Presented(setup, loaded);
      if maxId > nextId { nextId := maxId; }
      MaxIdNonNegative(Scan(setup.codec, TailBytes(persist.file, setup.maxBytes)));
    }

    method Clear(outcome: ClearOutcome)
      requires Valid()
      modifies this, persist
      ensures Valid() && State() == Apply(setup, old(State()), Op.Clear(outcome))
    {
      var ok := persist.Clear(outcome);
      if ok { entries := []; }
    }

    /** The dashboard's view: the newest entries, newest first. */
    method Snapshot(limit: int) returns (requests: seq<Entry>)
      requires Valid()
      ensures var n := if limit <= 0 || limit > |entries| then |entries| else limit;
              |requests| == n && forall i :: 0 <= i < n ==> requests[i] == entries[|entries| - 1 - i]
    {
      var n := if limit <= 0 || limit > |entries| then |entries| else limit;
      requests := [];
      var i := |entries|;
      while i > 0 && |requests| < n
        invariant 0 <= i <= |entries| && |requests| == |entries| - i <= n
        invariant forall k :: 0 <= k < |requests| ==> requests[k] == entries[|entries| - 1 - k]
      {
        i := i - 1;
        requests := requests + [entries[i]];
      }
    }
  }

  lemma {:induction false} MaxIdNonNegative(entries: seq<Entry>)
    ensures MaxId(entries) >= 0
  {
    if entries != [] { MaxIdNonNegative(entries[..|entries| - 1]); }
  }
}
