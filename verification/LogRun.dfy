/**
 Whole lives of the log: adds, failed adds, crashes, compactions, clears and restarts
 (persist.go and requests.go together), for a fixed cap and memory limit.
 */
module LogRun {
  import opened Base
  import opened LogScan
  import opened LogWindow
  import opened LogAppend

  /** `present` is priceEntry after sanitising, as restore applies it to what it read. */
  datatype Setup = Setup(codec: Codec, maxBytes: nat, limit: nat, present: string -> string)

  datatype Log = Log(file: Bytes, nextId: int, entries: seq<Entry>)

  /** How far a clear gets: not at all, the truncation only, or to the end. */
  datatype ClearOutcome = NotTruncated | Unsynced | Cleared

  datatype Op =
    | Add(meta: string, fault: Fault, dies: bool)  // dies: the process ends right after it
    | Clear(outcome: ClearOutcome)
    | Restart

  function LastN<T>(s: seq<T>, n: nat): seq<T> {
    if |s| <= n then s else s[|s| - n..]
  }

  function MaxId(entries: seq<Entry>): int {
    if entries == [] then 0
    else
      var rest := MaxId(entries[..|entries| - 1]);
      var id := entries[|entries| - 1].id;
      if id > rest then id else rest
  }

  function Presented(u: Setup, entries: seq<Entry>): seq<Entry> {
    seq(|entries|, i requires 0 <= i < |entries| =>
      entries[i].(meta := u.present(u.codec.sanitizeMeta(entries[i].meta))))
  }

  /** A new process: open, load the retained tail, restore the memory and the numbering. */
  function Reopened(u: Setup, file: Bytes): Log {
    var found := Scan(u.codec, TailBytes(file, u.maxBytes));
    if u.limit == 0 || found == [] then Log(file, 0, [])
    else Log(file, MaxId(found), Presented(u, LastN(found, u.limit)))
  }

  function Apply(u: Setup, log: Log, op: Op): Log {
    match op
    case Add(meta, fault, dies) =>
      if u.limit == 0 then log
      else
        var e := Entry(log.nextId + 1, meta);
        var file := Append(u.codec, u.maxBytes, log.file, e, fault).file;
        if dies || fault.Crashes? then Reopened(u, file)
        else Log(file, log.nextId + 1, LastN(log.entries + [e], u.limit))
    case Clear(NotTruncated) => log
    case Clear(Unsynced) => log.(file := [])
    case Clear(Cleared) => log.(file := [], entries := [])
    case Restart => Reopened(u, log.file)
  }

  function Run(u: Setup, log: Log, ops: seq<Op>): Log
    decreases |ops|
  {
    if ops == [] then log else Run(u, Apply(u, log, ops[0]), ops[1..])
  }

  predicate Increasing(entries: seq<Entry>) {
    forall i, j :: 0 <= i < j < |entries| ==> entries[i].id < entries[j].id
  }

  predicate Numbered(entries: seq<Entry>, low: int, top: int) {
    Increasing(entries) && forall i :: 0 <= i < |entries| ==> low < entries[i].id <= top
  }

  ghost predicate Inv(u: Setup, log: Log) {
    && |log.file| <= u.maxBytes
    && log.nextId >= 0
    && Numbered(Scan(u.codec, log.file), 0, log.nextId)
    && (u.limit == 0 ==> log.file == [])
    && |log.entries| <= u.limit
  }

  /** Rewriting entries may drop some but never changes or reorders their IDs. */
  lemma {:induction false} ReadBackNumbered(c: Codec, entries: seq<Entry>, low: int, top: int)
    requires Numbered(entries, low, top)
    ensures Numbered(ReadBackAll(c, entries), low, top)
  {
    if entries != [] {
      assert Numbered(entries[1..], entries[0].id, top);
      ReadBackNumbered(c, entries[1..], entries[0].id, top);
    }
  }

  lemma SurvivorsNumbered(c: Codec, s: Bytes, kept: seq<Entry>, top: int)
    requires Numbered(Scan(c, s), 0, top) && Survivors(c, s, kept)
    ensures Numbered(kept, 0, top)
  {
    hide Scan;
    if kept != Scan(c, s) {
      var n :| 0 <= n <= |Scan(c, s)| && kept == ReadBackAll(c, Scan(c, s)[n..]);
      ReadBackNumbered(c, Scan(c, s)[n..], 0, top);
    }
  }

  lemma AddKeepsNumbering(u: Setup, log: Log, meta: string, fault: Fault)
    requires Sound(u.codec) && Inv(u, log)
    ensures var file := Append(u.codec, u.maxBytes, log.file, Entry(log.nextId + 1, meta), fault).file;
            Numbered(Scan(u.codec, file), 0, log.nextId + 1)
  {
    hide Scan, Append, Survivors;
    var e := Entry(log.nextId + 1, meta);
    var kept, whole := AppendIsAtomic(u.codec, u.maxBytes, log.file, e, fault);
    SurvivorsNumbered(u.codec, log.file, kept, log.nextId);
  }

  lemma {:induction false} MaxOfNumbered(entries: seq<Entry>, top: int)
    requires Numbered(entries, 0, top)
    ensures MaxId(entries) == if entries == [] then 0 else entries[|entries| - 1].id
  {
    if entries != [] {
      MaxOfNumbered(entries[..|entries| - 1], top);
    }
  }

  /** A restart restores the last `limit` entries and numbers on from the largest retained ID. */
  lemma RestartRestores(u: Setup, log: Log)
    requires Sound(u.codec) && u.maxBytes > 0 && Inv(u, log) && u.limit > 0
    ensures var found, again := Scan(u.codec, log.file), Reopened(u, log.file);
            && again.file == log.file
            && again.entries == Presented(u, LastN(found, u.limit))
            && |again.entries| == (if |found| < u.limit then |found| else u.limit)
            && (forall i :: 0 <= i < |again.entries| ==>
                  var e := found[|found| - |again.entries| + i];
                  again.entries[i] == Entry(e.id, u.present(u.codec.sanitizeMeta(e.meta))))
            && again.nextId == (if found == [] then 0 else found[|found| - 1].id)
            && Inv(u, again)
  {
    hide Scan;
    MaxOfNumbered(Scan(u.codec, log.file), log.nextId);
  }

  lemma ApplyKeepsInv(u: Setup, log: Log, op: Op)
    requires Sound(u.codec) && u.maxBytes > 0 && Inv(u, log)
    ensures Inv(u, Apply(u, log, op))
  {
    hide Scan, Append, Reopened;
    match op
    case Add(meta, fault, dies) =>
      if u.limit > 0 {
        AddKeepsNumbering(u, log, meta, fault);
        var e := Entry(log.nextId + 1, meta);
        AppendStaysCapped(u.codec, u.maxBytes, log.file, e, fault);
        var file := Append(u.codec, u.maxBytes, log.file, e, fault).file;
        var next := Log(file, log.nextId + 1, LastN(log.entries + [e], u.limit));
        RestartRestores(u, next);
      }
    case Clear(outcome) => ScanNothing(u.codec);
    case Restart =>
      if u.limit > 0 { RestartRestores(u, log); } else { ReopenEmpty(u); }
  }

  /** What each step does to the memory. */
  lemma MemoryExactly(u: Setup, log: Log, op: Op)
    requires |log.entries| <= u.limit
    ensures var next := Apply(u, log, op);
            match op
            case Add(meta, fault, dies) =>
              u.limit > 0 && !dies && !fault.Crashes? ==>
                && |next.entries| == (if |log.entries| < u.limit then |log.entries| + 1 else u.limit)
                && next.nextId == log.nextId + 1
                && next.entries[|next.entries| - 1] == Entry(next.nextId, meta)
                && forall i :: 0 <= i < |next.entries| - 1 ==>
                     next.entries[i] == log.entries[|log.entries| - |next.entries| + 1 + i]
            case Clear(outcome) =>
              next.nextId == log.nextId && next.entries == (if outcome.Cleared? then [] else log.entries) &&
              next.file == (if outcome.NotTruncated? then log.file else [])
            case Restart => next.file == log.file
  {
    hide Append, Scan, TailBytes;
  }

  lemma ReopenEmpty(u: Setup)
    requires u.limit == 0
    ensures Inv(u, Reopened(u, []))
  {
  }

  /** From an empty log, whatever is done to it: capped, and IDs increase in file order. */
  lemma {:induction false} RunKeepsInv(u: Setup, log: Log, ops: seq<Op>)
    requires Sound(u.codec) && u.maxBytes > 0 && Inv(u, log)
    ensures Inv(u, Run(u, log, ops))
    decreases |ops|
  {
    hide Inv, Apply;
    if ops != [] {
      ApplyKeepsInv(u, log, ops[0]);
      RunKeepsInv(u, Apply(u, log, ops[0]), ops[1..]);
    }
  }

  lemma EveryLife(u: Setup, ops: seq<Op>)
    requires Sound(u.codec) && u.maxBytes > 0
    ensures Inv(u, Run(u, Log([], 0, []), ops))
    ensures u.limit > 0 ==>
              var log := Run(u, Log([], 0, []), ops);
              var found := Scan(u.codec, log.file);
              Reopened(u, log.file) ==
              Log(log.file, if found == [] then 0 else found[|found| - 1].id, Presented(u, LastN(found, u.limit)))
  {
    hide Scan, Run, Reopened;
    ScanNothing(u.codec);
    RunKeepsInv(u, Log([], 0, []), ops);
    if u.limit > 0 { RestartRestores(u, Run(u, Log([], 0, []), ops)); }
  }

  // ----- lives in which nothing fails -----

  /** The entries that adds of these metas make, as the file gets them. */
  function Numbering(u: Setup, from: int, metas: seq<string>): seq<Entry>
    decreases |metas|
  {
    if metas == [] then []
    else [u.codec.Sanitize(Entry(from + 1, metas[0]))] + Numbering(u, from + 1, metas[1..])
  }

  function Adds(metas: seq<string>): seq<Op> {
    if metas == [] then [] else [Op.Add(metas[0], NoFault, false)] + Adds(metas[1..])
  }

  lemma WholeAfter(a: Bytes, line: Bytes)
    ensures WholeLines(a + (line + [LF]))
  {
  }

  /** One add to whole lines with room to spare. */
  lemma AddExtends(u: Setup, log: Log, meta: string)
    requires Sound(u.codec) && u.limit > 0 && WholeLines(log.file)
    requires var e := u.codec.Sanitize(Entry(log.nextId + 1, meta));
             u.maxBytes == 0 || |log.file| + |Line(u.codec, e)| <= u.maxBytes
    ensures var e, next := u.codec.Sanitize(Entry(log.nextId + 1, meta)), Apply(u, log, Op.Add(meta, NoFault, false));
            next.file == log.file + Line(u.codec, e) && next.nextId == log.nextId + 1 && WholeLines(next.file)
  {
    hide Scan, Append, Sound, ReadBack;
    var e := Entry(log.nextId + 1, meta);
    assert log.file[..|log.file|] == log.file;
    RepairExactly(u.codec, log.file, |log.file|);
    assert Extended(u.codec, log.file, e) == log.file + Line(u.codec, u.codec.Sanitize(e));
    AppendExtends(u.codec, u.maxBytes, log.file, e);
    WholeAfter(log.file, u.codec.encode(u.codec.Sanitize(e)));
  }

  lemma LinesFirst(c: Codec, e: Entry, rest: seq<Entry>)
    ensures Join(Lines(c, [e] + rest)) == Line(c, e) + Join(Lines(c, rest))
  {
    assert Lines(c, [e] + rest)[1..] == Lines(c, rest);
  }

  lemma {:induction false} AddsFile(u: Setup, log: Log, metas: seq<string>)
    requires Sound(u.codec) && u.limit > 0 && WholeLines(log.file)
    requires u.maxBytes == 0 || |log.file| + |Join(Lines(u.codec, Numbering(u, log.nextId, metas)))| <= u.maxBytes
    ensures var end := Run(u, log, Adds(metas));
            end.file == log.file + Join(Lines(u.codec, Numbering(u, log.nextId, metas))) &&
            end.nextId == log.nextId + |metas|
    decreases |metas|
  {
    hide Apply, Sound, Line, Join, Lines;
    var c := u.codec;
    if metas == [] {
      NoLines(c);
      assert log.file + [] == log.file;
    } else {
      var first, rest := c.Sanitize(Entry(log.nextId + 1, metas[0])), Numbering(u, log.nextId + 1, metas[1..]);
      LinesFirst(c, first, rest);
      AddExtends(u, log, metas[0]);
      var next := Apply(u, log, Op.Add(metas[0], NoFault, false));
      FirstAdd(metas);
      AddsFile(u, next, metas[1..]);
      Associative(log.file, Line(c, first), Join(Lines(c, rest)));
    }
  }

  lemma FirstAdd(metas: seq<string>)
    requires metas != []
    ensures Adds(metas) != [] && Adds(metas)[0] == Op.Add(metas[0], NoFault, false) && Adds(metas)[1..] == Adds(metas[1..])
  {
  }

  /**
   Adds that all fit: the file has exactly their lines, numbered on, behind what it had, and a
   reader finds exactly their entries behind what it found.
   */
  lemma AddsKept(u: Setup, log: Log, metas: seq<string>)
    requires Sound(u.codec) && u.limit > 0 && WholeLines(log.file)
    requires u.maxBytes == 0 || |log.file| + |Join(Lines(u.codec, Numbering(u, log.nextId, metas)))| <= u.maxBytes
    ensures var end, added := Run(u, log, Adds(metas)), Numbering(u, log.nextId, metas);
            && end.file == log.file + Join(Lines(u.codec, added))
            && Scan(u.codec, end.file) == Scan(u.codec, log.file) + ReadBackAll(u.codec, added)
            && end.nextId == log.nextId + |metas|
  {
    hide Scan, Run, Sound, Lines, Join;
    AddsFile(u, log, metas);
    ScanLines(u.codec, Numbering(u, log.nextId, metas));
    ScanAppend(u.codec, log.file, Join(Lines(u.codec, Numbering(u, log.nextId, metas))));
  }

  lemma NoLines(c: Codec)
    ensures Join(Lines(c, [])) == []
  {
  }
}
