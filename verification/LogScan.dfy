/**
 The bytes of the request log and what a reader gets from them (persist.go): lines, torn
 tails, and the window that compaction keeps.
 */
module LogScan {
  import opened Base

  /** A log record: its ID and the rest of its metadata. */
  datatype Entry = Entry(id: int, meta: string)

  /** encoding/json and sanitizeRequestLogEntry, as parameters. Sanitising keeps the ID. */
  datatype Codec = Codec(encode: Entry -> Bytes, parse: Bytes -> Option<Entry>, sanitizeMeta: string -> string) {
    function Sanitize(e: Entry): Entry {
      e.(meta := sanitizeMeta(e.meta))
    }
  }

  /** What is used of JSON: parsing undoes encoding, encodings are one line, no proper prefix parses. */
  ghost predicate Sound(c: Codec) {
    && (forall e :: c.parse(c.encode(e)) == Some(e))
    && (forall e :: LF !in c.encode(e) && CR !in c.encode(e))
    && (forall e, n :: 0 <= n < |c.encode(e)| ==> c.parse(c.encode(e)[..n]).None?)
    && (forall s :: c.parse(s + [CR]) == c.parse(s))
    && c.parse([]).None?
  }

  const MAX_ENTRY_BYTES := 1024 * 1024

  function ParseLine(c: Codec, line: Bytes): seq<Entry> {
    if line == [] || |line| > MAX_ENTRY_BYTES || c.parse(line).None? then []
    else [c.Sanitize(c.parse(line).value)]
  }

  /** Every readable entry of a file, in order; malformed and oversized lines are skipped. */
  function Scan(c: Codec, s: Bytes): seq<Entry>
    decreases |s|
  {
    var n := IndexOf(s, LF);
    if n == |s| then ParseLine(c, s)
    else ParseLine(c, TrimSuffixCR(s[..n])) + Scan(c, s[n + 1..])
  }

  predicate WholeLines(s: Bytes) {
    s != [] ==> s[|s| - 1] == LF
  }

  lemma ScanStep(c: Codec, s: Bytes, n: nat)
    requires n < |s| && s[n] == LF && forall i :: 0 <= i < n ==> s[i] != LF
    ensures Scan(c, s) == ParseLine(c, TrimSuffixCR(s[..n])) + Scan(c, s[n + 1..])
  {
    hide TrimSuffixCR, ParseLine, IndexOf;
    IndexOfUnique(s, LF, n);
  }

  lemma ScanNothing(c: Codec)
    ensures Scan(c, []) == []
  {
  }

  lemma {:induction false} ScanAppend(c: Codec, a: Bytes, b: Bytes)
    requires WholeLines(a)
    ensures Scan(c, a + b) == Scan(c, a) + Scan(c, b)
    decreases |a|
  {
    hide Scan, ParseLine, TrimSuffixCR, IndexOf;
    if a == [] {
      ScanNothing(c);
      assert a + b == b;
      assert [] + Scan(c, b) == Scan(c, b);
    } else {
      var n := IndexOf(a, LF);
      ScanStep(c, a, n);
      ScanStep(c, a + b, n);
      assert (a + b)[..n] == a[..n] && (a + b)[n + 1..] == a[n + 1..] + b;
      ScanAppend(c, a[n + 1..], b);
      Associative(ParseLine(c, TrimSuffixCR(a[..n])), Scan(c, a[n + 1..]), Scan(c, b));
    }
  }

  lemma ScanOneLine(c: Codec, line: Bytes)
    requires LF !in line
    ensures Scan(c, line) == ParseLine(c, line)
    ensures Scan(c, line + [LF]) == ParseLine(c, TrimSuffixCR(line))
  {
    IndexOfUnique(line, LF, |line|);
    IndexOfUnique(line + [LF], LF, |line|);
    assert (line + [LF])[..|line|] == line && (line + [LF])[|line| + 1..] == [];
  }

  // ----- the unfinished last line -----

  /** Where the last line starts, if the file does not end in a newline. */
  function TailStart(s: Bytes): (t: nat)
    ensures t <= |s| && WholeLines(s[..t]) && LF !in s[t..]
  {
    if s == [] || s[|s| - 1] == LF then |s|
    else
      var t := TailStart(s[..|s| - 1]);
      assert s[..|s| - 1][..t] == s[..t] && s[t..] == s[..|s| - 1][t..] + [s[|s| - 1]];
      t
  }

  lemma TailStartUnique(s: Bytes, t: nat)
    requires t <= |s| && WholeLines(s[..t]) && LF !in s[t..]
    ensures t == TailStart(s)
  {
  }

  /** A tail worth keeping: it parses, and a reader would not skip it for its size. */
  predicate Legacy(c: Codec, tail: Bytes) {
    |tail| <= MAX_ENTRY_BYTES && c.parse(tail).Some?
  }

  /** repairTail: the file it leaves, and whether the next append must add a newline. */
  function Repair(c: Codec, s: Bytes): (Bytes, bool) {
    var t := TailStart(s);
    if t == |s| then (s, false)
    else if Legacy(c, s[t..]) then (s, true)
    else (s[..t], false)
  }

  /** Repair never changes what can be read, and leaves room for a line to follow. */
  lemma RepairKeepsEntries(c: Codec, s: Bytes)
    requires Sound(c)
    ensures var (r, needsNewline) := Repair(c, s);
            && Scan(c, r) == Scan(c, s)
            && (if needsNewline then r == s && Scan(c, s + [LF]) == Scan(c, s) else WholeLines(r) && r <= s)
  {
    hide Scan, TrimSuffixCR, Sound;
    var t := TailStart(s);
    var head, tail := s[..t], s[t..];
    assert s == head + tail;
    ScanAppend(c, head, tail);
    ScanOneLine(c, tail);
    if t < |s| && Legacy(c, tail) {
      assert s + [LF] == head + (tail + [LF]);
      ScanAppend(c, head, tail + [LF]);
      TrimmedTail(c, tail);
    } else {
      assert ParseLine(c, tail) == [] && Scan(c, head) + [] == Scan(c, head);
    }
  }

  lemma TrimmedTail(c: Codec, tail: Bytes)
    requires Sound(c) && Legacy(c, tail)
    ensures ParseLine(c, TrimSuffixCR(tail)) == ParseLine(c, tail)
  {
    var trimmed := TrimSuffixCR(tail);
    if trimmed != tail {
      assert tail == trimmed + [CR];
      assert c.parse(trimmed + [CR]) == c.parse(trimmed);
    }
  }

  /** What repair does, by where the unfinished last line starts: it stays only if a reader would get an entry from it. */
  lemma RepairExactly(c: Codec, s: Bytes, t: nat)
    requires t <= |s| && WholeLines(s[..t]) && LF !in s[t..]
    ensures Repair(c, s) ==
            if t == |s| then (s, false)
            else if |ParseLine(c, s[t..])| == 1 then (s, true)
            else (s[..t], false)
  {
    TailStartUnique(s, t);
  }

  // ----- one appended line -----

  function Line(c: Codec, e: Entry): Bytes {
    c.encode(e) + [LF]
  }

  /** What a reader gets from the line written for e. */
  function ReadBack(c: Codec, e: Entry): seq<Entry> {
    if |c.encode(e)| > 1_048_576 then [] else [c.Sanitize(e)]
  }

  lemma EncodedLine(c: Codec, e: Entry)
    requires Sound(c)
    ensures ParseLine(c, c.encode(e)) == ReadBack(c, e) && TrimSuffixCR(c.encode(e)) == c.encode(e)
    ensures Scan(c, c.encode(e)) == ReadBack(c, e) && Scan(c, Line(c, e)) == ReadBack(c, e)
  {
    assert c.parse(c.encode(e)) == Some(e);
    ScanOneLine(c, c.encode(e));
  }

  /** A line cut anywhere is read wholly, when only its newline may be missing, or not at all. */
  lemma TornLine(c: Codec, e: Entry, n: nat)
    requires Sound(c) && n <= |Line(c, e)|
    ensures Scan(c, Line(c, e)[..n]) == if n >= |c.encode(e)| then ReadBack(c, e) else []
  {
    EncodedLine(c, e);
    var enc, line := c.encode(e), Line(c, e);
    if n < |enc| {
      assert line[..n] == enc[..n];
      ScanOneLine(c, enc[..n]);
    } else if n == |enc| {
      assert line[..n] == enc;
    } else {
      assert line[..n] == line;
    }
  }

  // ----- a file of lines -----

  function Lines(c: Codec, entries: seq<Entry>): seq<Bytes> {
    seq(|entries|, i requires 0 <= i < |entries| => Line(c, entries[i]))
  }

  function ReadBackAll(c: Codec, entries: seq<Entry>): seq<Entry> {
    if entries == [] then [] else ReadBack(c, entries[0]) + ReadBackAll(c, entries[1..])
  }

  lemma {:induction false} ScanLines(c: Codec, entries: seq<Entry>)
    requires Sound(c)
    ensures Scan(c, Join(Lines(c, entries))) == ReadBackAll(c, entries)
    ensures WholeLines(Join(Lines(c, entries)))
  {
    var lines := Lines(c, entries);
    if entries == [] {
      assert Join(lines) == [] && Scan(c, []) == [];
    } else {
      assert lines[1..] == Lines(c, entries[1..]);
      ScanLines(c, entries[1..]);
      EncodedLine(c, entries[0]);
      ScanAppend(c, Line(c, entries[0]), Join(lines[1..]));
    }
  }

  /** Entries that a rewrite leaves alone: stable under sanitising, and short enough to be read. */
  ghost predicate Stable(c: Codec, entries: seq<Entry>) {
    forall i :: 0 <= i < |entries| ==>
      c.Sanitize(entries[i]) == entries[i] && |c.encode(entries[i])| <= 1_048_576
  }

  lemma {:induction false} ReadBackShrinks(c: Codec, entries: seq<Entry>)
    ensures |ReadBackAll(c, entries)| <= |entries|
  {
    if entries != [] { ReadBackShrinks(c, entries[1..]); }
  }

  lemma {:induction false} StableReadBack(c: Codec, entries: seq<Entry>)
    requires Stable(c, entries)
    ensures ReadBackAll(c, entries) == entries
  {
    if entries != [] {
      StableReadBack(c, entries[1..]);
      assert entries == [entries[0]] + entries[1..];
    }
  }

  lemma {:induction false} UnchangedIsStable(c: Codec, entries: seq<Entry>)
    requires ReadBackAll(c, entries) == entries
    ensures Stable(c, entries)
  {
    if entries != [] {
      ReadBackShrinks(c, entries[1..]);
      assert |ReadBack(c, entries[0])| == 1;
      assert ReadBackAll(c, entries[1..]) == entries[1..];
      UnchangedIsStable(c, entries[1..]);
      assert c.Sanitize(entries[0]) == ReadBackAll(c, entries)[0];
      forall i | 0 <= i < |entries|
        ensures c.Sanitize(entries[i]) == entries[i] && |c.encode(entries[i])| <= 1_048_576
      {
        if i > 0 { assert entries[i] == entries[1..][i - 1]; }
      }
    }
  }

  /** Entries survive being rewritten and read again unchanged exactly when they are stable. */
  lemma ReadBackExactly(c: Codec, entries: seq<Entry>)
    ensures ReadBackAll(c, entries) == entries <==> Stable(c, entries)
  {
    hide ReadBackAll, Stable;
    if Stable(c, entries) { StableReadBack(c, entries); }
    if ReadBackAll(c, entries) == entries { UnchangedIsStable(c, entries); }
  }
}
