/**
 One append to the log under every outcome of its writes (persist.go, append), and what a
 reader finds afterwards.
 */
module LogAppend {
  import opened Base
  import opened LogScan
  import opened LogWindow

  /**
   What the file system does to one append. A write that stops, or a crash, leaves the first
   n bytes of the new text; compaction may fail before or after the rename that replaces the
   file, and a crash there looks the same.
   */
  datatype Fault =
    | NoFault
    | FailsEarly                             // no handle, marshal, stat, read or truncate error
    | FailsAfterRepair                       // seek error, or a crash right after the repair
    | WriteStops(n: nat, rolledBack: bool)
    | Crashes(n: nat)
    | CompactionFails(replaced: bool)

  datatype Appended = Appended(file: Bytes, ok: bool)

  function NewText(c: Codec, e: Entry, needsNewline: bool): Bytes {
    (if needsNewline then [LF] else []) + Line(c, c.Sanitize(e))
  }

  function Prefix(s: Bytes, n: nat): Bytes {
    if n < |s| then s[..n] else s
  }

  function Written(r: Bytes, text: Bytes, fault: Fault): Appended {
    match fault
    case WriteStops(n, rolledBack) => Appended(if rolledBack then r else r + Prefix(text, n), false)
    case Crashes(n) => Appended(r + Prefix(text, n), false)
    case _ => Appended(r + text, true)
  }

  function Compacted(c: Codec, maxBytes: nat, r: Bytes, line: Bytes, fault: Fault): Appended {
    var f := Compact(c, maxBytes, r, [line]);
    if f.None? then Appended(r, false)
    else match fault
      case CompactionFails(replaced) => Appended(if replaced then f.value else r, false)
      case Crashes(n) => Appended(if n > 0 then f.value else r, false)
      case _ => Appended(f.value, true)
  }

  /** Whether the new text would push the file over its cap. */
  predicate Overflows(c: Codec, maxBytes: nat, r: Bytes, e: Entry, needsNewline: bool) {
    maxBytes > 0 && |r| > maxBytes - |NewText(c, e, needsNewline)|
  }

  function Append(c: Codec, maxBytes: nat, s: Bytes, e: Entry, fault: Fault): Appended {
    var line := Line(c, c.Sanitize(e));
    if fault.FailsEarly? || (maxBytes > 0 && |line| > maxBytes) then Appended(s, false)
    else
      var (r, needsNewline) := Repair(c, s);
      if fault.FailsAfterRepair? then Appended(r, false)
      else if Overflows(c, maxBytes, r, e, needsNewline) then Compacted(c, maxBytes, r, line, fault)
      else Written(r, NewText(c, e, needsNewline), fault)
  }

  /** The old entries that survive: all of them, or those a compaction kept, as it rewrote them. */
  ghost predicate Survivors(c: Codec, s: Bytes, kept: seq<Entry>) {
    kept == Scan(c, s) ||
    exists n :: 0 <= n <= |Scan(c, s)| && kept == ReadBackAll(c, Scan(c, s)[n..])
  }

  lemma TornText(c: Codec, s: Bytes, e: Entry, n: nat)
    requires Sound(c)
    ensures var (r, needsNewline) := Repair(c, s);
            var whole := n >= |NewText(c, e, needsNewline)| - 1;
            Scan(c, r + Prefix(NewText(c, e, needsNewline), n)) ==
            Scan(c, s) + if whole then ReadBack(c, c.Sanitize(e)) else []
  {
    hide Scan, Repair, Sound, ReadBack;
    RepairKeepsEntries(c, s);
    var (r, needsNewline) := Repair(c, s);
    var text, line := NewText(c, e, needsNewline), Line(c, c.Sanitize(e));
    var m := if n < |text| then n else |text|;
    assert Prefix(text, n) == text[..m];
    if !needsNewline {
      assert text == line;
      ScanAppend(c, r, line[..m]);
      TornLine(c, c.Sanitize(e), m);
    } else if m == 0 {
      assert r + text[..0] == r && Scan(c, s) + [] == Scan(c, s);
    } else {
      assert text[..m] == [LF] + line[..m - 1];
      assert r + text[..m] == (r + [LF]) + line[..m - 1];
      ScanAppend(c, r + [LF], line[..m - 1]);
      TornLine(c, c.Sanitize(e), m - 1);
    }
  }

  lemma {:induction false} ReadBackAppend(c: Codec, a: seq<Entry>, b: seq<Entry>)
    ensures ReadBackAll(c, a + b) == ReadBackAll(c, a) + ReadBackAll(c, b)
  {
    if a == [] {
      assert a + b == b;
    } else {
      assert (a + b)[1..] == a[1..] + b;
      ReadBackAppend(c, a[1..], b);
    }
  }

  lemma CompactedEntries(c: Codec, maxBytes: nat, r: Bytes, e: Entry) returns (n: nat)
    requires Sound(c) && Compact(c, maxBytes, r, [Line(c, e)]).Some?
    ensures n <= |Scan(c, r)|
    ensures Scan(c, Compact(c, maxBytes, r, [Line(c, e)]).value) ==
            ReadBackAll(c, Scan(c, r)[n..]) + ReadBack(c, e)
  {
    hide Scan, Compact, TailBytes, ReadBack, Sound;
    var entries, kept := CompactKeepsSuffix(c, maxBytes, r, [Line(c, e)]);
    var skipped := TailIsSuffix(c, r, maxBytes);
    var all := Scan(c, r);
    n := |all| - |entries| + kept;
    assert all[n..] == entries[kept..];
    var now := entries[kept..] + [e];
    assert Lines(c, now) == Lines(c, entries[kept..]) + [Line(c, e)];
    ScanLines(c, now);
    ReadBackAppend(c, entries[kept..], [e]);
    assert ReadBackAll(c, [e]) == ReadBack(c, e) + ReadBackAll(c, []);
  }

  /**
   Crash atomicity: after any append, whatever failed, a reader finds the surviving old
   entries and then the new one wholly or not at all; and wholly if append succeeded.
   */
  lemma AppendIsAtomic(c: Codec, maxBytes: nat, s: Bytes, e: Entry, fault: Fault)
    returns (kept: seq<Entry>, whole: bool)
    requires Sound(c)
    ensures var r := Append(c, maxBytes, s, e, fault);
            && Scan(c, r.file) == kept + (if whole then ReadBack(c, c.Sanitize(e)) else [])
            && Survivors(c, s, kept)
            && (r.ok ==> whole)
            && (maxBytes == 0 ==> kept == Scan(c, s))
  {
    hide Scan, Repair, ReadBack, Compact, Sound;
    RepairKeepsEntries(c, s);
    var (r, needsNewline) := Repair(c, s);
    var line := Line(c, c.Sanitize(e));
    kept, whole := Scan(c, s), false;
    assert kept + [] == kept;
    if !fault.FailsEarly? && !(maxBytes > 0 && |line| > maxBytes) && !fault.FailsAfterRepair? {
      if Overflows(c, maxBytes, r, e, needsNewline) {
        if Append(c, maxBytes, s, e, fault).file != r {
          var n := CompactedEntries(c, maxBytes, r, c.Sanitize(e));
          kept, whole := ReadBackAll(c, Scan(c, r)[n..]), true;
        } else if Append(c, maxBytes, s, e, fault).ok {
          var n := CompactedEntries(c, maxBytes, r, c.Sanitize(e));
          kept, whole := ReadBackAll(c, Scan(c, r)[n..]), true;
        }
      } else {
        var text := NewText(c, e, needsNewline);
        var n := if fault.WriteStops? || fault.Crashes? then fault.n else |text|;
        TornText(c, s, e, n);
        whole := n >= |text| - 1 && !(fault.WriteStops? && fault.rolledBack);
      }
    }
  }

  ghost predicate IsSuffix(kept: seq<Entry>, all: seq<Entry>) {
    |kept| <= |all| && kept == all[|all| - |kept|..]
  }

  /** A rewritten suffix of a file is a suffix of it, however much was dropped, if its entries are stable. */
  lemma StableSurvivors(c: Codec, s: Bytes, kept: seq<Entry>)
    requires Survivors(c, s, kept) && Stable(c, Scan(c, s))
    ensures IsSuffix(kept, Scan(c, s))
  {
    hide Scan;
    var all := Scan(c, s);
    if kept != all {
      var n :| 0 <= n <= |all| && kept == ReadBackAll(c, all[n..]);
      ReadBackExactly(c, all[n..]);
    }
  }

  /** On stable entries, whatever fails: a suffix of the entries as they were, and the new one or not. */
  lemma AppendKeepsSuffix(c: Codec, maxBytes: nat, s: Bytes, e: Entry, fault: Fault)
    returns (kept: seq<Entry>, whole: bool)
    requires Sound(c) && Stable(c, Scan(c, s))
    ensures var r := Append(c, maxBytes, s, e, fault);
            && Scan(c, r.file) == kept + (if whole then ReadBack(c, c.Sanitize(e)) else [])
            && IsSuffix(kept, Scan(c, s))
            && (r.ok ==> whole)
  {
    hide Scan, Append, ReadBack, Sound, Stable, Survivors;
    kept, whole := AppendIsAtomic(c, maxBytes, s, e, fault);
    StableSurvivors(c, s, kept);
  }

  // ----- success -----

  /** The file as repair leaves it, with the new line behind it. */
  function Extended(c: Codec, s: Bytes, e: Entry): Bytes {
    var (r, needsNewline) := Repair(c, s);
    r + (if needsNewline then [LF] else []) + c.encode(c.Sanitize(e)) + [LF]
  }

  /** The entries that a compaction of the repaired file goes through. */
  function Tail(c: Codec, maxBytes: nat, s: Bytes): seq<Entry> {
    Scan(c, TailBytes(Repair(c, s).0, maxBytes))
  }

  /**
   When nothing fails, append succeeds exactly if the new line fits the cap and, should the file
   overflow, so do the lines that a compaction rewrites.
   */
  lemma AppendSucceeds(c: Codec, maxBytes: nat, s: Bytes, e: Entry)
    ensures Append(c, maxBytes, s, e, NoFault).ok <==>
            maxBytes == 0 ||
            (|c.encode(c.Sanitize(e))| < maxBytes &&
             (|Extended(c, s, e)| <= maxBytes || AllFit(Lines(c, Tail(c, maxBytes, s)), maxBytes)))
  {
    hide Scan, Repair, TailBytes, Squeeze, Lines;
    var lines, line := Lines(c, Tail(c, maxBytes, s)), Line(c, c.Sanitize(e));
    SqueezeFails(maxBytes, Repair(c, s).0, lines + [line]);
    if AllFit(lines + [line], maxBytes) {
      forall x | x in lines ensures |x| <= maxBytes { assert x in lines + [line]; }
    } else if |line| <= maxBytes {
      var x :| x in lines + [line] && |x| > maxBytes;
      assert x in lines;
    }
  }

  /** A successful append that fits writes the line behind what was there: every entry, and then the new one. */
  lemma AppendExtends(c: Codec, maxBytes: nat, s: Bytes, e: Entry)
    requires Sound(c) && (maxBytes == 0 || |Extended(c, s, e)| <= maxBytes)
    ensures var r := Append(c, maxBytes, s, e, NoFault);
            r.ok && r.file == Extended(c, s, e) && Scan(c, r.file) == Scan(c, s) + ReadBack(c, c.Sanitize(e))
  {
    hide Scan, Repair, ReadBack, Sound;
    var (r, needsNewline) := Repair(c, s);
    var text := NewText(c, e, needsNewline);
    assert r + text == Extended(c, s, e);
    TornText(c, s, e, |text|);
  }

  /** A successful append that overflows keeps the longest window of the tail that fits, and then the new line. */
  lemma AppendCompacts(c: Codec, maxBytes: nat, s: Bytes, e: Entry) returns (kept: nat)
    requires Sound(c) && maxBytes > 0 && |Extended(c, s, e)| > maxBytes
    requires Append(c, maxBytes, s, e, NoFault).ok
    ensures var r, tail, line := Append(c, maxBytes, s, e, NoFault), Tail(c, maxBytes, s), Line(c, c.Sanitize(e));
            && kept <= |tail| && IsWindow(Lines(c, tail) + [line], Target(maxBytes), kept)
            && r.file == Join(Lines(c, tail[kept..]) + [line])
            && Scan(c, r.file) == ReadBackAll(c, tail[kept..]) + ReadBack(c, c.Sanitize(e))
  {
    hide Scan, Repair, ReadBack, Sound, Compact, TailBytes, Join, IsWindow;
    var r, added := Repair(c, s).0, c.Sanitize(e);
    var tail;
    tail, kept := CompactKeepsSuffix(c, maxBytes, r, [Line(c, added)]);
    assert Lines(c, tail[kept..]) + [Line(c, added)] == Lines(c, tail[kept..] + [added]);
    ScanLines(c, tail[kept..] + [added]);
    ReadBackAppend(c, tail[kept..], [added]);
    ReadBackOne(c, added);
  }

  lemma ReadBackOne(c: Codec, e: Entry)
    ensures ReadBackAll(c, [e]) == ReadBack(c, e)
  {
    hide ReadBack;
    assert ReadBackAll(c, [e][1..]) == [];
  }

  /** Success is never claimed for a failure, and what a failure leaves. */
  lemma FailuresShow(c: Codec, maxBytes: nat, s: Bytes, e: Entry, fault: Fault)
    ensures var r := Append(c, maxBytes, s, e, fault);
            && (r.ok ==> r == Append(c, maxBytes, s, e, NoFault))
            && (fault.FailsEarly? ==> r == Appended(s, false))
            && (fault.WriteStops? && fault.rolledBack && !r.ok && (maxBytes == 0 || |Extended(c, s, e)| <= maxBytes) ==>
                  r.file == s || r.file == Repair(c, s).0)
            && (maxBytes > 0 && |c.encode(c.Sanitize(e))| >= maxBytes ==> r == Appended(s, false))
  {
    hide Scan, Repair, Compact;
    var (r, needsNewline) := Repair(c, s);
    var text := NewText(c, e, needsNewline);
    assert |Extended(c, s, e)| == |r| + |text|;
  }

  /** A file within its cap stays within it, whatever happens. */
  lemma AppendStaysCapped(c: Codec, maxBytes: nat, s: Bytes, e: Entry, fault: Fault)
    requires Sound(c) && maxBytes > 0 && |s| <= maxBytes
    ensures |Append(c, maxBytes, s, e, fault).file| <= maxBytes
  {
    hide Compact, Scan, Sound;
    var (r, needsNewline) := Repair(c, s);
    var line := Line(c, c.Sanitize(e));
    if Compact(c, maxBytes, r, [line]).Some? {
      var entries, kept := CompactKeepsSuffix(c, maxBytes, r, [line]);
    }
  }
}
