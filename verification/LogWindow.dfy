/** What compaction keeps (persist.go, compact and requestLogTailReader). */
module LogWindow {
  import opened Base
  import opened LogScan

  function Size(lines: seq<Bytes>): nat {
    |Join(lines)|
  }

  lemma SizeOfSuffix(lines: seq<Bytes>, i: nat)
    requires i < |lines|
    ensures Size(lines[i..]) == |lines[i]| + Size(lines[i + 1..])
  {
  }

  lemma {:induction false} SizeShrinks(lines: seq<Bytes>, i: nat, j: nat)
    requires i <= j <= |lines|
    ensures Size(lines[j..]) <= Size(lines[i..])
    decreases j - i
  {
    if i < j {
      SizeOfSuffix(lines, i);
      SizeShrinks(lines, i + 1, j);
    }
  }

  /** The kept lines start at i: they fit or only the newest is left, and one more would not fit. */
  ghost predicate IsWindow(lines: seq<Bytes>, target: int, i: nat) {
    && (if lines == [] then i == 0 else i < |lines|)
    && (i + 1 >= |lines| || Size(lines[i..]) <= target)
    && (i > 0 ==> Size(lines[i - 1..]) > target)
  }

  function WindowStart(lines: seq<Bytes>, target: int): (i: nat)
    ensures i <= |lines|
  {
    if |lines| <= 1 || Size(lines) <= target then 0 else 1 + WindowStart(lines[1..], target)
  }

  lemma {:induction false} WindowStartIsWindow(lines: seq<Bytes>, target: int)
    ensures IsWindow(lines, target, WindowStart(lines, target))
  {
    assert lines[0..] == lines;
    if |lines| > 1 && Size(lines) > target {
      var rest := lines[1..];
      WindowStartIsWindow(rest, target);
      var i := WindowStart(rest, target);
      assert rest[i..] == lines[i + 1..];
      if i > 0 { assert rest[i - 1..] == lines[i..]; }
    }
  }

  lemma LongerDoNotFit(lines: seq<Bytes>, target: int, i: nat)
    requires IsWindow(lines, target, i)
    ensures forall j :: 0 <= j < i ==> Size(lines[j..]) > target
  {
    forall j | 0 <= j < i ensures Size(lines[j..]) > target {
      SizeShrinks(lines, j, i - 1);
    }
  }

  /** The window is the longest suffix that fits, and there is only one. */
  lemma WindowIsLongest(lines: seq<Bytes>, target: int, i: nat)
    requires IsWindow(lines, target, i)
    ensures forall j :: 0 <= j < i ==> Size(lines[j..]) > target
    ensures i == WindowStart(lines, target)
  {
    hide WindowStart, Size;
    LongerDoNotFit(lines, target, i);
    WindowStartIsWindow(lines, target);
    LongerDoNotFit(lines, target, WindowStart(lines, target));
  }

  function Target(maxBytes: nat): nat {
    maxBytes - maxBytes / 4
  }

  /** The target is three quarters of the cap, rounded up. */
  lemma ThreeQuarters(maxBytes: nat, size: nat)
    ensures size <= Target(maxBytes) <==> 4 * size < 3 * maxBytes + 4
  {
  }

  /** Where requestLogTailReader starts: at the first line that begins in the last maxBytes of the file. */
  function TailFrom(s: Bytes, maxBytes: nat): (t: nat)
    ensures t <= |s| && (t == 0 || t == |s| || s[t - 1] == LF)
  {
    if maxBytes == 0 || |s| <= maxBytes then 0
    else
      var start := |s| - maxBytes;
      if s[start - 1] == LF then start
      else
        var n := IndexOf(s[start..], LF);
        if n == maxBytes then |s| else start + n + 1
  }

  function TailBytes(s: Bytes, maxBytes: nat): Bytes {
    s[TailFrom(s, maxBytes)..]
  }

  lemma SuffixSplits<T>(s: seq<T>, n: nat)
    requires n <= |s|
    ensures s == s[..n] + s[n..]
  {
  }

  lemma LastPart<T>(a: seq<T>, b: seq<T>)
    ensures (a + b)[|a + b| - |b|..] == b
  {
  }

  /** The bounded reader sees a suffix of what a full read would see. */
  lemma TailIsSuffix(c: Codec, s: Bytes, maxBytes: nat) returns (skipped: Bytes)
    ensures s == skipped + TailBytes(s, maxBytes) && (WholeLines(skipped) || TailBytes(s, maxBytes) == [])
    ensures var all, tail := Scan(c, s), Scan(c, TailBytes(s, maxBytes));
            |tail| <= |all| && tail == all[|all| - |tail|..]
  {
    hide Scan, TailFrom;
    var tail, t := TailBytes(s, maxBytes), TailFrom(s, maxBytes);
    skipped := s[..t];
    SuffixSplits(s, t);
    if t == |s| {
      ScanNothing(c);
      LastPart(Scan(c, s), []);
      assert Scan(c, s) + [] == Scan(c, s);
    } else {
      ScanAppend(c, skipped, tail);
      LastPart(Scan(c, skipped), Scan(c, tail));
    }
  }

  /** Compaction of the file s, with an optional new line; None when it gives up. */
  function Compact(c: Codec, maxBytes: nat, s: Bytes, extra: seq<Bytes>): Option<Bytes> {
    Squeeze(maxBytes, s, Lines(c, Scan(c, TailBytes(s, maxBytes))) + extra)
  }

  function Squeeze(maxBytes: nat, s: Bytes, lines: seq<Bytes>): Option<Bytes> {
    if (exists i :: 0 <= i < |lines| && |lines[i]| > maxBytes) || (lines == [] && s != []) then None
    else Some(Join(lines[WindowStart(lines, Target(maxBytes))..]))
  }

  /** The simple form: compaction that reads the whole file. */
  function CompactWhole(c: Codec, maxBytes: nat, s: Bytes, extra: seq<Bytes>): Option<Bytes> {
    Squeeze(maxBytes, s, Lines(c, Scan(c, s)) + extra)
  }

  lemma {:induction false} JoinOne(x: Bytes)
    ensures Join([x]) == x
  {
  }

  /** A compacted file is within the cap and reads as a suffix of the old entries, then the new. */
  lemma CompactKeepsSuffix(c: Codec, maxBytes: nat, s: Bytes, extra: seq<Bytes>)
    returns (entries: seq<Entry>, kept: nat)
    requires Sound(c) && Compact(c, maxBytes, s, extra).Some? && |extra| <= 1
    ensures |Compact(c, maxBytes, s, extra).value| <= maxBytes
    ensures entries == Scan(c, TailBytes(s, maxBytes)) && kept <= |entries|
    ensures Compact(c, maxBytes, s, extra).value == Join(Lines(c, entries[kept..]) + extra)
    ensures IsWindow(Lines(c, entries) + extra, Target(maxBytes), kept)
  {
    hide Scan, TailBytes, Join;
    entries := Scan(c, TailBytes(s, maxBytes));
    var lines := Lines(c, entries) + extra;
    WindowStartIsWindow(lines, Target(maxBytes));
    kept := WindowStart(lines, Target(maxBytes));
    assert lines[kept..] == Lines(c, entries[kept..]) + extra;
    if lines == [] {
      assert Join(lines[kept..]) == [] by { JoinNothing(); }
    } else if kept + 1 >= |lines| {
      assert lines[kept..] == [lines[kept]];
      JoinOne(lines[kept]);
    }
  }

  lemma JoinNothing()
    ensures Join<byte>([]) == []
  {
  }

  // ----- a file of canonical lines -----

  /** Stable entries whose lines fit the cap. */
  ghost predicate Canonical(c: Codec, entries: seq<Entry>, maxBytes: nat) {
    Stable(c, entries) && forall i :: 0 <= i < |entries| ==> |Line(c, entries[i])| <= maxBytes
  }

  /** On whole lines the bounded reader starts at the first line that lies in the last maxBytes. */
  lemma {:induction false} TailOfLines(c: Codec, entries: seq<Entry>, maxBytes: nat) returns (t: nat)
    requires Sound(c) && maxBytes > 0
    ensures t <= |entries| && TailBytes(Join(Lines(c, entries)), maxBytes) == Join(Lines(c, entries[t..]))
    ensures forall i :: 0 <= i < t ==> Size(Lines(c, entries[i..])) > maxBytes
    ensures Size(Lines(c, entries[t..])) <= maxBytes
    decreases |entries|
  {
    var lines := Lines(c, entries);
    var s := Join(lines);
    if |s| <= maxBytes {
      t := 0;
      assert entries[0..] == entries;
    } else {
      var rest := Join(lines[1..]);
      assert lines[1..] == Lines(c, entries[1..]);
      var u := TailOfLines(c, entries[1..], maxBytes);
      t := u + 1;
      assert entries[1..][u..] == entries[t..];
      TailSkipsLine(c.encode(entries[0]), rest, maxBytes);
      forall i | 0 <= i < t ensures Size(Lines(c, entries[i..])) > maxBytes {
        if i == 0 { assert entries[0..] == entries; } else { assert entries[1..][i - 1..] == entries[i..]; }
      }
    }
  }

  lemma TailInFirstLine(body: Bytes, rest: Bytes, maxBytes: nat)
    requires LF !in body && |rest| < maxBytes < |body| + 1 + |rest|
    ensures TailBytes(body + [LF] + rest, maxBytes) == rest
  {
    hide IndexOf;
    var s := body + [LF] + rest;
    var start := |s| - maxBytes;
    var n := |body| - start;
    assert s[start..] == body[start..] + [LF] + rest;
    IndexOfUnique(s[start..], LF, n);
    assert s[start - 1] == body[start - 1];
    assert s[start + n + 1..] == rest;
  }

  lemma TailAfterFirstLine(body: Bytes, rest: Bytes, maxBytes: nat)
    requires 0 < maxBytes < |rest|
    ensures TailBytes(body + [LF] + rest, maxBytes) == TailBytes(rest, maxBytes)
  {
    hide IndexOf;
    var front := body + [LF];
    var d := |rest| - maxBytes;
    PastPrefix(front, rest, d);
    assert (front + rest)[|front| + d - 1] == rest[d - 1];
    var n := IndexOf(rest[d..], LF);
    if n < maxBytes { PastPrefix(front, rest, d + n + 1); }
  }

  /** A first line that does not fit entirely is skipped. */
  lemma TailSkipsLine(body: Bytes, rest: Bytes, maxBytes: nat)
    requires LF !in body && maxBytes > 0 && |body| + 1 + |rest| > maxBytes
    ensures TailBytes(body + [LF] + rest, maxBytes) == TailBytes(rest, maxBytes)
  {
    if |rest| < maxBytes {
      TailInFirstLine(body, rest, maxBytes);
    } else if |rest| > maxBytes {
      TailAfterFirstLine(body, rest, maxBytes);
    } else {
      var s := body + [LF] + rest;
      assert s[|s| - maxBytes..] == rest && s[|s| - maxBytes - 1] == LF;
    }
  }

  lemma SuffixOfSuffix<T>(s: seq<T>, t: nat, w: nat)
    requires t + w <= |s|
    ensures s[t..][w..] == s[t + w..]
  {
  }

  lemma SuffixOfSum<T>(a: seq<T>, b: seq<T>, t: nat)
    requires t <= |a|
    ensures (a + b)[t..] == a[t..] + b
  {
  }

  /** A window of a suffix, when nothing longer fits, is a window of the whole. */
  lemma WindowLifts(all: seq<Bytes>, target: int, t: nat, w: nat)
    requires t <= |all| && IsWindow(all[t..], target, w) && (t > 0 ==> t < |all| && Size(all[t - 1..]) > target)
    ensures IsWindow(all, target, t + w)
  {
    hide Size;
    SuffixOfSuffix(all, t, w);
    if w > 0 { SuffixOfSuffix(all, t, w - 1); }
  }

  /** The window of the tail is the window of the whole: the bounded read loses nothing. */
  lemma TailWindow(lines: seq<Bytes>, extra: seq<Bytes>, t: nat, maxBytes: nat)
    requires t <= |lines| && |extra| <= 1
    requires forall i :: 0 <= i < |lines| ==> |lines[i]| <= maxBytes
    requires forall i :: 0 <= i < t ==> Size(lines[i..]) > maxBytes
    ensures lines[t..] + extra == (lines + extra)[t..]
    ensures WindowStart(lines + extra, Target(maxBytes)) ==
            t + WindowStart(lines[t..] + extra, Target(maxBytes))
  {
    hide Size, WindowStart, Target, IsWindow;
    var all, target := lines + extra, Target(maxBytes);
    SuffixOfSum(lines, extra, t);
    if t > 0 { SkippedDoesNotFit(lines, extra, t, maxBytes); }
    WindowStartIsWindow(all[t..], target);
    WindowLifts(all, target, t, WindowStart(all[t..], target));
    WindowIsLongest(all, target, t + WindowStart(all[t..], target));
  }

  lemma SkippedDoesNotFit(lines: seq<Bytes>, extra: seq<Bytes>, t: nat, maxBytes: nat)
    requires 0 < t <= |lines| && |extra| <= 1
    requires forall i :: 0 <= i < |lines| ==> |lines[i]| <= maxBytes
    requires Size(lines[t - 1..]) > maxBytes
    ensures Size((lines + extra)[t - 1..]) > Target(maxBytes)
    ensures t < |lines|
  {
    hide Join;
    SuffixOfSum(lines, extra, t - 1);
    JoinAppend(lines[t - 1..], extra);
    if t == |lines| {
      assert lines[t - 1..] == [lines[t - 1]];
      JoinOne(lines[t - 1]);
    }
  }

  lemma LinesSuffix(c: Codec, entries: seq<Entry>, t: nat)
    requires t <= |entries|
    ensures Lines(c, entries)[t..] == Lines(c, entries[t..])
  {
  }

  /** A reader finds the tail of a file of stable entries as it was written. */
  lemma StableTail(c: Codec, entries: seq<Entry>, t: nat)
    requires Sound(c) && t <= |entries| && Stable(c, entries)
    ensures Scan(c, Join(Lines(c, entries[t..]))) == entries[t..]
  {
    hide Join, Scan, Sound;
    ScanLines(c, entries[t..]);
    ReadBackExactly(c, entries[t..]);
  }

  /** Compaction, once it is known what the tail reads as and that no line is too long. */
  lemma CompactTail(c: Codec, maxBytes: nat, s: Bytes, tail: seq<Entry>, extra: seq<Bytes>)
    requires Scan(c, TailBytes(s, maxBytes)) == tail
    requires forall x :: x in Lines(c, tail) + extra ==> |x| <= maxBytes
    requires Lines(c, tail) + extra == [] ==> s == []
    ensures var lines := Lines(c, tail) + extra;
            Compact(c, maxBytes, s, extra) == Some(Join(lines[WindowStart(lines, Target(maxBytes))..]))
  {
    hide Join, Scan, TailBytes, WindowStart;
  }

  /**
   Reading only the last maxBytes of a canonical file compacts it exactly as reading all of
   it would: the window of all its lines, newest kept.
   */
  lemma BoundedCompaction(c: Codec, entries: seq<Entry>, maxBytes: nat, extra: seq<Bytes>)
    requires Sound(c) && maxBytes > 0 && Canonical(c, entries, maxBytes) && |extra| <= 1
    requires forall x :: x in extra ==> |x| <= maxBytes
    ensures var lines := Lines(c, entries) + extra;
            Compact(c, maxBytes, Join(Lines(c, entries)), extra) ==
            Some(Join(lines[WindowStart(lines, Target(maxBytes))..]))
  {
    hide Join, WindowStart, TailBytes, Scan, Canonical, Lines, Compact, Sound, Target;
    var t := TailOfLines(c, entries, maxBytes);
    var tail, lines := entries[t..], Lines(c, entries);
    StableTail(c, entries, t) by { CanonicalIsStable(c, entries, maxBytes); }
    CanonicalLines(c, entries, maxBytes);
    forall i | 0 <= i < t ensures Size(lines[i..]) > maxBytes { LinesSuffix(c, entries, i); }
    LinesSuffix(c, entries, t);
    TailWindow(lines, extra, t, maxBytes);
    if Lines(c, tail) + extra == [] { EmptyTail(c, entries, t, maxBytes); }
    CompactTail(c, maxBytes, Join(lines), tail, extra);
    SuffixOfSuffix(lines + extra, t, WindowStart(lines[t..] + extra, Target(maxBytes)));
  }

  lemma EmptyTail(c: Codec, entries: seq<Entry>, t: nat, maxBytes: nat)
    requires Canonical(c, entries, maxBytes) && t <= |entries| && Lines(c, entries[t..]) == []
    requires forall i :: 0 <= i < t ==> Size(Lines(c, entries[i..])) > maxBytes
    ensures entries == [] && Join(Lines(c, entries)) == []
  {
    if entries != [] {
      var last := entries[t - 1..];
      assert Lines(c, last) == [Line(c, entries[t - 1])];
      JoinOne(Line(c, entries[t - 1]));
    }
  }

  lemma CanonicalIsStable(c: Codec, entries: seq<Entry>, maxBytes: nat)
    requires Canonical(c, entries, maxBytes)
    ensures Stable(c, entries)
  {
  }

  lemma CanonicalLines(c: Codec, entries: seq<Entry>, maxBytes: nat)
    requires Canonical(c, entries, maxBytes)
    ensures |Lines(c, entries)| == |entries| && forall x :: x in Lines(c, entries) ==> |x| <= maxBytes
  {
  }

  // ----- the exact boundary of the bounded read -----

  predicate AllFit(lines: seq<Bytes>, maxBytes: nat) {
    forall x :: x in lines ==> |x| <= maxBytes
  }

  lemma {:induction false} LineInSize(lines: seq<Bytes>, x: Bytes)
    requires x in lines
    ensures |x| <= Size(lines)
  {
    if x != lines[0] { LineInSize(lines[1..], x); }
  }

  lemma SqueezeFails(maxBytes: nat, s: Bytes, lines: seq<Bytes>)
    ensures Squeeze(maxBytes, s, lines).None? <==> !AllFit(lines, maxBytes) || (lines == [] && s != [])
  {
    hide Join, WindowStart;
    if !AllFit(lines, maxBytes) {
      var x :| x in lines && |x| > maxBytes;
      var i :| 0 <= i < |lines| && lines[i] == x;
    }
  }

  /** The bounded reader finds nothing exactly when the newest line alone exceeds the cap. */
  lemma NothingInTail(c: Codec, entries: seq<Entry>, t: nat, maxBytes: nat)
    requires t <= |entries| && entries != [] && Size(Lines(c, entries[t..])) <= maxBytes
    requires forall i :: 0 <= i < t ==> Size(Lines(c, entries[i..])) > maxBytes
    ensures t == |entries| <==> |Line(c, entries[|entries| - 1])| > maxBytes
    ensures AllFit(Lines(c, entries[t..]), maxBytes)
  {
    hide Join;
    var last := |entries| - 1;
    forall x | x in Lines(c, entries[t..]) ensures |x| <= maxBytes { LineInSize(Lines(c, entries[t..]), x); }
    if t == |entries| {
      assert Lines(c, entries[last..]) == [Line(c, entries[last])];
      JoinOne(Line(c, entries[last]));
    } else {
      assert Lines(c, entries[t..])[last - t] == Line(c, entries[last]);
    }
  }

  /**
   On a file of stable entries the bounded read compacts as the whole read would exactly when
   every line fits the cap, or both fail: the new line does not fit, or there is none and
   the newest line does not.
   */
  lemma BoundedExactly(c: Codec, entries: seq<Entry>, maxBytes: nat, extra: seq<Bytes>)
    requires Sound(c) && maxBytes > 0 && Stable(c, entries) && |extra| <= 1
    ensures var s := Join(Lines(c, entries));
            Compact(c, maxBytes, s, extra) == CompactWhole(c, maxBytes, s, extra) <==>
            AllFit(Lines(c, entries), maxBytes) || !AllFit(extra, maxBytes) ||
            (extra == [] && |Line(c, entries[|entries| - 1])| > maxBytes)
  {
    hide Join, Scan, Sound, TailBytes, Squeeze, Lines, Line, Stable;
    var lines, s := Lines(c, entries), Join(Lines(c, entries));
    StableTail(c, entries, 0);
    assert entries[0..] == entries;
    LinesCount(c, entries);
    var t := TailOfLines(c, entries, maxBytes);
    StableTail(c, entries, t);
    var tail := Lines(c, entries[t..]);
    SqueezeFails(maxBytes, s, tail + extra);
    SqueezeFails(maxBytes, s, lines + extra);
    if AllFit(lines, maxBytes) && AllFit(extra, maxBytes) {
      assert Canonical(c, entries, maxBytes) by { FittingIsCanonical(c, entries, maxBytes); }
      BoundedCompaction(c, entries, maxBytes, extra);
      SqueezeFits(maxBytes, s, lines + extra);
    } else if entries != [] {
      NothingInTail(c, entries, t, maxBytes);
      LinesCount(c, entries[t..]);
    }
  }

  lemma LinesCount(c: Codec, entries: seq<Entry>)
    ensures |Lines(c, entries)| == |entries| && (entries != [] ==> Join(Lines(c, entries)) != [])
    ensures entries == [] ==> Join(Lines(c, entries)) == []
  {
    if entries != [] { assert Lines(c, entries)[0] == Line(c, entries[0]); }
  }

  lemma FittingIsCanonical(c: Codec, entries: seq<Entry>, maxBytes: nat)
    requires Stable(c, entries) && AllFit(Lines(c, entries), maxBytes)
    ensures Canonical(c, entries, maxBytes)
  {
    forall i | 0 <= i < |entries| ensures |Line(c, entries[i])| <= maxBytes {
      assert Lines(c, entries)[i] in Lines(c, entries);
    }
  }

  lemma SqueezeFits(maxBytes: nat, s: Bytes, lines: seq<Bytes>)
    requires Squeeze(maxBytes, s, lines).Some?
    ensures Squeeze(maxBytes, s, lines) == Some(Join(lines[WindowStart(lines, Target(maxBytes))..]))
  {
    hide Join, WindowStart;
  }
}
