/** A toy encoding that meets all assumptions on the codec, and what a careless sanitizer does to it. */
module LogCodecWitness {
  import opened Base
  import opened LogScan
  import opened LogWindow
  import opened LogAppend

  function Ones(n: nat): Bytes {
    if n == 0 then [2] else [1] + Ones(n - 1)
  }

  function Tokens(numbers: seq<nat>): Bytes {
    if numbers == [] then [3] else Ones(numbers[0]) + Tokens(numbers[1..])
  }

  lemma {:induction false} OnesCancel(a: nat, b: nat, x: Bytes, y: Bytes)
    requires Ones(a) + x == Ones(b) + y
    ensures a == b && x == y
  {
    var s, t := Ones(a) + x, Ones(b) + y;
    assert s[0] == t[0];
    if a == 0 || b == 0 {
      assert s[1..] == x && t[1..] == y;
    } else {
      assert s[1..] == Ones(a - 1) + x && t[1..] == Ones(b - 1) + y;
      OnesCancel(a - 1, b - 1, x, y);
    }
  }

  lemma {:induction false} TokensInjective(a: seq<nat>, b: seq<nat>)
    requires Tokens(a) == Tokens(b)
    ensures a == b
  {
    if a == [] || b == [] {
      assert Tokens(a)[0] == Tokens(b)[0];
    } else {
      OnesCancel(a[0], b[0], Tokens(a[1..]), Tokens(b[1..]));
      TokensInjective(a[1..], b[1..]);
      assert a == [a[0]] + a[1..] && b == [b[0]] + b[1..];
    }
  }

  lemma {:induction false} OnesShape(n: nat)
    ensures forall i :: 0 <= i < |Ones(n)| ==> Ones(n)[i] == 1 || Ones(n)[i] == 2
  {
    if n > 0 { OnesShape(n - 1); }
  }

  lemma {:induction false} TokensShape(numbers: seq<nat>)
    ensures var t := Tokens(numbers); |t| > 0 && t[|t| - 1] == 3 && forall i :: 0 <= i < |t| - 1 ==> 1 <= t[i] <= 2
  {
    if numbers != [] {
      OnesShape(numbers[0]);
      TokensShape(numbers[1..]);
    }
  }

  function Numbers(e: Entry): (r: seq<nat>)
    ensures |r| == |e.meta| + 2
  {
    [if e.id < 0 then 1 else 0, if e.id < 0 then -e.id else e.id] +
    seq(|e.meta|, i requires 0 <= i < |e.meta| => e.meta[i] as int)
  }

  lemma NumbersInjective(d: Entry, e: Entry)
    requires Numbers(d) == Numbers(e)
    ensures d == e
  {
    assert Numbers(d)[0] == Numbers(e)[0] && Numbers(d)[1] == Numbers(e)[1];
    forall i | 0 <= i < |d.meta| ensures d.meta[i] == e.meta[i] {
      assert Numbers(d)[i + 2] == d.meta[i] as int && Numbers(e)[i + 2] == e.meta[i] as int;
    }
  }

  function Encode(e: Entry): Bytes {
    Tokens(Numbers(e))
  }

  function Strip(s: Bytes): Bytes {
    if s != [] && s[|s| - 1] == CR then Strip(s[..|s| - 1]) else s
  }

  ghost function Parse(s: Bytes): Option<Entry> {
    if e: Entry :| Encode(e) == Strip(s) then Some(e) else None
  }

  lemma EncodeInjective(d: Entry, e: Entry)
    requires Encode(d) == Encode(e)
    ensures d == e
  {
    TokensInjective(Numbers(d), Numbers(e));
    NumbersInjective(d, e);
  }

  lemma PrefixDoesNotParse(e: Entry, n: nat)
    requires n < |Encode(e)|
    ensures Parse(Encode(e)[..n]).None?
  {
    TokensShape(Numbers(e));
    var s := Encode(e)[..n];
    forall d: Entry ensures Encode(d) != Strip(s) {
      TokensShape(Numbers(d));
    }
  }

  /** Whatever the sanitizer, some codec with it meets every assumption of Sound. */
  lemma SoundCodecExists(sanitize: string -> string) returns (c: Codec)
    ensures Sound(c) && c.encode == Encode && c.sanitizeMeta == sanitize
    ensures forall s :: c.parse(s) == Parse(s)
  {
    c := Codec(Encode, (s: Bytes) => Parse(s), sanitize);
    forall e ensures Parse(Encode(e)) == Some(e) && LF !in Encode(e) && CR !in Encode(e) {
      TokensShape(Numbers(e));
      assert Strip(Encode(e)) == Encode(e);
      var d := Parse(Encode(e)).value;
      EncodeInjective(d, e);
    }
    forall e, n | 0 <= n < |Encode(e)| ensures Parse(Encode(e)[..n]).None? {
      PrefixDoesNotParse(e, n);
    }
    forall s: Bytes ensures Parse(s + [CR]) == Parse(s) {
      assert (s + [CR])[..|s|] == s;
    }
    forall e: Entry ensures Encode(e) != Strip([]) { TokensShape(Numbers(e)); }
  }

  // ----- a sanitizer that is not idempotent -----

  const NUL: char := 0 as char
  const BEFORE := Entry(1, [NUL, NUL])
  const ONCE := Entry(1, [NUL])
  const TWICE := Entry(1, [])
  const ADDED := Entry(2, [])

  /** Each pass shortens what it sees, as a truncation that makes a new token-like text would. */
  function DropFirst(meta: string): string {
    if meta == "" then "" else meta[1..]
  }

  lemma SmallEncodings()
    ensures |Encode(BEFORE)| <= 10 && |Encode(ONCE)| <= 10 && |Encode(TWICE)| <= 10 && |Encode(ADDED)| <= 10
  {
    assert Ones(0) == [2] && Ones(1) == [1] + Ones(0) && Ones(2) == [1] + Ones(1);
    TokensOf2(0, 1);
    TokensOf2(0, 2);
    assert Numbers(TWICE) == [0, 1] && Numbers(ADDED) == [0, 2];
    assert Numbers(ONCE) == [0, 1, 0] && Numbers(BEFORE) == [0, 1, 0, 0];
    assert Tokens([0]) == Ones(0) + Tokens([]) && Tokens([0, 0]) == Ones(0) + Tokens([0]);
    assert Tokens([1, 0]) == Ones(1) + Tokens([0]) && Tokens([1, 0, 0]) == Ones(1) + Tokens([0, 0]);
    assert Tokens([0, 1, 0]) == Ones(0) + Tokens([1, 0]) && Tokens([0, 1, 0, 0]) == Ones(0) + Tokens([1, 0, 0]);
  }

  lemma TokensOf2(a: nat, b: nat)
    ensures Tokens([a, b]) == Ones(a) + (Ones(b) + [3])
  {
    assert Tokens([b]) == Ones(b) + Tokens([]);
    assert Tokens([a, b]) == Ones(a) + Tokens([b]);
  }

  /** A line of zero bytes is no entry. */
  lemma JunkDoesNotParse(junk: Bytes)
    requires junk != [] && forall b :: b in junk ==> b == 0
    ensures Parse(junk).None?
  {
    assert junk[|junk| - 1] in junk && junk[0] in junk;
    assert Strip(junk) == junk;
    forall d: Entry ensures Encode(d) != junk { TokensShape(Numbers(d)); }
  }

  /** The file: a long unreadable line, then one entry. */
  function Crowded(c: Codec, junk: Bytes): Bytes {
    junk + [LF] + Line(c, BEFORE)
  }

  lemma CrowdedReads(c: Codec, junk: Bytes)
    requires Sound(c) && c.encode == Encode && c.sanitizeMeta == DropFirst && forall s :: c.parse(s) == Parse(s)
    requires junk != [] && forall b :: b in junk ==> b == 0
    ensures Scan(c, Crowded(c, junk)) == [ONCE] && Repair(c, Crowded(c, junk)) == (Crowded(c, junk), false)
  {
    hide Scan, Parse, Sound, Encode;
    JunkDoesNotParse(junk);
    assert junk[|junk| - 1] in junk;
    assert TrimSuffixCR(junk) == junk;
    ScanOneLine(c, junk);
    ScanAppend(c, junk + [LF], Line(c, BEFORE));
    EncodedLine(c, BEFORE);
    SmallEncodings();
    TailStartUnique(Crowded(c, junk), |Crowded(c, junk)|);
  }

  /** An append that compacts: the surviving entry is sanitised a second time, and changes. */
  lemma CompactionChangesEntry() returns (c: Codec, maxBytes: nat, s: Bytes)
    ensures Sound(c) && |s| <= maxBytes && Scan(c, s) == [ONCE]
    ensures Append(c, maxBytes, s, ADDED, NoFault).ok
    ensures Scan(c, Append(c, maxBytes, s, ADDED, NoFault).file) == [TWICE, ADDED]
  {
    hide Scan, Parse, Sound, Encode, Repair, Compact, TailBytes;
    c := SoundCodecExists(DropFirst);
    var junk: Bytes := seq(100, _ => 0);
    s := Crowded(c, junk);
    maxBytes := |s|;
    CrowdedReads(c, junk);
    SmallEncodings();
    var line := Line(c, ADDED);
    assert c.Sanitize(ADDED) == ADDED;
    CrowdedCompacts(c, maxBytes, s, line);
    assert Lines(c, [ONCE]) + [line] == Lines(c, [ONCE, ADDED]);
    ScanLines(c, [ONCE, ADDED]);
    ReadBackBoth(c);
  }

  lemma CrowdedCompacts(c: Codec, maxBytes: nat, s: Bytes, line: Bytes)
    requires Sound(c) && |s| == maxBytes >= 100 && Scan(c, s) == [ONCE] && |Line(c, ONCE)| <= 11 && |line| <= 11
    ensures Compact(c, maxBytes, s, [line]) == Some(Join(Lines(c, [ONCE]) + [line]))
  {
    hide Scan;
    var lines := Lines(c, [ONCE]) + [line];
    assert lines == [Line(c, ONCE), line];
    assert Join(lines) == Line(c, ONCE) + line by { JoinTwo(Line(c, ONCE), line); }
    assert WindowStart(lines, Target(maxBytes)) == 0;
    CompactTail(c, maxBytes, s, [ONCE], [line]);
    assert lines[0..] == lines;
  }

  lemma JoinTwo(x: Bytes, y: Bytes)
    ensures Join([x, y]) == x + y
  {
    JoinOne(y);
    assert Join([x, y]) == x + Join([y]);
  }

  lemma ReadBackBoth(c: Codec)
    requires c.encode == Encode && c.sanitizeMeta == DropFirst
    ensures ReadBackAll(c, [ONCE, ADDED]) == [TWICE, ADDED]
  {
    hide Encode;
    SmallEncodings();
    assert c.Sanitize(ONCE) == TWICE && c.Sanitize(ADDED) == ADDED;
    assert ReadBackAll(c, [ADDED]) == ReadBack(c, ADDED) + ReadBackAll(c, []);
    assert ReadBackAll(c, [ONCE, ADDED]) == ReadBack(c, ONCE) + ReadBackAll(c, [ADDED]);
  }
}
