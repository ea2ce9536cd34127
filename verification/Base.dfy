/** Byte strings and the small sequence vocabulary shared by the other modules. */
module Base {
  type byte = b: int | 0 <= b < 256
  type Bytes = seq<byte>

  const LF: byte := 10
  const CR: byte := 13
  const SPACE: byte := 32

  /** One second, in the nanoseconds of every clock and duration. */
  const SECOND := 1_000_000_000

  datatype Option<+T> = None | Some(value: T)

  /** Concatenation of a list of pieces. */
  function Join<T>(pieces: seq<seq<T>>): seq<T> {
    if pieces == [] then [] else pieces[0] + Join(pieces[1..])
  }

  lemma {:induction false} JoinAppend<T>(a: seq<seq<T>>, b: seq<seq<T>>)
    ensures Join(a + b) == Join(a) + Join(b)
  {
    if a == [] {
      assert a + b == b;
    } else {
      assert (a + b)[1..] == a[1..] + b;
      calc {
        Join(a + b);
        a[0] + Join(a[1..] + b);
        { JoinAppend(a[1..], b); }
        a[0] + (Join(a[1..]) + Join(b));
        Join(a) + Join(b);
      }
    }
  }

  lemma JoinSnoc<T>(a: seq<seq<T>>, x: seq<T>)
    ensures Join(a + [x]) == Join(a) + x
  {
    JoinAppend(a, [x]);
    assert Join([x]) == x + Join([]);
  }

  lemma Associative<T>(x: seq<T>, y: seq<T>, z: seq<T>)
    ensures x + (y + z) == x + y + z
  {
  }

  lemma PastPrefix<T>(a: seq<T>, b: seq<T>, i: nat)
    requires i <= |b|
    ensures (a + b)[|a| + i..] == b[i..]
  {
  }

  /** Position of the first b, or |s| when there is none. */
  function IndexOf(s: Bytes, b: byte): (n: nat)
    ensures n <= |s|
    ensures n < |s| ==> s[n] == b
    ensures forall i :: 0 <= i < n ==> s[i] != b
  {
    if s == [] || s[0] == b then 0 else 1 + IndexOf(s[1..], b)
  }

  lemma IndexOfUnique(s: Bytes, b: byte, n: nat)
    requires n <= |s|
    requires n < |s| ==> s[n] == b
    requires forall i :: 0 <= i < n ==> s[i] != b
    ensures IndexOf(s, b) == n
  {
  }

  lemma UpToPrefix<T>(a: seq<T>, b: seq<T>, i: nat)
    requires i <= |b|
    ensures (a + b)[..|a| + i] == a + b[..i]
  {
  }

  /** The first b of a text whose beginning has none. */
  lemma IndexOfPast(a: Bytes, b: Bytes, x: byte)
    requires x !in a
    ensures IndexOf(a + b, x) == |a| + IndexOf(b, x)
  {
    hide IndexOf;
    var n := IndexOf(b, x);
    forall i | 0 <= i < |a| + n ensures (a + b)[i] != x {
      if i < |a| { assert (a + b)[i] == a[i]; } else { assert (a + b)[i] == b[i - |a|]; }
    }
    IndexOfUnique(a + b, x, |a| + n);
  }

  function TrimSuffixCR(line: Bytes): (r: Bytes)
    ensures |r| <= |line|
  {
    if line != [] && line[|line| - 1] == CR then line[..|line| - 1] else line
  }

  lemma MapGrows<K, V>(m: map<K, V>, k: K, v: V)
    requires k !in m
    ensures |m[k := v]| == |m| + 1
  {
    assert m[k := v].Keys == m.Keys + {k};
    assert |m[k := v]| == |m[k := v].Keys| && |m| == |m.Keys|;
  }

  predicate IsSpace(c: char) {
    c in {' ', '\t', '\n', '\r', '\U{0B}', '\U{0C}', '\U{85}', '\U{A0}', '\U{1680}', '\U{2028}', '\U{2029}',
          '\U{202F}', '\U{205F}', '\U{3000}'} || '\U{2000}' <= c <= '\U{200A}'
  }

  /** Two letters outside ASCII have a lower case inside it. */
  function LowerCase(c: char): char {
    if 'A' <= c <= 'Z' then c - 'A' + 'a' else if c == '\U{130}' then 'i' else if c == '\U{212A}' then 'k' else c
  }

  function ToLower(s: string): (r: string)
    ensures |r| == |s| && forall i :: 0 <= i < |s| ==> r[i] == LowerCase(s[i])
  {
    seq(|s|, i requires 0 <= i < |s| => LowerCase(s[i]))
  }
}
