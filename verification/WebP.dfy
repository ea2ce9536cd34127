/**
 The WebP container walk of webPConfig (images.go): chunk headers of section 2 of RFC 9649,
 without decoding pixels.
 */
module WebP {
  import opened Base

  const RIFF: Bytes := [82, 73, 70, 70]
  const WEBP: Bytes := [87, 69, 66, 80]
  const VP8X: Bytes := [86, 80, 56, 88]
  const VP8L: Bytes := [86, 80, 56, 76]
  const VP8: Bytes := [86, 80, 56, 32]
  const MAX_CHUNKS := 256

  /** Little-endian value. */
  function LE(s: Bytes): nat {
    if s == [] then 0 else s[0] + 256 * LE(s[1..])
  }

  /** The k lowest bytes of n, lowest first. */
  function LeBytes(n: nat, k: nat): (s: Bytes)
    ensures |s| == k
  {
    if k == 0 then [] else [n % 256] + LeBytes(n / 256, k - 1)
  }

  function Le32(n: nat): (s: Bytes)
    ensures |s| == 4
  {
    LeBytes(n, 4)
  }

  datatype Chunk = Chunk(kind: Bytes, payload: Bytes)
  datatype Size = Size(width: nat, height: nat)

  const UNKNOWN := Size(0, 0)

  // ----- what a chunk says about the size -----

  predicate GoodVp8x(p: Bytes) {
    |p| == 10 && p[0] / 64 == 0 && p[0] % 2 == 0 && p[1] == 0 && p[2] == 0 && p[3] == 0
  }

  function U24(low: int, mid: int, high: int): int {
    low + mid * 256 + high * 65536
  }

  function Vp8xSize(p: Bytes): Size
    requires |p| == 10
  {
    Size(1 + U24(p[4], p[5], p[6]), 1 + U24(p[7], p[8], p[9]))
  }

  predicate GoodVp8l(p: Bytes) {
    |p| >= 5 && p[0] == 0x2f && LE(p[1..5]) / 0x2000_0000 == 0
  }

  function Vp8lSize(p: Bytes): Size
    requires |p| >= 5
  {
    var bits := LE(p[1..5]);
    Size(1 + bits % 0x4000, 1 + bits / 0x4000 % 0x4000)
  }

  function Vp8Size(p: Bytes): Size
    requires |p| >= 10
  {
    Size(LE(p[6..8]) % 0x4000, LE(p[8..10]) % 0x4000)
  }

  predicate GoodVp8(p: Bytes) {
    |p| >= 10 && p[0] % 2 == 0 && p[3] == 0x9d && p[4] == 0x01 && p[5] == 0x2a &&
    Vp8Size(p).width > 0 && Vp8Size(p).height > 0
  }

  predicate GoodChunk(c: Chunk) {
    (c.kind == VP8X ==> GoodVp8x(c.payload)) && (c.kind == VP8L ==> GoodVp8l(c.payload)) &&
    (c.kind == VP8 ==> GoodVp8(c.payload))
  }

  /** The size after one good chunk: VP8X always decides, a frame only if nothing did before. */
  function Seen(size: Size, c: Chunk): Size
    requires GoodChunk(c)
  {
    if c.kind == VP8X then Vp8xSize(c.payload)
    else if c.kind == VP8L && size.width == 0 then Vp8lSize(c.payload)
    else if c.kind == VP8 && size.width == 0 then Vp8Size(c.payload)
    else size
  }

  // ----- the walk -----

  /** Chunks are padded to even length. */
  function Pad(n: nat): (r: nat)
    ensures r <= 1 && (n + r) % 2 == 0
  {
    n % 2
  }

  datatype Front = Torn | Front(chunk: Chunk, rest: Bytes)

  /** The chunk that s starts with, padding included, and what follows it. */
  function FrontOf(s: Bytes): (r: Front)
    ensures r.Front? ==> |r.rest| < |s|
  {
    if |s| < 8 then Torn
    else
      var n := LE(s[4..8]);
      if 8 + n + Pad(n) > |s| || (Pad(n) != 0 && s[8 + n] != 0) then Torn
      else Front(Chunk(s[..4], s[8..8 + n]), s[8 + n + Pad(n)..])
  }

  /** The walk over s, the bytes from the current offset on. */
  function Walk(s: Bytes, chunks: nat, size: Size): Option<Size>
    decreases |s|
  {
    if s == [] then if size.width > 0 && size.height > 0 then Some(size) else None
    else
      var f := FrontOf(s);
      if chunks >= MAX_CHUNKS || f.Torn? || !GoodChunk(f.chunk) then None
      else Walk(f.rest, chunks + 1, Seen(size, f.chunk))
  }

  predicate GoodHeader(data: Bytes) {
    |data| >= 20 && data[..4] == RIFF && data[8..12] == WEBP && LE(data[4..8]) + 8 == |data|
  }

  function Config(data: Bytes): Option<Size> {
    if GoodHeader(data) then Walk(data[12..], 0, UNKNOWN) else None
  }

  lemma ShortIsTorn(s: Bytes)
    ensures |s| < 8 ==> FrontOf(s).Torn?
  {
  }

  lemma Shifted(data: Bytes, offset: nat, a: nat, b: nat)
    requires a <= b && offset + b <= |data|
    ensures data[offset..][a..b] == data[offset + a..offset + b] && data[offset..][b..] == data[offset + b..]
  {
  }

  /** The chunk at an offset into the whole of the data, when there is one. */
  lemma FrontAt(data: Bytes, offset: nat, n: nat)
    requires offset + 8 <= |data| && n == LE(data[offset + 4..offset + 8]) && offset + 8 + n + Pad(n) <= |data|
    requires Pad(n) != 0 ==> data[offset + 8 + n] == 0
    ensures FrontOf(data[offset..]) ==
            Front(Chunk(data[offset..offset + 4], data[offset + 8..offset + 8 + n]), data[offset + 8 + n + Pad(n)..])
  {
    hide LE, Pad;
    Shifted(data, offset, 0, 4);
    Shifted(data, offset, 4, 8);
    Shifted(data, offset, 8, 8 + n);
    Shifted(data, offset, 8 + n, 8 + n + Pad(n));
  }

  lemma TornAt(data: Bytes, offset: nat, n: nat)
    requires offset + 8 <= |data| && n == LE(data[offset + 4..offset + 8])
    requires offset + 8 + n + Pad(n) > |data| || (Pad(n) != 0 && data[offset + 8 + n] != 0)
    ensures FrontOf(data[offset..]).Torn?
  {
    hide LE, Pad;
    Shifted(data, offset, 4, 8);
  }

  /** The loop of webPConfig; every index and slice is checked to be in bounds. */
  method WebPConfig(data: Bytes) returns (r: Option<Size>)
    ensures r == Config(data)
  {
    hide GoodChunk, Seen, LE, FrontOf;
    if |data| < 20 || data[..4] != RIFF || data[8..12] != WEBP { return None; }
    if LE(data[4..8]) + 8 != |data| { return None; }
    var offset, chunks, size := 12, 0, UNKNOWN;
    while offset < |data|
      invariant 12 <= offset <= |data|
      invariant Walk(data[12..], 0, UNKNOWN) == Walk(data[offset..], chunks, size)
      decreases |data| - offset
    {
      if chunks >= MAX_CHUNKS || |data| - offset < 8 {
        assert |data[offset..]| < 8 ==> FrontOf(data[offset..]).Torn? by { ShortIsTorn(data[offset..]); }
        return None;
      }
      var kind, n := data[offset..offset + 4], LE(data[offset + 4..offset + 8]);
      var payloadEnd := offset + 8 + n;
      var paddedEnd := payloadEnd + n % 2;
      if paddedEnd > |data| {
        TornAt(data, offset, n);
        return None;
      }
      if n % 2 != 0 && data[payloadEnd] != 0 {
        TornAt(data, offset, n);
        return None;
      }
      FrontAt(data, offset, n);
      var c := Chunk(kind, data[offset + 8..payloadEnd]);
      if !GoodChunk(c) { return None; }
      size := Seen(size, c);
      offset := paddedEnd;
      chunks := chunks + 1;
    }
    assert data[offset..] == [];
    return if size.width > 0 && size.height > 0 then Some(size) else None;
  }

  // ----- the container, written rather than read -----

  function Padding(n: nat): Bytes {
    if Pad(n) != 0 then [0] else []
  }

  function ChunkBytes(c: Chunk): Bytes {
    c.kind + Le32(|c.payload|) + c.payload + Padding(|c.payload|)
  }

  function Body(chunks: seq<Chunk>): Bytes {
    if chunks == [] then [] else ChunkBytes(chunks[0]) + Body(chunks[1..])
  }

  function FileBytes(chunks: seq<Chunk>): Bytes {
    RIFF + Le32(4 + |Body(chunks)|) + WEBP + Body(chunks)
  }

  predicate Writable(chunks: seq<Chunk>) {
    forall i :: 0 <= i < |chunks| ==> |chunks[i].kind| == 4 && |chunks[i].payload| < 0x1_0000_0000 && GoodChunk(chunks[i])
  }

  /** A WebP file of these chunks, small enough for its size field. */
  predicate Encodes(data: Bytes, chunks: seq<Chunk>) {
    |chunks| <= 256 && Writable(chunks) && data == FileBytes(chunks) && 4 + |Body(chunks)| < 0x1_0000_0000
  }

  function Capacity(k: nat): nat {
    if k == 0 then 1 else 256 * Capacity(k - 1)
  }

  lemma {:induction false} LeBytesRoundTrip(n: nat, k: nat)
    requires n < Capacity(k)
    ensures LE(LeBytes(n, k)) == n
    decreases k
  {
    if k > 0 {
      LeBytesRoundTrip(n / 256, k - 1);
      assert LeBytes(n, k)[1..] == LeBytes(n / 256, k - 1);
    }
  }

  lemma LowByte(low: byte, high: nat)
    ensures (low + 256 * high) % 256 == low && (low + 256 * high) / 256 == high
  {
  }

  lemma {:induction false} LeRoundTrip(s: Bytes)
    ensures LE(s) < Capacity(|s|) && LeBytes(LE(s), |s|) == s
  {
    if s != [] {
      LeRoundTrip(s[1..]);
      LowByte(s[0], LE(s[1..]));
      assert LeBytes(LE(s), |s|) == [LE(s) % 256] + LeBytes(LE(s) / 256, |s| - 1);
      assert s == [s[0]] + s[1..];
    }
  }

  lemma Capacity4()
    ensures Capacity(4) == 0x1_0000_0000
  {
  }

  /** A written chunk is read back, with whatever follows it. */
  lemma FrontOfChunk(c: Chunk, rest: Bytes)
    requires |c.kind| == 4 && |c.payload| < 0x1_0000_0000
    ensures FrontOf(ChunkBytes(c) + rest) == Front(c, rest)
  {
    hide LE, LeBytes;
    var s, n := ChunkBytes(c) + rest, |c.payload|;
    Capacity4();
    LeBytesRoundTrip(n, 4);
    assert s[..4] == c.kind && s[4..8] == Le32(n) && s[8..8 + n] == c.payload;
    assert s[8 + n + Pad(n)..] == rest;
  }

  /** And what is read is what was written. */
  lemma FrontIsChunk(s: Bytes)
    requires FrontOf(s).Front?
    ensures var f := FrontOf(s);
            s == ChunkBytes(f.chunk) + f.rest && |f.chunk.kind| == 4 && |f.chunk.payload| < 0x1_0000_0000
  {
    hide LE, LeBytes;
    Capacity4();
    LeRoundTrip(s[4..8]);
    var n := LE(s[4..8]);
    assert s[8 + n..8 + n + Pad(n)] == Padding(n);
  }

  function SeenAll(size: Size, chunks: seq<Chunk>): Size
    requires Writable(chunks)
    decreases |chunks|
  {
    if chunks == [] then size else SeenAll(Seen(size, chunks[0]), chunks[1..])
  }

  lemma {:induction false} WalkBody(chunks: seq<Chunk>, before: nat, size: Size)
    requires Writable(chunks) && before + |chunks| <= MAX_CHUNKS
    ensures Walk(Body(chunks), before, size) == Walk([], before + |chunks|, SeenAll(size, chunks))
    decreases |chunks|
  {
    hide GoodChunk, Seen, FrontOf, ChunkBytes;
    if chunks != [] {
      FrontOfChunk(chunks[0], Body(chunks[1..]));
      WalkBody(chunks[1..], before + 1, Seen(size, chunks[0]));
    }
  }

  /** An accepted walk saw a list of good chunks that exactly tiles the bytes. */
  lemma {:induction false} WalkTiles(s: Bytes, before: nat, size: Size) returns (chunks: seq<Chunk>)
    requires before <= MAX_CHUNKS && Walk(s, before, size).Some?
    ensures Writable(chunks) && before + |chunks| <= MAX_CHUNKS && s == Body(chunks)
    decreases |s|
  {
    hide GoodChunk, Seen, FrontOf, ChunkBytes;
    if s == [] {
      chunks := [];
    } else {
      var f := FrontOf(s);
      var more := WalkTiles(f.rest, before + 1, Seen(size, f.chunk));
      chunks := [f.chunk] + more;
      assert chunks[1..] == more;
      FrontIsChunk(s);
    }
  }

  lemma HeaderOf(chunks: seq<Chunk>)
    requires 4 + |Body(chunks)| < 0x1_0000_0000
    ensures var data := FileBytes(chunks);
            |data| == 12 + |Body(chunks)| && data[..4] == RIFF && data[8..12] == WEBP &&
            LE(data[4..8]) + 8 == |data| && data[12..] == Body(chunks)
  {
    hide LE, LeBytes, Body;
    var n := 4 + |Body(chunks)|;
    Capacity4();
    LeBytesRoundTrip(n, 4);
    var data := FileBytes(chunks);
    assert data[4..8] == Le32(n) && data[12..] == Body(chunks);
  }

  lemma BodyLength(chunks: seq<Chunk>)
    requires Writable(chunks) && chunks != []
    ensures |Body(chunks)| >= 8
  {
  }

  /** Reading what was written: the size the chunks give, if they give one. */
  lemma ConfigOfFile(data: Bytes, chunks: seq<Chunk>)
    requires Encodes(data, chunks)
    ensures var size := SeenAll(UNKNOWN, chunks);
            Config(data) == if size.width > 0 && size.height > 0 then Some(size) else None
  {
    hide Walk, Body, FileBytes, GoodChunk, LE;
    HeaderOf(chunks);
    WalkBody(chunks, 0, UNKNOWN);
    assert Walk([], |chunks|, SeenAll(UNKNOWN, chunks)) ==
      (var size := SeenAll(UNKNOWN, chunks); if size.width > 0 && size.height > 0 then Some(size) else None) by {
      WalkEnd(|chunks|, SeenAll(UNKNOWN, chunks));
    }
    if chunks != [] { BodyLength(chunks); }
  }

  lemma WalkEnd(n: nat, size: Size)
    ensures Walk([], n, size) == if size.width > 0 && size.height > 0 then Some(size) else None
  {
  }

  /** Accepted bytes are exactly a WebP file of at most 256 good chunks. */
  lemma AcceptedIsFile(data: Bytes) returns (chunks: seq<Chunk>)
    requires Config(data).Some?
    ensures Encodes(data, chunks) && chunks != [] && Config(data) == Some(SeenAll(UNKNOWN, chunks))
  {
    hide Walk, GoodChunk, LE, LeBytes, Body;
    chunks := WalkTiles(data[12..], 0, UNKNOWN);
    Capacity4();
    LeRoundTrip(data[4..8]);
    assert data == data[..4] + data[4..8] + data[8..12] + data[12..];
    assert Body([]) == [] by { EmptyBody(); }
    ConfigOfFile(data, chunks);
  }

  lemma EmptyBody()
    ensures Body([]) == []
  {
  }

  // ----- which size that is -----

  predicate IsFrame(c: Chunk) {
    c.kind == VP8 || c.kind == VP8L
  }

  function FrameSize(c: Chunk): Size
    requires IsFrame(c) && GoodChunk(c)
  {
    if c.kind == VP8L then Vp8lSize(c.payload) else Vp8Size(c.payload)
  }

  function LastCanvas(chunks: seq<Chunk>): Option<Size>
    requires Writable(chunks)
  {
    if chunks == [] then None
    else
      var last := chunks[|chunks| - 1];
      if last.kind == VP8X then Some(Vp8xSize(last.payload)) else LastCanvas(chunks[..|chunks| - 1])
  }

  function FirstFrame(chunks: seq<Chunk>): Option<Size>
    requires Writable(chunks)
  {
    if chunks == [] then None
    else if IsFrame(chunks[0]) then Some(FrameSize(chunks[0]))
    else FirstFrame(chunks[1..])
  }

  /** Every size a good chunk states lies between 1 and 2^24. */
  lemma SizesBounded(c: Chunk)
    requires GoodChunk(c)
    ensures c.kind == VP8X ==> 1 <= Vp8xSize(c.payload).width <= 0x100_0000 && 1 <= Vp8xSize(c.payload).height <= 0x100_0000
    ensures IsFrame(c) ==> 1 <= FrameSize(c).width <= 0x4000 && 1 <= FrameSize(c).height <= 0x4000
  {
  }

  lemma SeenAllSnoc(size: Size, chunks: seq<Chunk>, c: Chunk)
    requires Writable(chunks + [c])
    ensures Writable(chunks) && GoodChunk(c)
    ensures SeenAll(size, chunks + [c]) == Seen(SeenAll(size, chunks), c)
    decreases |chunks|
  {
    hide GoodChunk, Seen;
    assert (chunks + [c])[|chunks|] == c;
    assert forall i :: 0 <= i < |chunks| ==> (chunks + [c])[i] == chunks[i];
    if chunks == [] {
      assert SeenAll(Seen(size, c), []) == Seen(size, c);
      assert (chunks + [c])[1..] == [];
    } else {
      assert (chunks + [c])[1..] == chunks[1..] + [c] && (chunks + [c])[0] == chunks[0];
      SeenAllSnoc(Seen(size, chunks[0]), chunks[1..], c);
    }
  }

  lemma FirstFrameSnoc(chunks: seq<Chunk>, c: Chunk)
    requires Writable(chunks + [c]) && Writable(chunks) && GoodChunk(c)
    ensures FirstFrame(chunks + [c]) ==
            if FirstFrame(chunks).Some? then FirstFrame(chunks)
            else if IsFrame(c) then Some(FrameSize(c)) else None
    decreases |chunks|
  {
    hide GoodChunk;
    if chunks == [] {
      assert (chunks + [c])[1..] == [];
    } else {
      assert (chunks + [c])[1..] == chunks[1..] + [c] && (chunks + [c])[0] == chunks[0];
      FirstFrameSnoc(chunks[1..], c);
    }
  }

  /** The size is that of the last VP8X chunk, or else of the first frame. */
  lemma {:induction false} SizeIsCanvasOrFrame(chunks: seq<Chunk>)
    requires Writable(chunks)
    ensures SeenAll(UNKNOWN, chunks) ==
            if LastCanvas(chunks).Some? then LastCanvas(chunks).value
            else if FirstFrame(chunks).Some? then FirstFrame(chunks).value
            else UNKNOWN
    ensures var size := SeenAll(UNKNOWN, chunks);
            size == UNKNOWN || (1 <= size.width <= 0x100_0000 && 1 <= size.height <= 0x100_0000)
    ensures LastCanvas(chunks).Some? || FirstFrame(chunks).Some? ==> SeenAll(UNKNOWN, chunks).width > 0
  {
    hide GoodChunk, FirstFrame, SeenAll, Vp8xSize, Vp8lSize, Vp8Size;
    if chunks == [] {
      assert SeenAll(UNKNOWN, []) == UNKNOWN && FirstFrame([]) == None by { NoChunks(); }
    } else {
      var n := |chunks| - 1;
      var front, c := chunks[..n], chunks[n];
      assert chunks == front + [c];
      SizeIsCanvasOrFrame(front);
      SeenAllSnoc(UNKNOWN, front, c);
      FirstFrameSnoc(front, c);
      SizesBounded(c);
    }
  }

  lemma NoChunks()
    ensures SeenAll(UNKNOWN, []) == UNKNOWN && FirstFrame([]) == None
  {
  }

  /** Accepted, both ways: such a file, and a chunk in it that states a size. */
  lemma AcceptedExactly(data: Bytes, size: Size)
    ensures Config(data) == Some(size) <==>
            exists chunks :: Encodes(data, chunks) && SeenAll(UNKNOWN, chunks) == size && size.width > 0
    ensures Config(data) == Some(size) ==> 1 <= size.width <= 0x100_0000 && 1 <= size.height <= 0x100_0000
  {
    hide Config, FileBytes, Body, SeenAll, GoodChunk;
    if Config(data) == Some(size) {
      var chunks := AcceptedIsFile(data);
      SizeIsCanvasOrFrame(chunks);
      assert size.width > 0 by { ConfigPositive(data); }
    }
    if exists chunks :: Encodes(data, chunks) && SeenAll(UNKNOWN, chunks) == size && size.width > 0 {
      var chunks :| Encodes(data, chunks) && SeenAll(UNKNOWN, chunks) == size && size.width > 0;
      ConfigOfFile(data, chunks);
      SizeIsCanvasOrFrame(chunks);
    }
  }

  lemma ConfigPositive(data: Bytes)
    requires Config(data).Some?
    ensures Config(data).value.width > 0 && Config(data).value.height > 0
  {
    WalkPositive(data[12..], 0, UNKNOWN);
  }

  lemma {:induction false} WalkPositive(s: Bytes, chunks: nat, size: Size)
    requires Walk(s, chunks, size).Some?
    ensures Walk(s, chunks, size).value.width > 0 && Walk(s, chunks, size).value.height > 0
    decreases |s|
  {
    hide GoodChunk, Seen, FrontOf;
    if s != [] {
      var f := FrontOf(s);
      WalkPositive(f.rest, chunks + 1, Seen(size, f.chunk));
    }
  }

  // ----- every header that may be written, and no other -----

  /** A canvas header: five feature flags in bits 1 to 5 of the first byte, the rest reserved. */
  function Vp8xPayload(flags: nat, w: nat, h: nat): Bytes
    requires flags < 32 && w > 0 && h > 0
  {
    [2 * flags, 0, 0, 0] + LeBytes(w - 1, 3) + LeBytes(h - 1, 3)
  }

  /** A lossless frame: two sizes of 14 bits, an alpha bit, version 0, and the image behind them. */
  function Vp8lPayload(w: nat, h: nat, alpha: nat, image: Bytes): Bytes
    requires w > 0 && h > 0
  {
    [0x2f] + Le32(w - 1 + (h - 1) * 0x4000 + alpha * 0x1000_0000) + image
  }

  /** A lossy key frame: the rest of its tag, the start code, two sizes with a scale each, and the image. */
  function Vp8Payload(tag: Bytes, w: nat, xScale: nat, h: nat, yScale: nat, image: Bytes): Bytes {
    tag + [0x9d, 0x01, 0x2a] + LeBytes(w + xScale * 0x4000, 2) + LeBytes(h + yScale * 0x4000, 2) + image
  }

  lemma ThreeBytes(n: nat)
    requires n < 0x100_0000
    ensures var s := LeBytes(n, 3); U24(s[0], s[1], s[2]) == n
  {
    assert LeBytes(n, 3) == [n % 256] + LeBytes(n / 256, 2);
    assert LeBytes(n / 256, 2) == [n / 256 % 256] + LeBytes(n / 256 / 256, 1);
    assert LeBytes(n / 256 / 256, 1) == [n / 256 / 256 % 256] + LeBytes(n / 256 / 256 / 256, 0);
  }

  lemma BytesOfThree(low: byte, mid: byte, high: byte)
    ensures LeBytes(U24(low, mid, high), 3) == [low, mid, high] && U24(low, mid, high) < 0x100_0000
  {
    var n := U24(low, mid, high);
    assert n == low + 256 * (mid + 256 * high);
    LowByte(low, mid + 256 * high);
    LowByte(mid, high);
    assert LeBytes(n, 3) == [n % 256] + LeBytes(n / 256, 2);
    assert LeBytes(n / 256, 2) == [n / 256 % 256] + LeBytes(n / 256 / 256, 1);
    assert LeBytes(n / 256 / 256, 1) == [n / 256 / 256 % 256] + LeBytes(n / 256 / 256 / 256, 0);
  }

  lemma CanvasRoundTrip(flags: nat, w: nat, h: nat)
    requires flags < 32 && 1 <= w <= 0x100_0000 && 1 <= h <= 0x100_0000
    ensures var p := Vp8xPayload(flags, w, h); GoodVp8x(p) && Vp8xSize(p) == Size(w, h)
  {
    hide LeBytes;
    ThreeBytes(w - 1);
    ThreeBytes(h - 1);
    var p := Vp8xPayload(flags, w, h);
    assert p[4..7] == LeBytes(w - 1, 3) && p[7..10] == LeBytes(h - 1, 3);
  }

  /** Accepted canvas headers are exactly those that may be written. */
  lemma CanvasExactly(p: Bytes)
    ensures GoodVp8x(p) <==>
            exists flags: nat, w: nat, h: nat :: flags < 32 && 1 <= w <= 0x100_0000 && 1 <= h <= 0x100_0000 &&
              p == Vp8xPayload(flags, w, h)
  {
    hide LeBytes;
    if GoodVp8x(p) {
      var size := Vp8xSize(p);
      BytesOfThree(p[4], p[5], p[6]);
      BytesOfThree(p[7], p[8], p[9]);
      assert p == Vp8xPayload(p[0] / 2, size.width, size.height);
    }
    forall flags: nat, w: nat, h: nat | flags < 32 && 1 <= w <= 0x100_0000 && 1 <= h <= 0x100_0000 &&
                                        p == Vp8xPayload(flags, w, h)
      ensures GoodVp8x(p)
    {
      CanvasRoundTrip(flags, w, h);
    }
  }

  lemma LosslessRoundTrip(w: nat, h: nat, alpha: nat, image: Bytes)
    requires 1 <= w <= 0x4000 && 1 <= h <= 0x4000 && alpha < 2
    ensures var p := Vp8lPayload(w, h, alpha, image); GoodVp8l(p) && Vp8lSize(p) == Size(w, h)
  {
    hide LeBytes, LE;
    var bits := w - 1 + (h - 1) * 0x4000 + alpha * 0x1000_0000;
    Capacity4();
    LeBytesRoundTrip(bits, 4);
    assert Vp8lPayload(w, h, alpha, image)[1..5] == Le32(bits);
  }

  /** Accepted lossless frames are exactly those that may be written. */
  lemma LosslessExactly(p: Bytes)
    ensures GoodVp8l(p) <==>
            exists w: nat, h: nat, alpha: nat, image :: 1 <= w <= 0x4000 && 1 <= h <= 0x4000 && alpha < 2 &&
              p == Vp8lPayload(w, h, alpha, image)
  {
    hide LeBytes, LE;
    if GoodVp8l(p) {
      var bits := LE(p[1..5]);
      var w, h, alpha := 1 + bits % 0x4000, 1 + bits / 0x4000 % 0x4000, bits / 0x1000_0000;
      BitsSplit(bits);
      LeRoundTrip(p[1..5]);
      assert p == [0x2f] + p[1..5] + p[5..];
      assert p == Vp8lPayload(w, h, alpha, p[5..]);
    }
    forall w: nat, h: nat, alpha: nat, image | 1 <= w <= 0x4000 && 1 <= h <= 0x4000 && alpha < 2 &&
                                               p == Vp8lPayload(w, h, alpha, image)
      ensures GoodVp8l(p)
    {
      LosslessRoundTrip(w, h, alpha, image);
    }
  }

  lemma BitsSplit(bits: nat)
    ensures bits == bits % 0x4000 + bits / 0x4000 % 0x4000 * 0x4000 + bits / 0x1000_0000 * 0x1000_0000
    ensures bits / 0x2000_0000 == 0 ==> bits / 0x1000_0000 < 2
  {
  }

  lemma TwoBytes(n: nat, scale: nat)
    requires n < 0x4000 && scale < 4
    ensures LE(LeBytes(n + scale * 0x4000, 2)) % 0x4000 == n
  {
    hide LE, LeBytes;
    assert Capacity(2) == 0x1_0000 by { assert Capacity(1) == 256 * Capacity(0); }
    LeBytesRoundTrip(n + scale * 0x4000, 2);
  }

  lemma LossyRoundTrip(tag: Bytes, w: nat, xScale: nat, h: nat, yScale: nat, image: Bytes)
    requires |tag| == 3 && tag[0] % 2 == 0 && 1 <= w < 0x4000 && 1 <= h < 0x4000 && xScale < 4 && yScale < 4
    ensures var p := Vp8Payload(tag, w, xScale, h, yScale, image); GoodVp8(p) && Vp8Size(p) == Size(w, h)
  {
    hide LeBytes, LE;
    TwoBytes(w, xScale);
    TwoBytes(h, yScale);
    var p := Vp8Payload(tag, w, xScale, h, yScale, image);
    assert p[6..8] == LeBytes(w + xScale * 0x4000, 2) && p[8..10] == LeBytes(h + yScale * 0x4000, 2);
  }

  lemma TwoBytesBack(s: Bytes)
    requires |s| == 2
    ensures LeBytes(LE(s) % 0x4000 + LE(s) / 0x4000 * 0x4000, 2) == s && LE(s) / 0x4000 < 4
  {
    hide LE, LeBytes;
    assert Capacity(2) == 0x1_0000 by { assert Capacity(1) == 256 * Capacity(0); }
    LeRoundTrip(s);
  }

  /** Accepted lossy frames are exactly those that may be written: any key frame's tag, any scales. */
  lemma LossyExactly(p: Bytes)
    ensures GoodVp8(p) <==>
            exists tag: Bytes, w: nat, xScale: nat, h: nat, yScale: nat, image: Bytes ::
              |tag| == 3 && tag[0] % 2 == 0 && 1 <= w < 0x4000 && 1 <= h < 0x4000 && xScale < 4 && yScale < 4 &&
              p == Vp8Payload(tag, w, xScale, h, yScale, image)
  {
    hide LeBytes, LE;
    if GoodVp8(p) {
      var x, y := LE(p[6..8]), LE(p[8..10]);
      TwoBytesBack(p[6..8]);
      TwoBytesBack(p[8..10]);
      assert p == p[..3] + [0x9d, 0x01, 0x2a] + p[6..8] + p[8..10] + p[10..];
      assert p == Vp8Payload(p[..3], x % 0x4000, x / 0x4000, y % 0x4000, y / 0x4000, p[10..]);
    }
    forall tag: Bytes, w: nat, xScale: nat, h: nat, yScale: nat, image: Bytes |
      |tag| == 3 && tag[0] % 2 == 0 && 1 <= w < 0x4000 && 1 <= h < 0x4000 && xScale < 4 && yScale < 4 &&
      p == Vp8Payload(tag, w, xScale, h, yScale, image)
      ensures GoodVp8(p)
    {
      LossyRoundTrip(tag, w, xScale, h, yScale, image);
    }
  }

  /** The bounds are tight: every size from 1 to 2^24 each way is the size of some accepted file. */
  lemma EverySizeAccepted(flags: nat, w: nat, h: nat) returns (data: Bytes)
    requires flags < 32 && 1 <= w <= 0x100_0000 && 1 <= h <= 0x100_0000
    ensures Config(data) == Some(Size(w, h))
  {
    hide LeBytes, LE, Config, Vp8xSize, GoodVp8x;
    var c := Chunk(VP8X, Vp8xPayload(flags, w, h));
    CanvasRoundTrip(flags, w, h);
    data := FileBytes([c]);
    assert Body([c]) == ChunkBytes(c) + Body([]) && Body([]) == [];
    assert SeenAll(UNKNOWN, [c]) == Seen(UNKNOWN, c) by { assert SeenAll(Seen(UNKNOWN, c), []) == Seen(UNKNOWN, c); }
    ConfigOfFile(data, [c]);
  }
}
