/** What the PNG audit guarantees: exact framing, detection of corruption, and acceptance of rendered frames. */
module PngProofs {
  import opened Domain
  import opened Crc
  import opened Png

  // ---------------------------------------------------------------- framing

  lemma Associates(a: seq<Byte>, b: seq<Byte>, c: seq<Byte>)
    ensures a + (b + c) == (a + b) + c
  {
  }

  lemma {:induction false} EncodeAllOfAppend(cs: seq<Chunk>, more: seq<Chunk>)
    requires AllEncodable(cs) && AllEncodable(more)
    ensures AllEncodable(cs + more) && EncodeAll(cs + more) == EncodeAll(cs) + EncodeAll(more)
  {
    if cs == [] {
      assert cs + more == more;
    } else {
      EncodeAllOfAppend(cs[1..], more);
      assert (cs + more)[1..] == cs[1..] + more;
      Associates(EncodeChunk(cs[0]), EncodeAll(cs[1..]), EncodeAll(more));
    }
  }

  /** No accepted file is a proper prefix of another accepted file: every truncation and every extension
      of an accepted file is rejected. */
  lemma AcceptedIsPrefixFree(data: seq<Byte>, longer: seq<Byte>)
    requires Decode(data).Some? && Decode(longer).Some? && data <= longer
    ensures data == longer
  {
    var cs := Decode(data).value;
    DecodeIff(data, cs);
    var tail := longer[|data|..];
    assert longer[8..] == EncodeAll(cs) + tail;
    ChunksOfEncoding(cs, tail);
  }

  // ---------------------------------------------------------------- corruption

  /** The same length, and the same bytes outside the `n` bytes from `at`. */
  predicate DiffersOnlyIn(data: seq<Byte>, other: seq<Byte>, at: nat, n: nat) {
    && |data| == |other|
    && at + n <= |data|
    && data[..at] == other[..at]
    && data[at+n..] == other[at+n..]
  }

  lemma PrependInFront(c: Chunk, cs: seq<Chunk>, more: Option<seq<Chunk>>)
    ensures Prepend([c], Prepend(cs, more)) == Prepend([c] + cs, more)
  {
    if more.Some? {
      assert [c] + (cs + more.value) == [c] + cs + more.value;
    }
  }

  lemma PrependNothing(more: Option<seq<Chunk>>)
    ensures Prepend([], more) == more
  {
    if more.Some? {
      assert [] + more.value == more.value;
    }
  }

  /** The walk over intact chunks reaches the chunk after them. */
  lemma {:induction false} ChunksSkip(cs: seq<Chunk>, rest: seq<Byte>)
    requires AllEncodable(cs) && forall i :: 0 <= i < |cs| ==> cs[i].kind != IEND
    ensures Chunks(EncodeAll(cs) + rest) == Prepend(cs, Chunks(rest))
  {
    if cs == [] {
      assert EncodeAll(cs) + rest == rest;
      PrependNothing(Chunks(rest));
    } else {
      FirstOfEncoding(cs, rest);
      ChunksSkip(cs[1..], rest);
      PrependInFront(cs[0], cs[1..], Chunks(rest));
      assert [cs[0]] + cs[1..] == cs;
    }
  }

  lemma ChunksHead(c: Chunk, tail: seq<Byte>)
    requires Encodable(c)
    ensures var all := Chunks(EncodeChunk(c) + tail); all.Some? ==> all.value != [] && all.value[0] == c
  {
    NextOfEncoding(c, tail);
  }

  lemma UnsoundAfter(cs: seq<Chunk>, c: Chunk, more: seq<Chunk>)
    requires !Sound(c) && more != [] && more[0] == c
    ensures !AllSound(cs + more)
  {
    assert (cs + more)[|cs|] == c;
    UnsoundAt(cs + more, |cs|);
  }

  lemma DecodeOfMagic(rest: seq<Byte>)
    ensures Decode(MAGIC + rest).Some? ==> Chunks(rest).Some? && AllSound(Chunks(rest).value)
  {
    assert (MAGIC + rest)[8..] == rest;
  }

  /** A wrong CRC behind intact chunks makes the audit reject. */
  lemma UnsoundChunkRejected(cs: seq<Chunk>, c: Chunk, tail: seq<Byte>)
    requires AllEncodable(cs) && forall i :: 0 <= i < |cs| ==> cs[i].kind != IEND
    requires Encodable(c) && !Sound(c)
    ensures Decode(MAGIC + (EncodeAll(cs) + (EncodeChunk(c) + tail))) == None
  {
    var rest := EncodeChunk(c) + tail;
    DecodeOfMagic(EncodeAll(cs) + rest);
    ChunksSkip(cs, rest);
    ChunksHead(c, tail);
    if Chunks(rest).Some? {
      UnsoundAfter(cs, c, Chunks(rest).value);
    }
  }

  /** What stands before, inside and after the type, data and CRC of chunk `k`. */
  function Before(cs: seq<Chunk>, k: nat): seq<Byte>
    requires AllEncodable(cs) && k < |cs|
  {
    MAGIC + EncodeAll(cs[..k]) + U32Bytes(|cs[k].body|)
  }

  function Fields(c: Chunk): seq<Byte> {
    c.kind + c.body + c.crc
  }

  function After(cs: seq<Chunk>, k: nat): seq<Byte>
    requires AllEncodable(cs) && k < |cs|
  {
    EncodeAll(cs[k+1..])
  }

  /** The fields of chunk `k` occupy these positions of the file; the CRC is the last four of them. */
  function FieldsStart(cs: seq<Chunk>, k: nat): nat
    requires AllEncodable(cs) && k < |cs|
  {
    8 + |EncodeAll(cs[..k])| + 4
  }

  function FieldsEnd(cs: seq<Chunk>, k: nat): nat
    requires AllEncodable(cs) && k < |cs|
  {
    FieldsStart(cs, k) + |cs[k].body| + 8
  }

  lemma EncodeAllFirst(cs: seq<Chunk>)
    requires AllEncodable(cs) && cs != []
    ensures EncodeAll(cs) == EncodeChunk(cs[0]) + EncodeAll(cs[1..])
  {
  }

  lemma EncodeAllAround(cs: seq<Chunk>, k: nat)
    requires AllEncodable(cs) && k < |cs|
    ensures EncodeAll(cs) == EncodeAll(cs[..k]) + (EncodeChunk(cs[k]) + EncodeAll(cs[k+1..]))
  {
    var (before, rest) := (cs[..k], cs[k..]);
    assert cs == before + rest && rest[0] == cs[k] && rest[1..] == cs[k+1..];
    EncodeAllOfAppend(before, rest);
    EncodeAllFirst(rest);
  }

  /** An accepted file, cut around the fields of chunk `k`. */
  lemma CutAround(data: seq<Byte>, cs: seq<Chunk>, k: nat)
    requires IsImage(data, cs) && k < |cs|
    ensures data == Before(cs, k) + Fields(cs[k]) + After(cs, k)
    ensures |Before(cs, k)| == FieldsStart(cs, k) && |Before(cs, k)| + |Fields(cs[k])| == FieldsEnd(cs, k) <= |data|
    ensures Sound(cs[k])
  {
    EncodeAllAround(cs, k);
    Replaced(cs, k, cs[k]);
    AllSoundMeansEach(cs);
  }

  lemma Replaced(cs: seq<Chunk>, k: nat, c: Chunk)
    requires AllEncodable(cs) && k < |cs| && Encodable(c) && |c.body| == |cs[k].body|
    ensures Before(cs, k) + Fields(c) + After(cs, k) ==
            MAGIC + (EncodeAll(cs[..k]) + (EncodeChunk(c) + EncodeAll(cs[k+1..])))
  {
  }

  lemma OnlyMiddleChanged(a: seq<Byte>, p: seq<Byte>, t: seq<Byte>, other: seq<Byte>, at: nat, n: nat)
    requires DiffersOnlyIn(a + p + t, other, at, n) && |a| <= at && at + n <= |a| + |p|
    ensures other == a + other[|a|..|a|+|p|] + t
  {
    var data := a + p + t;
    assert a == data[..at][..|a|] == other[..at][..|a|];
    assert t == data[at+n..][|a|+|p|-at-n..] == other[at+n..][|a|+|p|-at-n..];
  }

  function FieldsSplit(q: seq<Byte>): (c: Chunk)
    requires 8 <= |q|
    ensures Fields(c) == q && |c.kind| == |c.crc| == 4
  {
    Chunk(q[..4], q[4..|q|-4], q[|q|-4..])
  }

  /** The fields of chunk `k` as another file of the same layout has them. */
  function FieldsIn(other: seq<Byte>, cs: seq<Chunk>, k: nat): (c: Chunk)
    requires AllEncodable(cs) && k < |cs| && FieldsEnd(cs, k) <= |other|
  {
    FieldsSplit(other[FieldsStart(cs, k)..FieldsEnd(cs, k)])
  }

  /** Bytes inside the fields of chunk `k` were changed, so that its CRC is wrong: the audit rejects. */
  lemma BrokenChunkRejected(data: seq<Byte>, other: seq<Byte>, cs: seq<Chunk>, k: nat, at: nat, n: nat)
    requires IsImage(data, cs) && k < |cs| && DiffersOnlyIn(data, other, at, n)
    requires FieldsStart(cs, k) <= at && at + n <= FieldsEnd(cs, k) <= |other|
    requires !Sound(FieldsIn(other, cs, k))
    ensures Decode(other) == None
  {
    CutAround(data, cs, k);
    OnlyMiddleChanged(Before(cs, k), Fields(cs[k]), After(cs, k), other, at, n);
    var c := FieldsIn(other, cs, k);
    Replaced(cs, k, c);
    UnsoundChunkRejected(cs[..k], c, EncodeAll(cs[k+1..]));
  }

  lemma MiddlesDiffer(a: seq<Byte>, p: seq<Byte>, q: seq<Byte>, t: seq<Byte>, x: seq<Byte>, y: seq<Byte>, j: nat, n: nat)
    requires x == a + p + t && y == a + q + t && |p| == |q| && j + n <= |p|
    requires DiffersOnlyIn(x, y, |a| + j, n)
    ensures DiffersOnlyIn(p, q, j, n) && (x != y ==> p != q)
  {
    assert p[..j] == x[..|a|+j][|a|..] && q[..j] == y[..|a|+j][|a|..];
    assert p[j+n..] == x[|a|+j+n..][..|p|-j-n] && q[j+n..] == y[|a|+j+n..][..|p|-j-n];
  }

  /** Both files, cut around the fields of chunk `k`. */
  lemma CutBoth(data: seq<Byte>, other: seq<Byte>, cs: seq<Chunk>, k: nat, at: nat, n: nat)
    returns (a: seq<Byte>, p: seq<Byte>, q: seq<Byte>, t: seq<Byte>)
    requires IsImage(data, cs) && k < |cs| && DiffersOnlyIn(data, other, at, n)
    requires FieldsStart(cs, k) <= at && at + n <= FieldsEnd(cs, k) <= |other|
    ensures data == a + p + t && other == a + q + t && |a| == FieldsStart(cs, k) && |p| == |q| && at + n <= |a| + |p|
    ensures p == Fields(cs[k]) && q == Fields(FieldsIn(other, cs, k))
    ensures DiffersOnlyIn(data, other, |a| + (at - |a|), n)
  {
    CutAround(data, cs, k);
    a, p, t := Before(cs, k), Fields(cs[k]), After(cs, k);
    OnlyMiddleChanged(a, p, t, other, at, n);
    q := other[|a|..|a|+|p|];
  }

  /** How the fields of chunk `k` differ when the files differ only in `n` of their bytes. */
  lemma FieldsDiffer(data: seq<Byte>, other: seq<Byte>, cs: seq<Chunk>, k: nat, at: nat, n: nat)
    requires IsImage(data, cs) && k < |cs| && DiffersOnlyIn(data, other, at, n) && data != other
    requires FieldsStart(cs, k) <= at && at + n <= FieldsEnd(cs, k) <= |other|
    ensures DiffersOnlyIn(Fields(cs[k]), Fields(FieldsIn(other, cs, k)), at - FieldsStart(cs, k), n)
    ensures Fields(cs[k]) != Fields(FieldsIn(other, cs, k))
  {
    var a, p, q, t := CutBoth(data, other, cs, k, at, n);
    MiddlesDiffer(a, p, q, t, data, other, at - |a|, n);
  }

  lemma CrcFieldDiffers(c: Chunk, d: Chunk)
    requires |c.kind| == |d.kind| == |c.crc| == |d.crc| == 4 && |c.body| == |d.body|
    requires DiffersOnlyIn(Fields(c), Fields(d), |c.body| + 4, 4) && Fields(c) != Fields(d)
    ensures Sound(c) ==> !Sound(d)
  {
    var m := |c.body|;
    assert c.kind + c.body == Fields(c)[..m+4];
    assert d.kind + d.body == Fields(d)[..m+4];
  }

  lemma CoveredFieldsDiffer(c: Chunk, d: Chunk, j: nat)
    requires |c.kind| == |d.kind| == |c.crc| == |d.crc| == 4 && |c.body| == |d.body| && j <= |c.body|
    requires DiffersOnlyIn(Fields(c), Fields(d), j, 4) && Fields(c) != Fields(d)
    ensures DifferWithin4(c.kind + c.body, d.kind + d.body, j)
    ensures c.kind + c.body != d.kind + d.body && c.crc == d.crc
  {
    var m := |c.body|;
    var (p, q) := (Fields(c), Fields(d));
    assert c.kind + c.body == p[..m+4] && d.kind + d.body == q[..m+4];
    assert c.crc == p[j+4..][m-j..] && d.crc == q[j+4..][m-j..];
    assert p[..m+4][..j] == p[..j] && q[..m+4][..j] == q[..j];
    assert p[..m+4][j+4..] == p[j+4..][..m-j] && q[..m+4][j+4..] == q[j+4..][..m-j];
  }

  lemma CoveredChangeUnsound(c: Chunk, d: Chunk, j: nat)
    requires |c.kind| == |d.kind| == |c.crc| == |d.crc| == 4 && |c.body| == |d.body| && j <= |c.body|
    requires DiffersOnlyIn(Fields(c), Fields(d), j, 4) && Fields(c) != Fields(d)
    ensures Sound(c) ==> !Sound(d)
  {
    CoveredFieldsDiffer(c, d, j);
    BurstDetected(c.kind + c.body, d.kind + d.body, j);
  }

  /** Any change of the CRC field of a chunk makes the audit reject. */
  lemma CrcChangeRejected(data: seq<Byte>, other: seq<Byte>, cs: seq<Chunk>, k: nat)
    requires IsImage(data, cs) && k < |cs| && other != data
    requires DiffersOnlyIn(data, other, FieldsEnd(cs, k) - 4, 4)
    ensures Decode(other) == None
  {
    CutAround(data, cs, k);
    var at := FieldsEnd(cs, k) - 4;
    FieldsDiffer(data, other, cs, k, at, 4);
    var (c, d) := (cs[k], FieldsIn(other, cs, k));
    assert at - FieldsStart(cs, k) == |c.body| + 4;
    CrcFieldDiffers(c, d);
    BrokenChunkRejected(data, other, cs, k, at, 4);
  }

  /** Any change confined to four consecutive bytes of a chunk's type and data makes the audit reject. */
  lemma BurstRejected(data: seq<Byte>, other: seq<Byte>, cs: seq<Chunk>, k: nat, at: nat)
    requires IsImage(data, cs) && k < |cs| && other != data
    requires DiffersOnlyIn(data, other, at, 4)
    requires FieldsStart(cs, k) <= at && at + 4 <= FieldsEnd(cs, k) - 4
    ensures Decode(other) == None
  {
    var j := at - FieldsStart(cs, k);
    CutAround(data, cs, k);
    FieldsDiffer(data, other, cs, k, at, 4);
    var (c, d) := (cs[k], FieldsIn(other, cs, k));
    assert |d.body| == |c.body| && j <= |c.body|;
    CoveredChangeUnsound(c, d, j);
    BrokenChunkRejected(data, other, cs, k, at, 4);
  }

  lemma Widen(data: seq<Byte>, other: seq<Byte>, i: nat, at: nat, n: nat)
    requires DiffersOnlyIn(data, other, i, 1) && at <= i < at + n <= |data|
    ensures DiffersOnlyIn(data, other, at, n)
  {
    assert data[..at] == data[..i][..at] && other[..at] == other[..i][..at];
    assert data[at+n..] == data[i+1..][at+n-i-1..] && other[at+n..] == other[i+1..][at+n-i-1..];
  }

  lemma MagicChangeRejected(data: seq<Byte>, other: seq<Byte>, i: nat)
    requires MAGIC <= data && other != data && i < 8 && DiffersOnlyIn(data, other, i, 1)
    ensures Decode(other) == None
  {
    assert data == data[..i] + [data[i]] + data[i+1..] && other == other[..i] + [other[i]] + other[i+1..];
    assert data[i] != other[i];
  }

  lemma FieldsWithin(data: seq<Byte>, cs: seq<Chunk>, k: nat)
    requires IsImage(data, cs) && k < |cs|
    ensures 8 <= FieldsStart(cs, k) && FieldsStart(cs, k) + 8 <= FieldsEnd(cs, k) <= |data|
  {
    CutAround(data, cs, k);
  }

  lemma CrcByteRejected(data: seq<Byte>, other: seq<Byte>, cs: seq<Chunk>, i: nat, k: nat)
    requires IsImage(data, cs) && other != data && DiffersOnlyIn(data, other, i, 1)
    requires k < |cs| && FieldsStart(cs, k) <= i < FieldsEnd(cs, k) && FieldsEnd(cs, k) - 4 <= i
    ensures Decode(other) == None
  {
    FieldsWithin(data, cs, k);
    Widen(data, other, i, FieldsEnd(cs, k) - 4, 4);
    CrcChangeRejected(data, other, cs, k);
  }

  lemma DataByteRejected(data: seq<Byte>, other: seq<Byte>, cs: seq<Chunk>, i: nat, k: nat)
    requires IsImage(data, cs) && other != data && DiffersOnlyIn(data, other, i, 1)
    requires k < |cs| && FieldsStart(cs, k) <= i < FieldsEnd(cs, k) - 4
    ensures Decode(other) == None
  {
    FieldsWithin(data, cs, k);
    var e := FieldsEnd(cs, k);
    var at := if i + 4 <= e - 4 then i else e - 8;
    Widen(data, other, i, at, 4);
    BurstRejected(data, other, cs, k, at);
  }

  /** Any change of one byte of the magic, or of one byte of a chunk's type, data or CRC field, makes the audit reject. */
  lemma ByteChangeRejected(data: seq<Byte>, other: seq<Byte>, cs: seq<Chunk>, i: nat, k: nat)
    requires IsImage(data, cs) && other != data && DiffersOnlyIn(data, other, i, 1)
    requires i < 8 || (k < |cs| && FieldsStart(cs, k) <= i < FieldsEnd(cs, k))
    ensures Decode(other) == None
  {
    if i < 8 {
      MagicChangeRejected(data, other, i);
    } else if FieldsEnd(cs, k) - 4 <= i {
      CrcByteRejected(data, other, cs, i, k);
    } else {
      DataByteRejected(data, other, cs, i, k);
    }
  }

  // ---------------------------------------------------------------- the synthetic renderer

  function Sealed(kind: seq<Byte>, body: seq<Byte>): Chunk {
    Chunk(kind, body, Checksum(kind + body))
  }

  function Total(text: seq<Byte>): nat {
    if text == [] then 0 else Total(text[..|text|-1]) + text[|text|-1] as nat
  }

  /** Scan line `y`: the filter byte and one pixel repeated. */
  function ScanLine(seed: nat, y: nat, width: nat): seq<Byte> {
    var pixel: seq<Byte> := [((seed + y) % 255) as Byte, (seed * 2 % 255) as Byte, (seed * 3 % 255) as Byte, 255];
    [0] + seq(4 * width, (i: nat) => pixel[i % 4])
  }

  function ScanLines(seed: nat, height: nat, width: nat): seq<Byte> {
    if height == 0 then [] else ScanLines(seed, height - 1, width) + ScanLine(seed, height - 1, width)
  }

  function Seed(text: seq<Byte>): nat {
    Total(text) % 200 + 20
  }

  function HeaderBody(width: nat, height: nat): seq<Byte>
    requires width < TWO_TO_THE_32 && height < TWO_TO_THE_32
  {
    U32Bytes(width) + U32Bytes(height) + [8, 6, 0, 0, 0]
  }

  /** The fields of the three chunks do not fit their 32-bit slots. */
  predicate TooLarge(width: int, height: int, compressed: seq<Byte>) {
    !(0 <= width < TWO_TO_THE_32) || !(0 <= height < TWO_TO_THE_32) || TWO_TO_THE_32 <= |compressed|
  }

  method SumBytes(text: seq<Byte>) returns (total: nat)
    ensures total == Total(text)
  {
    total := 0;
    for i := 0 to |text|
      invariant total == Total(text[..i])
    {
      total := total + text[i] as nat;
      assert text[..i+1][..i] == text[..i];
    }
    assert text[..|text|] == text;
  }

  /** `compress` stands for zlib; packing an out-of-range number fails. */
  method CreateSyntheticPng(width: int, height: int, text: seq<Byte>, compress: seq<Byte> -> seq<Byte>)
    returns (png: Option<seq<Byte>>)
    ensures var w := if width < 0 then 0 else width;
            var h := if height < 0 then 0 else height;
            var compressed := compress(ScanLines(Seed(text), h, w));
            if TooLarge(width, height, compressed) then png == None
            else png.Some? && IsImage(png.value, [Sealed(IHDR, HeaderBody(width, height)),
                                                  Sealed(IDAT, compressed), Sealed(IEND, [])])
  {
    if width < 0 || TWO_TO_THE_32 <= width || height < 0 || TWO_TO_THE_32 <= height {
      return None;
    }
    var ihdr := Sealed(IHDR, HeaderBody(width, height));
    var total := SumBytes(text);
    var seed := total % 200 + 20;
    var raw: seq<Byte> := [];
    for y := 0 to height
      invariant raw == ScanLines(seed, y, width)
    {
      raw := raw + ScanLine(seed, y, width);
    }
    var compressed := compress(raw);
    if TWO_TO_THE_32 <= |compressed| {
      return None;
    }
    var idat := Sealed(IDAT, compressed);
    var iend := Sealed(IEND, []);
    png := Some(MAGIC + EncodeChunk(ihdr) + EncodeChunk(idat) + EncodeChunk(iend));
    ThreeChunks(ihdr, idat, iend);
  }

  lemma EncodeThree(a: Chunk, b: Chunk, c: Chunk)
    requires Encodable(a) && Encodable(b) && Encodable(c)
    ensures EncodeAll([a, b, c]) == EncodeChunk(a) + EncodeChunk(b) + EncodeChunk(c)
  {
    assert [a, b, c][1..] == [b, c] && [b, c][1..] == [c];
    assert EncodeAll([c]) == EncodeChunk(c) + [];
    assert EncodeAll([b, c]) == EncodeChunk(b) + EncodeAll([c]);
  }

  lemma ThreeSound(a: Chunk, b: Chunk, c: Chunk)
    requires Sound(a) && Sound(b) && Sound(c)
    ensures AllSound([a, b, c])
  {
    SoundSoFar([], a);
    SoundSoFar([a], b);
    SoundSoFar([a, b], c);
    assert [] + [a] + [b] + [c] == [a, b, c];
  }

  lemma ThreeChunks(a: Chunk, b: Chunk, c: Chunk)
    requires Encodable(a) && Encodable(b) && Encodable(c)
    requires a.kind == IHDR && 8 <= |a.body| && b.kind == IDAT && c.kind == IEND
    requires Sound(a) && Sound(b) && Sound(c)
    ensures IsImage(MAGIC + EncodeChunk(a) + EncodeChunk(b) + EncodeChunk(c), [a, b, c])
  {
    ThreeSound(a, b, c);
    EncodeThree(a, b, c);
  }

  /** A rendered frame is accepted with exactly the width and height it was rendered for. */
  lemma SyntheticAccepted(png: seq<Byte>, width: nat, height: nat, compressed: seq<Byte>)
    requires !TooLarge(width, height, compressed)
    requires IsImage(png, [Sealed(IHDR, HeaderBody(width, height)), Sealed(IDAT, compressed), Sealed(IEND, [])])
    ensures Decode(png).Some? && Width(Decode(png).value) == width && Height(Decode(png).value) == height
  {
    var cs := [Sealed(IHDR, HeaderBody(width, height)), Sealed(IDAT, compressed), Sealed(IEND, [])];
    DecodeIff(png, cs);
    var body := HeaderBody(width, height);
    assert body[..4] == U32Bytes(width) && body[4..8] == U32Bytes(height);
    U32OfBytes(width);
    U32OfBytes(height);
  }
}
