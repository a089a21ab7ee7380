/** The strict PNG audit: magic, a list of length-prefixed chunks with CRCs, IHDR first, IEND last.
    Chunk layout follows section 3.2 of RFC 2083. */
module Png {
  import opened Domain
  import opened Crc

  const MAGIC: seq<Byte> := [0x89, 0x50, 0x4E, 0x47, 0x0D, 0x0A, 0x1A, 0x0A]
  const IHDR: seq<Byte> := [0x49, 0x48, 0x44, 0x52]
  const IDAT: seq<Byte> := [0x49, 0x44, 0x41, 0x54]
  const IEND: seq<Byte> := [0x49, 0x45, 0x4E, 0x44]

  const TWO_TO_THE_32 := 0x1_0000_0000

  // ---------------------------------------------------------------- big-endian lengths

  function U32(b: seq<Byte>): nat
    requires |b| == 4
  {
    ((b[0] as int * 0x100 + b[1] as int) * 0x100 + b[2] as int) * 0x100 + b[3] as int
  }

  function U32Bytes(n: nat): (b: seq<Byte>)
    requires n < TWO_TO_THE_32
    ensures |b| == 4
  {
    var (n1, n2, n3) := (n / 0x100, n / 0x100 / 0x100, n / 0x100 / 0x100 / 0x100);
    [n3 as Byte, (n2 % 0x100) as Byte, (n1 % 0x100) as Byte, (n % 0x100) as Byte]
  }

  lemma U32OfBytes(n: nat)
    requires n < TWO_TO_THE_32
    ensures U32(U32Bytes(n)) == n
  {
    var (n1, n2) := (n / 0x100, n / 0x100 / 0x100);
    assert n2 / 0x100 * 0x100 + n2 % 0x100 == n2;
    assert n2 * 0x100 + n1 % 0x100 == n1;
  }

  lemma LowByte(q: nat, x: nat)
    requires x < 0x100
    ensures (q * 0x100 + x) / 0x100 == q && (q * 0x100 + x) % 0x100 == x
  {
  }

  lemma BytesOfU32(b: seq<Byte>)
    requires |b| == 4
    ensures U32(b) < TWO_TO_THE_32 && U32Bytes(U32(b)) == b
  {
    var n2 := b[0] as int * 0x100 + b[1] as int;
    var n1 := n2 * 0x100 + b[2] as int;
    LowByte(b[0] as int, b[1] as int);
    LowByte(n2, b[2] as int);
    LowByte(n1, b[3] as int);
  }

  // ---------------------------------------------------------------- chunks

  /** A chunk as stored: its type, its data and its CRC field. */
  datatype Chunk = Chunk(kind: seq<Byte>, body: seq<Byte>, crc: seq<Byte>)

  predicate Encodable(c: Chunk) {
    |c.kind| == 4 && |c.body| < TWO_TO_THE_32 && |c.crc| == 4
  }

  function EncodeChunk(c: Chunk): (b: seq<Byte>)
    requires Encodable(c)
    ensures |b| == |c.body| + 12
  {
    U32Bytes(|c.body|) + c.kind + c.body + c.crc
  }

  predicate AllEncodable(cs: seq<Chunk>) {
    forall i :: 0 <= i < |cs| ==> Encodable(cs[i])
  }

  function EncodeAll(cs: seq<Chunk>): seq<Byte>
    requires AllEncodable(cs)
  {
    if cs == [] then [] else EncodeChunk(cs[0]) + EncodeAll(cs[1..])
  }

  /** The CRC field is the CRC-32 of the type and the data. */
  predicate Sound(c: Chunk) {
    c.crc == Checksum(c.kind + c.body)
  }

  predicate AllSound(cs: seq<Chunk>) {
    cs == [] || (AllSound(cs[..|cs|-1]) && Sound(cs[|cs|-1]))
  }

  lemma {:induction false} AllSoundMeansEach(cs: seq<Chunk>)
    ensures AllSound(cs) <==> forall i :: 0 <= i < |cs| ==> Sound(cs[i])
  {
    if cs != [] {
      AllSoundMeansEach(cs[..|cs|-1]);
      assert forall i :: 0 <= i < |cs| - 1 ==> cs[..|cs|-1][i] == cs[i];
    }
  }

  /** The list ends at its first IEND chunk. */
  predicate Ended(cs: seq<Chunk>) {
    && AllEncodable(cs)
    && cs != [] && cs[|cs|-1].kind == IEND
    && forall i :: 0 <= i < |cs| - 1 ==> cs[i].kind != IEND
  }

  predicate StartsWithHeader(cs: seq<Chunk>) {
    cs != [] && cs[0].kind == IHDR && 8 <= |cs[0].body|
  }

  /** The bytes are the magic and the encoding of a chunk list of the required shape, and nothing else. */
  predicate IsImage(data: seq<Byte>, cs: seq<Chunk>) {
    && Ended(cs)
    && StartsWithHeader(cs)
    && AllSound(cs)
    && data == MAGIC + EncodeAll(cs)
  }

  function Width(cs: seq<Chunk>): nat
    requires StartsWithHeader(cs)
  {
    U32(cs[0].body[..4])
  }

  function Height(cs: seq<Chunk>): nat
    requires StartsWithHeader(cs)
  {
    U32(cs[0].body[4..8])
  }

  // ---------------------------------------------------------------- decoding

  /** The chunk at the front, when it is complete. */
  function Next(rest: seq<Byte>): (r: Option<(Chunk, seq<Byte>)>)
    ensures r.Some? ==> |r.value.1| < |rest|
  {
    if |rest| < 8 then None else
    var n := U32(rest[..4]);
    if |rest| < n + 12 then None else
    Some((Chunk(rest[4..8], rest[8..8+n], rest[8+n..12+n]), rest[12+n..]))
  }

  function Prepend(cs: seq<Chunk>, more: Option<seq<Chunk>>): Option<seq<Chunk>> {
    if more.Some? then Some(cs + more.value) else None
  }

  function Chunks(rest: seq<Byte>): Option<seq<Chunk>>
    decreases |rest|
  {
    var n := Next(rest);
    if n.None? then None
    else if n.value.0.kind == IEND then (if n.value.1 == [] then Some([n.value.0]) else None)
    else Prepend([n.value.0], Chunks(n.value.1))
  }

  function Decode(data: seq<Byte>): Option<seq<Chunk>> {
    if !(MAGIC <= data) then None else
    var cs := Chunks(data[8..]);
    if cs.Some? && StartsWithHeader(cs.value) && AllSound(cs.value) then cs else None
  }

  /** The bytes decode to an image of this size. */
  predicate HasSize(data: seq<Byte>, width: int, height: int) {
    var cs := Decode(data);
    cs.Some? && Width(cs.value) == width && Height(cs.value) == height
  }

  lemma NextOfEncoding(c: Chunk, tail: seq<Byte>)
    requires Encodable(c)
    ensures Next(EncodeChunk(c) + tail) == Some((c, tail))
  {
    var rest := EncodeChunk(c) + tail;
    var n := |c.body|;
    U32OfBytes(n);
    assert rest[..4] == U32Bytes(n);
    assert rest[4..8] == c.kind && rest[8..8+n] == c.body && rest[8+n..12+n] == c.crc && rest[12+n..] == tail;
  }

  lemma NextIsEncoding(rest: seq<Byte>)
    requires Next(rest).Some?
    ensures var (c, tail) := Next(rest).value; Encodable(c) && rest == EncodeChunk(c) + tail
  {
    var n := U32(rest[..4]);
    BytesOfU32(rest[..4]);
    assert rest == rest[..4] + rest[4..8] + rest[8..8+n] + rest[8+n..12+n] + rest[12+n..];
  }

  lemma FirstOfEncoding(cs: seq<Chunk>, tail: seq<Byte>)
    requires AllEncodable(cs) && cs != []
    ensures Next(EncodeAll(cs) + tail) == Some((cs[0], EncodeAll(cs[1..]) + tail))
  {
    var more := EncodeAll(cs[1..]) + tail;
    assert EncodeAll(cs) + tail == EncodeChunk(cs[0]) + more;
    NextOfEncoding(cs[0], more);
  }

  lemma EndedTail(cs: seq<Chunk>)
    requires Ended(cs) && |cs| > 1
    ensures Ended(cs[1..]) && cs[0].kind != IEND
  {
  }

  lemma {:induction false} ChunksOfEncoding(cs: seq<Chunk>, tail: seq<Byte>)
    requires Ended(cs)
    ensures Chunks(EncodeAll(cs) + tail) == if tail == [] then Some(cs) else None
  {
    var more := EncodeAll(cs[1..]) + tail;
    FirstOfEncoding(cs, tail);
    if |cs| == 1 {
      assert more == tail;
      assert cs == [cs[0]];
    } else {
      EndedTail(cs);
      ChunksOfEncoding(cs[1..], tail);
      assert cs == [cs[0]] + cs[1..];
    }
  }

  lemma {:induction false} ChunksAreEncoding(rest: seq<Byte>)
    requires Chunks(rest).Some?
    ensures var cs := Chunks(rest).value; Ended(cs) && rest == EncodeAll(cs)
    decreases |rest|
  {
    NextIsEncoding(rest);
    var (c, tail) := Next(rest).value;
    var cs := Chunks(rest).value;
    if c.kind == IEND {
      assert EncodeAll(cs) == EncodeChunk(c) + [];
    } else {
      ChunksAreEncoding(tail);
      assert cs[1..] == Chunks(tail).value;
    }
  }

  /** Decoding succeeds with a chunk list exactly when the bytes are that list's encoding. */
  lemma DecodeIff(data: seq<Byte>, cs: seq<Chunk>)
    ensures Decode(data) == Some(cs) <==> IsImage(data, cs)
  {
    if Decode(data) == Some(cs) {
      ChunksAreEncoding(data[8..]);
      assert data == MAGIC + data[8..];
    }
    if IsImage(data, cs) {
      ChunksOfEncoding(cs, []);
      assert data[8..] == EncodeAll(cs) + [];
    }
  }

  // ---------------------------------------------------------------- the audit

  datatype Reason =
    | BadMagic | TruncatedHeader | TruncatedChunk | CrcMismatch | FirstNotIhdr | IhdrTooShort
    | MissingIhdr | MissingIend | TrailingBytes | WidthMismatch | HeightMismatch

  predicate Expected(expected: Option<nat>, actual: nat) {
    expected.Some? ==> expected.value == actual
  }

  lemma PrependTwice(cs: seq<Chunk>, c: Chunk, more: Option<seq<Chunk>>)
    ensures Prepend(cs, Prepend([c], more)) == Prepend(cs + [c], more)
  {
    if more.Some? {
      assert cs + ([c] + more.value) == cs + [c] + more.value;
    }
  }

  function ChunkAt(data: seq<Byte>, at: nat, n: nat): Chunk
    requires at + n + 12 <= |data|
  {
    Chunk(data[at+4..at+8], data[at+8..at+8+n], data[at+8+n..at+12+n])
  }

  lemma NextAt(data: seq<Byte>, at: nat)
    requires at + 8 <= |data|
    ensures var n := U32(data[at..at+4]);
            Next(data[at..]) == if at + n + 12 <= |data| then Some((ChunkAt(data, at, n), data[at+12+n..])) else None
  {
    var rest := data[at..];
    var n := U32(data[at..at+4]);
    assert rest[..4] == data[at..at+4];
    if at + n + 12 <= |data| {
      assert rest[4..8] == data[at+4..at+8];
      assert rest[8..8+n] == data[at+8..at+8+n];
      assert rest[8+n..12+n] == data[at+8+n..at+12+n];
      assert rest[12+n..] == data[at+12+n..];
    }
  }

  /** What the whole decodes to, once `cs` have been read and the walk stands at `at`. */
  function Outlook(data: seq<Byte>, cs: seq<Chunk>, at: nat, foundIend: bool): Option<seq<Chunk>>
    requires at <= |data|
  {
    if foundIend then (if at == |data| then Some(cs) else None) else Prepend(cs, Chunks(data[at..]))
  }

  ghost predicate Walked(data: seq<Byte>, cs: seq<Chunk>, at: nat, foundIend: bool) {
    && MAGIC <= data
    && 8 <= at <= |data|
    && Chunks(data[8..]) == Outlook(data, cs, at, foundIend)
  }

  lemma WalkBegins(data: seq<Byte>)
    requires MAGIC <= data
    ensures Walked(data, [], 8, false)
  {
    var cs := Chunks(data[8..]);
    if cs.Some? {
      assert [] + cs.value == cs.value;
    }
  }

  lemma ChunksFrom(data: seq<Byte>, at: nat)
    requires at + 8 <= |data| && at + U32(data[at..at+4]) + 12 <= |data|
    ensures var n := U32(data[at..at+4]);
            var c := ChunkAt(data, at, n);
            Chunks(data[at..]) == if c.kind == IEND then (if at + 12 + n == |data| then Some([c]) else None)
                                  else Prepend([c], Chunks(data[at+12+n..]))
  {
    NextAt(data, at);
    assert data[at+12+U32(data[at..at+4])..] == [] <==> at + 12 + U32(data[at..at+4]) == |data|;
  }

  /** `c` is the chunk of data length `n` that stands complete at `at`. */
  ghost predicate StandsAt(data: seq<Byte>, at: nat, n: nat, c: Chunk) {
    && at + n + 12 <= |data|
    && n == U32(data[at..at+4])
    && c == ChunkAt(data, at, n)
  }

  lemma WalkedOn(data: seq<Byte>, cs: seq<Chunk>, at: nat, n: nat, c: Chunk, next: nat, foundIend: bool)
    requires Walked(data, cs, at, false) && StandsAt(data, at, n, c)
    requires next == at + 8 + n + 4 && foundIend == (c.kind == IEND)
    ensures Walked(data, cs + [c], next, foundIend)
  {
    ChunksFrom(data, at);
    PrependTwice(cs, c, Chunks(data[at+12+n..]));
  }

  lemma SoundSoFar(cs: seq<Chunk>, c: Chunk)
    requires AllSound(cs) && Sound(c)
    ensures AllSound(cs + [c])
  {
    assert (cs + [c])[..|cs|] == cs;
  }

  /** Data that ends inside a chunk does not decode. */
  lemma WalkTruncated(data: seq<Byte>, cs: seq<Chunk>, at: nat)
    requires Walked(data, cs, at, false)
    requires at + 8 <= |data| ==> |data| < at + U32(data[at..at+4]) + 12
    ensures Decode(data) == None
  {
    if at + 8 <= |data| {
      NextAt(data, at);
    }
  }

  lemma UnsoundAt(cs: seq<Chunk>, k: nat)
    requires k < |cs| && !Sound(cs[k])
    ensures !AllSound(cs)
  {
    AllSoundMeansEach(cs);
  }

  /** Nor does data with a wrong CRC. */
  lemma WalkUnsound(data: seq<Byte>, cs: seq<Chunk>, at: nat, n: nat, c: Chunk)
    requires Walked(data, cs, at, false) && StandsAt(data, at, n, c) && !Sound(c)
    ensures Decode(data) == None
  {
    NextAt(data, at);
    var all := Chunks(data[8..]);
    if all.Some? {
      assert all.value[|cs|] == c;
      UnsoundAt(all.value, |cs|);
    }
  }

  /** Nor does data whose first chunk is not a proper IHDR. */
  lemma WrongHeader(data: seq<Byte>, at: nat, n: nat, c: Chunk)
    requires Walked(data, [], at, false) && StandsAt(data, at, n, c)
    requires !(c.kind == IHDR && 8 <= n)
    ensures Decode(data) == None
  {
    NextAt(data, at);
    if Chunks(data[8..]).Some? {
      assert Chunks(data[8..]).value[0] == c;
    }
  }

  lemma WalkEnds(data: seq<Byte>, cs: seq<Chunk>, at: nat)
    requires Walked(data, cs, at, true) && StartsWithHeader(cs) && AllSound(cs)
    ensures Decode(data) == if at == |data| then Some(cs) else None
  {
  }

  /** The stored CRC is compared with the one calculated over the type and the data. */
  method CrcMatches(c: Chunk) returns (ok: bool)
    ensures ok <==> Sound(c)
  {
    var calculated := Checksum(c.kind + c.body);
    ok := calculated == c.crc;
  }

  /** The chunk walk: it returns a reason as soon as a chunk is found wanting. */
  method WalkChunks(data: seq<Byte>)
    returns (reason: Option<Reason>, offset: nat, width: nat, height: nat, foundIhdr: bool, foundIend: bool,
             ghost cs: seq<Chunk>)
    requires MAGIC <= data
    ensures reason.Some? ==> Decode(data) == None
    ensures reason in {None, Some(TruncatedHeader), Some(TruncatedChunk), Some(CrcMismatch), Some(FirstNotIhdr),
                       Some(IhdrTooShort)}
    ensures reason.None? ==> Walked(data, cs, offset, foundIend) && AllSound(cs) && (foundIend || offset == |data|)
    ensures reason.None? && foundIhdr ==> StartsWithHeader(cs) && width == Width(cs) && height == Height(cs)
    ensures reason.None? && foundIend ==> foundIhdr
  {
    offset, width, height, foundIhdr, foundIend, cs := 8, 0, 0, false, false, [];
    WalkBegins(data);
    while offset < |data| && !foundIend
      invariant Walked(data, cs, offset, foundIend)
      invariant AllSound(cs)
      invariant foundIhdr <==> cs != []
      invariant foundIend ==> foundIhdr
      invariant foundIhdr ==> StartsWithHeader(cs) && width == Width(cs) && height == Height(cs)
      decreases |data| - offset
    {
      if offset + 8 > |data| {
        WalkTruncated(data, cs, offset);
        return Some(TruncatedHeader), offset, 0, 0, false, false, cs;
      }
      var length := U32(data[offset..offset+4]);
      if offset + 8 + length + 4 > |data| {
        WalkTruncated(data, cs, offset);
        return Some(TruncatedChunk), offset, 0, 0, false, false, cs;
      }
      var chunk := ChunkAt(data, offset, length);
      var intact := CrcMatches(chunk);
      if !intact {
        WalkUnsound(data, cs, offset, length, chunk);
        return Some(CrcMismatch), offset, 0, 0, false, false, cs;
      }
      if !foundIhdr {
        if chunk.kind != IHDR {
          WrongHeader(data, offset, length, chunk);
          return Some(FirstNotIhdr), offset, 0, 0, false, false, cs;
        }
        if length < 8 {
          WrongHeader(data, offset, length, chunk);
          return Some(IhdrTooShort), offset, 0, 0, false, false, cs;
        }
        width, height := U32(chunk.body[..4]), U32(chunk.body[4..8]);
        foundIhdr := true;
      }
      ghost var (at, earlier) := (offset, cs);
      offset := offset + 8 + length + 4;
      cs := cs + [chunk];
      foundIend := chunk.kind == IEND;
      WalkedOn(data, earlier, at, length, chunk, offset, foundIend);
      SoundSoFar(earlier, chunk);
    }
    return None, offset, width, height, foundIhdr, foundIend, cs;
  }

  method AuditPng(data: seq<Byte>, expectedWidth: Option<nat>, expectedHeight: Option<nat>)
    returns (valid: bool, reason: Option<Reason>, width: nat, height: nat)
    ensures valid <==> Decode(data).Some? && Expected(expectedWidth, Width(Decode(data).value))
                       && Expected(expectedHeight, Height(Decode(data).value))
    ensures valid <==> reason.None?
    ensures Decode(data).Some? ==> width == Width(Decode(data).value) && height == Height(Decode(data).value)
    ensures Decode(data).Some? && !Expected(expectedWidth, width) ==> reason == Some(WidthMismatch)
    ensures Decode(data).Some? && !valid ==> reason in {Some(WidthMismatch), Some(HeightMismatch)}
    ensures reason == Some(BadMagic) <==> !(MAGIC <= data)
  {
    if !(MAGIC <= data) {
      return false, Some(BadMagic), 0, 0;
    }
    var early, offset, w, h, foundIhdr, foundIend, cs := WalkChunks(data);
    if early.Some? {
      return false, early, 0, 0;
    }
    if !foundIend {
      WalkTruncated(data, cs, offset);
      return false, Some(if foundIhdr then MissingIend else MissingIhdr), 0, 0;
    }
    WalkEnds(data, cs, offset);
    if offset < |data| {
      return false, Some(TrailingBytes), w, h;
    }
    if expectedWidth.Some? && w != expectedWidth.value {
      return false, Some(WidthMismatch), w, h;
    }
    if expectedHeight.Some? && h != expectedHeight.value {
      return false, Some(HeightMismatch), w, h;
    }
    return true, None, w, h;
  }
}
