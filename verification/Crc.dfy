/** CRC-32 as PNG uses it (section 3.4 of RFC 2083), and the errors it is certain to detect. */
module Crc {
  import opened Domain

  /** One shift of the reflected register. */
  function Shift(c: bv32): bv32 {
    (c >> 1) ^ (if c & 1 == 1 then 0xEDB8_8320 else 0)
  }

  function Shift2(c: bv32): bv32 {
    Shift(Shift(c))
  }

  function Shift4(c: bv32): bv32 {
    Shift2(Shift2(c))
  }

  function Shift8(c: bv32): bv32 {
    Shift4(Shift4(c))
  }

  /** A byte is folded into the low eight bits. */
  function Fold(c: bv32, b: bv8): bv32 {
    c ^ (b as bv32)
  }

  function Step(c: bv32, b: bv8): bv32 {
    Shift8(Fold(c, b))
  }

  lemma Successor(v: bv8)
    requires v as int < 0xFF
    ensures (v + 1) as int == v as int + 1
  {
  }

  /** The eight-bit word with value `k`. */
  function Word8(k: nat): (v: bv8)
    requires k < 0x100
    ensures v as int == k
  {
    if k == 0 then 0 else
    var v := Word8(k - 1);
    Successor(v);
    v + 1
  }

  function Bits(b: Byte): bv8 {
    Word8(b as nat)
  }

  /** The register after a message. */
  function Update(c: bv32, s: seq<Byte>): bv32 {
    if s == [] then c else Step(Update(c, s[..|s|-1]), Bits(s[|s|-1]))
  }

  function Crc32(s: seq<Byte>): bv32 {
    Update(0xFFFF_FFFF, s) ^ 0xFFFF_FFFF
  }

  function Octet(v: bv8): Byte {
    v as Byte
  }

  /** The stored form of a CRC: four bytes, most significant first. */
  function BigEndian(c: bv32): (b: seq<Byte>)
    ensures |b| == 4
  {
    [Octet((c >> 24) as bv8), Octet(((c >> 16) & 0xFF) as bv8), Octet(((c >> 8) & 0xFF) as bv8), Octet((c & 0xFF) as bv8)]
  }

  function Checksum(s: seq<Byte>): (b: seq<Byte>)
    ensures |b| == 4
  {
    BigEndian(Crc32(s))
  }

  // ---------------------------------------------------------------- the register run backwards

  /** The mask on which arguments of a shift agree when its results agree on `m`. */
  function Up(m: bv32): bv32 {
    (m << 1) | 1
  }

  function Up2(m: bv32): bv32 {
    Up(Up(m))
  }

  function Up4(m: bv32): bv32 {
    Up2(Up2(m))
  }

  function Up8(m: bv32): bv32 {
    Up4(Up4(m))
  }

  predicate Top(m: bv32) {
    m >> 31 == 1
  }

  /** The mask and those it widens to on the way have the top bit. */
  predicate Top2(m: bv32) {
    Top(m) && Top(Up(m))
  }

  predicate Top4(m: bv32) {
    Top2(m) && Top2(Up2(m))
  }

  predicate Top8(m: bv32) {
    Top4(m) && Top4(Up4(m))
  }

  predicate Agree(x: bv32, y: bv32, m: bv32) {
    x & m == y & m
  }

  /** The polynomial's top bit is set, so the top bit of the result tells which branch was taken: registers
      that agree on a mask with that bit after a shift agreed on the shifted mask and the low bit before. */
  lemma ShiftAgrees(x: bv32, y: bv32, x': bv32, y': bv32, m: bv32, m': bv32)
    requires x' == Shift(x) && y' == Shift(y) && m' == Up(m) && Top(m)
    ensures Agree(x', y', m) ==> Agree(x, y, m')
  {
  }

  lemma Shift2Agrees(x: bv32, y: bv32, x': bv32, y': bv32, m: bv32, m': bv32)
    requires x' == Shift2(x) && y' == Shift2(y) && m' == Up2(m) && Top2(m)
    ensures Agree(x', y', m) ==> Agree(x, y, m')
  {
    var (x1, y1, m1) := (Shift(x), Shift(y), Up(m));
    ShiftAgrees(x1, y1, x', y', m, m1);
    ShiftAgrees(x, y, x1, y1, m1, m');
  }

  lemma Shift4Agrees(x: bv32, y: bv32, x': bv32, y': bv32, m: bv32, m': bv32)
    requires x' == Shift4(x) && y' == Shift4(y) && m' == Up4(m) && Top4(m)
    ensures Agree(x', y', m) ==> Agree(x, y, m')
  {
    var (x2, y2, m2) := (Shift2(x), Shift2(y), Up2(m));
    Shift2Agrees(x2, y2, x', y', m, m2);
    Shift2Agrees(x, y, x2, y2, m2, m');
  }

  lemma Shift8Agrees(x: bv32, y: bv32, x': bv32, y': bv32, m: bv32, m': bv32)
    requires x' == Shift8(x) && y' == Shift8(y) && m' == Up8(m) && Top8(m)
    ensures Agree(x', y', m) ==> Agree(x, y, m')
  {
    var (x4, y4, m4) := (Shift4(x), Shift4(y), Up4(m));
    Shift4Agrees(x4, y4, x', y', m, m4);
    Shift4Agrees(x, y, x4, y4, m4, m');
  }

  lemma TopByte(m: bv32)
    ensures m >> 24 == 0xFF ==> Top8(m)
  {
  }

  lemma FullMask(x: bv32, y: bv32)
    ensures Agree(x, y, 0xFFFF_FFFF) ==> x == y
    ensures Up8(0xFFFF_FFFF) == 0xFFFF_FFFF && Top8(0xFFFF_FFFF)
  {
  }

  lemma Shift8Injective(x: bv32, y: bv32)
    ensures Shift8(x) == Shift8(y) ==> x == y
  {
    var (x', y') := (Shift8(x), Shift8(y));
    FullMask(x, y);
    Shift8Agrees(x, y, x', y', 0xFFFF_FFFF, 0xFFFF_FFFF);
  }

  /** Above the low eight bits the registers are what they were before a byte was folded in. */
  lemma FoldAgrees(s: bv32, b: bv8, t: bv32, d: bv8, x: bv32, y: bv32, m: bv32)
    requires x == Fold(s, b) && y == Fold(t, d) && Agree(x, y, Up8(m))
    ensures Agree(s, t, m << 8)
  {
  }

  lemma FoldByte(s: bv32, b: bv8, d: bv8, x: bv32, y: bv32, m: bv32)
    requires x == Fold(s, b) && y == Fold(s, d) && Agree(x, y, Up8(m))
    ensures b == d
  {
  }

  lemma FoldInjective(s: bv32, t: bv32, b: bv8)
    ensures Fold(s, b) == Fold(t, b) ==> s == t
  {
  }

  function Step4(c: bv32, b0: bv8, b1: bv8, b2: bv8, b3: bv8): bv32 {
    Step(Step(Step(Step(c, b0), b1), b2), b3)
  }

  lemma StepAgrees(s: bv32, b: bv8, t: bv32, d: bv8, s': bv32, t': bv32, m: bv32)
    requires s' == Step(s, b) && t' == Step(t, d) && m >> 24 == 0xFF && Agree(s', t', m)
    ensures Agree(s, t, m << 8)
  {
    var (x, y, m') := (Fold(s, b), Fold(t, d), Up8(m));
    TopByte(m);
    Shift8Agrees(x, y, s', t', m, m');
    FoldAgrees(s, b, t, d, x, y, m);
  }

  lemma StepByte(s: bv32, b: bv8, d: bv8, s': bv32, t': bv32, m: bv32)
    requires s' == Step(s, b) && t' == Step(s, d) && m >> 24 == 0xFF && Agree(s', t', m)
    ensures b == d
  {
    var (x, y, m') := (Fold(s, b), Fold(s, d), Up8(m));
    TopByte(m);
    Shift8Agrees(x, y, s', t', m, m');
    FoldByte(s, b, d, x, y, m);
  }

  const ALL: bv32 := 0xFFFF_FFFF
  const TOP3: bv32 := 0xFFFF_FF00
  const TOP2: bv32 := 0xFFFF_0000
  const TOP1: bv32 := 0xFF00_0000

  lemma Masks()
    ensures ALL << 8 == TOP3 && TOP3 << 8 == TOP2 && TOP2 << 8 == TOP1
    ensures ALL >> 24 == 0xFF && TOP3 >> 24 == 0xFF && TOP2 >> 24 == 0xFF && TOP1 >> 24 == 0xFF
  {
  }

  /** From equal registers after a word back to the first: they agree on one byte less after each step back. */
  lemma WordBack(s0: bv32, s1: bv32, s2: bv32, s3: bv32, t0: bv32, t1: bv32, t2: bv32, t3: bv32,
                 b0: bv8, b1: bv8, b2: bv8, b3: bv8, d0: bv8, d1: bv8, d2: bv8, d3: bv8, r: bv32)
    requires s1 == Step(s0, b0) && s2 == Step(s1, b1) && s3 == Step(s2, b2) && r == Step(s3, b3)
    requires t1 == Step(t0, d0) && t2 == Step(t1, d1) && t3 == Step(t2, d2) && r == Step(t3, d3)
    ensures Agree(s3, t3, TOP3) && Agree(s2, t2, TOP2) && Agree(s1, t1, TOP1)
  {
    Masks();
    StepAgrees(s3, b3, t3, d3, r, r, ALL);
    StepAgrees(s2, b2, t2, d2, s3, t3, TOP3);
    StepAgrees(s1, b1, t1, d1, s2, t2, TOP2);
  }

  /** A byte is determined by the register before it and the top byte of the one after it. */
  lemma NextByte(s: bv32, b: bv8, d: bv8, s': bv32, t': bv32, m: bv32)
    requires s' == Step(s, b) && t' == Step(s, d) && m in {ALL, TOP3, TOP2, TOP1} && Agree(s', t', m)
    ensures b == d && s' == t'
  {
    Masks();
    StepByte(s, b, d, s', t', m);
  }

  /** The word step is injective: from one register, different words lead to different registers. */
  lemma Step4Injective(c: bv32, b0: bv8, b1: bv8, b2: bv8, b3: bv8, d0: bv8, d1: bv8, d2: bv8, d3: bv8)
    requires Step4(c, b0, b1, b2, b3) == Step4(c, d0, d1, d2, d3)
    ensures b0 == d0 && b1 == d1 && b2 == d2 && b3 == d3
  {
    var s1 := Step(c, b0);
    var s2 := Step(s1, b1);
    var s3 := Step(s2, b2);
    var r := Step(s3, b3);
    var t1 := Step(c, d0);
    var t2 := Step(t1, d1);
    var t3 := Step(t2, d2);
    WordBack(c, s1, s2, s3, c, t1, t2, t3, b0, b1, b2, b3, d0, d1, d2, d3, r);
    NextByte(c, b0, d0, s1, t1, TOP1);
    NextByte(s1, b1, d1, s2, t2, TOP2);
    NextByte(s2, b2, d2, s3, t3, TOP3);
    NextByte(s3, b3, d3, r, r, ALL);
  }

  // ---------------------------------------------------------------- whole messages

  lemma XorCancels(x: bv32, y: bv32, z: bv32)
    requires x ^ z == y ^ z
    ensures x == y
  {
  }

  lemma BitsInjective(b: Byte, d: Byte)
    requires Bits(b) == Bits(d)
    ensures b == d
  {
  }

  lemma OctetInjective(v: bv8, w: bv8)
    requires Octet(v) == Octet(w)
    ensures v == w
  {
  }

  lemma FourBytes(c: bv32, d: bv32)
    requires (c >> 24) as bv8 == (d >> 24) as bv8 && ((c >> 16) & 0xFF) as bv8 == ((d >> 16) & 0xFF) as bv8
    requires ((c >> 8) & 0xFF) as bv8 == ((d >> 8) & 0xFF) as bv8 && (c & 0xFF) as bv8 == (d & 0xFF) as bv8
    ensures c == d
  {
  }

  lemma BigEndianInjective(c: bv32, d: bv32)
    requires BigEndian(c) == BigEndian(d)
    ensures c == d
  {
    OctetInjective((c >> 24) as bv8, (d >> 24) as bv8);
    OctetInjective(((c >> 16) & 0xFF) as bv8, ((d >> 16) & 0xFF) as bv8);
    OctetInjective(((c >> 8) & 0xFF) as bv8, ((d >> 8) & 0xFF) as bv8);
    OctetInjective((c & 0xFF) as bv8, (d & 0xFF) as bv8);
    FourBytes(c, d);
  }

  lemma StepInjective(c: bv32, d: bv32, b: bv8)
    requires Step(c, b) == Step(d, b)
    ensures c == d
  {
    Shift8Injective(Fold(c, b), Fold(d, b));
    FoldInjective(c, d, b);
  }

  lemma {:induction false} UpdateInjective(c: bv32, d: bv32, s: seq<Byte>)
    requires Update(c, s) == Update(d, s)
    ensures c == d
  {
    if s != [] {
      var init := s[..|s|-1];
      StepInjective(Update(c, init), Update(d, init), Bits(s[|s|-1]));
      UpdateInjective(c, d, init);
    }
  }

  lemma {:induction false} UpdateOfAppend(c: bv32, s: seq<Byte>, t: seq<Byte>)
    ensures Update(c, s + t) == Update(Update(c, s), t)
  {
    if t == [] {
      assert s + t == s;
    } else {
      assert (s + t)[..|s + t|-1] == s + t[..|t|-1];
      UpdateOfAppend(c, s, t[..|t|-1]);
    }
  }

  lemma UpdateSnoc(c: bv32, s: seq<Byte>, b: Byte)
    ensures Update(c, s + [b]) == Step(Update(c, s), Bits(b))
  {
    assert (s + [b])[..|s|] == s;
  }

  lemma UpdateOfFour(c: bv32, w: seq<Byte>)
    requires |w| == 4
    ensures Update(c, w) == Step4(c, Bits(w[0]), Bits(w[1]), Bits(w[2]), Bits(w[3]))
  {
    assert w[..1] == [] + [w[0]] && w[..2] == w[..1] + [w[1]] && w[..3] == w[..2] + [w[2]] && w == w[..3] + [w[3]];
    UpdateSnoc(c, [], w[0]);
    UpdateSnoc(c, w[..1], w[1]);
    UpdateSnoc(c, w[..2], w[2]);
    UpdateSnoc(c, w[..3], w[3]);
  }

  /** The messages differ at most in the four bytes from position `k`. */
  predicate DifferWithin4(s: seq<Byte>, t: seq<Byte>, k: nat) {
    && |s| == |t| && k + 4 <= |s|
    && s[..k] == t[..k]
    && s[k+4..] == t[k+4..]
  }

  lemma UpdateOfThree(c: bv32, head: seq<Byte>, u: seq<Byte>, tail: seq<Byte>)
    ensures Update(c, head + u + tail) == Update(Update(Update(c, head), u), tail)
  {
    UpdateOfAppend(c, head + u, tail);
    UpdateOfAppend(c, head, u);
  }

  lemma WordDetected(c: bv32, u: seq<Byte>, v: seq<Byte>)
    requires |u| == |v| == 4 && Update(c, u) == Update(c, v)
    ensures u == v
  {
    UpdateOfFour(c, u);
    UpdateOfFour(c, v);
    Step4Injective(c, Bits(u[0]), Bits(u[1]), Bits(u[2]), Bits(u[3]), Bits(v[0]), Bits(v[1]), Bits(v[2]), Bits(v[3]));
    BitsInjective(u[0], v[0]);
    BitsInjective(u[1], v[1]);
    BitsInjective(u[2], v[2]);
    BitsInjective(u[3], v[3]);
  }

  lemma ThreeParts(s: seq<Byte>, k: nat)
    requires k + 4 <= |s|
    ensures s == s[..k] + s[k..k+4] + s[k+4..]
  {
  }

  lemma UpdateBurst(c: bv32, s: seq<Byte>, t: seq<Byte>, k: nat)
    requires DifferWithin4(s, t, k) && Update(c, s) == Update(c, t)
    ensures s == t
  {
    var head, tail, u, v := s[..k], s[k+4..], s[k..k+4], t[k..k+4];
    ThreeParts(s, k);
    ThreeParts(t, k);
    assert t[..k] == head && t[k+4..] == tail;
    UpdateOfThree(c, head, u, tail);
    UpdateOfThree(c, head, v, tail);
    var r := Update(c, head);
    UpdateInjective(Update(r, u), Update(r, v), tail);
    WordDetected(r, u, v);
  }

  lemma SameCrc(s: seq<Byte>, t: seq<Byte>)
    requires Checksum(s) == Checksum(t)
    ensures Crc32(s) == Crc32(t)
  {
    BigEndianInjective(Crc32(s), Crc32(t));
  }

  lemma SameRegister(s: seq<Byte>, t: seq<Byte>)
    requires Crc32(s) == Crc32(t)
    ensures Update(0xFFFF_FFFF, s) == Update(0xFFFF_FFFF, t)
  {
    XorCancels(Update(0xFFFF_FFFF, s), Update(0xFFFF_FFFF, t), 0xFFFF_FFFF);
  }

  /** Any change confined to four consecutive bytes changes the stored CRC. */
  lemma BurstDetected(s: seq<Byte>, t: seq<Byte>, k: nat)
    requires DifferWithin4(s, t, k) && s != t
    ensures Checksum(s) != Checksum(t)
  {
    if Checksum(s) == Checksum(t) {
      SameCrc(s, t);
      SameRegister(s, t);
      UpdateBurst(0xFFFF_FFFF, s, t, k);
    }
  }
}
