/** MessageTransport: the outer frame of a message. Its size field is hidden among random
    bits, each frame is preceded by as many random bytes as the frame before announced, and
    the frames arrive as a stream cut anywhere. */
module MessageTransportModel {
  import opened Basics
  import opened BufferIOModel
  import opened BufferReaderModel
  import opened ByteStreamModel

  const OHEADER_SIZE: nat := 40
  const IHEADER_SIZE: nat := 13
  const HMAC_SIZE: nat := 32
  const MAX_OFFSET: nat := 12
  const MAX_MESSAGE_SIZE: nat := 1_048_576
  const MAX_MESSAGE_DATA_SIZE: nat := 1_048_021
  const MAX_MESSAGE_AND_RANDOM_DATA_SIZE: nat := 1_048_085

  // ---------------------------------------------------------------- 32-bit words, lowest bit first

  function Bits(n: nat, w: nat): (r: seq<bool>)
    ensures |r| == w
  {
    if w == 0 then [] else [n % 2 == 1] + Bits(n / 2, w - 1)
  }

  function Value(b: seq<bool>): nat { if b == [] then 0 else (if b[0] then 1 else 0) + 2 * Value(b[1..]) }

  lemma {:induction false} ValueBits(n: nat, w: nat)
    requires n < Pow2(w)
    ensures Value(Bits(n, w)) == n
  {
    if w > 0 {
      ValueBits(n / 2, w - 1);
      assert Bits(n, w)[1..] == Bits(n / 2, w - 1);
    }
  }

  lemma {:induction false} BitsValue(b: seq<bool>)
    ensures Bits(Value(b), |b|) == b
  {
    if b != [] { BitsValue(b[1..]); }
  }

  lemma {:induction false} ValueBound(b: seq<bool>)
    ensures Value(b) < Pow2(|b|)
  {
    if b != [] { ValueBound(b[1..]); }
  }

  // A number below 2^k has no bit set from k up
  lemma {:induction false} HighBitsClear(n: nat, w: nat, k: nat)
    requires n < Pow2(k)
    ensures forall i :: k <= i < w ==> !Bits(n, w)[i]
    decreases w
  {
    if w > 0 {
      if k > 0 { HighBitsClear(n / 2, w - 1, k - 1); } else { HighBitsClear(n / 2, w - 1, 0); }
    }
  }

  // 2^k - 1 has exactly the bits below k
  lemma {:induction false} Ones(n: nat, k: nat, w: nat)
    requires n + 1 == Pow2(k)
    ensures forall i :: 0 <= i < w ==> Bits(n, w)[i] == (i < k)
    decreases w
  {
    if w > 0 {
      Ones(n / 2, if k > 0 then k - 1 else 0, w - 1);
    }
  }

  lemma Powers()
    ensures Pow2(20) == 0x10_0000 && Pow2(32) == 0x1_0000_0000 == Pow256(4)
  {
    Widths();
    assert Pow2(4) == 16 && Pow2(6) == 4 * Pow2(4) && Pow2(8) == 4 * Pow2(6) && Pow2(10) == 4 * Pow2(8);
    assert Pow2(12) == 4 * Pow2(10) && Pow2(14) == 4 * Pow2(12) && Pow2(16) == 4 * Pow2(14) && Pow2(18) == 4 * Pow2(16);
    assert Pow2(20) == 4 * Pow2(18) && Pow2(22) == 4 * Pow2(20) && Pow2(24) == 4 * Pow2(22) && Pow2(26) == 4 * Pow2(24);
    assert Pow2(28) == 4 * Pow2(26) && Pow2(30) == 4 * Pow2(28);
  }

  // The operators of UInt32
  function Shl(x: seq<bool>, k: nat): seq<bool> { seq(|x|, i requires 0 <= i < |x| => i >= k && x[i - k]) }
  function Shr(x: seq<bool>, k: nat): seq<bool> { seq(|x|, i requires 0 <= i < |x| => i + k < |x| && x[i + k]) }
  function Not(x: seq<bool>): seq<bool> { seq(|x|, i requires 0 <= i < |x| => !x[i]) }
  function And(x: seq<bool>, y: seq<bool>): seq<bool>
    requires |x| == |y|
  {
    seq(|x|, i requires 0 <= i < |x| => x[i] && y[i])
  }
  function Or(x: seq<bool>, y: seq<bool>): seq<bool>
    requires |x| == |y|
  {
    seq(|x|, i requires 0 <= i < |x| => x[i] || y[i])
  }
  function Xor(x: seq<bool>, y: seq<bool>): seq<bool>
    requires |x| == |y|
  {
    seq(|x|, i requires 0 <= i < |x| => x[i] != y[i])
  }

  // ---------------------------------------------------------------- the hidden size

  datatype DataSizeSettings = DataSizeSettings(offset: nat, xor: nat)

  function Mask(offset: nat): (m: seq<bool>)
    ensures |m| == 32
  {
    Shl(Bits(0xF_FFFF, 32), offset)
  }

  lemma MaskBits(offset: nat)
    ensures forall i :: 0 <= i < 32 ==> Mask(offset)[i] == (offset <= i < offset + 20)
  {
    Powers();
    Ones(0xF_FFFF, 20, 32);
  }

  function ObfuscateBits(offset: nat, xor: seq<bool>, random: seq<bool>, size: seq<bool>): (r: seq<bool>)
    requires |xor| == |random| == |size| == 32
    ensures |r| == 32
  {
    Xor(Or(Shl(size, offset), And(random, Not(Mask(offset)))), xor)
  }

  function DeobfuscateBits(offset: nat, xor: seq<bool>, word: seq<bool>): (r: seq<bool>)
    requires |xor| == |word| == 32
    ensures |r| == 32
  {
    Shr(And(Xor(word, xor), Mask(offset)), offset)
  }

  function Obfuscate(mds: DataSizeSettings, random: nat, size: nat): nat {
    Value(ObfuscateBits(mds.offset, Bits(mds.xor, 32), Bits(random, 32), Bits(size, 32)))
  }

  function Deobfuscate(mds: DataSizeSettings, word: nat): nat {
    Value(DeobfuscateBits(mds.offset, Bits(mds.xor, 32), Bits(word, 32)))
  }

  // Whatever the random and XOR bits are, just the size bits that were shifted out are lost
  lemma SizeBitsSurvive(offset: nat, xor: seq<bool>, random: seq<bool>, size: seq<bool>)
    requires |xor| == |random| == |size| == 32
    ensures var back := DeobfuscateBits(offset, xor, ObfuscateBits(offset, xor, random, size));
      forall i :: 0 <= i < 32 ==> back[i] == (size[i] && i < 20 && i + offset < 32)
  {
    MaskBits(offset);
    MaskedBitsSurvive(offset, Mask(offset), xor, random, size);
  }

  lemma MaskedBitsSurvive(offset: nat, mask: seq<bool>, xor: seq<bool>, random: seq<bool>, size: seq<bool>)
    requires |mask| == |xor| == |random| == |size| == 32
    requires forall i :: 0 <= i < 32 ==> mask[i] == (offset <= i < offset + 20)
    ensures var back := Shr(And(Xor(Xor(Or(Shl(size, offset), And(random, Not(mask))), xor), xor), mask), offset);
      forall i :: 0 <= i < 32 ==> back[i] == (size[i] && i < 20 && i + offset < 32)
  {
    var hidden := And(random, Not(mask));
    var open := Or(Shl(size, offset), hidden);
    XorTwice(open, xor);
    var shown := And(open, mask);
    forall i | 0 <= i < 32 ensures Shr(shown, offset)[i] == (size[i] && i < 20 && i + offset < 32) {
      if i + offset < 32 {
        assert Shl(size, offset)[i + offset] == size[i];
        assert mask[i + offset] ==> !hidden[i + offset];
        assert shown[i + offset] == (size[i] && i < 20);
      }
    }
  }

  lemma XorTwice(x: seq<bool>, y: seq<bool>)
    requires |x| == |y|
    ensures Xor(Xor(x, y), y) == x
  {
  }

  lemma ObfuscationIsAWord(mds: DataSizeSettings, random: nat, size: nat)
    ensures Obfuscate(mds, random, size) < Pow256(4)
  {
    Powers();
    ValueBound(ObfuscateBits(mds.offset, Bits(mds.xor, 32), Bits(random, 32), Bits(size, 32)));
  }

  lemma ObfuscationRoundTrip(mds: DataSizeSettings, random: nat, size: nat)
    requires mds.offset <= MAX_OFFSET && size < 0x10_0000
    ensures Deobfuscate(mds, Obfuscate(mds, random, size)) == size
  {
    Powers();
    var xor, rnd, x := Bits(mds.xor, 32), Bits(random, 32), Bits(size, 32);
    var word := ObfuscateBits(mds.offset, xor, rnd, x);
    BitsValue(word);
    SizeBitsSurvive(mds.offset, xor, rnd, x);
    HighBitsClear(size, 32, 20);
    assert DeobfuscateBits(mds.offset, xor, word) == x;
    ValueBits(size, 32);
  }

  /** The largest offset is exactly right: one more and some 20-bit size is lost, whatever
      the other settings. (C++ leaves a shift by 32 or more undefined; here it shifts every
      bit out.) */
  lemma OffsetLimitIsExact(mds: DataSizeSettings, random: nat)
    ensures (forall size :: 0 <= size < 0x10_0000 ==> Deobfuscate(mds, Obfuscate(mds, random, size)) == size)
            <==> mds.offset <= MAX_OFFSET
  {
    forall size | 0 <= size < 0x10_0000 && mds.offset <= MAX_OFFSET
      ensures Deobfuscate(mds, Obfuscate(mds, random, size)) == size
    {
      ObfuscationRoundTrip(mds, random, size);
    }
    if mds.offset > MAX_OFFSET {
      Powers();
      var size := 0xF_FFFF;
      var xor, rnd, x := Bits(mds.xor, 32), Bits(random, 32), Bits(size, 32);
      var word := ObfuscateBits(mds.offset, xor, rnd, x);
      Ones(0xF_FFFF, 20, 32);
      BitsValue(word);
      SizeBitsSurvive(mds.offset, xor, rnd, x);
      var back := DeobfuscateBits(mds.offset, xor, word);
      BitsValue(back);
      assert !back[19] && x[19];
      assert Deobfuscate(mds, Obfuscate(mds, random, size)) != size;
    }
  }

  // ---------------------------------------------------------------- headers

  datatype OHeader = OHeader(bits: nat, size: nat, seed: nat, hmac: seq<byte>)
  datatype IHeader = IHeader(counter: nat, time: nat, next: nat, random: nat)

  predicate InnerOk(h: IHeader) { h.counter < Pow256(1) && h.time < Pow256(8) && h.next < Pow256(2) && h.random < Pow256(2) }

  function WriteOuter(mds: DataSizeSettings, h: OHeader): seq<byte> {
    Wire(true, Obfuscate(mds, h.bits, h.size), 4) + (Wire(true, h.seed, 4) + h.hmac)
  }

  // The size field of the header at a position
  function SizeAt(mds: DataSizeSettings, s: seq<byte>, at: nat): nat
    requires at + 4 <= |s|
  {
    Deobfuscate(mds, Unwire(true, s[at..at + 4]))
  }

  function ReadOuter(mds: DataSizeSettings, s: seq<byte>): Option<OHeader> {
    if |s| < OHEADER_SIZE then None
    else Some(OHeader(0, SizeAt(mds, s, 0), Unwire(true, s[4..8]), s[8..40]))
  }

  function WriteInner(h: IHeader): (s: seq<byte>)
    ensures |s| == IHEADER_SIZE
  {
    Wire(true, h.counter, 1) + (Wire(true, h.time, 8) + (Wire(true, h.next, 2) + Wire(true, h.random, 2)))
  }

  function ReadInner(s: seq<byte>): Option<IHeader> {
    if |s| < IHEADER_SIZE then None
    else Some(IHeader(Unwire(true, s[0..1]), Unwire(true, s[1..9]), Unwire(true, s[9..11]), Unwire(true, s[11..13])))
  }

  lemma InnerRoundTrip(h: IHeader, rest: seq<byte>)
    requires InnerOk(h)
    ensures ReadInner(WriteInner(h) + rest) == Some(h)
  {
    var s := WriteInner(h) + rest;
    var a, b, c, d := Wire(true, h.counter, 1), Wire(true, h.time, 8), Wire(true, h.next, 2), Wire(true, h.random, 2);
    assert s[0..1] == a && s[1..9] == b && s[9..11] == c && s[11..13] == d;
    WireRoundTrip(true, h.counter, 1);
    WireRoundTrip(true, h.time, 8);
    WireRoundTrip(true, h.next, 2);
    WireRoundTrip(true, h.random, 2);
  }

  lemma SizeRoundTrip(mds: DataSizeSettings, bits: nat, size: nat, s: seq<byte>, at: nat)
    requires mds.offset <= MAX_OFFSET && size < 0x10_0000
    requires Holds(s, at, Wire(true, Obfuscate(mds, bits, size), 4))
    ensures SizeAt(mds, s, at) == size
  {
    ObfuscationIsAWord(mds, bits, size);
    WireRoundTrip(true, Obfuscate(mds, bits, size), 4);
    ObfuscationRoundTrip(mds, bits, size);
  }

  // s holds, at a position, a header of a given size, seed and HMAC
  lemma OuterRoundTrip(mds: DataSizeSettings, h: OHeader, s: seq<byte>, at: nat)
    requires mds.offset <= MAX_OFFSET && h.size < 0x10_0000 && h.seed < Pow256(4) && |h.hmac| == HMAC_SIZE
    requires Holds(s, at, WriteOuter(mds, h))
    ensures SizeAt(mds, s, at) == h.size
    ensures at == 0 ==> ReadOuter(mds, s) == Some(h.(bits := 0)) && Unwire(true, s[4..8]) == h.seed
  {
    var a, b := Wire(true, Obfuscate(mds, h.bits, h.size), 4), Wire(true, h.seed, 4);
    HoldsParts(s, at, a, b + h.hmac);
    HoldsParts(s, at + 4, b, h.hmac);
    SizeRoundTrip(mds, h.bits, h.size, s, at);
    WireRoundTrip(true, h.seed, 4);
    if at == 0 { ReadsOuter(mds, h, s); }
  }

  lemma ReadsOuter(mds: DataSizeSettings, h: OHeader, s: seq<byte>)
    requires |s| >= OHEADER_SIZE && SizeAt(mds, s, 0) == h.size && Unwire(true, s[4..8]) == h.seed && s[8..40] == h.hmac
    ensures ReadOuter(mds, s) == Some(h.(bits := 0))
  {
  }

  // ---------------------------------------------------------------- one message

  /** Authenticated encryption under one key, with a nonce made from a seed, and its laws. */
  datatype Suite = Suite(
    encrypt: (nat, seq<byte>) -> Option<seq<byte>>,
    decrypt: (nat, seq<byte>) -> Option<seq<byte>>,
    hmac: seq<byte> -> seq<byte>)

  // The header of an encrypted text and what it adds to the plain text
  const TAG_SIZE: nat := 16

  ghost predicate Lawful(c: Suite) {
    && (forall x :: |c.hmac(x)| == HMAC_SIZE)
    && (forall seed, x :: c.encrypt(seed, x).Some? ==>
          && |x| <= |c.encrypt(seed, x).value| <= |x| + TAG_SIZE
          && c.decrypt(seed, c.encrypt(seed, x).value) == Some(x))
  }

  lemma LawsCanHold()
    ensures exists c :: Lawful(c)
  {
    var c := Suite((seed: nat, x: seq<byte>) => Some(x), (seed: nat, x: seq<byte>) => Some(x), (x: seq<byte>) => Wire(false, 0, HMAC_SIZE));
    assert Lawful(c);
  }

  /** What a MessageTransport object holds. */
  datatype Transport = Transport(outer: OHeader, inner: IHeader, data: seq<byte>, prefix: nat)

  // The padding and the prefix are random bytes
  datatype Noise = Noise(padding: seq<byte>, prefix: seq<byte>)

  predicate Fills(z: Noise, t: Transport) { |z.padding| == t.inner.random && |z.prefix| == t.prefix }

  function Plain(t: Transport, z: Noise): seq<byte> { WriteInner(t.inner) + (z.padding + t.data) }

  // What encrypting some data puts in a frame
  function Sealed(mds: DataSizeSettings, c: Suite, h: OHeader, plain: seq<byte>): Option<seq<byte>> {
    match c.encrypt(h.seed, plain)
    case None => None
    case Some(secret) =>
      var frame := WriteOuter(mds, h.(size := |secret|, hmac := c.hmac(secret))) + secret;
      if |frame| > MAX_MESSAGE_SIZE then None else Some(frame)
  }

  function WriteFrame(mds: DataSizeSettings, c: Suite, t: Transport, z: Noise): Option<seq<byte>> {
    if |Plain(t, z)| > IHEADER_SIZE + MAX_MESSAGE_AND_RANDOM_DATA_SIZE then None
    else Sealed(mds, c, t.outer, Plain(t, z))
  }

  function WriteTransport(mds: DataSizeSettings, c: Suite, t: Transport, z: Noise): Option<seq<byte>> {
    match WriteFrame(mds, c, t, z)
    case None => None
    case Some(frame) => Some(z.prefix + frame)
  }

  /** Retry means the HMAC did not match: another key may. */
  datatype Outcome = Received(inner: IHeader, data: seq<byte>) | Retry | Failed

  // The inner header and what comes after it and its padding
  function ReadPlain(plain: seq<byte>): Outcome {
    match ReadInner(plain)
    case None => Failed
    case Some(inner) =>
      var skip := IHEADER_SIZE + inner.random;
      Received(inner, if skip < |plain| then plain[skip..] else [])
  }

  function ReadSealed(c: Suite, seed: nat, hmac: seq<byte>, secret: seq<byte>): Outcome {
    if c.hmac(secret) != hmac then Retry
    else match c.decrypt(seed, secret) case None => Failed case Some(plain) => ReadPlain(plain)
  }

  function ReadTransport(mds: DataSizeSettings, c: Suite, seed: nat, s: seq<byte>): Outcome {
    match ReadOuter(mds, s)
    case None => Failed
    case Some(h) =>
      if h.size == 0 || h.size != |s| - OHEADER_SIZE then Failed
      else ReadSealed(c, seed, h.hmac, s[OHEADER_SIZE..])
  }

  function Peek(prefix: nat, mds: DataSizeSettings, s: seq<byte>): Check {
    if |s| < prefix + OHEADER_SIZE then NotEnoughData
    else
      var len := OHEADER_SIZE + SizeAt(mds, s, prefix);
      if len > MAX_MESSAGE_SIZE then TooMuchData
      else if |s| >= len + prefix then CompleteMessage
      else NotEnoughData
  }

  // The frame at the front of a buffer and what is left of the buffer
  function Cut(prefix: nat, mds: DataSizeSettings, s: seq<byte>): Option<(seq<byte>, seq<byte>)> {
    if |s| < prefix + OHEADER_SIZE then None
    else
      var end := prefix + OHEADER_SIZE + SizeAt(mds, s, prefix);
      if |s| >= end then Some((s[prefix..end], s[end..])) else None
  }

  function NonceSeed(s: seq<byte>): Option<nat> { if |s| >= OHEADER_SIZE then Some(Unwire(true, s[4..8])) else None }

  // ---------------------------------------------------------------- sizes

  /** Random numbers: any function that stays within the bounds it is given. */
  type Random = (nat, nat) -> nat

  ghost predicate InRange(pick: Random) { forall low: nat, high: nat :: low <= high ==> low <= pick(low, high) <= high }

  // Settings.Message's bounds, as Local checks them
  datatype Padding = Padding(low: nat, high: nat)

  predicate PaddingOk(p: Padding) { p.low <= p.high <= 0xFFFF }

  // The padding that goes with a data size: less where there is less room
  function PaddingFor(p: Padding, pick: Random, size: nat, current: nat): nat {
    if p.high == 0 then current
    else if size <= MAX_MESSAGE_AND_RANDOM_DATA_SIZE && MAX_MESSAGE_AND_RANDOM_DATA_SIZE - size < p.high
    then pick(0, MAX_MESSAGE_AND_RANDOM_DATA_SIZE - size) % 0x1_0000
    else pick(p.low, p.high) % 0x1_0000
  }

  /** Data that may be sent leaves room for its padding, the padding is within the settings,
      and is as much as they ask for wherever the most they allow would fit. */
  lemma PaddingFits(p: Padding, pick: Random, size: nat)
    requires PaddingOk(p) && InRange(pick) && size <= MAX_MESSAGE_DATA_SIZE
    ensures var n := PaddingFor(p, pick, size, 0);
      && n + size <= MAX_MESSAGE_AND_RANDOM_DATA_SIZE && n <= p.high
      && (size + p.high <= MAX_MESSAGE_AND_RANDOM_DATA_SIZE ==> n >= p.low)
  {
  }

  /** What a sender has made: a message that passed SetMessageData. */
  predicate Sendable(t: Transport, z: Noise) {
    && InnerOk(t.inner) && t.outer.seed < Pow256(4) && Fills(z, t)
    && |t.data| <= MAX_MESSAGE_DATA_SIZE && t.inner.random + |t.data| <= MAX_MESSAGE_AND_RANDOM_DATA_SIZE
  }

  predicate Encrypts(c: Suite, t: Transport, z: Noise) { c.encrypt(t.outer.seed, Plain(t, z)).Some? }

  lemma EncryptedSize(c: Suite, t: Transport, z: Noise)
    requires Lawful(c) && Sendable(t, z) && Encrypts(c, t, z)
    ensures var secret := c.encrypt(t.outer.seed, Plain(t, z)).value;
      0 < |secret| < 0x10_0000 && OHEADER_SIZE + |secret| <= MAX_MESSAGE_SIZE && |c.hmac(secret)| == HMAC_SIZE
  {
    assert |Plain(t, z)| == IHEADER_SIZE + t.inner.random + |t.data|;
  }

  /** A message that SetMessageData accepted is never refused for its size: writing fails
      only if encryption does. */
  lemma SizeChecksPass(mds: DataSizeSettings, c: Suite, t: Transport, z: Noise)
    requires Lawful(c) && Sendable(t, z)
    ensures WriteTransport(mds, c, t, z).Some? <==> Encrypts(c, t, z)
  {
    if Encrypts(c, t, z) { EncryptedSize(c, t, z); }
  }

  // The frame inside a written message: the header that goes with the encrypted text, and it
  function Secret(c: Suite, t: Transport, z: Noise): seq<byte>
    requires Encrypts(c, t, z)
  {
    c.encrypt(t.outer.seed, Plain(t, z)).value
  }

  function HeaderOf(c: Suite, t: Transport, z: Noise): OHeader
    requires Encrypts(c, t, z)
  {
    t.outer.(size := |Secret(c, t, z)|, hmac := c.hmac(Secret(c, t, z)))
  }

  function FrameOf(mds: DataSizeSettings, c: Suite, t: Transport, z: Noise): (frame: seq<byte>)
    requires Encrypts(c, t, z)
  {
    WriteOuter(mds, HeaderOf(c, t, z)) + Secret(c, t, z)
  }

  lemma WrittenForm(mds: DataSizeSettings, c: Suite, t: Transport, z: Noise)
    requires Lawful(c) && Sendable(t, z) && Encrypts(c, t, z)
    ensures WriteTransport(mds, c, t, z) == Some(z.prefix + FrameOf(mds, c, t, z))
    ensures OHEADER_SIZE < |FrameOf(mds, c, t, z)| <= MAX_MESSAGE_SIZE
  {
    EncryptedSize(c, t, z);
  }

  lemma PlainReadsBack(t: Transport, z: Noise)
    requires Sendable(t, z)
    ensures ReadInner(Plain(t, z)) == Some(t.inner)
    ensures |Plain(t, z)| == IHEADER_SIZE + t.inner.random + |t.data|
    ensures Plain(t, z)[IHEADER_SIZE + t.inner.random..] == t.data
  {
    InnerRoundTrip(t.inner, z.padding + t.data);
  }

  /** Reading a written frame, under the seed found in it, gives back the inner header and
      the data. */
  lemma FrameRoundTrip(mds: DataSizeSettings, c: Suite, t: Transport, z: Noise)
    requires mds.offset <= MAX_OFFSET && Lawful(c) && Sendable(t, z) && Encrypts(c, t, z)
    ensures NonceSeed(FrameOf(mds, c, t, z)) == Some(t.outer.seed)
    ensures ReadTransport(mds, c, t.outer.seed, FrameOf(mds, c, t, z)) == Received(t.inner, t.data)
  {
    EncryptedSize(c, t, z);
    PlainReadsBack(t, z);
    var secret, h := Secret(c, t, z), HeaderOf(c, t, z);
    var frame := WriteOuter(mds, h) + secret;
    assert frame[0..OHEADER_SIZE] == WriteOuter(mds, h);
    OuterRoundTrip(mds, h, frame, 0);
    assert frame[OHEADER_SIZE..] == secret;
  }

  // ---------------------------------------------------------------- any buffer at all

  // The size field of a frame says just how much follows the header
  predicate Sized(mds: DataSizeSettings, s: seq<byte>)
    requires |s| >= 40
  {
    SizeAt(mds, s, 0) != 0 && SizeAt(mds, s, 0) == |s| - 40
  }

  /** What reading comes to, for any bytes. With a wrong size or too few bytes it fails. With
      the right size, an HMAC that differs from that of what follows asks for another key; and
      one that agrees, if what follows decrypts to an inner header at least, gives the header
      and what is left behind it and its padding. */
  lemma ReadOutcome(mds: DataSizeSettings, c: Suite, seed: nat, s: seq<byte>)
    ensures |s| < 40 ==> ReadTransport(mds, c, seed, s) == Failed
    ensures |s| >= 40 ==>
              var r, secret := ReadTransport(mds, c, seed, s), s[40..];
              && (r == Retry <==> Sized(mds, s) && s[8..40] != c.hmac(secret))
              && (r.Received? <==>
                    Sized(mds, s) && s[8..40] == c.hmac(secret) && c.decrypt(seed, secret).Some? && |c.decrypt(seed, secret).value| >= 13)
              && (r.Received? ==>
                    var plain := c.decrypt(seed, secret).value;
                    && r.inner == IHeader(Unwire(true, plain[0..1]), Unwire(true, plain[1..9]), Unwire(true, plain[9..11]), Unwire(true, plain[11..13]))
                    && r.data == if 13 + r.inner.random <= |plain| then plain[13 + r.inner.random..] else [])
  {
    if |s| >= 40 {
      var secret := s[40..];
      if c.decrypt(seed, secret).Some? { PlainOutcome(c.decrypt(seed, secret).value); }
    }
  }

  lemma PlainOutcome(plain: seq<byte>)
    ensures ReadPlain(plain).Received? <==> |plain| >= 13
    ensures !ReadPlain(plain).Retry?
    ensures |plain| >= 13 ==>
              var r := ReadPlain(plain);
              && r.inner == IHeader(Unwire(true, plain[0..1]), Unwire(true, plain[1..9]), Unwire(true, plain[9..11]), Unwire(true, plain[11..13]))
              && r.data == if 13 + r.inner.random <= |plain| then plain[13 + r.inner.random..] else []
  {
    if |plain| >= 13 {
      var skip := 13 + ReadInner(plain).value.random;
      if skip == |plain| { assert plain[skip..] == []; }
    }
  }

  // A frame with other bytes for its HMAC
  function WithHmac(frame: seq<byte>, hmac: seq<byte>): seq<byte>
    requires |frame| >= 40
  {
    frame[..8] + hmac + frame[40..]
  }

  /** A written frame whose HMAC has been changed is not accepted, under any seed: another key
      is asked for. */
  lemma ChangedHmacIsNoticed(mds: DataSizeSettings, c: Suite, t: Transport, z: Noise, seed: nat, hmac: seq<byte>)
    requires mds.offset <= MAX_OFFSET && Lawful(c) && Sendable(t, z) && Encrypts(c, t, z)
    requires |hmac| == 32 && hmac != c.hmac(Secret(c, t, z))
    ensures |FrameOf(mds, c, t, z)| >= 40
    ensures ReadTransport(mds, c, seed, WithHmac(FrameOf(mds, c, t, z), hmac)) == Retry
  {
    EncryptedSize(c, t, z);
    var h, secret := HeaderOf(c, t, z), Secret(c, t, z);
    var frame := FrameOf(mds, c, t, z);
    var s := WithHmac(frame, hmac);
    assert frame[..40] == WriteOuter(mds, h) && frame[40..] == secret;
    assert s[..8] == frame[..8] && s[8..40] == hmac && s[40..] == secret;
    var word := Wire(true, Obfuscate(mds, h.bits, h.size), 4);
    assert WriteOuter(mds, h)[..4] == word;
    assert s[0..4] == frame[..40][..4] == word;
    SizeRoundTrip(mds, h.bits, h.size, s, 0);
    ReadOutcome(mds, c, seed, s);
  }

  /** Writing, for any message and padding: refused just when data and padding are too large
      together, encryption fails, or what it gives is too large. */
  lemma WriteOutcome(mds: DataSizeSettings, c: Suite, t: Transport, z: Noise)
    requires Lawful(c) && Fills(z, t)
    ensures WriteTransport(mds, c, t, z).Some? <==>
              t.inner.random + |t.data| <= 1_048_085 && Encrypts(c, t, z) && 40 + |Secret(c, t, z)| <= 1_048_576
    ensures WriteTransport(mds, c, t, z).Some? ==>
              |WriteTransport(mds, c, t, z).value| == t.prefix + 40 + |Secret(c, t, z)|
  {
    assert |Plain(t, z)| == IHEADER_SIZE + t.inner.random + |t.data|;
  }

  /** Any padding that the settings allow, and that there is room for, can be drawn. */
  lemma AnyPaddingCanBeDrawn(p: Padding, size: nat, n: nat)
    requires PaddingOk(p) && p.high > 0 && size <= MAX_MESSAGE_DATA_SIZE
    requires if 1_048_085 - size < p.high then n <= 1_048_085 - size else p.low <= n <= p.high
    ensures exists pick :: InRange(pick) && PaddingFor(p, pick, size, 0) == n
  {
    var pick: Random := (low: nat, high: nat) => if low <= n <= high then n else low;
    assert InRange(pick);
    assert PaddingFor(p, pick, size, 0) == n;
  }

  /** A header whose size is above the limit is refused as soon as it is whole. */
  lemma OversizedIsRefused(mds: DataSizeSettings, h: OHeader, prefix: seq<byte>, rest: seq<byte>)
    requires mds.offset <= MAX_OFFSET && h.seed < Pow256(4) && |h.hmac| == HMAC_SIZE
    requires 1_048_576 - 40 < h.size < 0x10_0000
    ensures Peek(|prefix|, mds, prefix + WriteOuter(mds, h) + rest) == TooMuchData
  {
    var s := prefix + WriteOuter(mds, h) + rest;
    assert s[|prefix|..|prefix| + 40] == WriteOuter(mds, h);
    OuterRoundTrip(mds, h, s, |prefix|);
  }

  // ---------------------------------------------------------------- streams

  /** A written message with whatever follows it, seen up to some point: not enough data until
      it is whole, then complete, and cutting it off leaves what follows. */
  lemma PeekIsExact(mds: DataSizeSettings, c: Suite, t: Transport, z: Noise, rest: seq<byte>, s: seq<byte>)
    requires mds.offset <= MAX_OFFSET && Lawful(c) && Sendable(t, z) && Encrypts(c, t, z)
    requires s <= z.prefix + FrameOf(mds, c, t, z) + rest
    ensures var whole := t.prefix + |FrameOf(mds, c, t, z)|;
      && Peek(t.prefix, mds, s) == (if |s| < whole then NotEnoughData else CompleteMessage)
      && Cut(t.prefix, mds, s) == (if |s| < whole then None else Some((FrameOf(mds, c, t, z), s[whole..])))
  {
    SizeOfFrame(mds, c, t, z, rest, s);
    FrameFits(mds, c, t, z);
    PeekBySize(mds, z.prefix, FrameOf(mds, c, t, z), rest, s);
  }

  lemma FrameFits(mds: DataSizeSettings, c: Suite, t: Transport, z: Noise)
    requires Lawful(c) && Sendable(t, z) && Encrypts(c, t, z)
    ensures OHEADER_SIZE < |FrameOf(mds, c, t, z)| <= MAX_MESSAGE_SIZE && |z.prefix| == t.prefix
  {
    WrittenForm(mds, c, t, z);
  }

  lemma SizeOfFrame(mds: DataSizeSettings, c: Suite, t: Transport, z: Noise, rest: seq<byte>, s: seq<byte>)
    requires mds.offset <= MAX_OFFSET && Lawful(c) && Sendable(t, z) && Encrypts(c, t, z)
    requires s <= z.prefix + FrameOf(mds, c, t, z) + rest
    ensures |s| >= |z.prefix| + OHEADER_SIZE ==> OHEADER_SIZE + SizeAt(mds, s, |z.prefix|) == |FrameOf(mds, c, t, z)|
  {
    EncryptedSize(c, t, z);
    if |s| >= |z.prefix| + OHEADER_SIZE { SizeSeen(mds, HeaderOf(c, t, z), Secret(c, t, z), z.prefix, rest, s); }
  }

  lemma PeekBySize(mds: DataSizeSettings, prefix: seq<byte>, frame: seq<byte>, rest: seq<byte>, s: seq<byte>)
    requires s <= prefix + frame + rest && OHEADER_SIZE < |frame| <= MAX_MESSAGE_SIZE
    requires |s| >= |prefix| + OHEADER_SIZE ==> OHEADER_SIZE + SizeAt(mds, s, |prefix|) == |frame|
    ensures var whole := |prefix| + |frame|;
      && Peek(|prefix|, mds, s) == (if |s| < whole then NotEnoughData else CompleteMessage)
      && Cut(|prefix|, mds, s) == (if |s| < whole then None else Some((frame, s[whole..])))
  {
    if |s| >= |prefix| + |frame| {
      assert s[|prefix|..|prefix| + |frame|] == (prefix + frame + rest)[|prefix|..|prefix| + |frame|] == frame;
    }
  }

  lemma SizeSeen(mds: DataSizeSettings, h: OHeader, secret: seq<byte>, prefix: seq<byte>, rest: seq<byte>, s: seq<byte>)
    requires mds.offset <= MAX_OFFSET && h.size < 0x10_0000 && h.seed < Pow256(4) && |h.hmac| == HMAC_SIZE
    requires s <= prefix + (WriteOuter(mds, h) + secret) + rest && |s| >= |prefix| + OHEADER_SIZE
    ensures SizeAt(mds, s, |prefix|) == h.size
  {
    var all := prefix + (WriteOuter(mds, h) + secret) + rest;
    assert s[|prefix|..|prefix| + OHEADER_SIZE] == all[|prefix|..|prefix| + OHEADER_SIZE] == WriteOuter(mds, h);
    OuterRoundTrip(mds, h, s, |prefix|);
  }

  /** A message to send, with its random bytes. */
  datatype Item = Item(t: Transport, z: Noise)

  // Each message is preceded by as many random bytes as the one before announced
  predicate Chained(c: Suite, items: seq<Item>, prefix: nat)
    decreases |items|
  {
    items != [] ==>
      && Sendable(items[0].t, items[0].z) && Encrypts(c, items[0].t, items[0].z)
      && items[0].t.prefix == prefix
      && Chained(c, items[1..], items[0].t.inner.next)
  }

  function Payload(i: Item): Outcome { Received(i.t.inner, i.t.data) }

  function Payloads(items: seq<Item>): (r: seq<Outcome>)
    ensures |r| == |items|
    decreases |items|
  {
    if items == [] then [] else [Payload(items[0])] + Payloads(items[1..])
  }

  // The bytes of a message on the stream
  function Written(mds: DataSizeSettings, c: Suite, i: Item): seq<byte> {
    match WriteTransport(mds, c, i.t, i.z) case None => [] case Some(bytes) => bytes
  }

  function PieceOf(mds: DataSizeSettings, c: Suite, i: Item): Piece<Outcome> {
    Piece(Written(mds, c, i), i.t.prefix, i.t.inner.next, Payload(i))
  }

  function Pieces(mds: DataSizeSettings, c: Suite, items: seq<Item>): (ps: seq<Piece<Outcome>>)
    ensures |ps| == |items|
    decreases |items|
  {
    if items == [] then [] else [PieceOf(mds, c, items[0])] + Pieces(mds, c, items[1..])
  }

  function Stream(mds: DataSizeSettings, c: Suite, items: seq<Item>): seq<byte> { Joined(Pieces(mds, c, items)) }

  // ProcessMessageTransport, with one key: a frame is read under the seed found in it
  function ReadFrame(mds: DataSizeSettings, c: Suite, frame: seq<byte>): Outcome {
    match NonceSeed(frame) case None => Failed case Some(seed) => ReadTransport(mds, c, seed, frame)
  }

  // A message that was read and passes Validate
  predicate Accepted(r: Outcome) { r.Received? && |r.data| <= MAX_MESSAGE_DATA_SIZE }

  // A complete message taken off the buffer, if there is one and it can be read
  function TakeOne(mds: DataSizeSettings, c: Suite, b: Inbox<Outcome>): (n: Next<Outcome>)
    ensures n.One? ==> |n.b.buffer| < |b.buffer|
  {
    match Cut(b.prefix, mds, b.buffer)
    case None => Nothing
    case Some((frame, rest)) =>
      var r := ReadFrame(mds, c, frame);
      if Accepted(r) then One(Inbox(rest, r.inner.next, b.got + [r], b.failed), r)
      else Bad(b.(buffer := rest, failed := true))
  }

  /** The receiving end of a connection. */
  function ReaderOf(mds: DataSizeSettings, c: Suite): Reader<Outcome> {
    Reader((b: Inbox<Outcome>) => Peek(b.prefix, mds, b.buffer), (b: Inbox<Outcome>) => TakeOne(mds, c, b))
  }

  lemma TakesFrame(mds: DataSizeSettings, c: Suite, b: Inbox<Outcome>, frame: seq<byte>, rest: seq<byte>, r: Outcome)
    requires Cut(b.prefix, mds, b.buffer) == Some((frame, rest)) && ReadFrame(mds, c, frame) == r && Accepted(r)
    ensures TakeOne(mds, c, b) == One(Inbox(rest, r.inner.next, b.got + [r], b.failed), r)
  {
  }

  // What a message looks like from the front of the stream
  lemma MessageCut(mds: DataSizeSettings, c: Suite, b: Inbox<Outcome>, i: Item, tail: seq<byte>)
    requires mds.offset <= MAX_OFFSET && Lawful(c) && Sendable(i.t, i.z) && Encrypts(c, i.t, i.z)
    requires b.prefix == i.t.prefix && b.buffer <= Written(mds, c, i) + tail
    ensures var whole := |Written(mds, c, i)|;
      && Peek(b.prefix, mds, b.buffer) == (if |b.buffer| < whole then NotEnoughData else CompleteMessage)
      && Cut(b.prefix, mds, b.buffer) == (if |b.buffer| < whole then None else Some((FrameOf(mds, c, i.t, i.z), b.buffer[whole..])))
  {
    WrittenIs(mds, c, i);
    PeekIsExact(mds, c, i.t, i.z, tail, b.buffer);
  }

  lemma WrittenIs(mds: DataSizeSettings, c: Suite, i: Item)
    requires Lawful(c) && Sendable(i.t, i.z) && Encrypts(c, i.t, i.z)
    ensures Written(mds, c, i) == i.z.prefix + FrameOf(mds, c, i.t, i.z)
    ensures |Written(mds, c, i)| == i.t.prefix + |FrameOf(mds, c, i.t, i.z)|
  {
    WrittenForm(mds, c, i.t, i.z);
  }

  // A message is seen when it is whole, and taken
  lemma MessageSeen(mds: DataSizeSettings, c: Suite, b: Inbox<Outcome>, i: Item, tail: seq<byte>)
    requires mds.offset <= MAX_OFFSET && Lawful(c) && Sendable(i.t, i.z) && Encrypts(c, i.t, i.z)
    requires b.prefix == i.t.prefix && !b.failed && b.buffer <= Written(mds, c, i) + tail
    ensures if |b.buffer| < |Written(mds, c, i)|
            then Peek(b.prefix, mds, b.buffer) == NotEnoughData && TakeOne(mds, c, b) == Nothing
            else Peek(b.prefix, mds, b.buffer) == CompleteMessage && TakeOne(mds, c, b) == One(After(b, PieceOf(mds, c, i)), Payload(i))
  {
    MessageCut(mds, c, b, i, tail);
    if |b.buffer| >= |Written(mds, c, i)| {
      FrameRoundTrip(mds, c, i.t, i.z);
      TakesFrame(mds, c, b, FrameOf(mds, c, i.t, i.z), b.buffer[|Written(mds, c, i)|..], Payload(i));
    } else {
      NoCut(mds, c, b);
    }
  }

  lemma NoCut(mds: DataSizeSettings, c: Suite, b: Inbox<Outcome>)
    requires Cut(b.prefix, mds, b.buffer) == None
    ensures TakeOne(mds, c, b) == Nothing
  {
  }

  lemma NothingSeen(mds: DataSizeSettings, c: Suite, b: Inbox<Outcome>)
    requires b.buffer == []
    ensures Peek(b.prefix, mds, b.buffer) == NotEnoughData && TakeOne(mds, c, b) == Nothing
  {
  }

  lemma FirstRecognised(mds: DataSizeSettings, c: Suite, items: seq<Item>, prefix: nat)
    requires mds.offset <= MAX_OFFSET && Lawful(c) && Chained(c, items, prefix)
    ensures RecognisesFirst(ReaderOf(mds, c), Pieces(mds, c, items))
  {
    var r, ps := ReaderOf(mds, c), Pieces(mds, c, items);
    forall b: Inbox<Outcome> | Awaits(b, ps)
      ensures if Short(b, ps) then r.peek(b) == NotEnoughData && r.take(b) == Nothing
              else r.peek(b) == CompleteMessage && r.take(b) == One(After(b, ps[0]), ps[0].item)
    {
      if items == [] { NothingSeen(mds, c, b); } else { MessageSeen(mds, c, b, items[0], Joined(ps[1..])); }
    }
  }

  /** Messages with chained prefix lengths are pieces that the receiving end recognises. */
  lemma {:induction false} MessagesRecognised(mds: DataSizeSettings, c: Suite, items: seq<Item>, prefix: nat)
    requires mds.offset <= MAX_OFFSET && Lawful(c) && Chained(c, items, prefix)
    ensures Recognises(ReaderOf(mds, c), Pieces(mds, c, items)) && Linked(Pieces(mds, c, items), prefix)
    decreases |items|
  {
    FirstRecognised(mds, c, items, prefix);
    if items != [] {
      MessagesRecognised(mds, c, items[1..], items[0].t.inner.next);
      assert Pieces(mds, c, items)[1..] == Pieces(mds, c, items[1..]);
    }
  }

  lemma {:induction false} PiecesJoin(mds: DataSizeSettings, c: Suite, x: seq<Item>, y: seq<Item>)
    ensures Pieces(mds, c, x + y) == Pieces(mds, c, x) + Pieces(mds, c, y)
    decreases |x|
  {
    if x == [] {
      assert x + y == y;
    } else {
      assert (x + y)[1..] == x[1..] + y;
      PiecesJoin(mds, c, x[1..], y);
    }
  }

  lemma {:induction false} PiecesHold(mds: DataSizeSettings, c: Suite, items: seq<Item>)
    ensures Items(Pieces(mds, c, items)) == Payloads(items)
    decreases |items|
  {
    if items != [] { PiecesHold(mds, c, items[1..]); }
  }

  const FIRST_INBOX: Inbox<Outcome> := Inbox([], 0, [], false)

  /** A receiver that finds something too large, or a whole frame that it cannot accept, has
      failed and hands on nothing more. */
  lemma BadDataFails(mds: DataSizeSettings, c: Suite, w: Work<Outcome>, b: Inbox<Outcome>)
    requires !b.failed
    ensures Peek(b.prefix, mds, b.buffer) == TooMuchData ==>
              Process(ReaderOf(mds, c), w, b) == b.(failed := true)
    ensures Peek(b.prefix, mds, b.buffer) == CompleteMessage && Cut(b.prefix, mds, b.buffer).Some?
            && !Accepted(ReadFrame(mds, c, Cut(b.prefix, mds, b.buffer).value.0)) ==>
              Process(ReaderOf(mds, c), w, b).failed && Process(ReaderOf(mds, c), w, b).got == b.got
    ensures b.prefix + 40 <= |b.buffer| && Peek(b.prefix, mds, b.buffer) == CompleteMessage ==> Cut(b.prefix, mds, b.buffer).Some?
  {
  }

  lemma {:induction false} FailedStaysFailed(r: Reader<Outcome>, b: Inbox<Outcome>, calls: seq<Arrival<Outcome>>)
    requires b.failed
    ensures Arrive(r, b, calls).failed && Arrive(r, b, calls).got == b.got
    decreases |calls|
  {
    if calls != [] { FailedStaysFailed(r, Process(r, calls[0].work, Fed(b, calls[0].chunk)), calls[1..]); }
  }

  // Some pieces of the messages are those of the first messages
  lemma FirstPieces(mds: DataSizeSettings, c: Suite, items: seq<Item>, done: seq<Piece<Outcome>>, rest: seq<Piece<Outcome>>)
    requires done + rest == Pieces(mds, c, items)
    ensures |done| <= |items| && done == Pieces(mds, c, items[..|done|]) && rest == Pieces(mds, c, items[|done|..])
  {
    var n := |done|;
    PiecesJoin(mds, c, items[..n], items[n..]);
    assert items[..n] + items[n..] == items;
    assert (done + rest)[..n] == done && (done + rest)[n..] == rest;
  }

  /** However the stream is cut and however much each call may do, nothing fails, and the
      messages handed on are the first of those sent: what has come in is their bytes and what
      is buffered. No whole message is left there unless the last call reached its limit. */
  lemma AnyChunking(mds: DataSizeSettings, c: Suite, items: seq<Item>, calls: seq<Arrival<Outcome>>) returns (n: nat)
    requires mds.offset <= MAX_OFFSET && Lawful(c) && Chained(c, items, 0)
    requires calls != [] && Chunks(calls) <= Stream(mds, c, items)
    ensures var e := Arrive(ReaderOf(mds, c), FIRST_INBOX, calls);
      && n <= |items| && e.got == Payloads(items[..n]) && !e.failed
      && Chunks(calls) == Stream(mds, c, items[..n]) + e.buffer
      && (n == |items| || |e.buffer| < |Written(mds, c, items[n])|
          || Hurried(calls[|calls| - 1].work, Pieces(mds, c, items[..n])))
  {
    MessagesRecognised(mds, c, items, 0);
    assert [] + Chunks(calls) == Chunks(calls);
    var done, rest := ByteStreamModel.AnyChunking(ReaderOf(mds, c), FIRST_INBOX, Pieces(mds, c, items), calls);
    n := |done|;
    FirstPieces(mds, c, items, done, rest);
    PiecesHold(mds, c, items[..n]);
    assert [] + Items(done) == Items(done);
    if n < |items| { assert rest[0] == PieceOf(mds, c, items[n..][0]); }
  }

  /** The whole stream, in any chunks and under any limits, delivers the whole sequence: at
      once if no limit can be reached, and in any case after as many more calls as there are
      messages. */
  lemma StreamRoundTrip(
    mds: DataSizeSettings, c: Suite, items: seq<Item>, calls: seq<Arrival<Outcome>>, more: seq<Arrival<Outcome>>)
    requires mds.offset <= MAX_OFFSET && Lawful(c) && Chained(c, items, 0)
    requires Chunks(calls) == Stream(mds, c, items) && Idle(more)
    ensures calls != [] && Unhurried(calls, Pieces(mds, c, items)) ==>
              Delivered(Arrive(ReaderOf(mds, c), FIRST_INBOX, calls), Payloads(items))
    ensures |more| >= |items| ==> Delivered(Arrive(ReaderOf(mds, c), FIRST_INBOX, calls + more), Payloads(items))
  {
    MessagesRecognised(mds, c, items, 0);
    PiecesHold(mds, c, items);
    WholeStream(ReaderOf(mds, c), FIRST_INBOX, Pieces(mds, c, items), calls, more);
    assert [] + Payloads(items) == Payloads(items);
  }

  // ---------------------------------------------------------------- the objects

  lemma SizeInView(mds: DataSizeSettings, s: seq<byte>, at: nat)
    requires at + OHEADER_SIZE <= |s|
    ensures ReadOuter(mds, s[at..]).Some? && ReadOuter(mds, s[at..]).value.size == SizeAt(mds, s, at)
  {
    assert s[at..][0..4] == s[at..at + 4];
  }

  lemma ViewSlices(s: seq<byte>, at: nat, len: nat)
    requires at + len <= |s|
    ensures s[at..][..len] == s[at..at + len]
  {
  }

  lemma CutAt(mds: DataSizeSettings, s: seq<byte>, at: nat, len: nat)
    requires at + OHEADER_SIZE <= |s| && len == OHEADER_SIZE + SizeAt(mds, s, at)
    ensures Cut(at, mds, s) == if |s| - at >= len then Some((s[at..at + len], s[at + len..])) else None
  {
  }

  // The first frame, found by the header of the view behind the prefix
  lemma CutInView(mds: DataSizeSettings, s: seq<byte>, at: nat)
    requires at + OHEADER_SIZE <= |s|
    ensures ReadOuter(mds, s[at..]).Some?
    ensures var len := OHEADER_SIZE + ReadOuter(mds, s[at..]).value.size;
      Cut(at, mds, s) == if |s| - at >= len then Some((s[at..][..len], s[at + len..])) else None
  {
    SizeInView(mds, s, at);
    var len := OHEADER_SIZE + SizeAt(mds, s, at);
    CutAt(mds, s, at, len);
    if |s| - at >= len { ViewSlices(s, at, len); }
  }

  class MessageTransport {
    const m_Settings: Padding
    const m_DataSizeSettings: DataSizeSettings
    var m_Valid: bool
    var m_OHeader: OHeader
    var m_IHeader: IHeader
    var m_MessageData: seq<byte>
    var m_RandomDataPrefixLength: nat

    ghost function View(): Transport
      reads this
    {
      Transport(m_OHeader, m_IHeader, m_MessageData, m_RandomDataPrefixLength)
    }

    constructor (mds: DataSizeSettings, settings: Padding, bits: nat, seed: nat, time: nat, pick: Random)
      ensures m_DataSizeSettings == mds && m_Settings == settings && m_Valid
      ensures var random := if settings.high > 0 then pick(settings.low, settings.high) % 0x1_0000 else 0;
        View() == Transport(OHeader(bits, 0, seed, []), IHeader(0, time, 0, random), [], 0)
    {
      m_DataSizeSettings, m_Settings, m_Valid := mds, settings, true;
      m_OHeader := OHeader(bits, 0, seed, []);
      m_IHeader := IHeader(0, time, 0, if settings.high > 0 then pick(settings.low, settings.high) % 0x1_0000 else 0);
      m_MessageData, m_RandomDataPrefixLength := [], 0;
    }

    method SetCounterAndPrefixLengths(counter: nat, current: nat, next: nat)
      modifies this`m_RandomDataPrefixLength, this`m_IHeader
      ensures View() == old(View()).(prefix := current, inner := old(m_IHeader).(counter := counter, next := next))
    {
      m_RandomDataPrefixLength := current;
      m_IHeader := m_IHeader.(counter := counter, next := next);
    }

    method SetMessageData(buffer: seq<byte>, pick: Random)
      modifies this
      ensures buffer == [] ==> View() == old(View()) && m_Valid == old(m_Valid)
      ensures buffer != [] ==>
                && m_OHeader == old(m_OHeader).(size := |buffer|) && m_MessageData == buffer
                && m_IHeader == old(m_IHeader).(random := PaddingFor(m_Settings, pick, |buffer|, old(m_IHeader.random)))
                && m_RandomDataPrefixLength == old(m_RandomDataPrefixLength)
                && m_Valid == (|buffer| <= MAX_MESSAGE_DATA_SIZE)
    {
      if buffer != [] {
        m_OHeader := m_OHeader.(size := |buffer|);
        m_MessageData := buffer;
        if m_Settings.high > 0 {
          var min, max := m_Settings.low, m_Settings.high;
          if |buffer| <= MAX_MESSAGE_AND_RANDOM_DATA_SIZE && MAX_MESSAGE_AND_RANDOM_DATA_SIZE - |buffer| < max {
            min, max := 0, MAX_MESSAGE_AND_RANDOM_DATA_SIZE - |buffer|;
          }
          m_IHeader := m_IHeader.(random := pick(min, max) % 0x1_0000);
        }
        m_Valid := |m_MessageData| <= MAX_MESSAGE_DATA_SIZE;
      }
    }

    method Write(c: Suite, z: Noise) returns (out: Option<seq<byte>>)
      requires Fills(z, View())
      ensures out == WriteTransport(m_DataSizeSettings, c, View(), z)
    {
      var buffer := WriteInner(m_IHeader) + z.padding;
      if m_MessageData != [] {
        buffer := buffer + m_MessageData;
      }
      assert buffer == Plain(View(), z);
      if |buffer| > IHEADER_SIZE + MAX_MESSAGE_AND_RANDOM_DATA_SIZE {
        return None;
      }
      var frame := Seal(buffer, c);
      if frame.None? {
        return None;
      }
      if m_RandomDataPrefixLength > 0 {
        out := Some(z.prefix + frame.value);
      } else {
        assert z.prefix + frame.value == frame.value;
        out := frame;
      }
    }

    method Seal(plain: seq<byte>, c: Suite) returns (frame: Option<seq<byte>>)
      ensures frame == Sealed(m_DataSizeSettings, c, m_OHeader, plain)
    {
      var secret := c.encrypt(m_OHeader.seed, plain);
      if secret.None? {
        return None;
      }
      var h := m_OHeader.(size := |secret.value|, hmac := c.hmac(secret.value));
      var bytes := WriteOuter(m_DataSizeSettings, h) + secret.value;
      frame := if |bytes| > MAX_MESSAGE_SIZE then None else Some(bytes);
    }

    /** Reads into an object that holds no data yet. */
    method Read(s: seq<byte>, c: Suite, seed: nat) returns (success: bool, retry: bool)
      requires m_MessageData == []
      modifies this
      ensures success <==> ReadTransport(m_DataSizeSettings, c, seed, s).Received?
      ensures retry <==> ReadTransport(m_DataSizeSettings, c, seed, s).Retry?
      ensures success ==> Received(m_IHeader, m_MessageData) == ReadTransport(m_DataSizeSettings, c, seed, s)
    {
      success, retry := false, false;
      var h := ReadOuter(m_DataSizeSettings, s);
      if h.None? {
        return;
      }
      m_OHeader := h.value;
      if m_OHeader.size > 0 {
        var buffer := s[OHEADER_SIZE..];
        if m_OHeader.size == |buffer| {
          if m_OHeader.hmac == c.hmac(buffer) {
            var plain := c.decrypt(seed, buffer);
            if plain.Some? {
              success := ReadDecrypted(plain.value);
            }
          } else {
            retry := true;
          }
        }
      }
    }

    method ReadDecrypted(plain: seq<byte>) returns (success: bool)
      requires m_MessageData == []
      modifies this`m_IHeader, this`m_MessageData, this`m_Valid
      ensures success <==> ReadPlain(plain).Received?
      ensures success ==> Received(m_IHeader, m_MessageData) == ReadPlain(plain)
      ensures !ReadPlain(plain).Retry?
    {
      success := false;
      var inner := ReadInner(plain);
      if inner.Some? {
        m_IHeader := inner.value;
        var skip := IHEADER_SIZE + m_IHeader.random;
        m_MessageData := if skip < |plain| then plain[skip..] else [];
        success := true;
        m_Valid := |m_MessageData| <= MAX_MESSAGE_DATA_SIZE;
      }
    }
  }

  // What the sender draws for a message
  datatype Draw = Draw(bits: nat, seed: nat, time: nat, counter: nat, next: nat)

  predicate DrawOk(d: Draw) { d.seed < Pow256(4) && d.time < Pow256(8) && d.counter < Pow256(1) && d.next < Pow256(2) }

  // The prefix length that comes after some messages
  function NextPrefix(items: seq<Item>): nat { if items == [] then 0 else items[|items| - 1].t.inner.next }

  lemma {:induction false} ChainMore(c: Suite, items: seq<Item>, prefix: nat, i: Item)
    requires Chained(c, items, prefix) && Sendable(i.t, i.z) && Encrypts(c, i.t, i.z)
    requires i.t.prefix == if items == [] then prefix else NextPrefix(items)
    ensures Chained(c, items + [i], prefix)
    decreases |items|
  {
    if items != [] {
      ChainMore(c, items[1..], items[0].t.inner.next, i);
      assert (items + [i])[1..] == items[1..] + [i];
    }
  }

  // The message a sender makes of some data
  function Made(p: Padding, pick: Random, d: Draw, data: seq<byte>, prefix: nat): Transport {
    var random := PaddingFor(p, pick, |data|, if p.high > 0 then pick(p.low, p.high) % 0x1_0000 else 0);
    Transport(OHeader(d.bits, |data|, d.seed, []), IHeader(d.counter, d.time, d.next, random), data, prefix)
  }

  lemma MadeIsSendable(p: Padding, pick: Random, d: Draw, data: seq<byte>, prefix: nat, z: Noise)
    requires PaddingOk(p) && InRange(pick) && DrawOk(d) && |data| <= MAX_MESSAGE_DATA_SIZE
    requires Fills(z, Made(p, pick, d, data, prefix))
    ensures Sendable(Made(p, pick, d, data, prefix), z)
  {
    Widths();
    PaddingFits(p, pick, |data|);
  }

  // Sending one more message continues the stream
  lemma StreamMore(mds: DataSizeSettings, c: Suite, items: seq<Item>, i: Item)
    requires Lawful(c) && Chained(c, items, 0) && Sendable(i.t, i.z) && i.t.prefix == NextPrefix(items)
    ensures WriteTransport(mds, c, i.t, i.z).Some? <==> Encrypts(c, i.t, i.z)
    ensures WriteTransport(mds, c, i.t, i.z).Some? ==>
              && Chained(c, items + [i], 0)
              && Stream(mds, c, items + [i]) == Stream(mds, c, items) + WriteTransport(mds, c, i.t, i.z).value
  {
    SizeChecksPass(mds, c, i.t, i.z);
    if Encrypts(c, i.t, i.z) {
      ChainMore(c, items, 0, i);
      PiecesJoin(mds, c, items, [i]);
      JoinedJoin(Pieces(mds, c, items), Pieces(mds, c, [i]));
      Single(PieceOf(mds, c, i));
    }
  }

  /** The sending end: what it has sent is always a chained stream. */
  class Sender {
    const m_DataSizeSettings: DataSizeSettings
    const m_Settings: Padding
    var m_NextLocalRandomDataPrefixLength: nat
    var m_Sent: seq<byte>
    ghost var m_Items: seq<Item>

    ghost predicate Valid(c: Suite)
      reads this
    {
      && Chained(c, m_Items, 0) && m_Sent == Stream(m_DataSizeSettings, c, m_Items)
      && m_NextLocalRandomDataPrefixLength == NextPrefix(m_Items)
    }

    constructor (mds: DataSizeSettings, settings: Padding)
      ensures m_DataSizeSettings == mds && m_Settings == settings && m_Items == []
      ensures forall c :: Valid(c)
    {
      m_DataSizeSettings, m_Settings, m_NextLocalRandomDataPrefixLength, m_Sent, m_Items := mds, settings, 0, [], [];
    }

    method MakeMessage(data: seq<byte>, d: Draw, pick: Random) returns (msg: MessageTransport)
      requires data != []
      modifies this`m_NextLocalRandomDataPrefixLength
      ensures fresh(msg) && msg.m_DataSizeSettings == m_DataSizeSettings
      ensures msg.View() == Made(m_Settings, pick, d, data, old(m_NextLocalRandomDataPrefixLength))
      ensures msg.m_Valid == (|data| <= MAX_MESSAGE_DATA_SIZE) && m_NextLocalRandomDataPrefixLength == d.next
    {
      msg := new MessageTransport(m_DataSizeSettings, m_Settings, d.bits, d.seed, d.time, pick);
      msg.SetMessageData(data, pick);
      msg.SetCounterAndPrefixLengths(d.counter, m_NextLocalRandomDataPrefixLength, d.next);
      m_NextLocalRandomDataPrefixLength := d.next;
    }

    /** Data from the send queues is never empty. */
    method Send(c: Suite, data: seq<byte>, d: Draw, pick: Random, noise: nat -> seq<byte>) returns (ok: bool)
      requires Lawful(c) && Valid(c) && PaddingOk(m_Settings) && InRange(pick) && DrawOk(d) && data != []
      requires forall n :: |noise(n)| == n
      modifies this
      ensures ok ==> Valid(c) && old(m_Items) < m_Items && |m_Items| == |old(m_Items)| + 1
      ensures ok ==> m_Items[|old(m_Items)|].t.data == data && m_Items[|old(m_Items)|].t.inner.next == d.next
      ensures |data| <= MAX_MESSAGE_DATA_SIZE && (forall x :: c.encrypt(d.seed, x).Some?) ==> ok
      ensures ok ==> |data| <= MAX_MESSAGE_DATA_SIZE
    {
      var msg := MakeMessage(data, d, pick);
      if !msg.m_Valid {
        return false;
      }
      ghost var t := msg.View();
      var z := Noise(noise(msg.m_IHeader.random), noise(msg.m_RandomDataPrefixLength));
      MadeIsSendable(m_Settings, pick, d, data, t.prefix, z);
      StreamMore(m_DataSizeSettings, c, m_Items, Item(t, z));
      var bytes := msg.Write(c, z);
      if bytes.None? {
        return false;
      }
      m_Sent := m_Sent + bytes.value;
      m_Items := m_Items + [Item(t, z)];
      ok := true;
    }
  }

  // take is TakeOne, said so that it need not be looked into
  ghost predicate Matches(take: Taker<Outcome>, mds: DataSizeSettings, c: Suite) {
    forall b {:trigger TakeOne(mds, c, b)} :: take(b) == TakeOne(mds, c, b)
  }

  /** The receiving end: takes whatever complete messages the receive buffer holds. */
  class Receiver {
    const m_DataSizeSettings: DataSizeSettings
    var m_ReceiveBuffer: seq<byte>
    var m_NextPeerRandomDataPrefixLength: nat
    var m_Processed: seq<Outcome>
    var m_Failed: bool

    ghost function View(): Inbox<Outcome>
      reads this
    {
      Inbox(m_ReceiveBuffer, m_NextPeerRandomDataPrefixLength, m_Processed, m_Failed)
    }

    constructor (mds: DataSizeSettings)
      ensures View() == FIRST_INBOX && m_DataSizeSettings == mds
    {
      m_DataSizeSettings := mds;
      m_ReceiveBuffer, m_NextPeerRandomDataPrefixLength, m_Processed, m_Failed := [], 0, [], false;
    }

    method GetFromBuffer() returns (frame: Option<seq<byte>>)
      modifies this`m_ReceiveBuffer
      ensures var cut := Cut(m_NextPeerRandomDataPrefixLength, m_DataSizeSettings, old(m_ReceiveBuffer));
        && (frame.None? <==> cut.None?)
        && (cut.None? ==> m_ReceiveBuffer == old(m_ReceiveBuffer))
        && (cut.Some? ==> frame.value == cut.value.0 && m_ReceiveBuffer == cut.value.1)
    {
      frame := None;
      if |m_ReceiveBuffer| < m_NextPeerRandomDataPrefixLength + OHEADER_SIZE {
        return;
      }
      CutInView(m_DataSizeSettings, m_ReceiveBuffer, m_NextPeerRandomDataPrefixLength);
      var view := m_ReceiveBuffer[m_NextPeerRandomDataPrefixLength..];
      var h := ReadOuter(m_DataSizeSettings, view);
      var len := OHEADER_SIZE + h.value.size;
      if |view| >= len {
        frame := Some(view[..len]);
        m_ReceiveBuffer := m_ReceiveBuffer[m_NextPeerRandomDataPrefixLength + len..];
      }
    }

    /** What has come in is buffered; complete messages are taken until there are no more or
        the limit is reached, in which case there will be another call. */
    method ReceiveAndProcess(c: Suite, chunk: seq<byte>, w: Work<Outcome>)
      requires !m_Failed
      modifies this
      ensures View() == Process(ReaderOf(m_DataSizeSettings, c), w, Fed(old(View()), chunk))
    {
      m_ReceiveBuffer := m_ReceiveBuffer + chunk;
      match Peek(m_NextPeerRandomDataPrefixLength, m_DataSizeSettings, m_ReceiveBuffer) {
        case NotEnoughData =>
        case TooMuchData => m_Failed := true;
        case CompleteMessage => TakeMessages(c, w, ReaderOf(m_DataSizeSettings, c).take);
      }
    }

    method TakeMessages(c: Suite, w: Work<Outcome>, ghost take: Taker<Outcome>)
      requires !m_Failed && Matches(take, m_DataSizeSettings, c)
      modifies this
      ensures View() == Drain(take, w, 0, old(View()))
    {
      ghost var start := View();
      var num: nat, more := 0, true;
      while more
        invariant more ==> !m_Failed && Drain(take, w, num, View()) == Drain(take, w, 0, start)
        invariant !more ==> View() == Drain(take, w, 0, start)
        decreases more, |m_ReceiveBuffer|
      {
        var r := TakeMessage(c, take);
        if r.Some? {
          num := num + w.count(r.value);
        }
        more := r.Some? && num < w.burst;
      }
    }

    // One message, if there is one
    method TakeMessage(c: Suite, ghost take: Taker<Outcome>) returns (taken: Option<Outcome>)
      requires !m_Failed && Matches(take, m_DataSizeSettings, c)
      modifies this
      ensures match take(old(View()))
        case Nothing => taken.None? && View() == old(View())
        case Bad(b) => taken.None? && View() == b
        case One(b, r) => taken == Some(r) && View() == b && !m_Failed
    {
      taken := None;
      ghost var next := TakeOne(m_DataSizeSettings, c, View());
      var frame := GetFromBuffer();
      if frame.Some? {
        var r := ProcessMessageTransport(c, frame.value);
        if Accepted(r) {
          m_Processed := m_Processed + [r];
          m_NextPeerRandomDataPrefixLength := r.inner.next;
          taken := Some(r);
        } else {
          m_Failed := true;
        }
      }
    }

    method ProcessMessageTransport(c: Suite, frame: seq<byte>) returns (r: Outcome)
      ensures r == ReadFrame(m_DataSizeSettings, c, frame)
    {
      var seed := NonceSeed(frame);
      r := if seed.None? then Failed else ReadTransport(m_DataSizeSettings, c, seed.value, frame);
    }
  }
}
