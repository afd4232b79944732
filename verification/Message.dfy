/** Message: a 5 or 21 byte header (21 bits of size, 11 bits of type, a byte of flags and,
    for extender messages, a UUID) followed by data that may be compressed. */
module MessageModel {
  import opened Basics
  import opened BufferIOModel
  import opened BufferReaderModel

  // The limits of the transport and of the message within it
  const MAX_TRANSPORT_DATA_SIZE: nat := 1_048_021
  const MAX_HEADER_SIZE: nat := 21
  const MIN_HEADER_SIZE: nat := 5
  const MAX_MESSAGE_DATA_SIZE: nat := MAX_TRANSPORT_DATA_SIZE - MAX_HEADER_SIZE
  const MIN_SIZE_FOR_COMPRESSION: nat := 128

  const EXTENDER_COMMUNICATION: nat := 160

  predicate KnownType(t: nat) {
    t in [10, 20, 30, 40, 50, 60, 70, 80, 90, 100, 110, 120, 130, 140, 150, 160, 170, 180, 300, 310, 320, 330]
  }

  // The bits of the flags byte
  datatype Flags = Flags(begin: bool, part: bool, end: bool, compressed: bool, rest: nat)

  const NO_FLAGS: Flags := Flags(false, false, false, false, 0)

  function Bit(b: bool): nat { if b then 1 else 0 }

  function FlagsByte(f: Flags): nat { Bit(f.begin) + 2 * Bit(f.part) + 4 * Bit(f.end) + 8 * Bit(f.compressed) + 16 * f.rest }

  function ByteFlags(n: nat): Flags { Flags(n % 2 == 1, n / 2 % 2 == 1, n / 4 % 2 == 1, n / 8 % 2 == 1, n / 16) }

  lemma FlagsRoundTrip(f: Flags)
    ensures ByteFlags(FlagsByte(f)) == f
    ensures f.rest < 16 ==> FlagsByte(f) < 256
  {
    var n, r := FlagsByte(f), f.rest;
    assert n == Bit(f.begin) + 2 * (Bit(f.part) + 2 * (Bit(f.end) + 2 * (Bit(f.compressed) + 2 * r)));
    assert n / 2 == Bit(f.part) + 2 * (Bit(f.end) + 2 * (Bit(f.compressed) + 2 * r));
    assert n / 4 == Bit(f.end) + 2 * (Bit(f.compressed) + 2 * r);
    assert n / 8 == Bit(f.compressed) + 2 * r;
  }

  datatype Fragment = Complete | PartialBegin | Partial | PartialEnd

  function FragmentFlags(f: Fragment): Flags {
    match f
    case Complete => NO_FLAGS
    case PartialBegin => NO_FLAGS.(begin := true)
    case Partial => NO_FLAGS.(part := true)
    case PartialEnd => NO_FLAGS.(end := true)
  }

  // GetMessageFragmentType
  function FragmentOf(f: Flags): Fragment {
    if !f.begin && !f.part && !f.end then Complete
    else if f.begin then PartialBegin
    else if f.part then Partial
    else PartialEnd
  }

  // UUID::GetType() == Extender, on the sixteen stored bytes
  predicate IsExtenderUUID(uuid: seq<byte>) { |uuid| == 16 && uuid[6] % 16 == 9 && uuid[8] % 8 == 6 }

  // ---------------------------------------------------------------- header

  datatype Header = Header(size: nat, mtype: nat, flags: Flags, uuid: seq<byte>)

  const ZERO_UUID: seq<byte> := [0, 0, 0, 0, 0, 0, 0, 0, 0, 0, 0, 0, 0, 0, 0, 0]
  const EMPTY_HEADER: Header := Header(0, 0, NO_FLAGS, ZERO_UUID)

  function HeaderSize(h: Header): nat { if h.mtype == EXTENDER_COMMUNICATION then MAX_HEADER_SIZE else MIN_HEADER_SIZE }

  // Eleven bits of type above twenty-one bits of size
  function Pack(mtype: nat, size: nat): nat { mtype % 0x800 * 0x20_0000 + size % 0x20_0000 }
  function SizePart(data: nat): nat { data % 0x20_0000 }
  function TypePart(data: nat): nat { data / 0x20_0000 % 0x800 }

  function WriteHeader(h: Header): seq<byte> {
    Wire(true, Pack(h.mtype, h.size), 4) + Wire(true, FlagsByte(h.flags), 1)
    + (if h.mtype == EXTENDER_COMMUNICATION then h.uuid else [])
  }

  function ReadHeader(s: seq<byte>): Option<Header> {
    match ReadInt(true, s, 0, 4)
    case None => None
    case Some(Parsed(data, _)) =>
      match ReadInt(true, s, 4, 1)
      case None => None
      case Some(Parsed(flags, _)) =>
        var h := Header(SizePart(data), TypePart(data), ByteFlags(flags), ZERO_UUID);
        if h.mtype != EXTENDER_COMMUNICATION then Some(h)
        else
          match Take(s, 5, 16)
          case None => None
          case Some(uuid) => if IsExtenderUUID(uuid) then Some(h.(uuid := uuid)) else None
  }

  // A header whose fields fit their bits
  predicate HeaderOk(h: Header) {
    && h.size < 0x20_0000 && h.mtype < 0x800 && h.flags.rest < 16
    && (h.mtype == EXTENDER_COMMUNICATION ==> IsExtenderUUID(h.uuid))
  }

  // What survives the wire: the UUID only of extender messages
  function Sent(h: Header): Header { if h.mtype == EXTENDER_COMMUNICATION then h else h.(uuid := ZERO_UUID) }

  lemma PackRoundTrip(mtype: nat, size: nat)
    requires mtype < 0x800 && size < 0x20_0000
    ensures Pack(mtype, size) < Pow256(4)
    ensures SizePart(Pack(mtype, size)) == size && TypePart(Pack(mtype, size)) == mtype
  {
    Widths();
    PackedParts(mtype, size);
  }

  lemma PackedParts(mtype: nat, size: nat)
    requires mtype < 0x800 && size < 0x20_0000
    ensures var data := mtype * 0x20_0000 + size;
      data < 0x1_0000_0000 && data % 0x20_0000 == size && data / 0x20_0000 == mtype
  {
  }

  lemma HeaderRoundTrip(h: Header, rest: seq<byte>)
    requires HeaderOk(h)
    ensures |WriteHeader(h)| == HeaderSize(h)
    ensures ReadHeader(WriteHeader(h) + rest) == Some(Sent(h))
  {
    var s, a, b := WriteHeader(h) + rest, Wire(true, Pack(h.mtype, h.size), 4), Wire(true, FlagsByte(h.flags), 1);
    PackRoundTrip(h.mtype, h.size);
    FlagsRoundTrip(h.flags);
    Widths();
    assert s[0..4] == a && s[4..5] == b;
    IntRoundTrip(true, s, 0, Pack(h.mtype, h.size), 4);
    IntRoundTrip(true, s, 4, FlagsByte(h.flags), 1);
    if h.mtype == EXTENDER_COMMUNICATION { assert s[5..21] == h.uuid; }
  }

  // ---------------------------------------------------------------- message

  /** Compression with its laws: compressed data is not empty (it starts with a size) and
      decompresses to what it was, if that is within the allowed size. */
  datatype Codec = Codec(compress: seq<byte> -> Option<seq<byte>>, decompress: (seq<byte>, nat) -> Option<seq<byte>>)

  ghost predicate Lawful(c: Codec) {
    forall d :: c.compress(d).Some? ==>
      && c.compress(d).value != []
      && forall max :: |d| <= max ==> c.decompress(c.compress(d).value, max) == Some(d)
  }

  // A codec that only marks what it was given
  function Marked(d: seq<byte>): Option<seq<byte>> { Some([0] + d) }
  function Unmarked(s: seq<byte>, max: nat): Option<seq<byte>> { if 0 < |s| <= max + 1 then Some(s[1..]) else None }

  lemma LawsCanHold()
    ensures exists c :: Lawful(c)
  {
    forall d, max: nat | |d| <= max ensures Unmarked(Marked(d).value, max) == Some(d) {
      assert ([0] + d)[1..] == d;
    }
    assert Lawful(Codec(Marked, Unmarked));
  }

  datatype Body = Body(header: Header, data: seq<byte>, useCompression: bool, valid: bool)

  predicate Validates(h: Header, data: seq<byte>) {
    KnownType(h.mtype) && h.size == |data| && |data| <= MAX_MESSAGE_DATA_SIZE
  }

  // A message as made from MessageOptions
  function Make(mtype: nat, uuid: seq<byte>, data: seq<byte>, compress: bool, fragment: Fragment): Body {
    var h := Header(|data|, mtype, FragmentFlags(fragment), uuid);
    Body(h, data, compress, Validates(h, data))
  }

  predicate TriesCompression(m: Body) { m.data != [] && m.useCompression && |m.data| >= MIN_SIZE_FOR_COMPRESSION }

  // The header and the bytes that go on the wire
  function Encode(c: Codec, m: Body): Option<(Header, seq<byte>)> {
    if !TriesCompression(m) then Some((m.header, if m.header.flags.compressed then [] else m.data))
    else
      match c.compress(m.data)
      case None => None
      case Some(packed) =>
        if |packed| < |m.data|
        then Some((m.header.(size := |packed|, flags := m.header.flags.(compressed := true)), packed))
        else Some((m.header.(size := |m.data|, flags := m.header.flags.(compressed := false)), m.data))
  }

  function WriteMessage(c: Codec, m: Body): Option<seq<byte>> {
    match Encode(c, m)
    case None => None
    case Some((h, b)) =>
      var out := WriteHeader(h) + b;
      if |out| > MAX_TRANSPORT_DATA_SIZE then None else Some(out)
  }

  function Decode(c: Codec, h: Header, b: seq<byte>): Option<Body> {
    if h.size == 0 then Some(Body(h, [], true, Validates(h, [])))
    else if h.size != |b| then None
    else if !h.flags.compressed then Some(Body(h, b, true, Validates(h, b)))
    else
      match c.decompress(b, MAX_MESSAGE_DATA_SIZE)
      case None => None
      case Some(data) =>
        var h' := h.(flags := h.flags.(compressed := false), size := |data|);
        Some(Body(h', data, true, Validates(h', data)))
  }

  function ReadMessage(c: Codec, s: seq<byte>): Option<Body> {
    if |s| < MIN_HEADER_SIZE then None
    else
      match ReadHeader(s)
      case None => None
      case Some(h) => Decode(c, h, if HeaderSize(h) <= |s| then s[HeaderSize(h)..] else [])
  }

  /** GetFromBuffer: the first frame and what follows it. */
  function Split(s: seq<byte>): Option<(seq<byte>, seq<byte>)> {
    if |s| < MIN_HEADER_SIZE then None
    else
      match ReadHeader(s)
      case None => None
      case Some(h) =>
        var len := HeaderSize(h) + h.size;
        if |s| >= len then Some((s[..len], s[len..])) else None
  }

  // Repeated GetFromBuffer
  function SplitAll(s: seq<byte>): seq<seq<byte>>
    decreases |s|
  {
    match Split(s)
    case None => []
    case Some((frame, rest)) => [frame] + SplitAll(rest)
  }

  /** The message object. */
  class Message {
    var m_Valid: bool
    var m_Header: Header
    var m_MessageData: seq<byte>
    var m_UseCompression: bool

    ghost function View(): Body
      reads this
    {
      Body(m_Header, m_MessageData, m_UseCompression, m_Valid)
    }

    constructor ()
      ensures View() == Body(EMPTY_HEADER, [], true, false)
    {
      m_Valid, m_Header, m_MessageData, m_UseCompression := false, EMPTY_HEADER, [], true;
    }

    method Initialize(mtype: nat, uuid: seq<byte>, data: seq<byte>, compress: bool, fragment: Fragment)
      requires m_Header == EMPTY_HEADER
      modifies this
      ensures View() == Make(mtype, uuid, data, compress, fragment)
    {
      m_UseCompression := compress;
      m_Header := Header(|data|, mtype, m_Header.flags, uuid);
      match fragment {
        case Complete =>
        case PartialBegin => m_Header := m_Header.(flags := m_Header.flags.(begin := true));
        case Partial => m_Header := m_Header.(flags := m_Header.flags.(part := true));
        case PartialEnd => m_Header := m_Header.(flags := m_Header.flags.(end := true));
      }
      m_MessageData := data;
      Validate();
    }

    method Validate()
      modifies this`m_Valid
      ensures m_Valid == Validates(m_Header, m_MessageData)
    {
      m_Valid := false;
      if !KnownType(m_Header.mtype) {
        return;
      }
      if m_Header.size != |m_MessageData| {
        return;
      }
      if |m_MessageData| > MAX_MESSAGE_DATA_SIZE {
        return;
      }
      m_Valid := true;
    }

    method Write(c: Codec) returns (out: Option<seq<byte>>)
      ensures out == WriteMessage(c, View())
    {
      var h, packed := m_Header, [];
      if m_MessageData != [] && m_UseCompression && |m_MessageData| >= MIN_SIZE_FOR_COMPRESSION {
        var r := c.compress(m_MessageData);
        if r.None? {
          return None;
        }
        packed := r.value;
        if |packed| < |m_MessageData| {
          h := h.(size := |packed|, flags := h.flags.(compressed := true));
        } else {
          h := h.(size := |m_MessageData|, flags := h.flags.(compressed := false));
        }
      }
      var buffer := WriteHeader(h);
      if m_MessageData != [] {
        buffer := buffer + (if h.flags.compressed then packed else m_MessageData);
      }
      assert buffer == WriteHeader(h) + Encode(c, View()).value.1;
      if |buffer| > MAX_TRANSPORT_DATA_SIZE {
        return None;
      }
      out := Some(buffer);
    }

    /** Reads into a message that holds no data yet. */
    method Read(c: Codec, s: seq<byte>) returns (success: bool)
      requires m_MessageData == [] && m_UseCompression
      modifies this
      ensures success <==> ReadMessage(c, s).Some?
      ensures success ==> View() == ReadMessage(c, s).value
    {
      if |s| < MIN_HEADER_SIZE {
        return false;
      }
      var r := ReadHeader(s);
      if r.None? {
        return false;
      }
      m_Header := r.value;
      success := true;
      if m_Header.size > 0 {
        var buffer := if HeaderSize(m_Header) <= |s| then s[HeaderSize(m_Header)..] else [];
        if m_Header.size == |buffer| {
          if m_Header.flags.compressed {
            var d := c.decompress(buffer, MAX_MESSAGE_DATA_SIZE);
            if d.Some? {
              m_Header := m_Header.(flags := m_Header.flags.(compressed := false), size := |d.value|);
              m_MessageData := d.value;
            } else {
              success := false;
            }
          } else {
            m_MessageData := buffer;
          }
        } else {
          success := false;
        }
      }
      if success {
        Validate();
      }
    }
  }

  /** GetFromBuffer: takes the first whole frame off the view, if there is one. */
  method GetFromBuffer(src: seq<byte>) returns (frame: seq<byte>, rest: seq<byte>)
    ensures src == frame + rest
    ensures frame == [] <==> Split(src).None?
    ensures frame != [] ==> Split(src) == Some((frame, rest))
  {
    frame, rest := [], src;
    if |src| < MIN_HEADER_SIZE {
      return;
    }
    var h := ReadHeader(src);
    if h.Some? {
      var len := HeaderSize(h.value) + h.value.size;
      if |src| >= len {
        frame, rest := src[..len], src[len..];
      }
    }
  }

  // ---------------------------------------------------------------- round trip

  /** A message somebody made from options and that passed validation. */
  predicate Good(m: Body) {
    && Validates(m.header, m.data)
    && (m.header.mtype == EXTENDER_COMMUNICATION ==> IsExtenderUUID(m.header.uuid))
    && m.header.flags.rest == 0 && !m.header.flags.compressed
  }

  lemma MadeIsGood(mtype: nat, uuid: seq<byte>, data: seq<byte>, compress: bool, fragment: Fragment)
    requires IsExtenderUUID(uuid)
    ensures Make(mtype, uuid, data, compress, fragment).valid <==> KnownType(mtype) && |data| <= MAX_MESSAGE_DATA_SIZE
    ensures Make(mtype, uuid, data, compress, fragment).valid ==> Good(Make(mtype, uuid, data, compress, fragment))
    ensures FragmentOf(Make(mtype, uuid, data, compress, fragment).header.flags) == fragment
  {
  }

  /** What goes on the wire fits the header's bits, is as long as its header says, is no
      longer than the data, and decodes to the message. */
  lemma EncodeRoundTrip(c: Codec, m: Body)
    requires Lawful(c) && Good(m) && Encode(c, m).Some?
    ensures var (h, b) := Encode(c, m).value;
      && HeaderOk(h) && h.size == |b| <= |m.data| && h.mtype == m.header.mtype
      && Decode(c, Sent(h), b) == Some(Body(Sent(m.header), m.data, true, true))
  {
  }

  lemma WrittenForm(c: Codec, m: Body)
    requires Lawful(c) && Good(m)
    ensures WriteMessage(c, m).Some? <==> Encode(c, m).Some?
    ensures WriteMessage(c, m).Some? ==>
              var (h, b) := Encode(c, m).value;
              WriteMessage(c, m).value == WriteHeader(h) + b && |WriteMessage(c, m).value| <= HeaderSize(m.header) + |m.data|
  {
    if Encode(c, m).Some? {
      EncodeRoundTrip(c, m);
      HeaderRoundTrip(Encode(c, m).value.0, []);
    }
  }

  /** Reading a written message gives back its type, fragment kind, data and, for extender
      messages, UUID - compressed or not; writing fails only if compression does, and the
      written form respects the transport's limit and never exceeds header plus data. */
  lemma MessageRoundTrip(c: Codec, m: Body)
    requires Lawful(c) && Good(m)
    ensures WriteMessage(c, m).Some? <==> !TriesCompression(m) || c.compress(m.data).Some?
    ensures WriteMessage(c, m).Some? ==>
              && |WriteMessage(c, m).value| <= HeaderSize(m.header) + |m.data| <= MAX_TRANSPORT_DATA_SIZE
              && ReadMessage(c, WriteMessage(c, m).value) == Some(Body(Sent(m.header), m.data, true, true))
  {
    WrittenForm(c, m);
    if WriteMessage(c, m).Some? {
      var (h, b) := Encode(c, m).value;
      EncodeRoundTrip(c, m);
      HeaderRoundTrip(h, b);
      assert (WriteHeader(h) + b)[HeaderSize(h)..] == b;
    }
  }

  lemma SplitAfter(h: Header, frame: seq<byte>, rest: seq<byte>)
    requires ReadHeader(frame + rest) == Some(h) && |frame| == HeaderSize(h) + h.size
    ensures Split(frame + rest) == Some((frame, rest))
  {
    assert (frame + rest)[..|frame|] == frame && (frame + rest)[|frame|..] == rest;
  }

  lemma HeadedFirst(h: Header, b: seq<byte>, rest: seq<byte>)
    requires HeaderOk(h) && h.size == |b|
    ensures Split(WriteHeader(h) + b + rest) == Some((WriteHeader(h) + b, rest))
  {
    HeaderRoundTrip(h, b + rest);
    assert WriteHeader(h) + b + rest == WriteHeader(h) + (b + rest);
    SplitAfter(Sent(h), WriteHeader(h) + b, rest);
  }

  lemma FrameFirst(c: Codec, m: Body, rest: seq<byte>)
    requires Lawful(c) && Good(m) && WriteMessage(c, m).Some?
    ensures Split(WriteMessage(c, m).value + rest) == Some((WriteMessage(c, m).value, rest))
  {
    WrittenForm(c, m);
    EncodeRoundTrip(c, m);
    HeadedFirst(Encode(c, m).value.0, Encode(c, m).value.1, rest);
  }

  predicate AllWritten(c: Codec, ms: seq<Body>) {
    forall m :: m in ms ==> Good(m) && WriteMessage(c, m).Some?
  }

  function Frames(c: Codec, ms: seq<Body>): (frames: seq<seq<byte>>)
    requires AllWritten(c, ms)
    ensures |frames| == |ms|
  {
    if ms == [] then [] else [WriteMessage(c, ms[0]).value] + Frames(c, ms[1..])
  }

  /** Written messages are self-delimiting: any concatenation of them splits back into
      exactly those frames, and each frame reads back as its message. */
  lemma {:induction false} FramesSplitBack(c: Codec, ms: seq<Body>)
    requires Lawful(c) && AllWritten(c, ms)
    ensures SplitAll(Concat(Frames(c, ms))) == Frames(c, ms)
    ensures forall i :: 0 <= i < |ms| ==>
              ReadMessage(c, Frames(c, ms)[i]) == Some(Body(Sent(ms[i].header), ms[i].data, true, true))
    decreases |ms|
  {
    if ms != [] {
      var frames := Frames(c, ms);
      var rest := frames[1..];
      assert rest == Frames(c, ms[1..]);
      FramesSplitBack(c, ms[1..]);
      FrameFirst(c, ms[0], Concat(rest));
      MessageRoundTrip(c, ms[0]);
      forall i | 0 <= i < |ms| ensures ReadMessage(c, frames[i]) == Some(Body(Sent(ms[i].header), ms[i].data, true, true)) {
        if i > 0 { assert frames[i] == rest[i - 1] && ms[i] == ms[1..][i - 1]; }
      }
    }
  }

  // ---------------------------------------------------------------- any buffer at all

  // The type and size that the first four bytes give, and the header's length for it
  function TypeAt(s: seq<byte>): nat
    requires |s| >= 5
  {
    Unwire(true, s[0..4]) / 0x20_0000 % 0x800
  }

  function SizeAt(s: seq<byte>): nat
    requires |s| >= 5
  {
    Unwire(true, s[0..4]) % 0x20_0000
  }

  function BodyAt(s: seq<byte>): nat
    requires |s| >= 5
  {
    if TypeAt(s) == 160 then 21 else 5
  }

  predicate CompressedAt(s: seq<byte>)
    requires |s| >= 5
  {
    Unwire(true, s[4..5]) / 8 % 2 == 1
  }

  /** A header is read from any bytes but too few, or an extender's UUID that is none. */
  lemma HeaderOutcome(s: seq<byte>)
    ensures ReadHeader(s).Some? <==> |s| >= 5 && (TypeAt(s) == 160 ==> |s| >= 21 && IsExtenderUUID(s[5..21]))
    ensures ReadHeader(s).Some? ==>
              var h := ReadHeader(s).value;
              && h.mtype == TypeAt(s) && h.size == SizeAt(s) && h.flags.compressed == CompressedAt(s)
              && (h.mtype == 160 ==> h.uuid == s[5..21]) && HeaderSize(h) == BodyAt(s)
  {
  }

  /** A message is read from any bytes with a header, unless what follows is not as long as the
      header says or does not decompress; a size of zero asks for nothing to follow, and
      nothing is looked at. */
  lemma ReadOutcome(c: Codec, s: seq<byte>)
    ensures ReadMessage(c, s).Some? <==>
              && ReadHeader(s).Some?
              && (SizeAt(s) > 0 ==> |s| == BodyAt(s) + SizeAt(s))
              && (SizeAt(s) > 0 && CompressedAt(s) ==> c.decompress(s[BodyAt(s)..], 1_048_000).Some?)
    ensures ReadMessage(c, s).Some? ==>
              var m := ReadMessage(c, s).value;
              && m.header.mtype == TypeAt(s)
              && m.data == (if SizeAt(s) == 0 then [] else if CompressedAt(s) then c.decompress(s[BodyAt(s)..], 1_048_000).value
                            else s[BodyAt(s)..])
              && (m.valid <==> KnownType(TypeAt(s)) && |m.data| <= 1_048_000)
  {
    HeaderOutcome(s);
    if |s| >= 5 && BodyAt(s) > |s| { assert TypeAt(s) == 160 && |s| < 21; }
  }

  /** A written message is compressed just when that was asked for, there are 128 bytes or
      more, and it makes them fewer; what follows the header is then the compressed data, and
      otherwise the data. */
  lemma CompressionOutcome(c: Codec, m: Body)
    requires Lawful(c) && Good(m) && WriteMessage(c, m).Some?
    ensures var s, hdr := WriteMessage(c, m).value, HeaderSize(m.header);
      && |s| >= hdr >= 5 && BodyAt(s) == hdr
      && (CompressedAt(s) <==> m.useCompression && |m.data| >= 128 && |c.compress(m.data).value| < |m.data|)
      && s[hdr..] == if CompressedAt(s) then c.compress(m.data).value else m.data
  {
    WrittenForm(c, m);
    EncodeRoundTrip(c, m);
    var (h, b) := Encode(c, m).value;
    HeaderRoundTrip(h, b);
    HeaderRoundTrip(h, []);
    HeaderOutcome(WriteHeader(h) + b);
    assert (WriteHeader(h) + b)[HeaderSize(h)..] == b;
  }

  /** No part of a written message short of the whole is taken for a frame. */
  lemma NoFrameBeforeTheEnd(c: Codec, m: Body, s: seq<byte>)
    requires Lawful(c) && Good(m) && WriteMessage(c, m).Some? && s < WriteMessage(c, m).value
    ensures Split(s) == None
  {
    WrittenForm(c, m);
    EncodeRoundTrip(c, m);
    var (h, b) := Encode(c, m).value;
    HeaderRoundTrip(h, b);
    HeaderRoundTrip(h, []);
    var whole := WriteHeader(h) + b;
    HeaderOutcome(whole);
    HeaderOutcome(s);
    if |s| >= 5 { assert s[0..4] == whole[0..4]; }
  }
}
