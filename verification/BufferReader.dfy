/** BufferReader: takes typed fields off the front of a buffer; and the round trip with
    BufferWriter. */
module BufferReaderModel {
  import opened Basics
  import opened BufferIOModel
  import opened BufferWriterModel

  /** A value and how many bytes were read for it. */
  datatype Parsed<T> = Parsed(value: T, used: nat)

  // The bytes at a position, if there are enough
  function Take(s: seq<byte>, at: nat, len: nat): Option<seq<byte>>
  {
    if at + len <= |s| then Some(s[at..at + len]) else None
  }

  function ReadInt(convert: bool, s: seq<byte>, at: nat, w: nat): Option<Parsed<nat>> {
    match Take(s, at, w)
    case None => None
    case Some(bytes) => Some(Parsed(Unwire(convert, bytes), w))
  }

  function ReadEncodedSize(convert: bool, s: seq<byte>, at: nat, max: nat): (r: Option<Parsed<nat>>)
    ensures r.Some? ==> r.value.value <= max
  {
    match ReadInt(convert, s, at, 1)
    case None => None
    case Some(Parsed(first, _)) =>
      if first < 253 then (if first <= max then Some(Parsed(first, 1)) else None)
      else
        var w := if first == 253 then 2 else if first == 254 then 4 else 8;
        match ReadInt(convert, s, at + 1, w)
        case None => None
        case Some(Parsed(size, _)) => if size <= max then Some(Parsed(size, 1 + w)) else None
  }

  function ReadInts(convert: bool, s: seq<byte>, at: nat, w: nat, count: nat): Option<seq<nat>>
    decreases count
  {
    if count == 0 then Some([])
    else
      match ReadInt(convert, s, at, w)
      case None => None
      case Some(first) =>
        Prefixed([first.value], ReadInts(convert, s, at + w, w, count - 1))
  }

  function Prefixed(got: seq<nat>, rest: Option<seq<nat>>): Option<seq<nat>> {
    match rest
    case None => None
    case Some(ns) => Some(got + ns)
  }

  lemma PrefixedTwice(got: seq<nat>, n: nat, rest: Option<seq<nat>>)
    ensures Prefixed([], rest) == rest
    ensures Prefixed(got + [n], rest) == Prefixed(got, Prefixed([n], rest))
  {
    if rest.Some? {
      assert [] + rest.value == rest.value;
      assert (got + [n]) + rest.value == got + ([n] + rest.value);
    }
  }

  // The field types a C++ schema can hold
  predicate Sane(f: Field) {
    match f
    case SizedVector(w, _) => w > 0
    case SizedRaw(unit, _) => unit > 0
    case Struct(fs) => forall i :: 0 <= i < |fs| ==> Sane(fs[i])
    case _ => true
  }

  // A string is resized to whole characters
  function WholeUnits(size: nat, unit: nat): (r: nat)
    requires unit > 0
    ensures size % unit == 0 ==> r == size
  {
    size - size % unit
  }

  // The numbers that so many bytes hold, if they hold whole ones
  function ReadWhole(convert: bool, s: seq<byte>, at: nat, w: nat, size: nat): Option<seq<nat>>
    requires w > 0
  {
    if size % w != 0 then None else ReadInts(convert, s, at, w, size / w)
  }

  function ReadField(convert: bool, s: seq<byte>, at: nat, f: Field): Option<Parsed<Value>>
    requires Sane(f)
    decreases f, 1
  {
    match f
    case Int(w) =>
      (match ReadInt(convert, s, at, w)
       case None => None
       case Some(r) => Some(Parsed(Num(r.value), r.used)))
    case Vector(w, count) =>
      (match ReadInts(convert, s, at, w, count)
       case None => None
       case Some(ns) => Some(Parsed(Nums(ns), count * w)))
    case Raw(size) =>
      (match Take(s, at, size)
       case None => None
       case Some(bytes) => Some(Parsed(Blob(bytes), size)))
    case SizedVector(w, max) =>
      (match ReadEncodedSize(convert, s, at, max)
       case None => None
       case Some(Parsed(size, used)) =>
         match ReadWhole(convert, s, at + used, w, size)
         case None => None
         case Some(ns) => Some(Parsed(Nums(ns), used + size)))
    case SizedRaw(unit, max) =>
      (match ReadEncodedSize(convert, s, at, max)
       case None => None
       case Some(Parsed(size, used)) =>
         var len := WholeUnits(size, unit);
         match Take(s, at + used, len)
         case None => None
         case Some(bytes) => Some(Parsed(Blob(bytes), used + len)))
    case Struct(fs) =>
      (match ReadFields(convert, s, at, fs)
       case None => None
       case Some(r) => Some(Parsed(Group(r.value), r.used)))
  }

  function ReadFields(convert: bool, s: seq<byte>, at: nat, fs: seq<Field>): Option<Parsed<seq<Value>>>
    requires forall i :: 0 <= i < |fs| ==> Sane(fs[i])
    decreases fs, 0
  {
    if fs == [] then Some(Parsed([], 0))
    else
      match ReadField(convert, s, at, fs[0])
      case None => None
      case Some(first) =>
        match ReadFields(convert, s, at + first.used, fs[1..])
        case None => None
        case Some(rest) => Some(Parsed([first.value] + rest.value, first.used + rest.used))
  }

  class BufferReader {
    const m_ConvertFromNetworkByteOrder: bool
    const m_Buffer: seq<byte>
    var m_Pointer: nat

    constructor (buffer: seq<byte>, networkByteOrder: bool)
      ensures m_Buffer == buffer && m_ConvertFromNetworkByteOrder == networkByteOrder && m_Pointer == 0
    {
      m_Buffer, m_ConvertFromNetworkByteOrder, m_Pointer := buffer, networkByteOrder, 0;
    }

    method ReadBytes(len: nat, endianConvert: bool) returns (data: Option<seq<byte>>)
      modifies this`m_Pointer
      ensures data.Some? <==> Take(m_Buffer, old(m_Pointer), len).Some?
      ensures data.Some? ==>
                && m_Pointer == old(m_Pointer) + len
                && var bytes := m_Buffer[old(m_Pointer)..m_Pointer];
                   data.value == if endianConvert && m_ConvertFromNetworkByteOrder then Reverse(bytes) else bytes
    {
      if m_Pointer + len > |m_Buffer| {
        return None;
      }
      if endianConvert && m_ConvertFromNetworkByteOrder {
        var out := seq(len, _ => 0);
        var i := 0;
        while i < len
          invariant i <= len == |out|
          invariant forall k :: len - i <= k < len ==> out[k] == m_Buffer[m_Pointer + len - 1 - k]
        {
          out := out[len - i - 1 := m_Buffer[m_Pointer + i]];
          i := i + 1;
        }
        assert out == Reverse(m_Buffer[m_Pointer..m_Pointer + len]);
        data := Some(out);
      } else {
        data := Some(m_Buffer[m_Pointer..m_Pointer + len]);
      }
      m_Pointer := m_Pointer + len;
    }

    method ReadRaw(len: nat) returns (data: Option<seq<byte>>)
      modifies this`m_Pointer
      ensures data == Take(m_Buffer, old(m_Pointer), len)
      ensures data.Some? ==> m_Pointer == old(m_Pointer) + len
    {
      data := ReadBytes(len, false);
    }

    // The outcome of a read: the value, and the pointer moved past it
    ghost predicate Reads<T>(r: Option<T>, spec: Option<Parsed<T>>, at: nat)
      reads this
    {
      match spec
      case None => r.None?
      case Some(p) => r == Some(p.value) && m_Pointer == at + p.used
    }

    method ReadNumber(w: nat) returns (n: Option<nat>)
      modifies this`m_Pointer
      ensures Reads(n, ReadInt(m_ConvertFromNetworkByteOrder, m_Buffer, old(m_Pointer), w), old(m_Pointer))
    {
      var data := ReadBytes(w, true);
      n := if data.Some? then Some(Number(data.value)) else None;
    }

    method ReadSize(max: nat) returns (size: Option<nat>)
      modifies this`m_Pointer
      ensures Reads(size, ReadEncodedSize(m_ConvertFromNetworkByteOrder, m_Buffer, old(m_Pointer), max), old(m_Pointer))
    {
      size := ReadNumber(1);
      if size.Some? {
        if size.value < 253 {
        } else if size.value == 253 {
          size := ReadNumber(2);
        } else if size.value == 254 {
          size := ReadNumber(4);
        } else {
          size := ReadNumber(8);
        }
      }
      if size.Some? && size.value > max {
        size := None;
      }
    }

    method ReadNumbers(w: nat, count: nat) returns (ns: Option<seq<nat>>)
      modifies this`m_Pointer
      ensures var spec := ReadInts(m_ConvertFromNetworkByteOrder, m_Buffer, old(m_Pointer), w, count);
        ns == spec && (ns.Some? ==> m_Pointer == old(m_Pointer) + count * w)
    {
      var got: seq<nat>, i: nat := [], 0;
      PrefixedTwice([], 0, ReadInts(m_ConvertFromNetworkByteOrder, m_Buffer, m_Pointer, w, count));
      while i < count
        invariant i <= count && m_Pointer == old(m_Pointer) + i * w
        invariant ReadInts(m_ConvertFromNetworkByteOrder, m_Buffer, old(m_Pointer), w, count)
               == Prefixed(got, ReadInts(m_ConvertFromNetworkByteOrder, m_Buffer, m_Pointer, w, count - i))
      {
        var n := ReadNumber(w);
        if n.None? {
          return None;
        }
        PrefixedTwice(got, n.value, ReadInts(m_ConvertFromNetworkByteOrder, m_Buffer, m_Pointer, w, count - i - 1));
        got := got + [n.value];
        i := i + 1;
      }
      assert got + [] == got;
      ns := Some(got);
    }

    method ReadSizedVector(w: nat, max: nat) returns (v: Option<Value>)
      requires w > 0
      modifies this`m_Pointer
      ensures Reads(v, ReadField(m_ConvertFromNetworkByteOrder, m_Buffer, old(m_Pointer), SizedVector(w, max)), old(m_Pointer))
    {
      v := None;
      var size := ReadSize(max);
      if size.Some? && size.value % w == 0 {
        var ns := ReadNumbers(w, size.value / w);
        assert size.value / w * w == size.value;
        v := if ns.Some? then Some(Nums(ns.value)) else None;
      }
    }

    method ReadSizedRaw(unit: nat, max: nat) returns (v: Option<Value>)
      requires unit > 0
      modifies this`m_Pointer
      ensures Reads(v, ReadField(m_ConvertFromNetworkByteOrder, m_Buffer, old(m_Pointer), SizedRaw(unit, max)), old(m_Pointer))
    {
      v := None;
      var size := ReadSize(max);
      if size.Some? {
        var len := WholeUnits(size.value, unit);
        var bytes := ReadRaw(len);
        v := if bytes.Some? then Some(Blob(bytes.value)) else None;
      }
    }

    method ReadValue(f: Field) returns (v: Option<Value>)
      requires Sane(f)
      modifies this`m_Pointer
      ensures Reads(v, ReadField(m_ConvertFromNetworkByteOrder, m_Buffer, old(m_Pointer), f), old(m_Pointer))
      decreases f, 1
    {
      v := None;
      match f {
        case Int(w) =>
          var n := ReadNumber(w);
          v := if n.Some? then Some(Num(n.value)) else None;
        case Vector(w, count) =>
          var ns := ReadNumbers(w, count);
          v := if ns.Some? then Some(Nums(ns.value)) else None;
        case Raw(size) =>
          var bytes := ReadRaw(size);
          v := if bytes.Some? then Some(Blob(bytes.value)) else None;
        case SizedVector(w, max) => v := ReadSizedVector(w, max);
        case SizedRaw(unit, max) => v := ReadSizedRaw(unit, max);
        case Struct(fs) =>
          var vs := Read(fs);
          v := if vs.Some? then Some(Group(vs.value)) else None;
      }
    }

    method Read(fs: seq<Field>) returns (vs: Option<seq<Value>>)
      requires forall i :: 0 <= i < |fs| ==> Sane(fs[i])
      modifies this`m_Pointer
      ensures Reads(vs, ReadFields(m_ConvertFromNetworkByteOrder, m_Buffer, old(m_Pointer), fs), old(m_Pointer))
      decreases fs, 0
    {
      vs := Some([]);
      if fs != [] {
        var first := ReadValue(fs[0]);
        if first.None? {
          return None;
        }
        var rest := Read(fs[1..]);
        vs := if rest.Some? then Some([first.value] + rest.value) else None;
      }
    }
  }

  // ---------------------------------------------------------------- round trip

  // s holds the bytes x at a position
  predicate Holds(s: seq<byte>, at: nat, x: seq<byte>) { at + |x| <= |s| && s[at..at + |x|] == x }

  lemma HoldsParts(s: seq<byte>, at: nat, x: seq<byte>, y: seq<byte>)
    requires Holds(s, at, x + y)
    ensures Holds(s, at, x) && Holds(s, at + |x|, y)
  {
    assert s[at..at + |x + y|][..|x|] == s[at..at + |x|];
    assert s[at..at + |x + y|][|x|..] == s[at + |x|..at + |x| + |y|];
  }

  lemma IntRoundTrip(convert: bool, s: seq<byte>, at: nat, n: nat, w: nat)
    requires n < Pow256(w) && Holds(s, at, Wire(convert, n, w))
    ensures ReadInt(convert, s, at, w) == Some(Parsed(n, w))
  {
    WireRoundTrip(convert, n, w);
  }

  lemma Widths()
    ensures Pow256(1) == 256 && Pow256(2) == 0x1_0000 && Pow256(4) == 0x1_0000_0000 && Pow256(8) == 0x1_0000_0000_0000_0000
  {
    assert Pow256(6) == 256 * 256 * Pow256(4);
  }

  lemma EncodedSizeRoundTrip(convert: bool, s: seq<byte>, at: nat, size: nat, max: nat)
    requires size <= max <= UINT64_MAX && Holds(s, at, EncodedSize(convert, size))
    ensures ReadEncodedSize(convert, s, at, max) == Some(Parsed(size, SizeOfEncodedSize(size)))
  {
    Widths();
    if size < 253 {
      IntRoundTrip(convert, s, at, size, 1);
    } else {
      var w := SizeWidth(size);
      HoldsParts(s, at, Wire(convert, SizeTag(w), 1), Wire(convert, size, w));
      IntRoundTrip(convert, s, at, SizeTag(w), 1);
      IntRoundTrip(convert, s, at + 1, size, w);
    }
  }

  lemma FirstThenRest(convert: bool, s: seq<byte>, at: nat, w: nat, n: nat, rest: seq<nat>)
    requires ReadInt(convert, s, at, w) == Some(Parsed(n, w)) && ReadInts(convert, s, at + w, w, |rest|) == Some(rest)
    ensures ReadInts(convert, s, at, w, 1 + |rest|) == Some([n] + rest)
  {
  }

  lemma WireAllFirst(convert: bool, ns: seq<nat>, w: nat)
    requires ns != []
    ensures WireAll(convert, ns, w) == Wire(convert, ns[0], w) + WireAll(convert, ns[1..], w)
    ensures ns == [ns[0]] + ns[1..]
  {
  }

  lemma AllBelowRest(ns: seq<nat>, bound: nat)
    requires ns != [] && AllBelow(ns, bound)
    ensures ns[0] < bound && AllBelow(ns[1..], bound)
  {
  }

  lemma {:induction false} IntsRoundTrip(convert: bool, s: seq<byte>, at: nat, ns: seq<nat>, w: nat)
    requires AllBelow(ns, Pow256(w)) && Holds(s, at, WireAll(convert, ns, w))
    ensures ReadInts(convert, s, at, w, |ns|) == Some(ns)
    decreases |ns|
  {
    if ns != [] {
      WireAllFirst(convert, ns, w);
      AllBelowRest(ns, Pow256(w));
      HoldsParts(s, at, Wire(convert, ns[0], w), WireAll(convert, ns[1..], w));
      IntRoundTrip(convert, s, at, ns[0], w);
      IntsRoundTrip(convert, s, at + w, ns[1..], w);
      FirstThenRest(convert, s, at, w, ns[0], ns[1..]);
    }
  }

  lemma {:induction false} ConformingIsSane(f: Field, v: Value)
    requires Conforms(f, v)
    ensures Sane(f)
    decreases f, 1
  {
    if f.Struct? { ConformingAreSane(f.fields, v.vs); }
  }

  lemma {:induction false} ConformingAreSane(fs: seq<Field>, vs: seq<Value>)
    requires ConformAll(fs, vs)
    ensures forall i :: 0 <= i < |fs| ==> Sane(fs[i])
    decreases fs, 0
  {
    if fs != [] {
      ConformingIsSane(fs[0], vs[0]);
      ConformingAreSane(fs[1..], vs[1..]);
      assert forall i :: 0 < i < |fs| ==> fs[i] == fs[1..][i - 1];
    }
  }

  lemma Divides(n: nat, w: nat)
    requires w > 0
    ensures n * w / w == n && n * w % w == 0
  {
    var q, r := n * w / w, n * w % w;
    assert (n - q) * w == r;
    assert n - q >= 1 ==> (n - q - 1) * w >= 0;
    assert q - n >= 1 ==> (q - n) * w >= w;
  }

  lemma NumbersRoundTrip(convert: bool, s: seq<byte>, at: nat, ns: seq<nat>, w: nat)
    requires w > 0 && AllBelow(ns, Pow256(w)) && Holds(s, at, WireAll(convert, ns, w))
    ensures ReadWhole(convert, s, at, w, |ns| * w) == Some(ns)
  {
    Divides(|ns|, w);
    IntsRoundTrip(convert, s, at, ns, w);
  }

  lemma SizedVectorReads(convert: bool, s: seq<byte>, at: nat, w: nat, max: nat, size: nat, used: nat, ns: Option<seq<nat>>)
    requires w > 0 && ReadEncodedSize(convert, s, at, max) == Some(Parsed(size, used))
    requires ReadWhole(convert, s, at + used, w, size) == ns
    ensures ReadField(convert, s, at, SizedVector(w, max)) ==
              if ns.None? then None else Some(Parsed(Nums(ns.value), used + size))
  {
  }

  lemma SizedVectorRoundTrip(convert: bool, s: seq<byte>, at: nat, ns: seq<nat>, w: nat, max: nat, size: nat)
    requires w > 0 && size <= max <= UINT64_MAX && Holds(s, at, EncodedSize(convert, size))
    requires ReadWhole(convert, s, at + SizeOfEncodedSize(size), w, size) == Some(ns)
    ensures ReadField(convert, s, at, SizedVector(w, max)) == Some(Parsed(Nums(ns), SizeOfEncodedSize(size) + size))
  {
    EncodedSizeRoundTrip(convert, s, at, size, max);
    SizedVectorReads(convert, s, at, w, max, size, SizeOfEncodedSize(size), Some(ns));
  }

  lemma SizedRawRoundTrip(convert: bool, s: seq<byte>, at: nat, bytes: seq<byte>, unit: nat, max: nat)
    requires unit > 0 && |bytes| % unit == 0 && |bytes| <= max <= UINT64_MAX
    requires Holds(s, at, EncodedSize(convert, |bytes|) + bytes)
    ensures ReadField(convert, s, at, SizedRaw(unit, max)) == Some(Parsed(Blob(bytes), SizeOfEncodedSize(|bytes|) + |bytes|))
  {
    HoldsParts(s, at, EncodedSize(convert, |bytes|), bytes);
    EncodedSizeRoundTrip(convert, s, at, |bytes|, max);
  }

  lemma VectorFieldRoundTrip(convert: bool, s: seq<byte>, at: nat, v: Value, w: nat, max: nat)
    requires Conforms(SizedVector(w, max), v) && Fits(SizedVector(w, max), v)
    requires Holds(s, at, Written(convert, SizedVector(w, max), v).0)
    ensures ReadField(convert, s, at, SizedVector(w, max)) == Some(Parsed(v, DataSize(SizedVector(w, max), v)))
  {
    var size := |v.ns| * w;
    HoldsParts(s, at, EncodedSize(convert, size), WireAll(convert, v.ns, w));
    NumbersRoundTrip(convert, s, at + SizeOfEncodedSize(size), v.ns, w);
    SizedVectorRoundTrip(convert, s, at, v.ns, w, max, size);
  }

  /** Reading what was written, at any place in a buffer and whatever follows it, gives back
      the value and consumes exactly its bytes. */
  lemma {:induction false} FieldRoundTrip(convert: bool, s: seq<byte>, at: nat, f: Field, v: Value)
    requires Conforms(f, v) && Fits(f, v) && Holds(s, at, Written(convert, f, v).0)
    ensures Sane(f)
    ensures ReadField(convert, s, at, f) == Some(Parsed(v, DataSize(f, v)))
    decreases f, 1
  {
    ConformingIsSane(f, v);
    match f {
      case Int(w) => IntRoundTrip(convert, s, at, v.n, w);
      case Vector(w, _) => IntsRoundTrip(convert, s, at, v.ns, w);
      case Raw(_) =>
      case SizedVector(w, max) => VectorFieldRoundTrip(convert, s, at, v, w, max);
      case SizedRaw(unit, max) => SizedRawRoundTrip(convert, s, at, v.bytes, unit, max);
      case Struct(fs) => FieldsRoundTrip(convert, s, at, fs, v.vs);
    }
  }

  lemma {:induction false} FieldsRoundTrip(convert: bool, s: seq<byte>, at: nat, fs: seq<Field>, vs: seq<Value>)
    requires ConformAll(fs, vs) && FitAll(fs, vs) && Holds(s, at, WrittenAll(convert, fs, vs).0)
    ensures forall i :: 0 <= i < |fs| ==> Sane(fs[i])
    ensures ReadFields(convert, s, at, fs) == Some(Parsed(vs, DataSizes(fs, vs)))
    decreases fs, 0
  {
    ConformingAreSane(fs, vs);
    if fs != [] {
      var first, rest := Written(convert, fs[0], vs[0]).0, WrittenAll(convert, fs[1..], vs[1..]).0;
      WrittenSize(convert, fs[0], vs[0]);
      HoldsParts(s, at, first, rest);
      FieldRoundTrip(convert, s, at, fs[0], vs[0]);
      FieldsRoundTrip(convert, s, at + |first|, fs[1..], vs[1..]);
      assert vs == [vs[0]] + vs[1..];
    }
  }

  /** The wire form of a schema is self-delimiting: two lists of values written one after
      the other with whatever else follows can be told apart by their bytes alone. */
  lemma WireFormIsUnambiguous(convert: bool, fs: seq<Field>, vs: seq<Value>, us: seq<Value>, x: seq<byte>, y: seq<byte>)
    requires ConformAll(fs, vs) && FitAll(fs, vs) && ConformAll(fs, us) && FitAll(fs, us)
    requires WrittenAll(convert, fs, vs).0 + x == WrittenAll(convert, fs, us).0 + y
    ensures vs == us && x == y
  {
    var a, b := WrittenAll(convert, fs, vs).0, WrittenAll(convert, fs, us).0;
    var s := a + x;
    assert s == b + y && s[0..|a|] == a && s[0..|b|] == b;
    FieldsRoundTrip(convert, s, 0, fs, vs);
    FieldsRoundTrip(convert, s, 0, fs, us);
    WrittenSizes(convert, fs, vs);
    WrittenSizes(convert, fs, us);
    assert x == s[|a|..] && y == s[|b|..];
  }

  // ---------------------------------------------------------------- too few bytes

  // Reading from s and from a longer t gives the same, and takes no more than there is
  predicate Agrees<T(==)>(s: seq<byte>, at: nat, r: Option<Parsed<T>>, r': Option<Parsed<T>>) {
    r.Some? ==> r' == r && at + r.value.used <= |s|
  }

  lemma IntAgrees(convert: bool, s: seq<byte>, t: seq<byte>, at: nat, w: nat)
    requires s <= t
    ensures Agrees(s, at, ReadInt(convert, s, at, w), ReadInt(convert, t, at, w))
  {
    if at + w <= |s| { assert s[at..at + w] == t[at..at + w]; }
  }

  lemma SizeAgrees(convert: bool, s: seq<byte>, t: seq<byte>, at: nat, max: nat)
    requires s <= t
    ensures Agrees(s, at, ReadEncodedSize(convert, s, at, max), ReadEncodedSize(convert, t, at, max))
  {
    IntAgrees(convert, s, t, at, 1);
    IntAgrees(convert, s, t, at + 1, 2);
    IntAgrees(convert, s, t, at + 1, 4);
    IntAgrees(convert, s, t, at + 1, 8);
  }

  lemma {:induction false} IntsAgree(convert: bool, s: seq<byte>, t: seq<byte>, at: nat, w: nat, count: nat)
    requires s <= t && at <= |s|
    ensures ReadInts(convert, s, at, w, count).Some? ==>
              ReadInts(convert, t, at, w, count) == ReadInts(convert, s, at, w, count) && at + count * w <= |s|
    decreases count
  {
    if count > 0 && ReadInt(convert, s, at, w).Some? {
      IntAgrees(convert, s, t, at, w);
      IntsAgree(convert, s, t, at + w, w, count - 1);
      assert count * w == w + (count - 1) * w;
    }
  }

  lemma {:induction false} FieldAgrees(convert: bool, s: seq<byte>, t: seq<byte>, at: nat, f: Field)
    requires s <= t && at <= |s| && Sane(f)
    ensures Agrees(s, at, ReadField(convert, s, at, f), ReadField(convert, t, at, f))
    decreases f, 1
  {
    match f {
      case Int(w) => IntAgrees(convert, s, t, at, w);
      case Vector(w, count) => IntsAgree(convert, s, t, at, w, count);
      case Raw(size) => TakeAgrees(s, t, at, size);
      case SizedVector(w, max) => SizedVectorAgrees(convert, s, t, at, w, max);
      case SizedRaw(unit, max) =>
        SizeAgrees(convert, s, t, at, max);
        var size := ReadEncodedSize(convert, s, at, max);
        if size.Some? { TakeAgrees(s, t, at + size.value.used, WholeUnits(size.value.value, unit)); }
      case Struct(fs) => FieldsAgree(convert, s, t, at, fs);
    }
  }

  lemma TakeAgrees(s: seq<byte>, t: seq<byte>, at: nat, len: nat)
    requires s <= t
    ensures Take(s, at, len).Some? ==> Take(t, at, len) == Take(s, at, len) && at + len <= |s|
  {
    if at + len <= |s| { assert s[at..at + len] == t[at..at + len]; }
  }

  lemma NumbersAgree(convert: bool, s: seq<byte>, t: seq<byte>, at: nat, w: nat, size: nat)
    requires s <= t && at <= |s| && w > 0
    ensures var r := ReadWhole(convert, s, at, w, size);
      r.Some? ==> ReadWhole(convert, t, at, w, size) == r && at + size <= |s|
  {
    if size % w == 0 { IntsAgree(convert, s, t, at, w, size / w); }
  }

  lemma SizedVectorAgrees(convert: bool, s: seq<byte>, t: seq<byte>, at: nat, w: nat, max: nat)
    requires s <= t && at <= |s| && w > 0
    ensures Agrees(s, at, ReadField(convert, s, at, SizedVector(w, max)), ReadField(convert, t, at, SizedVector(w, max)))
  {
    SizeAgrees(convert, s, t, at, max);
    var r := ReadEncodedSize(convert, s, at, max);
    if r.Some? {
      var size, used := r.value.value, r.value.used;
      NumbersAgree(convert, s, t, at + used, w, size);
      SizedVectorReads(convert, s, at, w, max, size, used, ReadWhole(convert, s, at + used, w, size));
      SizedVectorReads(convert, t, at, w, max, size, used, ReadWhole(convert, t, at + used, w, size));
    }
  }

  lemma {:induction false} FieldsAgree(convert: bool, s: seq<byte>, t: seq<byte>, at: nat, fs: seq<Field>)
    requires s <= t && at <= |s| && forall i :: 0 <= i < |fs| ==> Sane(fs[i])
    ensures Agrees(s, at, ReadFields(convert, s, at, fs), ReadFields(convert, t, at, fs))
    decreases fs, 0
  {
    if fs != [] {
      FieldAgrees(convert, s, t, at, fs[0]);
      var first := ReadField(convert, s, at, fs[0]);
      if first.Some? { FieldsAgree(convert, s, t, at + first.value.used, fs[1..]); }
    }
  }

  /** Reading never takes a byte that is not there: every part of what was written, short of the
      whole, is refused under the same schema. */
  lemma TruncatedIsRefused(convert: bool, fs: seq<Field>, vs: seq<Value>, s: seq<byte>)
    requires ConformAll(fs, vs) && FitAll(fs, vs) && s < WrittenAll(convert, fs, vs).0
    ensures (forall i :: 0 <= i < |fs| ==> Sane(fs[i])) && ReadFields(convert, s, 0, fs) == None
  {
    var t := WrittenAll(convert, fs, vs).0;
    assert t[0..|t|] == t;
    FieldsRoundTrip(convert, t, 0, fs, vs);
    WrittenSizes(convert, fs, vs);
    FieldsAgree(convert, s, t, 0, fs);
  }

  /** A size over the reader's maximum is refused, whatever the writer's was. */
  lemma OversizedIsRefused(convert: bool, s: seq<byte>, at: nat, size: nat, max: nat)
    requires max < size <= UINT64_MAX && Holds(s, at, EncodedSize(convert, size))
    ensures ReadEncodedSize(convert, s, at, max) == None
  {
    EncodedSizeRoundTrip(convert, s, at, size, UINT64_MAX);
  }
}
