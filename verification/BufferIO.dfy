/** Bytes, little-endian numbers, and the sizes BufferIO computes for typed fields. */
module BufferIOModel {
  import opened Basics

  type byte = x: int | 0 <= x < 256

  // ---------------------------------------------------------------- numbers in memory

  function Pow256(w: nat): (r: nat)
    ensures r > 0
  {
    if w == 0 then 1 else 256 * Pow256(w - 1)
  }

  // The bytes of an integer of width w on a little-endian machine
  function Bytes(n: nat, w: nat): (r: seq<byte>)
    ensures |r| == w
  {
    if w == 0 then [] else [n % 256] + Bytes(n / 256, w - 1)
  }

  function Number(s: seq<byte>): nat { if s == [] then 0 else s[0] + 256 * Number(s[1..]) }

  lemma {:induction false} NumberBytes(n: nat, w: nat)
    requires n < Pow256(w)
    ensures Number(Bytes(n, w)) == n
  {
    if w > 0 {
      NumberBytes(n / 256, w - 1);
      assert Bytes(n, w)[1..] == Bytes(n / 256, w - 1);
    }
  }

  lemma {:induction false} NumberBound(s: seq<byte>)
    ensures Number(s) < Pow256(|s|)
  {
    if s != [] { NumberBound(s[1..]); }
  }

  lemma {:induction false} BytesNumber(s: seq<byte>)
    ensures Bytes(Number(s), |s|) == s
  {
    if s != [] { BytesNumber(s[1..]); }
  }

  function Reverse(s: seq<byte>): (r: seq<byte>)
    ensures |r| == |s| && forall i :: 0 <= i < |s| ==> r[i] == s[|s| - 1 - i]
  {
    if s == [] then [] else Reverse(s[1..]) + [s[0]]
  }

  lemma ReverseTwice(s: seq<byte>)
    ensures Reverse(Reverse(s)) == s
  {
  }

  /** The bytes of an integer on the wire; `convert` asks for network byte order. */
  function Wire(convert: bool, n: nat, w: nat): (r: seq<byte>)
    ensures |r| == w
  {
    if convert then Reverse(Bytes(n, w)) else Bytes(n, w)
  }

  function Unwire(convert: bool, s: seq<byte>): nat { Number(if convert then Reverse(s) else s) }

  lemma WireRoundTrip(convert: bool, n: nat, w: nat)
    requires n < Pow256(w)
    ensures Unwire(convert, Wire(convert, n, w)) == n
  {
    NumberBytes(n, w);
    ReverseTwice(Bytes(n, w));
  }

  // ---------------------------------------------------------------- encoded sizes

  const UINT16_MAX: nat := 0xFFFF
  const UINT32_MAX: nat := 0xFFFF_FFFF
  const UINT64_MAX: nat := 0xFFFF_FFFF_FFFF_FFFF

  // Below 253 a size is its own byte; above, a tag says how wide the size is

  function SizeWidth(size: nat): nat { if size <= UINT16_MAX then 2 else if size <= UINT32_MAX then 4 else 8 }

  function SizeTag(width: nat): nat { if width == 2 then 253 else if width == 4 then 254 else 255 }

  function SizeOfEncodedSize(size: nat): nat { if size < 253 then 1 else 1 + SizeWidth(size) }

  function EncodedSize(convert: bool, size: nat): (r: seq<byte>)
    ensures |r| == SizeOfEncodedSize(size)
  {
    if size < 253 then Wire(convert, size, 1)
    else Wire(convert, SizeTag(SizeWidth(size)), 1) + Wire(convert, size, SizeWidth(size))
  }

  // ---------------------------------------------------------------- typed fields

  /** What a caller passes to Read and Write. Raw covers everything that is copied byte by
      byte (UUIDs, addresses, buffers, strings); Struct is a type with its own Read, Write and
      GetDataSize; the sized forms are SizeWrap around a vector, or around bytes in units. */
  datatype Field =
    | Int(width: nat)
    | Vector(ewidth: nat, count: nat)
    | Raw(size: nat)
    | SizedVector(swidth: nat, vmax: nat)
    | SizedRaw(unit: nat, rmax: nat)
    | Struct(fields: seq<Field>)

  datatype Value = Num(n: nat) | Nums(ns: seq<nat>) | Blob(bytes: seq<byte>) | Group(vs: seq<Value>)

  predicate AllBelow(ns: seq<nat>, bound: nat) { forall i :: 0 <= i < |ns| ==> ns[i] < bound }

  /** v is a value of the field's C++ type. */
  predicate Conforms(f: Field, v: Value)
    decreases f, 1
  {
    match f
    case Int(w) => v.Num? && v.n < Pow256(w)
    case Vector(w, count) => v.Nums? && |v.ns| == count && AllBelow(v.ns, Pow256(w))
    case Raw(size) => v.Blob? && |v.bytes| == size
    case SizedVector(w, max) => w > 0 && max <= UINT64_MAX && v.Nums? && AllBelow(v.ns, Pow256(w))
    case SizedRaw(unit, max) => unit > 0 && max <= UINT64_MAX && v.Blob? && |v.bytes| % unit == 0
    case Struct(fs) => v.Group? && ConformAll(fs, v.vs)
  }

  predicate ConformAll(fs: seq<Field>, vs: seq<Value>)
    decreases fs, 0
  {
    |fs| == |vs| && (fs != [] ==> Conforms(fs[0], vs[0]) && ConformAll(fs[1..], vs[1..]))
  }

  /** Every size-wrapped part respects its maximum. */
  predicate Fits(f: Field, v: Value)
    requires Conforms(f, v)
    decreases f, 1
  {
    match f
    case SizedVector(w, max) => |v.ns| * w <= max
    case SizedRaw(_, max) => |v.bytes| <= max
    case Struct(fs) => FitAll(fs, v.vs)
    case _ => true
  }

  predicate FitAll(fs: seq<Field>, vs: seq<Value>)
    requires ConformAll(fs, vs)
    decreases fs, 0
  {
    fs == [] || (Fits(fs[0], vs[0]) && FitAll(fs[1..], vs[1..]))
  }

  // GetDataSize
  function DataSize(f: Field, v: Value): nat
    requires Conforms(f, v)
    decreases f, 1
  {
    match f
    case Int(w) => w
    case Vector(w, _) => |v.ns| * w
    case Raw(_) => |v.bytes|
    case SizedVector(w, _) => SizeOfEncodedSize(|v.ns| * w) + |v.ns| * w
    case SizedRaw(_, _) => SizeOfEncodedSize(|v.bytes|) + |v.bytes|
    case Struct(fs) => DataSizes(fs, v.vs)
  }

  // GetDataSizes
  function DataSizes(fs: seq<Field>, vs: seq<Value>): nat
    requires ConformAll(fs, vs)
    decreases fs, 0
  {
    if fs == [] then 0 else DataSize(fs[0], vs[0]) + DataSizes(fs[1..], vs[1..])
  }
}
