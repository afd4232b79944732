/** BufferWriter: appends typed fields to a buffer. */
module BufferWriterModel {
  import opened Basics
  import opened BufferIOModel

  function WireAll(convert: bool, ns: seq<nat>, w: nat): seq<byte> {
    if ns == [] then [] else Wire(convert, ns[0], w) + WireAll(convert, ns[1..], w)
  }

  lemma {:induction false} WireAllSize(convert: bool, ns: seq<nat>, w: nat)
    ensures |WireAll(convert, ns, w)| == |ns| * w
  {
    if ns != [] {
      WireAllSize(convert, ns[1..], w);
      OneMore(|ns| - 1, w);
    }
  }

  lemma OneMore(m: nat, w: nat)
    ensures (m + 1) * w == m * w + w
  {
  }

  /** The bytes a field adds to the buffer, and whether the write succeeds. A size over its
      maximum fails; what was written before it stays. */
  function Written(convert: bool, f: Field, v: Value): (seq<byte>, bool)
    requires Conforms(f, v)
    decreases f, 1
  {
    match f
    case Int(w) => (Wire(convert, v.n, w), true)
    case Vector(w, _) => (WireAll(convert, v.ns, w), true)
    case Raw(_) => (v.bytes, true)
    case SizedVector(w, max) =>
      if |v.ns| * w > max then ([], false)
      else (EncodedSize(convert, |v.ns| * w) + WireAll(convert, v.ns, w), true)
    case SizedRaw(_, max) =>
      if |v.bytes| > max then ([], false) else (EncodedSize(convert, |v.bytes|) + v.bytes, true)
    case Struct(fs) => WrittenAll(convert, fs, v.vs)
  }

  function WrittenAll(convert: bool, fs: seq<Field>, vs: seq<Value>): (seq<byte>, bool)
    requires ConformAll(fs, vs)
    decreases fs, 0
  {
    if fs == [] then ([], true)
    else
      var (first, ok) := Written(convert, fs[0], vs[0]);
      if !ok then (first, false)
      else
        var (rest, ok) := WrittenAll(convert, fs[1..], vs[1..]);
        (first + rest, ok)
  }

  /** A write succeeds exactly when every wrapped size is within its maximum, and then it
      adds exactly as many bytes as were preallocated for it. */
  lemma {:induction false} WrittenSize(convert: bool, f: Field, v: Value)
    requires Conforms(f, v)
    ensures Written(convert, f, v).1 <==> Fits(f, v)
    ensures Fits(f, v) ==> |Written(convert, f, v).0| == DataSize(f, v)
    decreases f, 1
  {
    match f {
      case Vector(w, _) => WireAllSize(convert, v.ns, w);
      case SizedVector(w, _) => WireAllSize(convert, v.ns, w);
      case Struct(fs) => WrittenSizes(convert, fs, v.vs);
      case _ =>
    }
  }

  lemma {:induction false} WrittenSizes(convert: bool, fs: seq<Field>, vs: seq<Value>)
    requires ConformAll(fs, vs)
    ensures WrittenAll(convert, fs, vs).1 <==> FitAll(fs, vs)
    ensures FitAll(fs, vs) ==> |WrittenAll(convert, fs, vs).0| == DataSizes(fs, vs)
    decreases fs, 0
  {
    if fs != [] {
      WrittenSize(convert, fs[0], vs[0]);
      WrittenSizes(convert, fs[1..], vs[1..]);
    }
  }

  class BufferWriter {
    const m_ConvertToNetworkByteOrder: bool
    var m_Buffer: seq<byte>
    var m_PreAllocSize: nat

    constructor (networkByteOrder: bool)
      ensures m_ConvertToNetworkByteOrder == networkByteOrder && m_Buffer == [] && m_PreAllocSize == 0
    {
      m_ConvertToNetworkByteOrder := networkByteOrder;
      m_Buffer, m_PreAllocSize := [], 0;
    }

    /** Makes room at the end of the buffer, then fills it in, backwards when converting. */
    method WriteBytes(data: seq<byte>, endianConvert: bool)
      modifies this`m_Buffer
      ensures m_Buffer == old(m_Buffer) + (if endianConvert && m_ConvertToNetworkByteOrder then Reverse(data) else data)
    {
      var start, len := |m_Buffer|, |data|;
      if endianConvert && m_ConvertToNetworkByteOrder {
        m_Buffer := m_Buffer + seq(len, _ => 0);
        var i := 0;
        while i < len
          invariant i <= len && |m_Buffer| == start + len
          invariant m_Buffer[..start] == old(m_Buffer)
          invariant forall k :: start <= k < start + i ==> m_Buffer[k] == Reverse(data)[k - start]
        {
          m_Buffer := m_Buffer[start + i := data[len - 1 - i]];
          i := i + 1;
        }
        assert m_Buffer[start..] == Reverse(data);
        assert m_Buffer == m_Buffer[..start] + m_Buffer[start..];
      } else {
        m_Buffer := m_Buffer + data;
      }
    }

    method WriteInt(n: nat, w: nat)
      modifies this`m_Buffer
      ensures m_Buffer == old(m_Buffer) + Wire(m_ConvertToNetworkByteOrder, n, w)
    {
      WriteBytes(Bytes(n, w), true);
    }

    method WriteEncodedSize(size: nat, max: nat) returns (ok: bool)
      requires max <= UINT64_MAX
      modifies this`m_Buffer
      ensures ok <==> size <= max
      ensures m_Buffer == old(m_Buffer) + (if ok then EncodedSize(m_ConvertToNetworkByteOrder, size) else [])
    {
      ok := size <= max;
      if !ok {
        return;
      } else if size < 253 {
        WriteInt(size, 1);
      } else if size <= UINT16_MAX {
        WriteTagged(253, size, 2);
      } else if size <= UINT32_MAX {
        WriteTagged(254, size, 4);
      } else {
        WriteTagged(255, size, 8);
      }
    }

    method WriteTagged(tag: nat, size: nat, w: nat)
      modifies this`m_Buffer
      ensures m_Buffer == old(m_Buffer) + (Wire(m_ConvertToNetworkByteOrder, tag, 1) + Wire(m_ConvertToNetworkByteOrder, size, w))
    {
      WriteInt(tag, 1);
      WriteInt(size, w);
    }

    method WriteInts(ns: seq<nat>, w: nat)
      modifies this`m_Buffer
      ensures m_Buffer == old(m_Buffer) + WireAll(m_ConvertToNetworkByteOrder, ns, w)
    {
      var i := 0;
      while i < |ns|
        invariant i <= |ns|
        invariant m_Buffer + WireAll(m_ConvertToNetworkByteOrder, ns[i..], w)
               == old(m_Buffer) + WireAll(m_ConvertToNetworkByteOrder, ns, w)
      {
        WriteInt(ns[i], w);
        assert ns[i..][1..] == ns[i + 1..];
        i := i + 1;
      }
    }

    method WriteField(f: Field, v: Value) returns (ok: bool)
      requires Conforms(f, v)
      modifies this`m_Buffer
      ensures ok == Written(m_ConvertToNetworkByteOrder, f, v).1
      ensures m_Buffer == old(m_Buffer) + Written(m_ConvertToNetworkByteOrder, f, v).0
      decreases f, 1
    {
      ok := true;
      match f {
        case Int(w) => WriteInt(v.n, w);
        case Vector(w, _) => WriteInts(v.ns, w);
        case Raw(_) => WriteBytes(v.bytes, false);
        case SizedVector(w, max) =>
          ok := WriteEncodedSize(|v.ns| * w, max);
          if ok { WriteInts(v.ns, w); }
        case SizedRaw(_, max) =>
          ok := WriteEncodedSize(|v.bytes|, max);
          if ok { WriteBytes(v.bytes, false); }
        case Struct(fs) => ok := Write(fs, v.vs);
      }
    }

    /** Stops at the first field that fails. */
    method Write(fs: seq<Field>, vs: seq<Value>) returns (ok: bool)
      requires ConformAll(fs, vs)
      modifies this`m_Buffer
      ensures ok == WrittenAll(m_ConvertToNetworkByteOrder, fs, vs).1
      ensures m_Buffer == old(m_Buffer) + WrittenAll(m_ConvertToNetworkByteOrder, fs, vs).0
      decreases fs, 0
    {
      ok := true;
      if fs != [] {
        ok := WriteField(fs[0], vs[0]);
        if ok {
          ok := Write(fs[1..], vs[1..]);
        }
      }
    }

    /** A successful write into an empty buffer has preallocated exactly what it needed. */
    method WriteWithPreallocation(fs: seq<Field>, vs: seq<Value>) returns (ok: bool)
      requires ConformAll(fs, vs)
      modifies this
      ensures ok <==> FitAll(fs, vs)
      ensures m_Buffer == old(m_Buffer) + WrittenAll(m_ConvertToNetworkByteOrder, fs, vs).0
      ensures ok ==> m_PreAllocSize - old(m_PreAllocSize) == |m_Buffer| - |old(m_Buffer)|
    {
      m_PreAllocSize := m_PreAllocSize + DataSizes(fs, vs);
      ok := Write(fs, vs);
      WrittenSizes(m_ConvertToNetworkByteOrder, fs, vs);
    }
  }
}
