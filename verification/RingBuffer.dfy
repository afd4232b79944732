/** RingBuffer: a bounded queue of bytes in a fixed block of memory. */
module RingBufferModel {
  import opened Basics
  import opened BufferIOModel

  // ---------------------------------------------------------------- the queue it stands for

  function Min(a: nat, b: nat): nat { if a < b then a else b }

  // Position i of a ring of n cells, counted from an offset
  function At(offset: nat, i: nat, n: nat): nat { if offset + i < n then offset + i else offset + i - n }

  // The bytes at `count` consecutive positions of a ring
  function Around(cells: seq<byte>, offset: nat, count: nat): (r: seq<byte>)
    requires offset <= |cells| && count <= |cells|
    ensures |r| == count
    ensures forall i :: 0 <= i < count ==> r[i] == cells[At(offset, i, |cells|)]
  {
    seq(count, i requires 0 <= i < count => cells[At(offset, i, |cells|)])
  }

  lemma AroundRest(cells: seq<byte>, offset: nat, count: nat, k: nat)
    requires offset < |cells| && k <= count <= |cells|
    ensures At(offset, k, |cells|) <= |cells|
    ensures Around(cells, offset, k) == Around(cells, offset, count)[..k]
    ensures At(offset, k, |cells|) < |cells| && Around(cells, At(offset, k, |cells|), count - k) == Around(cells, offset, count)[k..]
  {
    var o := At(offset, k, |cells|);
    forall i | 0 <= i < count - k ensures At(o, i, |cells|) == At(offset, k + i, |cells|) {
    }
  }

  // x % n, for an x that has gone round at most twice
  function Turn(x: nat, n: nat): nat { if x < n then x else if x < 2 * n then x - n else 0 }

  lemma Wrapped(x: nat, n: nat)
    requires 0 < n && x <= 2 * n
    ensures x % n == Turn(x, n)
  {
    var q := x / n;
    assert x == q * n + x % n;
    assert q >= 3 ==> (q - 3) * n >= 0;
    assert q <= -1 ==> (-1 - q) * n >= 0;
  }

  // ---------------------------------------------------------------- the ring and its queue

  datatype Ring = Ring(cells: seq<byte>, read: nat, write: nat, space: nat)

  // The write offset is where the contents end; if that is the start of the block it may
  // also be the size, which a resize that fills the new block leaves behind
  predicate EndsAt(end: nat, cell: nat, n: nat) { end == cell || (end == n && cell == 0) }

  predicate RingOk(r: Ring) {
    var n := |r.cells|;
    && r.space <= n
    && if n == 0 then r.read == 0 && r.write == 0
       else r.read < n && EndsAt(r.write, At(r.read, n - r.space, n), n)
  }

  /** The bytes written and not yet read, oldest first. */
  function Queue(r: Ring): (s: seq<byte>)
    requires RingOk(r)
    ensures |s| == |r.cells| - r.space
  {
    Around(r.cells, r.read, |r.cells| - r.space)
  }

  // A ring that holds its first n cells
  lemma FirstCells(cells: seq<byte>, n: nat)
    requires n <= |cells|
    ensures RingOk(Ring(cells, 0, n, |cells| - n)) && Queue(Ring(cells, 0, n, |cells| - n)) == cells[..n]
  {
  }

  function AfterRead(r: Ring, n: nat): Ring
    requires r.cells != []
  {
    r.(read := Turn(r.read + n, |r.cells|), space := r.space + n)
  }

  lemma ReadKeeps(r: Ring, n: nat)
    requires RingOk(r) && r.cells != [] && n <= |Queue(r)|
    ensures RingOk(AfterRead(r, n)) && Queue(AfterRead(r, n)) == Queue(r)[n..]
    ensures Around(r.cells, r.read, n) == Queue(r)[..n]
  {
    AroundRest(r.cells, r.read, |Queue(r)|, n);
  }

  function AfterWrite(r: Ring, cells: seq<byte>, n: nat): Ring
    requires cells != [] && n <= r.space
  {
    Ring(cells, r.read, Turn(r.write + n, |cells|), r.space - n)
  }

  lemma WriteKeeps(r: Ring, cells: seq<byte>, data: seq<byte>)
    requires RingOk(r) && 0 < |data| <= r.space && Puts(r.cells, cells, r.write, data)
    ensures RingOk(AfterWrite(r, cells, |data|)) && Queue(AfterWrite(r, cells, |data|)) == Queue(r) + data
  {
    EndMoves(r.read, |Queue(r)|, r.write, |data|, |r.cells|);
    ContentsGrow(r.cells, cells, r.read, |Queue(r)|, data, r.write);
    assert |Queue(r)| + |data| == |cells| - (r.space - |data|);
  }

  lemma EndMoves(read: nat, had: nat, write: nat, more: nat, n: nat)
    requires read < n && 0 < more && had + more <= n && EndsAt(write, At(read, had, n), n)
    ensures EndsAt(Turn(write + more, n), At(read, had + more, n), n)
  {
  }

  // The bytes of x are around an offset, and the rest of the ring is as before
  predicate Puts(was: seq<byte>, now: seq<byte>, offset: nat, x: seq<byte>)
    requires offset <= |was|
  {
    && |now| == |was| && |x| <= |was|
    && Around(now, offset, |x|) == x
    && forall k :: 0 <= k < |was| && !InStretch(offset, |x|, k, |was|) ==> now[k] == was[k]
  }

  // Cell k is one of the cells from an offset on
  predicate InStretch(offset: nat, count: nat, k: nat, n: nat) { offset <= k < offset + count || k + n < offset + count }

  // New bytes go where the old ones end
  lemma ContentsGrow(was: seq<byte>, now: seq<byte>, offset: nat, had: nat, data: seq<byte>, end: nat)
    requires offset < |was| && had + |data| <= |was| && end <= |was| && EndsAt(end, At(offset, had, |was|), |was|)
    requires Puts(was, now, end, data)
    ensures Around(now, offset, had + |data|) == Around(was, offset, had) + data
  {
    var n := |was|;
    forall i | 0 <= i < had + |data| ensures now[At(offset, i, n)] == (Around(was, offset, had) + data)[i] {
      if i < had {
        assert !InStretch(end, |data|, At(offset, i, n), n);
      } else {
        assert At(offset, i, n) == At(end, i - had, n);
        assert now[At(end, i - had, n)] == Around(now, end, |data|)[i - had];
      }
    }
  }

  // ---------------------------------------------------------------- any sequence of calls

  datatype Call = Write(data: seq<byte>) | Read(size: nat) | Resize(size: nat) | Clear

  /** The bounded queue that the methods' contracts describe, with every byte it ever accepted
      and every byte that was read from it: the object's Contents, m_Accepted and m_Taken. */
  datatype Account = Account(capacity: nat, items: seq<byte>, accepted: seq<byte>, taken: seq<byte>)

  predicate Bounded(a: Account) { |a.items| <= a.capacity }

  function Serve(a: Account, call: Call): (b: Account)
    requires Bounded(a)
    ensures Bounded(b)
  {
    match call
    case Write(data) =>
      var n := Min(|data|, a.capacity - |a.items|);
      a.(items := a.items + data[..n], accepted := a.accepted + data[..n])
    case Read(size) =>
      var n := Min(size, |a.items|);
      a.(items := a.items[n..], taken := a.taken + a.items[..n])
    case Resize(size) => a.(capacity := size, items := a.items[..Min(size, |a.items|)])
    case Clear => a.(items := [])
  }

  // x is y with some elements left out
  predicate Within(x: seq<byte>, y: seq<byte>)
    decreases |y|
  {
    x == [] || (y != [] && (Within(x, Most(y)) || (Last(x) == Last(y) && Within(Most(x), Most(y)))))
  }

  function Most(s: seq<byte>): seq<byte>
    requires s != []
  {
    s[..|s| - 1]
  }

  function Last(s: seq<byte>): byte
    requires s != []
  {
    s[|s| - 1]
  }

  lemma {:induction false} WithinMore(x: seq<byte>, y: seq<byte>, z: seq<byte>)
    requires Within(x, y)
    ensures Within(x + z, y + z)
    decreases |z|
  {
    if z == [] {
      assert x + z == x && y + z == y;
    } else {
      WithinMore(x, y, Most(z));
      assert Most(x + z) == x + Most(z) && Most(y + z) == y + Most(z);
    }
  }

  lemma {:induction false} WithinMost(x: seq<byte>, y: seq<byte>)
    requires x != [] && Within(x, y)
    ensures Within(Most(x), y)
    decreases |y|
  {
    if Within(x, Most(y)) { WithinMost(x, Most(y)); }
  }

  lemma {:induction false} WithinLess(x: seq<byte>, y: seq<byte>, k: nat)
    requires k <= |x| && Within(x, y)
    ensures Within(x[..k], y)
    decreases |x|
  {
    if k < |x| {
      WithinMost(x, y);
      WithinLess(Most(x), y, k);
      assert Most(x)[..k] == x[..k];
    } else {
      assert x[..k] == x;
    }
  }

  predicate Discards(a: Account, call: Call) { call.Clear? || (call.Resize? && call.size < |a.items|) }

  lemma ServeKeepsOrder(a: Account, call: Call)
    requires Bounded(a)
    ensures Within(a.taken + a.items, a.accepted) ==> Within(Serve(a, call).taken + Serve(a, call).items, Serve(a, call).accepted)
    ensures a.taken + a.items == a.accepted && !Discards(a, call) ==>
              Serve(a, call).taken + Serve(a, call).items == Serve(a, call).accepted
  {
    var b := Serve(a, call);
    match call {
      case Write(data) =>
        var more := b.accepted[|a.accepted|..];
        assert b.taken + b.items == (a.taken + a.items) + more && b.accepted == a.accepted + more;
        if Within(a.taken + a.items, a.accepted) { WithinMore(a.taken + a.items, a.accepted, more); }
      case Read(_) =>
        assert b.taken + b.items == a.taken + a.items;
      case _ =>
        var k := |a.taken| + |b.items|;
        assert b.taken + b.items == (a.taken + a.items)[..k];
        if Within(a.taken + a.items, a.accepted) { WithinLess(a.taken + a.items, a.accepted, k); }
    }
  }

  /** Two buffers, and calls on either or on both. */
  datatype Pair = Pair(a: Account, b: Account)

  datatype PairCall = First(call: Call) | Second(call: Call) | Swap

  predicate BothBounded(p: Pair) { Bounded(p.a) && Bounded(p.b) }

  // The account goes with the bytes
  function ServePair(p: Pair, call: PairCall): (q: Pair)
    requires BothBounded(p)
    ensures BothBounded(q)
  {
    match call
    case First(c) => p.(a := Serve(p.a, c))
    case Second(c) => p.(b := Serve(p.b, c))
    case Swap => Pair(p.b, p.a)
  }

  function ServeAll(p: Pair, calls: seq<PairCall>): (q: Pair)
    requires BothBounded(p)
    ensures BothBounded(q)
    decreases |calls|
  {
    if calls == [] then p else ServeAll(ServePair(p, calls[0]), calls[1..])
  }

  predicate NeverDiscards(p: Pair, calls: seq<PairCall>)
    requires BothBounded(p)
    decreases |calls|
  {
    calls == [] ||
    (&& (calls[0].First? ==> !Discards(p.a, calls[0].call)) && (calls[0].Second? ==> !Discards(p.b, calls[0].call))
     && NeverDiscards(ServePair(p, calls[0]), calls[1..]))
  }

  // What came out and what is left is what went in, in order: some of it, or all of it
  predicate InOrder(a: Account) { Within(a.taken + a.items, a.accepted) }
  predicate Complete(a: Account) { a.taken + a.items == a.accepted }

  /** Over any calls on two buffers, swaps of the two among them, bytes come out in the order
      they were accepted; nothing accepted is lost but what Clear and a shrinking Resize
      discard. */
  lemma {:induction false} FifoOrder(p: Pair, calls: seq<PairCall>)
    requires BothBounded(p)
    ensures var q := ServeAll(p, calls);
      && (InOrder(p.a) && InOrder(p.b) ==> InOrder(q.a) && InOrder(q.b))
      && (Complete(p.a) && Complete(p.b) && NeverDiscards(p, calls) ==> Complete(q.a) && Complete(q.b))
    decreases |calls|
  {
    if calls != [] {
      match calls[0] {
        case First(c) => ServeKeepsOrder(p.a, c);
        case Second(c) => ServeKeepsOrder(p.b, c);
        case Swap =>
      }
      FifoOrder(ServePair(p, calls[0]), calls[1..]);
    }
  }

  // ---------------------------------------------------------------- the object

  class RingBuffer {
    var m_Buffer: array<byte>
    var m_ReadOffset: nat
    var m_WriteOffset: nat
    var m_WriteSpace: nat
    ghost var m_Accepted: seq<byte>
    ghost var m_Taken: seq<byte>

    ghost function View(): Ring
      reads this, m_Buffer
    {
      Ring(m_Buffer[..], m_ReadOffset, m_WriteOffset, m_WriteSpace)
    }

    ghost predicate Valid()
      reads this, m_Buffer
    {
      RingOk(View())
    }

    ghost function Contents(): (s: seq<byte>)
      reads this, m_Buffer
      requires Valid()
      ensures |s| == m_Buffer.Length - m_WriteSpace
    {
      Queue(View())
    }

    ghost function Acct(): Account
      reads this, m_Buffer
      requires Valid()
    {
      Account(m_Buffer.Length, Contents(), m_Accepted, m_Taken)
    }

    constructor (size: nat)
      ensures Valid() && fresh(m_Buffer) && Acct() == Account(size, [], [], [])
    {
      m_Buffer := new byte[size](_ => 0);
      m_ReadOffset, m_WriteOffset, m_WriteSpace := 0, 0, size;
      m_Accepted, m_Taken := [], [];
    }

    constructor FromBytes(data: seq<byte>)
      ensures Valid() && fresh(m_Buffer) && Acct() == Account(|data|, data, data, [])
    {
      m_Buffer := new byte[|data|](i requires 0 <= i < |data| => data[i]);
      m_ReadOffset, m_WriteOffset, m_WriteSpace := 0, 0, 0;
      m_Accepted, m_Taken := data, [];
    }

    method GetReadSize() returns (n: nat)
      requires Valid()
      ensures n == |Contents()|
    {
      n := m_Buffer.Length - m_WriteSpace;
    }

    method Read(out: array<byte>, size: nat) returns (n: nat)
      requires Valid() && size <= out.Length && out != m_Buffer
      modifies this`m_ReadOffset, this`m_WriteSpace, this`m_Taken, out
      ensures Valid() && n == Min(size, |old(Contents())|)
      ensures out[..n] == old(Contents())[..n] && out[n..] == old(out[n..])
      ensures Contents() == old(Contents())[n..] && m_Taken == old(m_Taken) + out[..n]
      ensures Acct() == Serve(old(Acct()), Call.Read(size))
    {
      var have := GetReadSize();
      if have == 0 || size == 0 {
        return 0;
      }
      n := Min(size, have);
      ReadKeeps(View(), n);
      ReadAround(out, n);
      Wrapped(m_ReadOffset + n, m_Buffer.Length);
      m_ReadOffset := (m_ReadOffset + n) % m_Buffer.Length;
      m_WriteSpace := m_WriteSpace + n;
      assert View() == AfterRead(old(View()), n);
      m_Taken := m_Taken + out[..n];
    }

    // At most two stretches of the block
    method ReadAround(out: array<byte>, n: nat)
      requires m_ReadOffset < m_Buffer.Length && n <= m_Buffer.Length && n <= out.Length && out != m_Buffer
      modifies out
      ensures out[..n] == Around(m_Buffer[..], m_ReadOffset, n) && out[n..] == old(out[n..])
    {
      var len := m_Buffer.Length - m_ReadOffset;
      if n > len {
        CopyOut(out, 0, m_ReadOffset, len);
        CopyOut(out, len, 0, n - len);
      } else {
        CopyOut(out, 0, m_ReadOffset, n);
      }
    }

    // memcpy out of the block
    method CopyOut(out: array<byte>, to: nat, from: nat, n: nat)
      requires to + n <= out.Length && from + n <= m_Buffer.Length && out != m_Buffer
      modifies out
      ensures forall i :: 0 <= i < out.Length ==>
                out[i] == if to <= i < to + n then m_Buffer[from + (i - to)] else old(out[i])
    {
      var i := 0;
      while i < n
        invariant i <= n
        invariant forall k :: 0 <= k < out.Length ==>
                    out[k] == if to <= k < to + i then m_Buffer[from + (k - to)] else old(out[k])
      {
        out[to + i] := m_Buffer[from + i];
        i := i + 1;
      }
    }

    // memcpy into the block
    method CopyIn(data: seq<byte>, to: nat, from: nat, n: nat)
      requires to + n <= m_Buffer.Length && from + n <= |data|
      modifies m_Buffer
      ensures forall i :: 0 <= i < m_Buffer.Length ==>
                m_Buffer[i] == if to <= i < to + n then data[from + (i - to)] else old(m_Buffer[i])
    {
      var i := 0;
      while i < n
        invariant i <= n
        invariant forall k :: 0 <= k < m_Buffer.Length ==>
                    m_Buffer[k] == if to <= k < to + i then data[from + (k - to)] else old(m_Buffer[k])
      {
        m_Buffer[to + i] := data[from + i];
        i := i + 1;
      }
    }

    method Write(data: seq<byte>) returns (n: nat)
      requires Valid()
      modifies this`m_WriteOffset, this`m_WriteSpace, this`m_Accepted, m_Buffer
      ensures Valid() && n == Min(|data|, old(m_WriteSpace))
      ensures Contents() == old(Contents()) + data[..n] && m_Accepted == old(m_Accepted) + data[..n]
      ensures Acct() == Serve(old(Acct()), Call.Write(data))
    {
      if m_WriteSpace == 0 || data == [] {
        return 0;
      }
      n := Min(|data|, m_WriteSpace);
      WriteAround(data, n);
      WriteKeeps(old(View()), m_Buffer[..], data[..n]);
      Wrapped(m_WriteOffset + n, m_Buffer.Length);
      m_WriteOffset := (m_WriteOffset + n) % m_Buffer.Length;
      m_WriteSpace := m_WriteSpace - n;
      assert View() == AfterWrite(old(View()), m_Buffer[..], n);
      m_Accepted := m_Accepted + data[..n];
    }

    // At most two stretches of the block
    method WriteAround(data: seq<byte>, n: nat)
      requires m_WriteOffset <= m_Buffer.Length && n <= m_Buffer.Length && n <= |data|
      modifies m_Buffer
      ensures Puts(old(m_Buffer[..]), m_Buffer[..], m_WriteOffset, data[..n])
    {
      var len := m_Buffer.Length - m_WriteOffset;
      if n > len {
        CopyIn(data, m_WriteOffset, 0, len);
        CopyIn(data, 0, len, n - len);
      } else {
        CopyIn(data, m_WriteOffset, 0, n);
      }
    }

    method Swap(other: RingBuffer)
      requires Valid() && other.Valid()
      modifies this, other
      ensures View() == old(other.View()) && other.View() == old(View())
      ensures Pair(Acct(), other.Acct()) == ServePair(old(Pair(Acct(), other.Acct())), PairCall.Swap)
      ensures m_Buffer == old(other.m_Buffer) && other.m_Buffer == old(m_Buffer)
    {
      m_Buffer, other.m_Buffer := other.m_Buffer, m_Buffer;
      m_ReadOffset, other.m_ReadOffset := other.m_ReadOffset, m_ReadOffset;
      m_WriteOffset, other.m_WriteOffset := other.m_WriteOffset, m_WriteOffset;
      m_WriteSpace, other.m_WriteSpace := other.m_WriteSpace, m_WriteSpace;
      m_Accepted, other.m_Accepted := other.m_Accepted, m_Accepted;
      m_Taken, other.m_Taken := other.m_Taken, m_Taken;
    }

    method Resize(size: nat)
      requires Valid()
      modifies this
      ensures Valid() && m_Buffer.Length == size && (m_Buffer == old(m_Buffer) || fresh(m_Buffer))
      ensures Contents() == old(Contents())[..Min(size, |old(Contents())|)]
      ensures m_Accepted == old(m_Accepted) && m_Taken == old(m_Taken)
      ensures Acct() == Serve(old(Acct()), Call.Resize(size))
    {
      if size == m_Buffer.Length {
        return;
      }
      ghost var taken := m_Taken;
      var buffer := new byte[size](_ => 0);
      var n := Read(buffer, size);
      m_Buffer := buffer;
      m_ReadOffset, m_WriteOffset, m_WriteSpace := 0, n, size - n;
      m_Taken := taken;
      FirstCells(buffer[..], n);
    }

    method Clear()
      requires Valid()
      modifies this`m_ReadOffset, this`m_WriteOffset, this`m_WriteSpace
      ensures Valid() && Contents() == [] && Acct() == Serve(old(Acct()), Call.Clear)
    {
      m_ReadOffset, m_WriteOffset, m_WriteSpace := 0, 0, m_Buffer.Length;
    }
  }
}
