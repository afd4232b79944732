/** LinearPoolAllocator: a bump allocator over slabs of 4 MB. A slab hands out addresses
    at its free offset, remembers which of them are still allocated, never reuses space,
    and is released when its last allocation goes. */
module LinearPoolAllocatorModel {
  import opened Basics

  const MAX_ALLOCATION_SIZE: nat := 0x40_0000

  /** One MemoryBufferData: its Buffer is MAX_ALLOCATION_SIZE bytes at address `base`. */
  datatype Slab = Slab(base: nat, allocations: seq<nat>, freeOffset: nat)

  predicate HasRoom(s: Slab, len: nat) {
    s.freeOffset <= MAX_ALLOCATION_SIZE && MAX_ALLOCATION_SIZE - s.freeOffset >= len
  }

  // The first slab with enough free space, or |slabs|
  function FirstFit(slabs: seq<Slab>, len: nat): (i: nat)
    ensures i <= |slabs| && (i < |slabs| ==> HasRoom(slabs[i], len))
    ensures forall j :: 0 <= j < i ==> !HasRoom(slabs[j], len)
  {
    if slabs == [] || HasRoom(slabs[0], len) then 0 else 1 + FirstFit(slabs[1..], len)
  }

  function Bump(s: Slab, len: nat): Slab {
    Slab(s.base, [s.base + s.freeOffset] + s.allocations, s.freeOffset + len)
  }

  /** The slabs after an allocation of len bytes, and its address. `osBase` is where the
      operating system would put a new slab. */
  function Place(slabs: seq<Slab>, len: nat, osBase: nat): (seq<Slab>, nat) {
    var i := FirstFit(slabs, len);
    if i < |slabs| then (slabs[i := Bump(slabs[i], len)], slabs[i].base + slabs[i].freeOffset)
    else ([Slab(osBase, [osBase], len)] + slabs, osBase)
  }

  // std::list::remove for a whole set of values
  function Without(xs: seq<nat>, gone: set<nat>): (r: seq<nat>) {
    if xs == [] then []
    else if xs[0] in gone then Without(xs[1..], gone)
    else [xs[0]] + Without(xs[1..], gone)
  }

  // What becomes of one slab: it is released when it loses its last allocation
  function Rest(s: Slab, gone: set<nat>): seq<Slab> {
    var left := s.(allocations := Without(s.allocations, gone));
    if s.allocations != [] && left.allocations == [] then [] else [left]
  }

  function ReleaseAll(slabs: seq<Slab>, gone: set<nat>): seq<Slab> {
    if slabs == [] then []
    else Rest(slabs[0], gone) + ReleaseAll(slabs[1..], gone)
  }

  // Deallocate: only the first slab that knows the address changes
  function Dealloc(slabs: seq<Slab>, p: nat): seq<Slab> {
    if slabs == [] then []
    else if p in slabs[0].allocations then Rest(slabs[0], {p}) + slabs[1..]
    else [slabs[0]] + Dealloc(slabs[1..], p)
  }

  // One slab's part in it, the slab going if it is left without allocations
  function ReleaseFrom(s: Slab, p: nat): seq<Slab> {
    var left := Without(s.allocations, {p});
    if left == [] then [] else [s.(allocations := left)]
  }

  // Which slab Deallocate changes: the first that knows the address
  function Holder(slabs: seq<Slab>, p: nat): (i: nat)
    ensures i <= |slabs|
  {
    if slabs == [] || p in slabs[0].allocations then 0 else 1 + Holder(slabs[1..], p)
  }

  lemma {:induction false} HolderIs(slabs: seq<Slab>, i: nat, p: nat)
    requires i <= |slabs| && forall j :: 0 <= j < i ==> p !in slabs[j].allocations
    requires i < |slabs| ==> p in slabs[i].allocations
    ensures Holder(slabs, p) == i
    decreases i
  {
    if i > 0 { HolderIs(slabs[1..], i - 1, p); }
  }

  lemma {:induction false} DeallocAtHolder(slabs: seq<Slab>, p: nat)
    ensures var i := Holder(slabs, p);
      Dealloc(slabs, p) == if i == |slabs| then slabs else slabs[..i] + ReleaseFrom(slabs[i], p) + slabs[i + 1..]
  {
    if slabs != [] {
      if p in slabs[0].allocations {
        assert slabs[..0] + ReleaseFrom(slabs[0], p) == ReleaseFrom(slabs[0], p);
      } else {
        var rest, i := slabs[1..], Holder(slabs[1..], p);
        DeallocAtHolder(rest, p);
        if i < |rest| {
          ConsSlices(slabs, i);
          Cons([slabs[0]], rest[..i], ReleaseFrom(rest[i], p), rest[i + 1..]);
        } else {
          assert [slabs[0]] + rest == slabs;
        }
      }
    }
  }

  lemma Cons(x: seq<Slab>, a: seq<Slab>, b: seq<Slab>, c: seq<Slab>)
    ensures x + (a + b + c) == x + a + b + c
  {
  }

  lemma ConsSlices(slabs: seq<Slab>, i: nat)
    requires i + 1 < |slabs|
    ensures [slabs[0]] + slabs[1..][..i] == slabs[..i + 1]
    ensures slabs[1..][i + 1..] == slabs[i + 2..] && slabs[1..][i] == slabs[i + 1]
  {
  }

  predicate Known(slabs: seq<Slab>, p: nat) { exists i :: 0 <= i < |slabs| && p in slabs[i].allocations }

  /** The allocator object. */
  class LinearPool {
    var m_Pool: seq<Slab>

    constructor ()
      ensures m_Pool == []
    {
      m_Pool := [];
    }

    /** A too large request throws. */
    method Allocate(len: nat, osBase: nat) returns (r: Option<nat>)
      modifies this
      ensures len > MAX_ALLOCATION_SIZE ==> r == None && m_Pool == old(m_Pool)
      ensures len <= MAX_ALLOCATION_SIZE ==> r.Some? && (m_Pool, r.value) == Place(old(m_Pool), len, osBase)
    {
      if len > MAX_ALLOCATION_SIZE {
        return None;
      }
      var i := 0;
      while i < |m_Pool| && !HasRoom(m_Pool[i], len)
        invariant i <= |m_Pool|
        invariant FirstFit(m_Pool, len) == i + FirstFit(m_Pool[i..], len)
      {
        i := i + 1;
      }
      if i < |m_Pool| {
        r := Some(m_Pool[i].base + m_Pool[i].freeOffset);
        m_Pool := m_Pool[i := Bump(m_Pool[i], len)];
      } else {
        r := Some(osBase);
        m_Pool := [Slab(osBase, [osBase], len)] + m_Pool;
      }
    }

    /** An unknown address throws. */
    method Deallocate(p: nat) returns (found: bool)
      modifies this
      ensures found <==> Known(old(m_Pool), p)
      ensures m_Pool == Dealloc(old(m_Pool), p)
    {
      var i := 0;
      while i < |m_Pool| && p !in m_Pool[i].allocations
        invariant i <= |m_Pool|
        invariant forall j :: 0 <= j < i ==> p !in m_Pool[j].allocations
      {
        i := i + 1;
      }
      HolderIs(m_Pool, i, p);
      DeallocAtHolder(m_Pool, p);
      found := i < |m_Pool|;
      if found {
        m_Pool := m_Pool[..i] + ReleaseFrom(m_Pool[i], p) + m_Pool[i + 1..];
      }
    }

    /** Buffers destroyed one by one, in any order. */
    method DeallocateAll(gone: set<nat>)
      requires Releasable(m_Pool, gone)
      modifies this
      ensures m_Pool == ReleaseAll(old(m_Pool), gone)
    {
      var todo := gone;
      ghost var slabs, done: set<nat> := m_Pool, {};
      ReleaseNone(slabs, {});
      while todo != {}
        invariant todo <= gone && done == gone - todo
        invariant m_Pool == ReleaseAll(slabs, done)
        decreases |todo|
      {
        var p :| p in todo;
        assert KnownAfter(slabs, done, p);
        var known := Deallocate(p);
        todo := todo - {p};
        done := done + {p};
      }
      assert done == gone;
    }
  }

  /** The addresses can be given back in any order, each being known when its turn comes. */
  ghost predicate Releasable(slabs: seq<Slab>, gone: set<nat>) {
    forall done, p {:trigger KnownAfter(slabs, done, p)} :: done <= gone && p in gone && p !in done ==> KnownAfter(slabs, done, p)
  }

  ghost predicate KnownAfter(slabs: seq<Slab>, done: set<nat>, p: nat) {
    Known(ReleaseAll(slabs, done), p) && Dealloc(ReleaseAll(slabs, done), p) == ReleaseAll(slabs, done + {p})
  }

  ghost predicate KnownOnce(slabs: seq<Slab>, p: nat) {
    forall i, j :: 0 <= i < j < |slabs| ==> p !in slabs[i].allocations || p !in slabs[j].allocations
  }

  lemma {:induction false} WithoutSpec(xs: seq<nat>, gone: set<nat>)
    ensures forall x :: x in Without(xs, gone) <==> x in xs && x !in gone
    ensures Distinct(xs) ==> Distinct(Without(xs, gone))
    ensures (forall x :: x in xs ==> x !in gone) ==> Without(xs, gone) == xs
  {
    if xs != [] {
      assert xs == [xs[0]] + xs[1..];
      WithoutSpec(xs[1..], gone);
    }
  }

  predicate Distinct(xs: seq<nat>) { forall i, j :: 0 <= i < j < |xs| ==> xs[i] != xs[j] }

  lemma {:induction false} ReleaseNone(slabs: seq<Slab>, gone: set<nat>)
    requires forall i, x :: 0 <= i < |slabs| && x in slabs[i].allocations ==> x !in gone
    ensures ReleaseAll(slabs, gone) == slabs
  {
    if slabs != [] {
      WithoutSpec(slabs[0].allocations, gone);
      ReleaseNone(slabs[1..], gone);
    }
  }

  lemma {:induction false} DeallocIsRelease(slabs: seq<Slab>, p: nat)
    requires KnownOnce(slabs, p)
    ensures Dealloc(slabs, p) == ReleaseAll(slabs, {p})
  {
    if slabs != [] {
      if p in slabs[0].allocations {
        ReleaseNone(slabs[1..], {p});
      } else {
        WithoutSpec(slabs[0].allocations, {p});
        DeallocIsRelease(slabs[1..], p);
      }
    }
  }

  // ---------------------------------------------------------------- ownership

  predicate Apart(p: nat, m: nat, q: nat, n: nat) { p + m <= q || q + n <= p }

  /** blocks: the allocated addresses and how many bytes each was given. */
  predicate SlabOk(s: Slab, blocks: map<nat, nat>) {
    && s.freeOffset <= MAX_ALLOCATION_SIZE
    && s.allocations != []
    && Distinct(s.allocations)
    && forall p :: p in s.allocations ==> Inside(s, p, blocks)
  }

  predicate Inside(s: Slab, p: nat, blocks: map<nat, nat>) {
    p in blocks && 0 < blocks[p] && s.base <= p && p + blocks[p] <= s.base + s.freeOffset
  }

  ghost predicate SlabsApart(slabs: seq<Slab>) {
    forall i, j :: 0 <= i < j < |slabs| ==>
      Apart(slabs[i].base, MAX_ALLOCATION_SIZE, slabs[j].base, MAX_ALLOCATION_SIZE)
  }

  ghost predicate BlocksApart(blocks: map<nat, nat>) {
    forall p, q :: p in blocks && q in blocks && p != q ==> Apart(p, blocks[p], q, blocks[q])
  }

  ghost predicate LinearOk(slabs: seq<Slab>, blocks: map<nat, nat>) {
    && SlabsApart(slabs)
    && (forall i :: 0 <= i < |slabs| ==> SlabOk(slabs[i], blocks))
    && (forall p :: p in blocks ==> Known(slabs, p))
    && BlocksApart(blocks)
  }

  // What the operating system promises about a new slab
  ghost predicate FreshBase(slabs: seq<Slab>, osBase: nat) {
    forall i :: 0 <= i < |slabs| ==> Apart(slabs[i].base, MAX_ALLOCATION_SIZE, osBase, MAX_ALLOCATION_SIZE)
  }

  lemma KnownIsOnce(slabs: seq<Slab>, blocks: map<nat, nat>, p: nat)
    requires LinearOk(slabs, blocks)
    ensures KnownOnce(slabs, p)
  {
    forall i, j | 0 <= i < j < |slabs| ensures p !in slabs[i].allocations || p !in slabs[j].allocations {
      assert SlabOk(slabs[i], blocks) && SlabOk(slabs[j], blocks);
      assert p in slabs[i].allocations ==> Inside(slabs[i], p, blocks);
      assert p in slabs[j].allocations ==> Inside(slabs[j], p, blocks);
    }
  }

  // The space right after a slab's free offset belongs to no block
  lemma BumpIsApart(slabs: seq<Slab>, blocks: map<nat, nat>, i: nat, len: nat, q: nat)
    requires LinearOk(slabs, blocks) && i < |slabs| && 0 < len && HasRoom(slabs[i], len) && q in blocks
    ensures q != slabs[i].base + slabs[i].freeOffset
    ensures Apart(slabs[i].base + slabs[i].freeOffset, len, q, blocks[q])
  {
    var j :| 0 <= j < |slabs| && q in slabs[j].allocations;
    assert SlabOk(slabs[j], blocks) && Inside(slabs[j], q, blocks);
    assert i < j ==> Apart(slabs[i].base, MAX_ALLOCATION_SIZE, slabs[j].base, MAX_ALLOCATION_SIZE);
    assert j < i ==> Apart(slabs[j].base, MAX_ALLOCATION_SIZE, slabs[i].base, MAX_ALLOCATION_SIZE);
  }

  lemma FreshIsApart(slabs: seq<Slab>, blocks: map<nat, nat>, osBase: nat, len: nat, q: nat)
    requires LinearOk(slabs, blocks) && FreshBase(slabs, osBase) && len <= MAX_ALLOCATION_SIZE && q in blocks
    ensures q != osBase && Apart(osBase, len, q, blocks[q])
  {
    var j :| 0 <= j < |slabs| && q in slabs[j].allocations;
    assert SlabOk(slabs[j], blocks) && Inside(slabs[j], q, blocks);
  }

  /** A non-empty allocation gets bytes of its own, inside a live slab. */
  lemma PlaceKeeps(slabs: seq<Slab>, blocks: map<nat, nat>, len: nat, osBase: nat)
    requires LinearOk(slabs, blocks) && 0 < len <= MAX_ALLOCATION_SIZE && FreshBase(slabs, osBase)
    ensures var (slabs', p) := Place(slabs, len, osBase);
      p !in blocks && LinearOk(slabs', blocks[p := len])
  {
    var i := FirstFit(slabs, len);
    var (slabs', p) := Place(slabs, len, osBase);
    var blocks' := blocks[p := len];
    forall q | q in blocks ensures q != p && Apart(p, len, q, blocks[q]) {
      if i < |slabs| { BumpIsApart(slabs, blocks, i, len, q); } else { FreshIsApart(slabs, blocks, osBase, len, q); }
    }
    PlaceSlabsOk(slabs, blocks, len, osBase);
    forall q | q in blocks' ensures Known(slabs', q) {
      if q == p {
        assert p in slabs'[if i < |slabs| then i else 0].allocations;
      } else {
        var j :| 0 <= j < |slabs| && q in slabs[j].allocations;
        assert q in slabs'[if i < |slabs| then j else j + 1].allocations;
      }
    }
  }

  /** An allocation goes to the first slab with room for it, at the slab's offset, and moves that
      on by its length; only where none has room is there a new slab. No other slab changes. */
  lemma PlaceOutcome(slabs: seq<Slab>, len: nat, osBase: nat)
    ensures var (slabs', p) := Place(slabs, len, osBase);
      if exists i :: 0 <= i < |slabs| && HasRoom(slabs[i], len)
      then exists i :: 0 <= i < |slabs| && HasRoom(slabs[i], len) && (forall j :: 0 <= j < i ==> !HasRoom(slabs[j], len))
             && p == slabs[i].base + slabs[i].freeOffset
             && slabs' == slabs[i := Slab(slabs[i].base, [p] + slabs[i].allocations, slabs[i].freeOffset + len)]
      else p == osBase && slabs' == [Slab(osBase, [osBase], len)] + slabs
  {
    var i := FirstFit(slabs, len);
    if i < |slabs| { assert HasRoom(slabs[i], len); }
  }

  lemma PlaceSlabsOk(slabs: seq<Slab>, blocks: map<nat, nat>, len: nat, osBase: nat)
    requires LinearOk(slabs, blocks) && 0 < len <= MAX_ALLOCATION_SIZE && FreshBase(slabs, osBase)
    requires Place(slabs, len, osBase).1 !in blocks
    ensures var (slabs', p) := Place(slabs, len, osBase);
      SlabsApart(slabs') && forall j :: 0 <= j < |slabs'| ==> SlabOk(slabs'[j], blocks[p := len])
  {
    var i := FirstFit(slabs, len);
    var (slabs', p) := Place(slabs, len, osBase);
    var blocks' := blocks[p := len];
    forall s: Slab | SlabOk(s, blocks) ensures SlabOk(s, blocks') {
      forall q | q in s.allocations ensures Inside(s, q, blocks') { assert Inside(s, q, blocks); }
    }
    if i < |slabs| {
      assert SlabOk(slabs[i], blocks);
      BumpOk(slabs[i], blocks, len);
    } else {
      assert Inside(slabs'[0], osBase, blocks');
    }
  }

  lemma BumpOk(s: Slab, blocks: map<nat, nat>, len: nat)
    requires SlabOk(s, blocks) && 0 < len && HasRoom(s, len) && s.base + s.freeOffset !in blocks
    ensures SlabOk(Bump(s, len), blocks[s.base + s.freeOffset := len])
  {
    var p := s.base + s.freeOffset;
    var b := Bump(s, len);
    forall q | q in b.allocations ensures Inside(b, q, blocks[p := len]) {
      assert q != p ==> Inside(s, q, blocks);
    }
    forall i, j | 0 <= i < j < |b.allocations| ensures b.allocations[i] != b.allocations[j] {
      assert Inside(s, b.allocations[j], blocks);
    }
  }

  lemma RestOk(s: Slab, gone: set<nat>, blocks: map<nat, nat>)
    requires SlabOk(s, blocks)
    ensures forall r :: r in Rest(s, gone) ==> SlabOk(r, blocks - gone)
  {
    WithoutSpec(s.allocations, gone);
    if Rest(s, gone) != [] {
      var r := Rest(s, gone)[0];
      forall p | p in r.allocations ensures Inside(r, p, blocks - gone) { assert Inside(s, p, blocks); }
    }
  }

  lemma {:induction false} ReleaseSlabsOk(slabs: seq<Slab>, gone: set<nat>, blocks: map<nat, nat>)
    requires forall s :: s in slabs ==> SlabOk(s, blocks)
    ensures forall s :: s in ReleaseAll(slabs, gone) ==> SlabOk(s, blocks - gone)
  {
    if slabs != [] {
      RestOk(slabs[0], gone, blocks);
      ReleaseSlabsOk(slabs[1..], gone, blocks);
    }
  }

  lemma {:induction false} ReleaseApart(slabs: seq<Slab>, gone: set<nat>, base: nat)
    requires SlabsApart(slabs)
    requires forall i :: 0 <= i < |slabs| ==> Apart(base, MAX_ALLOCATION_SIZE, slabs[i].base, MAX_ALLOCATION_SIZE)
    ensures var r := ReleaseAll(slabs, gone);
      SlabsApart(r) && forall i :: 0 <= i < |r| ==> Apart(base, MAX_ALLOCATION_SIZE, r[i].base, MAX_ALLOCATION_SIZE)
  {
    if slabs != [] {
      ReleaseApart(slabs[1..], gone, slabs[0].base);
      ReleaseApart(slabs[1..], gone, base);
    }
  }

  lemma {:induction false} ReleaseKnown(slabs: seq<Slab>, gone: set<nat>)
    ensures forall p :: Known(ReleaseAll(slabs, gone), p) <==> Known(slabs, p) && p !in gone
  {
    if slabs != [] {
      var tail := ReleaseAll(slabs[1..], gone);
      ReleaseKnown(slabs[1..], gone);
      WithoutSpec(slabs[0].allocations, gone);
      KnownCons(slabs[0], slabs[1..]);
      assert slabs == [slabs[0]] + slabs[1..];
      if Rest(slabs[0], gone) != [] { KnownCons(Rest(slabs[0], gone)[0], tail); } else { assert [] + tail == tail; }
    }
  }

  lemma KnownCons(s: Slab, rest: seq<Slab>)
    ensures forall p :: Known([s] + rest, p) <==> p in s.allocations || Known(rest, p)
  {
    forall p ensures Known([s] + rest, p) <==> p in s.allocations || Known(rest, p) {
      var all := [s] + rest;
      if p in s.allocations { assert p in all[0].allocations; }
      if Known(rest, p) {
        var i :| 0 <= i < |rest| && p in rest[i].allocations;
        assert p in all[i + 1].allocations;
      }
    }
  }

  /** Releasing blocks takes away exactly those blocks; every other block keeps a live slab
      around it. */
  lemma ReleaseKeeps(slabs: seq<Slab>, blocks: map<nat, nat>, gone: set<nat>)
    requires LinearOk(slabs, blocks)
    ensures LinearOk(ReleaseAll(slabs, gone), blocks - gone)
  {
    ReleaseSlabsOk(slabs, gone, blocks);
    ReleaseKnown(slabs, gone);
    if slabs != [] { ReleaseApart(slabs[1..], gone, slabs[0].base); }
    assert BlocksApart(blocks - gone);
  }

  lemma {:induction false} WithoutTwice(xs: seq<nat>, a: set<nat>, b: set<nat>)
    ensures Without(Without(xs, a), b) == Without(xs, a + b)
  {
    if xs != [] { WithoutTwice(xs[1..], a, b); }
  }

  // Holds because a slab in use has at least one allocation
  lemma {:induction false} ReleaseTwice(slabs: seq<Slab>, a: set<nat>, b: set<nat>)
    ensures ReleaseAll(ReleaseAll(slabs, a), b) == ReleaseAll(slabs, a + b)
  {
    if slabs != [] {
      var s := slabs[0];
      ReleaseTwice(slabs[1..], a, b);
      WithoutTwice(s.allocations, a, b);
      if Rest(s, a) == [] {
        assert Without(s.allocations, a + b) == [];
        assert Rest(s, a) + ReleaseAll(slabs[1..], a) == ReleaseAll(slabs[1..], a);
      } else {
        var s' := Rest(s, a)[0];
        assert ([s'] + ReleaseAll(slabs[1..], a))[1..] == ReleaseAll(slabs[1..], a);
        assert Rest(s', b) == Rest(s, a + b);
      }
    }
  }

  lemma AllReleasable(slabs: seq<Slab>, blocks: map<nat, nat>, gone: set<nat>)
    requires LinearOk(slabs, blocks) && gone <= blocks.Keys
    ensures Releasable(slabs, gone)
  {
    forall done, p | done <= gone && p in gone && p !in done ensures KnownAfter(slabs, done, p) {
      ReleaseKeeps(slabs, blocks, done);
      KnownIsOnce(ReleaseAll(slabs, done), blocks - done, p);
      DeallocIsRelease(ReleaseAll(slabs, done), p);
      ReleaseTwice(slabs, done, {p});
    }
  }

  // ---------------------------------------------------------------- empty allocations

  lemma {:induction false} FirstFitByOffsets(slabs: seq<Slab>, others: seq<Slab>, len: nat)
    requires |slabs| == |others| && forall i :: 0 <= i < |slabs| ==> slabs[i].freeOffset == others[i].freeOffset
    ensures FirstFit(slabs, len) == FirstFit(others, len)
    decreases |slabs|
  {
    if slabs != [] { FirstFitByOffsets(slabs[1..], others[1..], len); }
  }

  // An empty allocation goes to the first slab; the next one may go there too
  predicate SharesSlab(slabs: seq<Slab>, more: nat) { slabs == [] || HasRoom(slabs[0], more) }

  // or to a new slab that the operating system puts right where the full first one ends
  predicate Meets(slabs: seq<Slab>, more: nat, osBase: nat) {
    slabs != [] && FirstFit(slabs, more) == |slabs| && osBase == slabs[0].base + slabs[0].freeOffset
  }

  lemma PlaceEmpty(slabs: seq<Slab>, blocks: map<nat, nat>, osBase: nat)
    requires LinearOk(slabs, blocks)
    ensures Place(slabs, 0, osBase) ==
              if slabs == [] then ([Slab(osBase, [osBase], 0)], osBase)
              else (slabs[0 := Bump(slabs[0], 0)], slabs[0].base + slabs[0].freeOffset)
    ensures forall more :: slabs != [] ==> FirstFit(Place(slabs, 0, osBase).0, more) == FirstFit(slabs, more)
  {
    if slabs == [] {
      assert [Slab(osBase, [osBase], 0)] + slabs == [Slab(osBase, [osBase], 0)];
    } else {
      assert SlabOk(slabs[0], blocks) && HasRoom(slabs[0], 0);
      assert FirstFit(slabs, 0) == 0;
      forall more ensures FirstFit(slabs[0 := Bump(slabs[0], 0)], more) == FirstFit(slabs, more) {
        FirstFitByOffsets(slabs[0 := Bump(slabs[0], 0)], slabs, more);
      }
    }
  }

  // Where the allocation after an empty one goes
  lemma AfterEmpty(slabs: seq<Slab>, blocks: map<nat, nat>, osBase: nat, more: nat, nextBase: nat)
    requires LinearOk(slabs, blocks) && more <= MAX_ALLOCATION_SIZE
    ensures var (s1, p) := Place(slabs, 0, osBase);
      p == Place(s1, more, nextBase).1 <==> SharesSlab(slabs, more) || Meets(slabs, more, nextBase)
  {
    PlaceEmpty(slabs, blocks, osBase);
    var j := FirstFit(slabs, more);
    if 0 < j < |slabs| {
      assert SlabOk(slabs[0], blocks) && SlabOk(slabs[j], blocks);
      assert Inside(slabs[j], slabs[j].allocations[0], blocks);
      assert Apart(slabs[0].base, MAX_ALLOCATION_SIZE, slabs[j].base, MAX_ALLOCATION_SIZE);
    }
  }

  // An empty allocation after one with bytes
  lemma EmptyAfter(slabs: seq<Slab>, blocks: map<nat, nat>, len: nat, osBase: nat, nextBase: nat)
    requires LinearOk(slabs, blocks) && 0 < len <= MAX_ALLOCATION_SIZE && FreshBase(slabs, osBase)
    ensures var (s1, p) := Place(slabs, len, osBase); p != Place(s1, 0, nextBase).1
  {
    var (s1, p) := Place(slabs, len, osBase);
    var i := FirstFit(slabs, len);
    PlaceKeeps(slabs, blocks, len, osBase);
    PlaceEmpty(s1, blocks[p := len], nextBase);
    if 0 < i < |slabs| {
      assert SlabOk(slabs[0], blocks) && SlabOk(slabs[i], blocks);
      assert Inside(slabs[i], slabs[i].allocations[0], blocks);
      assert Apart(slabs[0].base, MAX_ALLOCATION_SIZE, slabs[i].base, MAX_ALLOCATION_SIZE);
    }
  }

  /** Two allocations in a row have the same address exactly when the first is empty and the
      second finds room in the slab the first one went to (or is put, in a new slab, just
      where that one is full). */
  lemma SharesItsAddressIff(slabs: seq<Slab>, blocks: map<nat, nat>, len: nat, osBase: nat, more: nat, nextBase: nat)
    requires LinearOk(slabs, blocks) && len <= MAX_ALLOCATION_SIZE && more <= MAX_ALLOCATION_SIZE
    requires FreshBase(slabs, osBase) && FreshBase(Place(slabs, len, osBase).0, nextBase)
    ensures var (s1, p) := Place(slabs, len, osBase);
      p == Place(s1, more, nextBase).1 <==> len == 0 && (SharesSlab(slabs, more) || Meets(slabs, more, nextBase))
  {
    if len == 0 {
      AfterEmpty(slabs, blocks, osBase, more, nextBase);
    } else if more == 0 {
      EmptyAfter(slabs, blocks, len, osBase, nextBase);
    } else {
      var (s1, p) := Place(slabs, len, osBase);
      PlaceKeeps(slabs, blocks, len, osBase);
      PlaceKeeps(s1, blocks[p := len], more, nextBase);
    }
  }

  // ---------------------------------------------------------------- any state, any sizes

  /** What every state keeps, empty allocations or not: the slabs are apart, and what is
      allocated in one starts within the part of it that was handed out, or where that ends. */
  ghost predicate Loose(slabs: seq<Slab>) { SlabsApart(slabs) && forall s :: s in slabs ==> WithinUse(s) }

  predicate WithinUse(s: Slab) {
    s.freeOffset <= MAX_ALLOCATION_SIZE && forall p :: p in s.allocations ==> s.base <= p <= s.base + s.freeOffset
  }

  lemma LinearIsLoose(slabs: seq<Slab>, blocks: map<nat, nat>)
    requires LinearOk(slabs, blocks)
    ensures Loose(slabs) && forall p :: p in blocks <==> Known(slabs, p)
  {
    forall i | 0 <= i < |slabs| ensures WithinUse(slabs[i]) && forall p :: p in slabs[i].allocations ==> p in blocks {
      assert SlabOk(slabs[i], blocks);
      assert forall p :: p in slabs[i].allocations ==> Inside(slabs[i], p, blocks);
    }
  }

  // A live allocation where a slab's handed out part ends has no bytes
  predicate EmptyAtEnd(s: Slab) { s.base + s.freeOffset in s.allocations }

  predicate Full(s: Slab) { s.freeOffset == MAX_ALLOCATION_SIZE }

  // A slab starts at an address with a live allocation
  predicate StartsLive(slabs: seq<Slab>, at: nat) { exists j :: 0 <= j < |slabs| && slabs[j].base == at && at in slabs[j].allocations }

  // A full slab ends at an address with a live, empty, allocation
  predicate EndsEmpty(slabs: seq<Slab>, at: nat) {
    exists j :: 0 <= j < |slabs| && Full(slabs[j]) && slabs[j].base + MAX_ALLOCATION_SIZE == at && EmptyAtEnd(slabs[j])
  }

  /** Before an allocation: the address it will get is one that is live. Either way an empty
      allocation is involved, this one or that. */
  predicate WillShare(slabs: seq<Slab>, len: nat, osBase: nat) {
    var i := FirstFit(slabs, len);
    if i == |slabs| then EndsEmpty(slabs, osBase)
    else
      || EmptyAtEnd(slabs[i])
      || (Full(slabs[i]) && StartsLive(slabs, slabs[i].base + MAX_ALLOCATION_SIZE))
      || (slabs[i].freeOffset == 0 && EndsEmpty(slabs, slabs[i].base))
  }

  // An address at which a slab at `base` may hand out space, seen from another slab
  lemma OtherSlab(s: Slab, base: nat, offset: nat)
    requires WithinUse(s) && offset <= MAX_ALLOCATION_SIZE
    requires Apart(s.base, MAX_ALLOCATION_SIZE, base, MAX_ALLOCATION_SIZE)
    ensures base + offset in s.allocations <==>
              || (offset == MAX_ALLOCATION_SIZE && s.base == base + offset && s.base in s.allocations)
              || (offset == 0 && Full(s) && s.base + MAX_ALLOCATION_SIZE == base && EmptyAtEnd(s))
  {
  }

  lemma PlaceAddress(slabs: seq<Slab>, i: nat, base: nat, offset: nat)
    requires Loose(slabs) && i <= |slabs| && offset <= MAX_ALLOCATION_SIZE
    requires forall j :: 0 <= j < |slabs| && j != i ==> Apart(slabs[j].base, MAX_ALLOCATION_SIZE, base, MAX_ALLOCATION_SIZE)
    ensures (exists j :: 0 <= j < |slabs| && j != i && base + offset in slabs[j].allocations) <==>
              exists j :: 0 <= j < |slabs| && j != i &&
                ((offset == MAX_ALLOCATION_SIZE && slabs[j].base == base + offset && slabs[j].base in slabs[j].allocations)
                 || (offset == 0 && Full(slabs[j]) && slabs[j].base + MAX_ALLOCATION_SIZE == base && EmptyAtEnd(slabs[j])))
  {
    forall j | 0 <= j < |slabs| && j != i
      ensures base + offset in slabs[j].allocations <==>
        || (offset == MAX_ALLOCATION_SIZE && slabs[j].base == base + offset && slabs[j].base in slabs[j].allocations)
        || (offset == 0 && Full(slabs[j]) && slabs[j].base + MAX_ALLOCATION_SIZE == base && EmptyAtEnd(slabs[j]))
    {
      OtherSlab(slabs[j], base, offset);
    }
  }

  lemma SharesInSlab(slabs: seq<Slab>, i: nat)
    requires Loose(slabs) && i < |slabs|
    ensures Known(slabs, slabs[i].base + slabs[i].freeOffset) <==>
              || EmptyAtEnd(slabs[i])
              || (Full(slabs[i]) && StartsLive(slabs, slabs[i].base + MAX_ALLOCATION_SIZE))
              || (slabs[i].freeOffset == 0 && EndsEmpty(slabs, slabs[i].base))
  {
    var s := slabs[i];
    forall j | 0 <= j < |slabs| && j != i ensures Apart(slabs[j].base, MAX_ALLOCATION_SIZE, s.base, MAX_ALLOCATION_SIZE) {
      assert i < j ==> Apart(s.base, MAX_ALLOCATION_SIZE, slabs[j].base, MAX_ALLOCATION_SIZE);
    }
    assert WithinUse(s);
    PlaceAddress(slabs, i, s.base, s.freeOffset);
  }

  lemma SharesInNewSlab(slabs: seq<Slab>, osBase: nat)
    requires Loose(slabs) && FreshBase(slabs, osBase)
    ensures Known(slabs, osBase) <==> EndsEmpty(slabs, osBase)
  {
    PlaceAddress(slabs, |slabs|, osBase, 0);
  }

  /** An allocation is given an address that is already live exactly when WillShare says so
      beforehand, in whatever state the pool is. */
  lemma AddressIsLiveIff(slabs: seq<Slab>, len: nat, osBase: nat)
    requires Loose(slabs) && len <= MAX_ALLOCATION_SIZE && FreshBase(slabs, osBase)
    ensures Known(slabs, Place(slabs, len, osBase).1) <==> WillShare(slabs, len, osBase)
  {
    var i := FirstFit(slabs, len);
    if i < |slabs| { SharesInSlab(slabs, i); } else { SharesInNewSlab(slabs, osBase); }
  }

  lemma NotEmptyAtEnd(s: Slab, blocks: map<nat, nat>)
    requires SlabOk(s, blocks)
    ensures !EmptyAtEnd(s) && s.freeOffset > 0
  {
    assert Inside(s, s.allocations[0], blocks);
  }

  /** Where all that is live has bytes, that comes to: an empty allocation, the first slab full,
      and another slab beginning, with a live block, where the first one ends. */
  lemma LiveBlockIsSharedIff(slabs: seq<Slab>, blocks: map<nat, nat>, len: nat, osBase: nat)
    requires LinearOk(slabs, blocks) && len <= MAX_ALLOCATION_SIZE && FreshBase(slabs, osBase)
    ensures Place(slabs, len, osBase).1 in blocks <==>
              len == 0 && slabs != [] && slabs[0].base + slabs[0].freeOffset in blocks
    ensures Place(slabs, len, osBase).1 in blocks <==>
              len == 0 && slabs != [] && Full(slabs[0]) && StartsLive(slabs, slabs[0].base + MAX_ALLOCATION_SIZE)
  {
    LinearIsLoose(slabs, blocks);
    if len > 0 {
      PlaceKeeps(slabs, blocks, len, osBase);
    } else {
      PlaceEmpty(slabs, blocks, osBase);
      if slabs == [] {
        assert !Known(slabs, osBase);
      } else {
        NotEmptyAtEnd(slabs[0], blocks);
        SharesInSlab(slabs, 0);
      }
    }
  }

  // ---------------------------------------------------------------- runs

  lemma LoosePlace(slabs: seq<Slab>, len: nat, osBase: nat)
    requires Loose(slabs) && len <= MAX_ALLOCATION_SIZE && FreshBase(slabs, osBase)
    ensures Loose(Place(slabs, len, osBase).0)
  {
    var i := FirstFit(slabs, len);
    var slabs' := Place(slabs, len, osBase).0;
    if i < |slabs| {
      assert WithinUse(slabs[i]);
      assert WithinUse(Bump(slabs[i], len));
      forall s | s in slabs' ensures WithinUse(s) {
        var j :| 0 <= j < |slabs'| && slabs'[j] == s;
        assert j != i ==> s == slabs[j];
      }
    } else {
      forall s | s in slabs' ensures WithinUse(s) { assert s != slabs'[0] ==> s in slabs; }
    }
  }

  lemma LooseDealloc(slabs: seq<Slab>, p: nat)
    requires Loose(slabs)
    ensures Loose(Dealloc(slabs, p))
  {
    DeallocAtHolder(slabs, p);
    var i := Holder(slabs, p);
    if i < |slabs| {
      WithoutSpec(slabs[i].allocations, {p});
      assert WithinUse(slabs[i]);
      LooseSlice(slabs, i, ReleaseFrom(slabs[i], p));
    }
  }

  // A slab replaced by what is left of it
  lemma LooseSlice(slabs: seq<Slab>, i: nat, left: seq<Slab>)
    requires Loose(slabs) && i < |slabs|
    requires left == [] || (|left| == 1 && left[0].base == slabs[i].base && WithinUse(left[0]))
    ensures Loose(slabs[..i] + left + slabs[i + 1..])
  {
    var r := slabs[..i] + left + slabs[i + 1..];
    if left == [] {
      assert forall j :: 0 <= j < |r| ==> r[j] == slabs[if j < i then j else j + 1];
    } else {
      assert forall j :: 0 <= j < |r| ==> r[j] == if j == i then left[0] else slabs[j];
    }
  }

  datatype Call = Take(len: nat, osBase: nat) | Give(p: nat)

  ghost predicate Permitted(slabs: seq<Slab>, call: Call) {
    call.Take? ==> call.len <= MAX_ALLOCATION_SIZE && FreshBase(slabs, call.osBase)
  }

  function Served(slabs: seq<Slab>, call: Call): seq<Slab> {
    match call
    case Take(len, osBase) => Place(slabs, len, osBase).0
    case Give(p) => Dealloc(slabs, p)
  }

  ghost predicate Serves(slabs: seq<Slab>, calls: seq<Call>)
    decreases |calls|
  {
    calls == [] || (Permitted(slabs, calls[0]) && Serves(Served(slabs, calls[0]), calls[1..]))
  }

  function AfterCalls(slabs: seq<Slab>, calls: seq<Call>): seq<Slab>
    decreases |calls|
  {
    if calls == [] then slabs else AfterCalls(Served(slabs, calls[0]), calls[1..])
  }

  lemma {:induction false} LooseRun(slabs: seq<Slab>, calls: seq<Call>)
    requires Loose(slabs) && Serves(slabs, calls)
    ensures Loose(AfterCalls(slabs, calls))
    decreases |calls|
  {
    if calls != [] {
      match calls[0] {
        case Take(len, osBase) => LoosePlace(slabs, len, osBase);
        case Give(p) => LooseDealloc(slabs, p);
      }
      LooseRun(Served(slabs, calls[0]), calls[1..]);
    }
  }

  /** After any run of allocations, empty ones among them, and deallocations: the next one is
      given a live address exactly when WillShare says so. */
  lemma AddressIsLiveOverAnyRun(calls: seq<Call>, len: nat, osBase: nat)
    requires Serves([], calls + [Take(len, osBase)])
    ensures var slabs := AfterCalls([], calls);
      Known(slabs, Place(slabs, len, osBase).1) <==> WillShare(slabs, len, osBase)
  {
    ServesParts([], calls, Take(len, osBase));
    LooseRun([], calls);
    AddressIsLiveIff(AfterCalls([], calls), len, osBase);
  }

  lemma {:induction false} ServesParts(slabs: seq<Slab>, calls: seq<Call>, last: Call)
    requires Serves(slabs, calls + [last])
    ensures Serves(slabs, calls) && Permitted(AfterCalls(slabs, calls), last)
    decreases |calls|
  {
    if calls != [] {
      assert (calls + [last])[1..] == calls[1..] + [last];
      ServesParts(Served(slabs, calls[0]), calls[1..], last);
    }
  }

  // ---------------------------------------------------------------- giving a shared address back

  /** One deallocation takes an address from the first slab that knows it, however often it is
      noted there; it stays live exactly where a later slab knows it too. */
  lemma DeallocForgets(slabs: seq<Slab>, p: nat)
    ensures Known(Dealloc(slabs, p), p) <==> exists j :: Holder(slabs, p) < j < |slabs| && p in slabs[j].allocations
  {
    var i := Holder(slabs, p);
    DeallocAtHolder(slabs, p);
    NotBefore(slabs, p);
    if i < |slabs| {
      WithoutSpec(slabs[i].allocations, {p});
      KnownInParts(slabs[..i], ReleaseFrom(slabs[i], p), slabs[i + 1..], p);
      assert Known(slabs[i + 1..], p) <==> exists j :: i < j < |slabs| && p in slabs[j].allocations by {
        if j :| i < j < |slabs| && p in slabs[j].allocations { assert slabs[i + 1..][j - i - 1] == slabs[j]; }
      }
    }
  }

  lemma KnownInParts(a: seq<Slab>, b: seq<Slab>, c: seq<Slab>, p: nat)
    ensures Known(a + b + c, p) <==> Known(a, p) || Known(b, p) || Known(c, p)
  {
    KnownInEither(a, b, p);
    KnownInEither(a + b, c, p);
  }

  lemma KnownInEither(a: seq<Slab>, b: seq<Slab>, p: nat)
    ensures Known(a + b, p) <==> Known(a, p) || Known(b, p)
  {
    if i :| 0 <= i < |a| && p in a[i].allocations { assert (a + b)[i] == a[i]; }
    if i :| 0 <= i < |b| && p in b[i].allocations { assert (a + b)[|a| + i] == b[i]; }
  }

  lemma {:induction false} NotBefore(slabs: seq<Slab>, p: nat)
    ensures forall j :: 0 <= j < Holder(slabs, p) ==> p !in slabs[j].allocations
    ensures Holder(slabs, p) < |slabs| ==> p in slabs[Holder(slabs, p)].allocations
  {
    if slabs != [] && p !in slabs[0].allocations {
      NotBefore(slabs[1..], p);
      assert forall j :: 0 < j < |slabs| ==> slabs[j] == slabs[1..][j - 1];
    }
  }

  /** Giving an address shared by an empty allocation and the one after it back once gives both
      back: the second time it is unknown, unless an older block has it too. */
  lemma SharedAddressIsFreedOnce(slabs: seq<Slab>, blocks: map<nat, nat>, osBase: nat, more: nat, nextBase: nat)
    requires LinearOk(slabs, blocks) && FreshBase(slabs, osBase) && more <= MAX_ALLOCATION_SIZE && SharesSlab(slabs, more)
    ensures var (s1, p) := Place(slabs, 0, osBase);
      var s2 := Place(s1, more, nextBase).0;
      && Known(s2, p) && (Known(Dealloc(s2, p), p) <==> p in blocks)
      && (more > 0 ==> p !in blocks)
  {
    var (s1, p) := Place(slabs, 0, osBase);
    var s2 := Place(s1, more, nextBase).0;
    PlaceEmpty(slabs, blocks, osBase);
    LinearIsLoose(slabs, blocks);
    LiveBlockIsSharedIff(slabs, blocks, 0, osBase);
    assert p in s2[0].allocations && Holder(s2, p) == 0;
    DeallocForgets(s2, p);
    assert |s2| == (if slabs == [] then 1 else |slabs|) && forall j :: 0 < j < |s2| ==> s2[j] == slabs[j];
    if slabs != [] { NotEmptyAtEnd(slabs[0], blocks); }
  }

  lemma WithoutFirst(x: nat, rest: seq<nat>)
    requires x !in rest
    ensures Without([x] + rest, {x}) == rest
  {
    assert ([x] + rest)[1..] == rest;
    WithoutSpec(rest, {x});
  }

  // A full slab with one block, and an empty one if it is noted too; and a slab of five bytes
  // beginning where the full one ends
  function FullSlab(b: nat, more: seq<nat>): Slab { Slab(b, more + [b], MAX_ALLOCATION_SIZE) }
  function NextSlab(b: nat): Slab { Slab(b + MAX_ALLOCATION_SIZE, [b + MAX_ALLOCATION_SIZE] + [], 5) }

  lemma FullAndNextAreOk(b: nat)
    ensures LinearOk([FullSlab(b, [])] + [NextSlab(b)], map[b := MAX_ALLOCATION_SIZE, b + MAX_ALLOCATION_SIZE := 5])
  {
    var slabs := [FullSlab(b, [])] + [NextSlab(b)];
    assert slabs[0] == FullSlab(b, []) && slabs[1] == NextSlab(b);
    assert b in slabs[0].allocations && b + MAX_ALLOCATION_SIZE in slabs[1].allocations;
  }

  lemma EmptyOnNext(b: nat, osBase: nat)
    ensures Place([FullSlab(b, [])] + [NextSlab(b)], 0, osBase) ==
              ([FullSlab(b, [b + MAX_ALLOCATION_SIZE])] + [NextSlab(b)], b + MAX_ALLOCATION_SIZE)
  {
    var slabs := [FullSlab(b, [])] + [NextSlab(b)];
    assert HasRoom(slabs[0], 0) && FirstFit(slabs, 0) == 0;
    assert [] + [b] == [b];
    assert slabs[0 := Bump(slabs[0], 0)] == [FullSlab(b, [b + MAX_ALLOCATION_SIZE])] + [NextSlab(b)];
  }

  lemma DeallocFirst(s: Slab, rest: seq<Slab>, p: nat)
    ensures p in s.allocations ==> Dealloc([s] + rest, p) == Rest(s, {p}) + rest
    ensures p !in s.allocations ==> Dealloc([s] + rest, p) == [s] + Dealloc(rest, p)
  {
    assert ([s] + rest)[1..] == rest;
  }

  /** An empty allocation on an older live block: the first slab is full and the older one,
      of five bytes, begins where it ends. Giving the address back once takes it from the
      first slab only, twice takes the older block too. */
  lemma EmptyOnLiveBlock(b: nat, osBase: nat)
    ensures var slabs := [FullSlab(b, [])] + [NextSlab(b)];
      var blocks := map[b := MAX_ALLOCATION_SIZE, b + MAX_ALLOCATION_SIZE := 5];
      var (s1, p) := Place(slabs, 0, osBase);
      && LinearOk(slabs, blocks) && p in blocks && blocks[p] == 5
      && Dealloc(s1, p) == slabs && Dealloc(slabs, p) == [FullSlab(b, [])]
  {
    var p, full, next := b + MAX_ALLOCATION_SIZE, FullSlab(b, []), NextSlab(b);
    FullAndNextAreOk(b);
    EmptyOnNext(b, osBase);
    WithoutFirst(p, [b]);
    assert [] + [b] == [b];
    DeallocFirst(FullSlab(b, [p]), [next], p);
    DeallocFirst(full, [next], p);
    WithoutFirst(p, []);
    DeallocFirst(next, [], p);
    assert [next] + [] == [next] && [full] + [] == [full];
  }
}
