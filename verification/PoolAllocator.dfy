/** PoolAllocator: a cache of buffers in size classes on top of LinearPoolAllocator. Each
    class has a map of the buffers it owns and a list of those that are free. */
module PoolAllocatorModel {
  import opened Basics
  import opened LinearPoolAllocatorModel

  datatype PoolType = NormalPool | ProtectedPool {
    function Minimum(): nat { if NormalPool? then 0x1_0000 else 1 }
  }

  const MAXIMUM_SIZE: nat := 0x40_0000
  const MAXIMUM_FREE_BUFFER_POOL_SIZE: nat := 0x100_0000
  const MAXIMUM_FREE_BUFFERS_PER_POOL: nat := 20

  predicate Managed(kind: PoolType, n: nat) { kind.Minimum() <= n <= MAXIMUM_SIZE }

  // ---------------------------------------------------------------- size classes

  // The size classes of a pool type: its minimum doubled any number of times
  ghost predicate IsClass(kind: PoolType, c: nat) { exists k: nat :: c == kind.Minimum() * Pow2(k) }

  function Doubled(len: nat, n: nat): (r: nat)
    requires len > 0
    ensures r >= n && r >= len
    decreases n - len
  {
    if n > len then Doubled(2 * len, n) else len
  }

  function SizeClass(kind: PoolType, n: nat): nat { Doubled(kind.Minimum(), n) }

  lemma {:induction false} DoubledIsLeast(m: nat, j: nat, len: nat, n: nat)
    requires m > 0 && len > 0 && len == m * Pow2(j)
    ensures exists k: nat :: Doubled(len, n) == m * Pow2(k)
    ensures forall k: nat :: j <= k && n <= m * Pow2(k) ==> Doubled(len, n) <= m * Pow2(k)
    decreases n - len
  {
    if n > len {
      assert 2 * len == m * Pow2(j + 1);
      DoubledIsLeast(m, j + 1, 2 * len, n);
    } else {
      forall k: nat | j <= k ensures len <= m * Pow2(k) { PowGrows(m, j, k); }
    }
  }

  lemma {:induction false} PowGrows(m: nat, j: nat, k: nat)
    requires j <= k
    ensures m * Pow2(j) <= m * Pow2(k)
    decreases k
  {
    if j < k {
      PowGrows(m, j, k - 1);
      assert m * Pow2(k) == 2 * (m * Pow2(k - 1));
    }
  }

  lemma {:induction false} DoubledFits(len: nat, k: nat, n: nat)
    requires len > 0 && len * Pow2(k) == MAXIMUM_SIZE && n <= MAXIMUM_SIZE
    ensures Doubled(len, n) <= MAXIMUM_SIZE
    decreases k
  {
    if n > len {
      DoubledFits(2 * len, k - 1, n);
    }
  }

  /** A managed request is served from the least class that holds it, and no class is
      larger than a slab. */
  lemma SizeClassIsLeast(kind: PoolType, n: nat)
    requires Managed(kind, n)
    ensures IsClass(kind, SizeClass(kind, n)) && n <= SizeClass(kind, n) <= MAX_ALLOCATION_SIZE
    ensures forall c :: IsClass(kind, c) && n <= c ==> SizeClass(kind, n) <= c
  {
    DoubledIsLeast(kind.Minimum(), 0, kind.Minimum(), n);
    if kind.NormalPool? {
      assert Pow2(6) == 64;
      DoubledFits(0x1_0000, 6, n);
    } else {
      assert Pow2(11) == 2048 && Pow2(17) == 2048 * 64 && Pow2(22) == MAXIMUM_SIZE;
      DoubledFits(1, 22, n);
    }
  }

  /** The source's doubling loop; FreeToPool finds the same class from the same size. */
  method GetAllocationDetails(kind: PoolType, n: nat) returns (manage: bool, len: nat)
    ensures manage == Managed(kind, n)
    ensures manage ==>
              && len == SizeClass(kind, n)
              && IsClass(kind, len) && n <= len <= MAX_ALLOCATION_SIZE
              && forall c :: IsClass(kind, c) && n <= c ==> len <= c
    ensures !manage ==> len == n
  {
    len := n;
    manage := false;
    if kind.Minimum() <= n <= MAXIMUM_SIZE {
      manage := true;
      len := kind.Minimum();
      while n > len
        invariant len > 0 && Doubled(len, n) == SizeClass(kind, n)
        decreases n - len
      {
        len := len * 2;
      }
      SizeClassIsLeast(kind, n);
    }
  }

  // ---------------------------------------------------------------- the operations

  /** One size class: MemoryBufferPool and FreeBufferPool. */
  datatype Pool = Pool(buffers: set<nat>, free: seq<nat>)

  datatype State = State(pools: map<nat, Pool>, slabs: seq<Slab>)

  function Get(s: State, len: nat, osBase: nat): (State, nat) {
    var pool := if len in s.pools then s.pools[len] else Pool({}, []);
    if pool.free != [] then
      (s.(pools := s.pools[len := pool.(free := pool.free[1..])]), pool.free[0])
    else
      var (slabs, p) := Place(s.slabs, len, osBase);
      (State(s.pools[len := pool.(buffers := pool.buffers + {p})], slabs), p)
  }

  predicate MayKeep(pool: Pool, len: nat) {
    |pool.free| <= MAXIMUM_FREE_BUFFERS_PER_POOL && |pool.free| * len <= MAXIMUM_FREE_BUFFER_POOL_SIZE
  }

  function Free(s: State, p: nat, len: nat): (State, bool) {
    if len in s.pools && p in s.pools[len].buffers then
      var pool := s.pools[len];
      if MayKeep(pool, len) then (s.(pools := s.pools[len := pool.(free := [p] + pool.free)]), true)
      else (State(s.pools[len := pool.(buffers := pool.buffers - {p})], ReleaseAll(s.slabs, {p})), true)
    else (s, false)
  }

  function Elems(xs: seq<nat>): (r: set<nat>)
    ensures forall x :: x in r <==> x in xs
  {
    if xs == [] then {} else {xs[0]} + Elems(xs[1..])
  }

  // What FreeUnused takes out of one class
  function Unused(pool: Pool): set<nat> {
    if |pool.buffers| == |pool.free| then pool.buffers else pool.buffers * Elems(pool.free)
  }

  function Sweep(s: State, len: nat): State
    requires len in s.pools
  {
    var kept := s.pools[len].buffers - Unused(s.pools[len]);
    State(if kept == {} then s.pools - {len} else s.pools[len := Pool(kept, [])],
          ReleaseAll(s.slabs, Unused(s.pools[len])))
  }

  // ---------------------------------------------------------------- ownership across both levels

  /** blocks: what the linear allocator handed out; live: what callers hold, with the size
      they asked for. */
  datatype World = World(kind: PoolType, s: State, blocks: map<nat, nat>, live: map<nat, nat>)

  ghost predicate PoolOk(len: nat, pool: Pool, blocks: map<nat, nat>, live: map<nat, nat>) {
    && 0 < len <= MAX_ALLOCATION_SIZE
    && Distinct(pool.free)
    && (forall p :: p in pool.free ==> p in pool.buffers && p !in live)
    && (forall p :: p in pool.buffers ==> p in blocks && blocks[p] == len && (p in live || p in pool.free))
    && |pool.free| <= MAXIMUM_FREE_BUFFERS_PER_POOL + 1
    && (pool.free != [] ==> (|pool.free| - 1) * len <= MAXIMUM_FREE_BUFFER_POOL_SIZE)
  }

  ghost predicate Owned(pools: map<nat, Pool>, blocks: map<nat, nat>) {
    forall p :: p in blocks ==> blocks[p] in pools && p in pools[blocks[p]].buffers
  }

  ghost predicate Held(kind: PoolType, blocks: map<nat, nat>, live: map<nat, nat>) {
    forall p :: p in live ==> p in blocks && Managed(kind, live[p]) && SizeClass(kind, live[p]) == blocks[p]
  }

  ghost predicate PoolsOk(pools: map<nat, Pool>, blocks: map<nat, nat>, live: map<nat, nat>) {
    forall len :: len in pools ==> PoolOk(len, pools[len], blocks, live)
  }

  ghost predicate CacheOk(w: World) {
    PoolsOk(w.s.pools, w.blocks, w.live) && Owned(w.s.pools, w.blocks) && Held(w.kind, w.blocks, w.live)
  }

  ghost predicate Inv(w: World) { LinearOk(w.s.slabs, w.blocks) && CacheOk(w) }

  ghost function Allocated(w: World, n: nat, osBase: nat): World
    requires Managed(w.kind, n)
  {
    var len := SizeClass(w.kind, n);
    var (s, p) := Get(w.s, len, osBase);
    World(w.kind, s, w.blocks[p := len], w.live[p := n])
  }

  ghost function Freed(w: World, p: nat): World
    requires p in w.live
  {
    var len := SizeClass(w.kind, w.live[p]);
    var s := Free(w.s, p, len).0;
    var kept := len in w.s.pools && MayKeep(w.s.pools[len], len);
    World(w.kind, s, if kept then w.blocks else w.blocks - {p}, w.live - {p})
  }

  ghost function Swept(w: World, len: nat): World
    requires len in w.s.pools
  {
    w.(s := Sweep(w.s, len), blocks := w.blocks - Unused(w.s.pools[len]))
  }

  // A class is unaffected by what happens to blocks of other classes
  lemma PoolOkFrame(c: nat, pool: Pool, blocks: map<nat, nat>, live: map<nat, nat>, blocks': map<nat, nat>, live': map<nat, nat>)
    requires PoolOk(c, pool, blocks, live)
    requires forall p :: p in pool.buffers ==> p in blocks' && blocks'[p] == c && (p in live <==> p in live')
    ensures PoolOk(c, pool, blocks', live')
  {
  }

  lemma PoolsOkFrame(pools: map<nat, Pool>, len: nat, pool: Pool, blocks: map<nat, nat>, live: map<nat, nat>,
                     blocks': map<nat, nat>, live': map<nat, nat>)
    requires PoolsOk(pools, blocks, live) && PoolOk(len, pool, blocks', live')
    requires forall p :: p in blocks && blocks[p] != len ==> p in blocks' && blocks'[p] == blocks[p] && (p in live <==> p in live')
    ensures PoolsOk(pools[len := pool], blocks', live')
  {
    forall c | c in pools && c != len ensures PoolOk(c, pools[c], blocks', live') {
      assert PoolOk(c, pools[c], blocks, live);
      PoolOkFrame(c, pools[c], blocks, live, blocks', live');
    }
  }

  lemma ReusePoolOk(len: nat, pool: Pool, blocks: map<nat, nat>, live: map<nat, nat>, n: nat)
    requires PoolOk(len, pool, blocks, live) && pool.free != []
    ensures PoolOk(len, pool.(free := pool.free[1..]), blocks, live[pool.free[0] := n])
  {
    assert pool.free == [pool.free[0]] + pool.free[1..];
    assert (|pool.free| - 2) * len <= (|pool.free| - 1) * len;
  }

  lemma ReuseKeeps(w: World, n: nat, len: nat)
    requires CacheOk(w) && Managed(w.kind, n) && len == SizeClass(w.kind, n)
    requires len in w.s.pools && w.s.pools[len].free != []
    ensures var pool := w.s.pools[len];
      var p := pool.free[0];
      && p !in w.live && p in w.blocks && w.blocks[p] == len
      && CacheOk(w.(s := w.s.(pools := w.s.pools[len := pool.(free := pool.free[1..])]), live := w.live[p := n]))
  {
    var pool := w.s.pools[len];
    var p, pool' := pool.free[0], pool.(free := pool.free[1..]);
    assert PoolOk(len, pool, w.blocks, w.live);
    ReusePoolOk(len, pool, w.blocks, w.live, n);
    PoolsOkFrame(w.s.pools, len, pool', w.blocks, w.live, w.blocks, w.live[p := n]);
  }

  lemma GrowPoolOk(len: nat, pool: Pool, blocks: map<nat, nat>, live: map<nat, nat>, p: nat, n: nat)
    requires PoolOk(len, pool, blocks, live) && pool.free == [] && p !in blocks
    ensures PoolOk(len, pool.(buffers := pool.buffers + {p}), blocks[p := len], live[p := n])
  {
  }

  lemma GrowOwned(pools: map<nat, Pool>, blocks: map<nat, nat>, len: nat, pool: Pool, p: nat)
    requires Owned(pools, blocks) && pool == (if len in pools then pools[len] else Pool({}, [])) && p !in blocks
    ensures Owned(pools[len := pool.(buffers := pool.buffers + {p})], blocks[p := len])
  {
  }

  lemma GrowKeeps(w: World, n: nat, len: nat, p: nat)
    requires CacheOk(w) && Managed(w.kind, n) && len == SizeClass(w.kind, n) && 0 < len <= MAX_ALLOCATION_SIZE
    requires p !in w.blocks
    requires len in w.s.pools ==> w.s.pools[len].free == []
    ensures var pool := if len in w.s.pools then w.s.pools[len] else Pool({}, []);
      && p !in w.live
      && CacheOk(World(w.kind, w.s.(pools := w.s.pools[len := pool.(buffers := pool.buffers + {p})]), w.blocks[p := len], w.live[p := n]))
  {
    var pool := if len in w.s.pools then w.s.pools[len] else Pool({}, []);
    assert PoolOk(len, pool, w.blocks, w.live);
    var pool' := pool.(buffers := pool.buffers + {p});
    GrowPoolOk(len, pool, w.blocks, w.live, p, n);
    GrowOwned(w.s.pools, w.blocks, len, pool, p);
    PoolsOkFrame(w.s.pools, len, pool', w.blocks, w.live, w.blocks[p := len], w.live[p := n]);
  }

  lemma AllocatedKeeps(w: World, n: nat, osBase: nat)
    requires Inv(w) && Managed(w.kind, n) && FreshBase(w.s.slabs, osBase)
    ensures Inv(Allocated(w, n, osBase))
    ensures Get(w.s, SizeClass(w.kind, n), osBase).1 !in w.live
  {
    var len := SizeClass(w.kind, n);
    SizeClassIsLeast(w.kind, n);
    if len in w.s.pools && w.s.pools[len].free != [] {
      ReuseKeeps(w, n, len);
      assert w.blocks[w.s.pools[len].free[0] := len] == w.blocks;
    } else {
      PlaceKeeps(w.s.slabs, w.blocks, len, osBase);
      GrowKeeps(w, n, len, Place(w.s.slabs, len, osBase).1);
    }
  }

  lemma KeepPoolOk(len: nat, pool: Pool, blocks: map<nat, nat>, live: map<nat, nat>, p: nat)
    requires PoolOk(len, pool, blocks, live) && p in live && p in pool.buffers && MayKeep(pool, len)
    ensures PoolOk(len, pool.(free := [p] + pool.free), blocks, live - {p})
  {
  }

  lemma DropPoolOk(len: nat, pool: Pool, blocks: map<nat, nat>, live: map<nat, nat>, p: nat)
    requires PoolOk(len, pool, blocks, live) && p in live && p in pool.buffers
    ensures PoolOk(len, pool.(buffers := pool.buffers - {p}), blocks - {p}, live - {p})
  {
  }

  lemma FreedCacheOk(w: World, p: nat)
    requires CacheOk(w) && p in w.live
    ensures CacheOk(Freed(w, p))
    ensures Free(w.s, p, SizeClass(w.kind, w.live[p])).1
  {
    var len, w' := SizeClass(w.kind, w.live[p]), Freed(w, p);
    var pool := w.s.pools[len];
    assert PoolOk(len, pool, w.blocks, w.live);
    if MayKeep(pool, len) {
      KeepPoolOk(len, pool, w.blocks, w.live, p);
      PoolsOkFrame(w.s.pools, len, pool.(free := [p] + pool.free), w.blocks, w.live, w.blocks, w.live - {p});
    } else {
      DropPoolOk(len, pool, w.blocks, w.live, p);
      PoolsOkFrame(w.s.pools, len, pool.(buffers := pool.buffers - {p}), w.blocks, w.live, w.blocks - {p}, w.live - {p});
    }
  }

  lemma FreedKeeps(w: World, p: nat)
    requires Inv(w) && p in w.live
    ensures Inv(Freed(w, p))
    ensures Free(w.s, p, SizeClass(w.kind, w.live[p])).1
  {
    FreedCacheOk(w, p);
    ReleaseKeeps(w.s.slabs, w.blocks, {p});
  }

  lemma {:induction false} DistinctSize(xs: seq<nat>)
    requires Distinct(xs)
    ensures |Elems(xs)| == |xs|
  {
    if xs != [] {
      DistinctSize(xs[1..]);
      assert xs[0] !in xs[1..];
    }
  }

  /** The size test of FreeUnused is sound and complete: the two sizes agree exactly when
      the class holds no live block; and either way exactly its dead buffers go. */
  lemma SizeTestDecides(len: nat, pool: Pool, blocks: map<nat, nat>, live: map<nat, nat>)
    requires PoolOk(len, pool, blocks, live)
    ensures |pool.buffers| == |pool.free| <==> forall p :: p in pool.buffers ==> p !in live
    ensures forall p :: p in Unused(pool) <==> p in pool.buffers && p !in live
  {
    DistinctSize(pool.free);
    SubsetSize(Elems(pool.free), pool.buffers);
    if forall p :: p in pool.buffers ==> p !in live {
      assert pool.buffers == Elems(pool.free);
    }
  }

  lemma SweptCacheOk(w: World, len: nat)
    requires CacheOk(w) && len in w.s.pools
    requires forall p :: p in Unused(w.s.pools[len]) <==> p in w.s.pools[len].buffers && p !in w.live
    ensures CacheOk(Swept(w, len))
    ensures forall p :: p in Swept(w, len).blocks <==> p in w.blocks && (w.blocks[p] == len ==> p in w.live)
  {
    var pool, w' := w.s.pools[len], Swept(w, len);
    assert PoolOk(len, pool, w.blocks, w.live);
    var kept := Pool(pool.buffers - Unused(pool), []);
    assert PoolOk(len, kept, w'.blocks, w.live);
    PoolsOkFrame(w.s.pools, len, kept, w.blocks, w.live, w'.blocks, w.live);
    forall c | c in w'.s.pools ensures PoolOk(c, w'.s.pools[c], w'.blocks, w'.live) {
      assert PoolOk(c, w.s.pools[len := kept][c], w'.blocks, w'.live);
    }
    forall p | p in w'.blocks ensures w'.blocks[p] in w'.s.pools && p in w'.s.pools[w'.blocks[p]].buffers {
      assert p in w.blocks && p in w.s.pools[w.blocks[p]].buffers;
    }
  }

  lemma SweptKeeps(w: World, len: nat)
    requires Inv(w) && len in w.s.pools
    ensures Inv(Swept(w, len))
    ensures forall p :: p in Swept(w, len).blocks <==> p in w.blocks && (w.blocks[p] == len ==> p in w.live)
  {
    SizeTestDecides(len, w.s.pools[len], w.blocks, w.live);
    SweptCacheOk(w, len);
    ReleaseKeeps(w.s.slabs, w.blocks, Unused(w.s.pools[len]));
  }

  // Sweeping a class leaves it without free buffers, drops it when empty, and spares the rest
  lemma SweptPools(w: World, len: nat)
    requires len in w.s.pools
    ensures var pools := Swept(w, len).s.pools;
      && (len in pools ==> pools[len].free == [] && pools[len].buffers != {})
      && forall c :: c != len ==> (c in pools <==> c in w.s.pools) && (c in pools ==> pools[c] == w.s.pools[c])
  {
  }

  // ---------------------------------------------------------------- whole runs

  datatype Op = Alloc(n: nat, osBase: nat) | GiveBack(p: nat) | SweepClass(len: nat)

  /** Callers free only what they hold (with its size, which the ghost map remembers); the
      operating system gives fresh slabs. FreeUnused is one SweepClass per class. */
  ghost predicate Allowed(w: World, op: Op) {
    match op
    case Alloc(n, osBase) => Managed(w.kind, n) && FreshBase(w.s.slabs, osBase)
    case GiveBack(p) => p in w.live
    case SweepClass(len) => len in w.s.pools
  }

  ghost function Do(w: World, op: Op): World
    requires Allowed(w, op)
  {
    match op
    case Alloc(n, osBase) => Allocated(w, n, osBase)
    case GiveBack(p) => Freed(w, p)
    case SweepClass(len) => Swept(w, len)
  }

  ghost predicate Runs(w: World, ops: seq<Op>)
    decreases |ops|
  {
    ops == [] || (Allowed(w, ops[0]) && Runs(Do(w, ops[0]), ops[1..]))
  }

  ghost function Exec(w: World, ops: seq<Op>): World
    requires Runs(w, ops)
    decreases |ops|
  {
    if ops == [] then w else Exec(Do(w, ops[0]), ops[1..])
  }

  lemma {:induction false} InvRun(w: World, ops: seq<Op>)
    requires Inv(w) && Runs(w, ops)
    ensures Inv(Exec(w, ops)) && Exec(w, ops).kind == w.kind
    decreases |ops|
  {
    if ops != [] {
      match ops[0] {
        case Alloc(n, osBase) => AllocatedKeeps(w, n, osBase);
        case GiveBack(p) => FreedKeeps(w, p);
        case SweepClass(len) => SweptKeeps(w, len);
      }
      InvRun(Do(w, ops[0]), ops[1..]);
    }
  }

  function Fresh(kind: PoolType): World { World(kind, State(map[], []), map[], map[]) }

  /** After any run, live blocks are pairwise disjoint, each has at least the bytes asked
      for, and each lies inside a slab that has not been released. */
  lemma LiveBlocksAreExclusive(kind: PoolType, ops: seq<Op>, p: nat, q: nat)
    requires Runs(Fresh(kind), ops)
    requires p in Exec(Fresh(kind), ops).live && q in Exec(Fresh(kind), ops).live
    ensures var w := Exec(Fresh(kind), ops);
      && (p != q ==> Apart(p, w.live[p], q, w.live[q]))
      && exists i :: 0 <= i < |w.s.slabs| && w.s.slabs[i].base <= p
                     && p + w.live[p] <= w.s.slabs[i].base + MAX_ALLOCATION_SIZE
  {
    assert Inv(Fresh(kind));
    InvRun(Fresh(kind), ops);
    var w := Exec(Fresh(kind), ops);
    SizeClassIsLeast(kind, w.live[p]);
    SizeClassIsLeast(kind, w.live[q]);
    assert p != q ==> Apart(p, w.blocks[p], q, w.blocks[q]);
    var i :| 0 <= i < |w.s.slabs| && p in w.s.slabs[i].allocations;
    assert SlabOk(w.s.slabs[i], w.blocks) && Inside(w.s.slabs[i], p, w.blocks);
  }

  /** After any run, in every size class the free list has no duplicates and lies in the
      buffer map, the rest of the map is exactly what callers hold of that class, and the
      retained free buffers are bounded. */
  lemma ClassesPartition(kind: PoolType, ops: seq<Op>, len: nat)
    requires Runs(Fresh(kind), ops) && len in Exec(Fresh(kind), ops).s.pools
    ensures var w := Exec(Fresh(kind), ops);
      var pool := w.s.pools[len];
      && Distinct(pool.free) && (forall p :: p in pool.free ==> p in pool.buffers)
      && (forall p :: p in pool.buffers && p !in pool.free <==> p in w.live && SizeClass(kind, w.live[p]) == len)
      && |pool.free| <= 21 && (pool.free != [] ==> (|pool.free| - 1) * len <= MAXIMUM_FREE_BUFFER_POOL_SIZE)
  {
    assert Inv(Fresh(kind));
    InvRun(Fresh(kind), ops);
    var w := Exec(Fresh(kind), ops);
    assert PoolOk(len, w.s.pools[len], w.blocks, w.live);
  }

  // The class of a managed size, and its free list
  function FreeList(s: State, len: nat): seq<nat> { if len in s.pools then s.pools[len].free else [] }

  function Buffers(s: State, len: nat): set<nat> { if len in s.pools then s.pools[len].buffers else {} }

  // Only one class differs
  ghost predicate OthersSame(s: State, s': State, len: nat) {
    forall c :: c != len ==> FreeList(s', c) == FreeList(s, c) && Buffers(s', c) == Buffers(s, c)
  }

  // A known buffer given back, as far as its own class goes
  lemma FreeInClass(s: State, p: nat, c: nat)
    requires c in s.pools && p in s.pools[c].buffers && p !in s.pools[c].free
    ensures var s' := Free(s, p, c).0;
      && Free(s, p, c).1 && OthersSame(s, s', c)
      && if |FreeList(s, c)| <= 20 && |FreeList(s, c)| * c <= 0x100_0000
         then FreeList(s', c) == [p] + FreeList(s, c) && Buffers(s', c) == Buffers(s, c) && s'.slabs == s.slabs
         else FreeList(s', c) == FreeList(s, c) && Buffers(s', c) == Buffers(s, c) - {p} && s'.slabs == ReleaseAll(s.slabs, {p})
  {
  }

  // A live block is in its class, not free, and in no other
  lemma LiveInClass(w: World, p: nat)
    requires CacheOk(w) && p in w.live
    ensures var c := SizeClass(w.kind, w.live[p]);
      && c in w.s.pools && p in w.s.pools[c].buffers && p !in w.s.pools[c].free
      && forall len :: p in Buffers(w.s, len) ==> len == c
  {
    var c := SizeClass(w.kind, w.live[p]);
    assert PoolOk(c, w.s.pools[c], w.blocks, w.live);
    forall len | p in Buffers(w.s, len) ensures len == c { assert PoolOk(len, w.s.pools[len], w.blocks, w.live); }
  }

  /** A block given back is kept for its class just when the class has no more than 20 free
      buffers and these take no more than 16 MB; it is then the first of them. Otherwise it is
      in no class and in no slab. Nothing else changes. (Every run keeps Inv.) */
  lemma FreedIsKeptIff(w: World, p: nat)
    requires Inv(w) && p in w.live
    ensures var s, s', c := w.s, Freed(w, p).s, SizeClass(w.kind, w.live[p]);
      && OthersSame(s, s', c)
      && (p in FreeList(s', c) <==> |FreeList(s, c)| <= 20 && |FreeList(s, c)| * c <= 0x100_0000)
      && (p in FreeList(s', c) ==> FreeList(s', c) == [p] + FreeList(s, c) && Buffers(s', c) == Buffers(s, c) && s'.slabs == s.slabs)
      && (p !in FreeList(s', c) ==>
            && FreeList(s', c) == FreeList(s, c) && Buffers(s', c) == Buffers(s, c) - {p}
            && !Known(s'.slabs, p) && forall len :: p !in Buffers(s', len))
  {
    LiveInClass(w, p);
    FreeInClass(w.s, p, SizeClass(w.kind, w.live[p]));
    ReleaseKnown(w.s.slabs, {p});
  }

  lemma GetInClass(s: State, c: nat, osBase: nat)
    ensures var (s', p) := Get(s, c, osBase);
      && OthersSame(s, s', c)
      && if FreeList(s, c) != []
         then p == FreeList(s, c)[0] && FreeList(s', c) == FreeList(s, c)[1..] && Buffers(s', c) == Buffers(s, c) && s'.slabs == s.slabs
         else
           && p == Place(s.slabs, c, osBase).1 && s'.slabs == Place(s.slabs, c, osBase).0
           && FreeList(s', c) == [] && Buffers(s', c) == Buffers(s, c) + {p}
  {
  }

  /** A request whose class has free buffers is served with the first of them and leaves the
      slabs alone; one whose class has none gets a new buffer of its class's size. */
  lemma ServedFromFreeList(w: World, n: nat, osBase: nat)
    requires Inv(w) && Managed(w.kind, n) && FreshBase(w.s.slabs, osBase)
    ensures var s, w', c := w.s, Allocated(w, n, osBase), SizeClass(w.kind, n);
      && OthersSame(s, w'.s, c)
      && if FreeList(s, c) != []
         then
           && w'.live == w.live[FreeList(s, c)[0] := n]
           && FreeList(w'.s, c) == FreeList(s, c)[1..] && Buffers(w'.s, c) == Buffers(s, c) && w'.s.slabs == s.slabs
         else
           var (slabs, p) := Place(s.slabs, c, osBase);
           && w'.live == w.live[p := n] && p !in w.blocks && w'.blocks == w.blocks[p := c]
           && FreeList(w'.s, c) == [] && Buffers(w'.s, c) == Buffers(s, c) + {p} && w'.s.slabs == slabs
  {
    var c := SizeClass(w.kind, n);
    SizeClassIsLeast(w.kind, n);
    GetInClass(w.s, c, osBase);
    if FreeList(w.s, c) == [] { PlaceKeeps(w.s.slabs, w.blocks, c, osBase); }
  }

  // Taking from a class what was just put in front
  lemma GetAfterFree(s: State, p: nat, c: nat, osBase: nat)
    requires c in s.pools && p in s.pools[c].buffers && |FreeList(s, c)| <= 20 && |FreeList(s, c)| * c <= 0x100_0000
    ensures Get(Free(s, p, c).0, c, osBase) == (s, p)
  {
    var pool := s.pools[c];
    var kept := pool.(free := [p] + pool.free);
    assert ([p] + pool.free)[1..] == pool.free;
    assert Free(s, p, c).0 == s.(pools := s.pools[c := kept]);
    assert s.pools[c := kept][c := pool] == s.pools;
  }

  /** And so a kept block is what the next request of its class gets, with everything else as
      it was before. */
  lemma LastFreedIsReused(w: World, p: nat, n: nat, osBase: nat)
    requires Inv(w) && p in w.live && Managed(w.kind, n) && SizeClass(w.kind, n) == SizeClass(w.kind, w.live[p])
    requires p in FreeList(Freed(w, p).s, SizeClass(w.kind, n))
    ensures Freed(w, p).kind == w.kind && Allocated(Freed(w, p), n, osBase) == w.(live := w.live[p := n])
  {
    var c := SizeClass(w.kind, n);
    FreedIsKeptIff(w, p);
    LiveInClass(w, p);
    GetAfterFree(w.s, p, c, osBase);
    FreedWorld(w, p);
    SameMaps(w, p, n);
  }

  lemma FreedWorld(w: World, p: nat)
    requires CacheOk(w) && p in w.live
    ensures var c := SizeClass(w.kind, w.live[p]);
      |FreeList(w.s, c)| <= 20 && |FreeList(w.s, c)| * c <= 0x100_0000 ==>
        Freed(w, p) == World(w.kind, Free(w.s, p, c).0, w.blocks, w.live - {p})
  {
    LiveInClass(w, p);
  }

  lemma SameMaps(w: World, p: nat, n: nat)
    requires CacheOk(w) && p in w.live
    ensures w.blocks[p := SizeClass(w.kind, w.live[p])] == w.blocks && (w.live - {p})[p := n] == w.live[p := n]
  {
  }

  // FreeUnused part way: the classes in todo are still to be swept
  ghost predicate Sweeping(w0: World, w: World, todo: set<nat>) {
    && w.live == w0.live
    && todo <= w.s.pools.Keys
    && (forall len :: len in w.s.pools && len !in todo ==> w.s.pools[len].free == [] && w.s.pools[len].buffers != {})
    && (forall p :: p in w.blocks ==> p in w0.blocks && w.blocks[p] == w0.blocks[p])
    && (forall p :: p in w0.blocks && p in w.live ==> p in w.blocks)
  }

  lemma SweepingStep(w0: World, w: World, todo: set<nat>, len: nat)
    requires Sweeping(w0, w, todo) && len in todo
    requires forall p :: p in Swept(w, len).blocks <==> p in w.blocks && (w.blocks[p] == len ==> p in w.live)
    ensures Sweeping(w0, Swept(w, len), todo - {len})
  {
    SweptPools(w, len);
  }

  lemma SweepingEnd(w0: World, w: World)
    requires Sweeping(w0, w, {}) && CacheOk(w)
    ensures forall p :: p in w.blocks ==> p in w.live
  {
    forall p | p in w.blocks ensures p in w.live {
      assert p in w.s.pools[w.blocks[p]].buffers && PoolOk(w.blocks[p], w.s.pools[w.blocks[p]], w.blocks, w.live);
    }
  }

  // ---------------------------------------------------------------- the allocator object

  /** The allocator of one pool type. The ghost fields record what callers hold. */
  class PoolAllocator {
    const kind: PoolType
    const m_Linear: LinearPool
    var m_Pools: map<nat, Pool>
    ghost var blocks: map<nat, nat>
    ghost var live: map<nat, nat>

    ghost function View(): World
      reads this, m_Linear
    {
      World(kind, State(m_Pools, m_Linear.m_Pool), blocks, live)
    }

    ghost predicate Valid()
      reads this, m_Linear
    {
      Inv(View())
    }

    constructor (kind: PoolType)
      ensures Valid() && fresh(m_Linear) && View() == Fresh(kind)
    {
      this.kind := kind;
      m_Linear := new LinearPool();
      m_Pools := map[];
      blocks, live := map[], map[];
    }

    /** None stands for a request handed on to the unmanaged allocator. */
    method AllocateFromPool(n: nat, osBase: nat) returns (r: Option<nat>)
      requires Valid() && FreshBase(m_Linear.m_Pool, osBase)
      modifies this, m_Linear
      ensures Valid()
      ensures !Managed(kind, n) ==> r == None && View() == old(View())
      ensures Managed(kind, n) ==>
                && r.Some? && r.value !in old(live)
                && View() == Allocated(old(View()), n, osBase) && live == old(live)[r.value := n]
    {
      var manage, len := GetAllocationDetails(kind, n);
      if !manage {
        return None;
      }
      AllocatedKeeps(View(), n, osBase);
      var pool := if len in m_Pools then m_Pools[len] else Pool({}, []);
      if pool.free != [] {
        r := Some(pool.free[0]);
        m_Pools := m_Pools[len := pool.(free := pool.free[1..])];
      } else {
        r := m_Linear.Allocate(len, osBase);
        m_Pools := m_Pools[len := pool.(buffers := pool.buffers + {r.value})];
      }
      blocks := blocks[r.value := len];
      live := live[r.value := n];
    }

    /** A caller gives back a block with the size it asked for. */
    method FreeToPool(p: nat, n: nat) returns (found: bool)
      requires Valid() && (Managed(kind, n) ==> p in live && live[p] == n)
      modifies this, m_Linear
      ensures Valid() && found
      ensures !Managed(kind, n) ==> View() == old(View())
      ensures Managed(kind, n) ==> View() == Freed(old(View()), p)
    {
      var manage, len := GetAllocationDetails(kind, n);
      if !manage {
        return true;
      }
      ghost var w := View();
      FreedKeeps(w, p);
      KnownIsOnce(m_Linear.m_Pool, blocks, p);
      DeallocIsRelease(m_Linear.m_Pool, p);
      found := PutBack(p, len);
      if len !in w.s.pools || !MayKeep(w.s.pools[len], len) {
        blocks := blocks - {p};
      }
      live := live - {p};
    }

    // FreeToPool for a managed size
    method PutBack(p: nat, len: nat) returns (found: bool)
      requires Dealloc(m_Linear.m_Pool, p) == ReleaseAll(m_Linear.m_Pool, {p})
      modifies this`m_Pools, m_Linear
      ensures (State(m_Pools, m_Linear.m_Pool), found) == Free(old(State(m_Pools, m_Linear.m_Pool)), p, len)
    {
      found := len in m_Pools && p in m_Pools[len].buffers;
      if found {
        var pool := m_Pools[len];
        if |pool.free| <= MAXIMUM_FREE_BUFFERS_PER_POOL && |pool.free| * len <= MAXIMUM_FREE_BUFFER_POOL_SIZE {
          m_Pools := m_Pools[len := pool.(free := [p] + pool.free)];
        } else {
          var known := m_Linear.Deallocate(p);
          m_Pools := m_Pools[len := pool.(buffers := pool.buffers - {p})];
        }
      }
    }

    /** Afterwards no class keeps a free buffer, no class is empty, and exactly the live
        blocks are left. */
    method FreeUnused()
      requires Valid()
      modifies this, m_Linear
      ensures Valid() && live == old(live)
      ensures forall p :: p in blocks <==> p in old(blocks) && p in live
      ensures forall p :: p in blocks ==> blocks[p] == old(blocks)[p]
      ensures forall len :: len in m_Pools ==> m_Pools[len].free == [] && m_Pools[len].buffers != {}
    {
      var todo := m_Pools.Keys;
      ghost var start := View();
      while todo != {}
        invariant Valid() && Sweeping(start, View(), todo)
        decreases |todo|
      {
        var len :| len in todo;
        SweptKeeps(View(), len);
        SweepingStep(start, View(), todo, len);
        SweepOne(len);
        todo := todo - {len};
      }
      SweepingEnd(start, View());
    }

    // The loop body of FreeUnused
    method SweepOne(len: nat)
      requires Valid() && len in m_Pools
      modifies this, m_Linear
      ensures View() == Swept(old(View()), len)
    {
      var pool := m_Pools[len];
      assert PoolOk(len, pool, blocks, live);
      if |pool.buffers| == |pool.free| {
        AllReleasable(m_Linear.m_Pool, blocks, pool.buffers);
        m_Linear.DeallocateAll(pool.buffers);
        blocks := blocks - pool.buffers;
        m_Pools := m_Pools - {len};
      } else {
        var unused := pool.buffers * Elems(pool.free);
        AllReleasable(m_Linear.m_Pool, blocks, unused);
        m_Linear.DeallocateAll(unused);
        blocks := blocks - unused;
        if pool.buffers - unused == {} {
          m_Pools := m_Pools - {len};
        } else {
          m_Pools := m_Pools[len := Pool(pool.buffers - unused, [])];
        }
      }
    }
  }
}
