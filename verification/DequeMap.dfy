/** DequeMap: a map of deques, served in turn. PopFrontIf remembers where it stopped and
    offers the front of the next non-empty deque to a callback, which may take it. */
module DequeMapModel {
  import opened Basics

  /** The map in key order, as std::map keeps it. */
  datatype Entry<T> = Entry(key: int, deque: seq<T>)

  datatype State<T> = State(entries: seq<Entry<T>>, next: nat)

  ghost predicate Sorted<T>(entries: seq<Entry<T>>) {
    forall i, j :: 0 <= i < j < |entries| ==> entries[i].key < entries[j].key
  }

  // map::find
  function Find<T>(entries: seq<Entry<T>>, key: int): (i: nat)
    ensures i <= |entries| && (i < |entries| ==> entries[i].key == key)
  {
    if entries == [] || entries[0].key == key then 0 else 1 + Find(entries[1..], key)
  }

  // The deque of a key; empty if the key does not exist
  function Content<T>(entries: seq<Entry<T>>, key: int): seq<T> {
    if entries == [] then [] else if entries[0].key == key then entries[0].deque else Content(entries[1..], key)
  }

  function With<T>(entries: seq<Entry<T>>, i: nat, deque: seq<T>): seq<Entry<T>>
    requires i < |entries|
  {
    entries[i := entries[i].(deque := deque)]
  }

  // ---------------------------------------------------------------- the operations

  function Start<T>(s: State<T>): nat { if s.next >= |s.entries| then 0 else s.next }

  // The first non-empty deque from position i on
  function Scan<T>(entries: seq<Entry<T>>, i: nat): (j: nat)
    requires i <= |entries|
    ensures i <= j <= |entries|
    ensures j < |entries| ==> entries[j].deque != []
    ensures forall k :: i <= k < j ==> entries[k].deque == []
    decreases |entries| - i
  {
    if i == |entries| || entries[i].deque != [] then i else Scan(entries, i + 1)
  }

  // The position whose front PopFrontIf offers, or |entries| if it offers none
  function Offer<T>(s: State<T>): nat { Scan(s.entries, Start(s)) }

  function NextAfter<T>(s: State<T>): nat {
    if Offer(s) < |s.entries| then Offer(s) + 1 else |s.entries|
  }

  function Popped<T>(s: State<T>, accept: T -> bool): State<T> {
    var j := Offer(s);
    State(if j < |s.entries| && accept(s.entries[j].deque[0]) then With(s.entries, j, s.entries[j].deque[1..])
          else s.entries, NextAfter(s))
  }

  /** What the callback of a push does; the variants without one behave as Returns. */
  datatype Callback = Returns | Throws

  /** An unknown key throws, and so does a throwing callback. */
  function Pushed<T>(s: State<T>, front: bool, key: int, element: T, callback: Callback): (State<T>, bool) {
    var i := Find(s.entries, key);
    if i == |s.entries| || callback.Throws? then (s, false)
    else
      var deque := s.entries[i].deque;
      (s.(entries := With(s.entries, i, if front then [element] + deque else deque + [element])), true)
  }

  // Where a key belongs
  function Place<T>(entries: seq<Entry<T>>, key: int): (i: nat)
    ensures i <= |entries|
    ensures forall k :: 0 <= k < i ==> entries[k].key < key
    ensures i < |entries| ==> key <= entries[i].key
  {
    if entries == [] || key <= entries[0].key then 0 else 1 + Place(entries[1..], key)
  }

  lemma PlaceIs<T>(entries: seq<Entry<T>>, key: int, i: nat)
    requires i <= |entries| && forall k :: 0 <= k < i ==> entries[k].key < key
    requires i < |entries| ==> key <= entries[i].key
    ensures Place(entries, key) == i
  {
  }

  function Inserted<T>(s: State<T>, key: int): State<T> {
    var i := Place(s.entries, key);
    if i < |s.entries| && s.entries[i].key == key then s
    else s.(entries := s.entries[..i] + [Entry(key, [])] + s.entries[i..])
  }

  function Erased<T>(s: State<T>, key: int): State<T> {
    var i := Find(s.entries, key);
    if i < |s.entries| then s.(entries := s.entries[..i] + s.entries[i + 1..]) else s
  }

  /** The map object, as seen while locked. */
  class DequeMap<T> {
    var m_Map: seq<Entry<T>>
    var m_NextDeque: nat
    var m_Notify: bool

    ghost function View(): State<T>
      reads this
    {
      State(m_Map, m_NextDeque)
    }

    ghost predicate Valid()
      reads this
    {
      Sorted(m_Map)
    }

    constructor ()
      ensures Valid() && View() == State([], 0) && !m_Notify
    {
      m_Map, m_NextDeque, m_Notify := [], 0, false;
    }

    method Lookup(key: int) returns (i: nat)
      ensures i == Find(m_Map, key)
    {
      i := 0;
      while i < |m_Map| && m_Map[i].key != key
        invariant i <= |m_Map|
        invariant Find(m_Map, key) == i + Find(m_Map[i..], key)
      {
        i := i + 1;
      }
    }

    method Insert(key: int)
      requires Valid()
      modifies this`m_Map
      ensures Valid() && View() == Inserted(old(View()), key)
    {
      var i := 0;
      while i < |m_Map| && m_Map[i].key < key
        invariant i <= |m_Map|
        invariant forall k :: 0 <= k < i ==> m_Map[k].key < key
      {
        i := i + 1;
      }
      PlaceIs(m_Map, key, i);
      if i == |m_Map| || m_Map[i].key != key {
        m_Map := m_Map[..i] + [Entry(key, [])] + m_Map[i..];
      }
    }

    method Erase(key: int) returns (erased: nat)
      requires Valid()
      modifies this`m_Map
      ensures Valid() && View() == Erased(old(View()), key)
      ensures erased == |old(m_Map)| - |m_Map|
    {
      erased := 0;
      var i := Lookup(key);
      if i < |m_Map| {
        m_Map := m_Map[..i] + m_Map[i + 1..];
        erased := 1;
      }
    }

    method PopFrontIf(accept: T -> bool)
      requires Valid()
      modifies this`m_Map, this`m_NextDeque
      ensures Valid() && View() == Popped(old(View()), accept)
    {
      if m_NextDeque >= |m_Map| {
        m_NextDeque := 0;
      }
      var it := m_NextDeque;
      while it < |m_Map|
        invariant Start(old(View())) <= it <= |m_Map| && m_NextDeque == it
        invariant Valid() && m_Map == old(m_Map)
        invariant Scan(m_Map, Start(old(View()))) == Scan(m_Map, it)
      {
        m_NextDeque := m_NextDeque + 1;
        if m_Map[it].deque != [] {
          if accept(m_Map[it].deque[0]) {
            m_Map := With(m_Map, it, m_Map[it].deque[1..]);
          }
          return;
        }
        it := it + 1;
      }
    }

    /** The element goes in before the callback runs and is taken out again if that throws. */
    method Push(front: bool, key: int, element: T, callback: Callback) returns (ok: bool)
      requires Valid()
      modifies this`m_Map, this`m_Notify
      ensures Valid() && (View(), ok) == Pushed(old(View()), front, key, element, callback)
      ensures m_Notify == (old(m_Notify) || ok)
    {
      var i := Lookup(key);
      if i == |m_Map| {
        return false;
      }
      var deque := m_Map[i].deque;
      m_Map := With(m_Map, i, if front then [element] + deque else deque + [element]);
      ok := callback.Returns?;
      if ok {
        m_Notify := true;
      } else {
        deque := m_Map[i].deque;
        m_Map := With(m_Map, i, if front then deque[1..] else deque[..|deque| - 1]);
        assert m_Map == old(m_Map);
      }
    }
  }

  // ---------------------------------------------------------------- fairness

  // The same keys, whatever the deques hold
  ghost predicate SameKeys<T>(a: seq<Entry<T>>, b: seq<Entry<T>>) {
    |a| == |b| && forall i :: 0 <= i < |a| ==> a[i].key == b[i].key
  }

  // An upper bound on the number of calls until position j is offered
  function Distance<T>(s: State<T>, j: nat): nat
    requires j < |s.entries|
  {
    var n := |s.entries|;
    if s.next >= n then j + 1 else if s.next <= j then j + 1 - s.next else n - s.next + j + 1
  }

  lemma DistanceFalls<T>(s: State<T>, s': State<T>, j: nat)
    requires j < |s.entries| == |s'.entries| && s.entries[j].deque != [] && Offer(s) != j
    requires s'.next == NextAfter(s)
    ensures Distance(s', j) < Distance(s, j)
  {
  }

  /** calls: the states in which consecutive calls of PopFrontIf find the map. Between two
      calls every deque may have changed; the keys and m_NextDeque have not. */
  ghost predicate ConsecutiveCalls<T(!new)>(calls: seq<State<T>>) {
    forall i :: 0 < i < |calls| ==> SameKeys(calls[0].entries, calls[i].entries) && calls[i].next == NextAfter(calls[i - 1])
  }

  lemma {:induction false} OfferedWithinDistance<T(!new)>(calls: seq<State<T>>, j: nat)
    requires calls != [] && ConsecutiveCalls(calls) && j < |calls[0].entries|
    requires forall i :: 0 <= i < |calls| ==> j < |calls[i].entries| && calls[i].entries[j].deque != []
    requires |calls| >= Distance(calls[0], j)
    ensures exists i :: 0 <= i < |calls| && Offer(calls[i]) == j
  {
    if Offer(calls[0]) != j {
      assert Distance(calls[0], j) > 1;
      var rest := calls[1..];
      assert SameKeys(calls[0].entries, calls[1].entries) && calls[1].next == NextAfter(calls[0]);
      DistanceFalls(calls[0], calls[1], j);
      forall i | 0 < i < |rest| ensures SameKeys(rest[0].entries, rest[i].entries) && rest[i].next == NextAfter(rest[i - 1]) {
        assert rest[i] == calls[i + 1] && SameKeys(calls[0].entries, calls[i + 1].entries);
      }
      OfferedWithinDistance(rest, j);
      var i :| 0 <= i < |rest| && Offer(rest[i]) == j;
      assert Offer(calls[i + 1]) == j;
    }
  }

  /** Bounded fairness: with n keys, a key whose deque is non-empty at each of n consecutive
      calls is offered by one of them, whatever happens to the other deques meanwhile. */
  lemma Fairness<T(!new)>(calls: seq<State<T>>, j: nat)
    requires calls != [] && ConsecutiveCalls(calls) && j < |calls[0].entries| <= |calls|
    requires forall i :: 0 <= i < |calls| ==> j < |calls[i].entries| && calls[i].entries[j].deque != []
    ensures exists i :: 0 <= i < |calls[0].entries| && Offer(calls[i]) == j
  {
    var n := |calls[0].entries|;
    OfferedWithinDistance(calls[..n], j);
    var i :| 0 <= i < n && Offer(calls[..n][i]) == j;
    assert Offer(calls[i]) == j;
  }

  /** The bound is tight: just after being offered, a key among n non-empty ones waits for
      all the others, so n - 1 calls are not enough. */
  lemma FairnessIsTight(n: nat)
    requires n > 0
    ensures exists calls: seq<State<int>> ::
      && |calls| == n - 1 && ConsecutiveCalls(calls)
      && (forall i :: 0 <= i < |calls| ==> |calls[i].entries| == n && calls[i].entries[0].deque != [] && Offer(calls[i]) != 0)
  {
    var full := seq(n, i requires 0 <= i < n => Entry(i, [0]));
    var calls := seq(n - 1, i requires 0 <= i < n - 1 => State(full, i + 1));
    assert ConsecutiveCalls(calls);
  }

  // ---------------------------------------------------------------- conservation and order

  function Elements<T>(entries: seq<Entry<T>>): multiset<T> {
    if entries == [] then multiset{} else multiset(entries[0].deque) + Elements(entries[1..])
  }

  lemma {:induction false} ElementsWith<T>(entries: seq<Entry<T>>, i: nat, deque: seq<T>)
    requires i < |entries|
    ensures Elements(With(entries, i, deque)) + multiset(entries[i].deque) == Elements(entries) + multiset(deque)
  {
    var changed := With(entries, i, deque);
    if i == 0 {
      assert changed[1..] == entries[1..];
    } else {
      ElementsWith(entries[1..], i - 1, deque);
      assert changed[0] == entries[0] && changed[1..] == With(entries[1..], i - 1, deque);
      var first, rest, rest' := multiset(entries[0].deque), Elements(entries[1..]), Elements(changed[1..]);
      assert (first + rest') + multiset(entries[i].deque) == first + (rest' + multiset(entries[i].deque));
      assert (first + rest) + multiset(deque) == first + (rest + multiset(deque));
    }
  }

  lemma Cancel<T>(a: multiset<T>, b: multiset<T>, c: multiset<T>)
    requires a + c == b + c
    ensures a == b
  {
    forall x ensures a[x] == b[x] { assert (a + c)[x] == (b + c)[x]; }
  }

  /** Nothing is lost or duplicated: a push adds its element exactly if it succeeds, a pop
      removes exactly the front it offered and only if the callback took it. */
  lemma PushConserves<T>(s: State<T>, front: bool, key: int, element: T, callback: Callback)
    ensures var (s', ok) := Pushed(s, front, key, element, callback);
      && s'.next == s.next
      && (!ok ==> s' == s)
      && (ok ==> Elements(s'.entries) == Elements(s.entries) + multiset{element})
  {
    var (s', ok) := Pushed(s, front, key, element, callback);
    var i := Find(s.entries, key);
    if ok {
      var deque := s.entries[i].deque;
      ElementsWith(s.entries, i, s'.entries[i].deque);
      assert multiset(s'.entries[i].deque) == multiset{element} + multiset(deque);
      Cancel(Elements(s'.entries), Elements(s.entries) + multiset{element}, multiset(deque));
    }
  }

  lemma PopConserves<T>(s: State<T>, accept: T -> bool)
    ensures var s' := Popped(s, accept);
      var j := Offer(s);
      if j < |s.entries| && accept(s.entries[j].deque[0]) then
        Elements(s.entries) == Elements(s'.entries) + multiset{s.entries[j].deque[0]}
      else Elements(s'.entries) == Elements(s.entries)
  {
    var j := Offer(s);
    if j < |s.entries| && accept(s.entries[j].deque[0]) {
      var deque := s.entries[j].deque;
      ElementsWith(s.entries, j, deque[1..]);
      assert deque == [deque[0]] + deque[1..];
      assert multiset(deque) == multiset{deque[0]} + multiset(deque[1..]);
      var s' := Popped(s, accept);
      Cancel(Elements(s.entries), Elements(s'.entries) + multiset{deque[0]}, multiset(deque[1..]));
    }
  }

  datatype Op<!T> =
    | PushBack(key: int, element: T, callback: Callback)
    | Pop(accept: T -> bool)
    | Add(key: int)
    | Remove(key: int)

  function Apply<T>(s: State<T>, op: Op<T>): State<T> {
    match op
    case PushBack(key, element, callback) => Pushed(s, false, key, element, callback).0
    case Pop(accept) => Popped(s, accept)
    case Add(key) => Inserted(s, key)
    case Remove(key) => Erased(s, key)
  }

  // What an operation puts into, and takes out of, the deque of a key
  function In<T>(s: State<T>, op: Op<T>, key: int): seq<T> {
    if op.PushBack? && op.key == key && op.callback.Returns? && Has(s.entries, key) then [op.element] else []
  }

  function Out<T>(s: State<T>, op: Op<T>, key: int): seq<T> {
    var j := Offer(s);
    if op.Pop? && j < |s.entries| && s.entries[j].key == key && op.accept(s.entries[j].deque[0]) then [s.entries[j].deque[0]]
    else []
  }

  function Exec<T>(s: State<T>, ops: seq<Op<T>>): State<T>
    decreases |ops|
  {
    if ops == [] then s else Exec(Apply(s, ops[0]), ops[1..])
  }

  function Ins<T>(s: State<T>, ops: seq<Op<T>>, key: int): seq<T>
    decreases |ops|
  {
    if ops == [] then [] else In(s, ops[0], key) + Ins(Apply(s, ops[0]), ops[1..], key)
  }

  function Outs<T>(s: State<T>, ops: seq<Op<T>>, key: int): seq<T>
    decreases |ops|
  {
    if ops == [] then [] else Out(s, ops[0], key) + Outs(Apply(s, ops[0]), ops[1..], key)
  }

  predicate Has<T>(entries: seq<Entry<T>>, key: int) { exists i :: 0 <= i < |entries| && entries[i].key == key }

  lemma {:induction false} ContentSplit<T>(a: seq<Entry<T>>, b: seq<Entry<T>>, key: int)
    ensures Content(a + b, key) == if Has(a, key) then Content(a, key) else Content(b, key)
  {
    if a == [] {
      assert a + b == b;
    } else {
      ContentSplit(a[1..], b, key);
      assert (a + b)[1..] == a[1..] + b;
      if a[0].key != key && Has(a, key) {
        var i :| 0 <= i < |a| && a[i].key == key;
        assert a[1..][i - 1].key == key;
      }
      if Has(a[1..], key) {
        var i :| 0 <= i < |a[1..]| && a[1..][i].key == key;
        assert a[i + 1].key == key;
      }
    }
  }

  // One entry stands between two parts of the map
  lemma ContentMiddle<T>(a: seq<Entry<T>>, e: Entry<T>, b: seq<Entry<T>>, key: int)
    ensures e.key == key && !Has(a, key) ==> Content(a + [e] + b, key) == e.deque
    ensures e.key != key ==> Content(a + [e] + b, key) == Content(a + b, key)
  {
    ContentSplit(a + [e], b, key);
    ContentSplit(a, [e], key);
    ContentSplit(a, b, key);
    if Has(a, key) {
      var i :| 0 <= i < |a| && a[i].key == key;
      assert (a + [e])[i].key == key;
    }
    if e.key == key { assert (a + [e])[|a|].key == key; }
    if !Has(a, key) && e.key != key { assert !Has(a + [e], key); }
  }

  // A changed deque, in a map without duplicate keys
  lemma WithKeeps<T>(entries: seq<Entry<T>>, i: nat, deque: seq<T>, key: int)
    requires Sorted(entries) && i < |entries|
    ensures Sorted(With(entries, i, deque))
    ensures entries[i].key == key ==> Content(entries, key) == entries[i].deque && Content(With(entries, i, deque), key) == deque
    ensures entries[i].key != key ==> Content(With(entries, i, deque), key) == Content(entries, key)
  {
    var a, e, b := entries[..i], entries[i], entries[i + 1..];
    assert entries == a + [e] + b && With(entries, i, deque) == a + [e.(deque := deque)] + b;
    assert e.key == key ==> !Has(a, key);
    ContentMiddle(a, e, b, key);
    ContentMiddle(a, e.(deque := deque), b, key);
  }

  lemma InsertKeeps<T>(s: State<T>, k: int, key: int)
    requires Sorted(s.entries)
    ensures Content(Inserted(s, k).entries, key) == Content(s.entries, key)
  {
    var i := Place(s.entries, k);
    if i == |s.entries| || s.entries[i].key != k {
      var a, b := s.entries[..i], s.entries[i..];
      assert s.entries == a + b;
      ContentMiddle(a, Entry(k, []), b, key);
      if k == key {
        assert !Has(s.entries, key);
        ContentSplit(s.entries, [], key);
        assert s.entries + [] == s.entries;
      }
    }
  }

  lemma EraseKeeps<T>(s: State<T>, k: int, key: int)
    requires k != key
    ensures Content(Erased(s, k).entries, key) == Content(s.entries, key)
  {
    var i := Find(s.entries, k);
    if i < |s.entries| {
      assert s.entries == s.entries[..i] + [s.entries[i]] + s.entries[i + 1..];
      ContentMiddle(s.entries[..i], s.entries[i], s.entries[i + 1..], key);
    }
  }

  lemma PushIsQueue<T>(s: State<T>, k: int, element: T, callback: Callback, key: int)
    requires Sorted(s.entries)
    ensures var op := PushBack(k, element, callback);
      Sorted(Apply(s, op).entries)
      && Content(Apply(s, op).entries, key) == Content(s.entries, key) + In(s, op, key)
  {
    var i := Find(s.entries, k);
    FindHas(s.entries, k);
    if i < |s.entries| { WithKeeps(s.entries, i, s.entries[i].deque + [element], key); }
    assert Content(s.entries, key) + [] == Content(s.entries, key);
  }

  lemma PopIsQueue<T>(s: State<T>, accept: T -> bool, key: int)
    requires Sorted(s.entries)
    ensures var op := Pop(accept);
      Sorted(Apply(s, op).entries)
      && Content(s.entries, key) == Out(s, op, key) + Content(Apply(s, op).entries, key)
  {
    var j := Offer(s);
    if j < |s.entries| { WithKeeps(s.entries, j, s.entries[j].deque[1..], key); }
  }

  lemma StepIsQueue<T>(s: State<T>, op: Op<T>, key: int)
    requires Sorted(s.entries) && op != Remove(key)
    ensures Sorted(Apply(s, op).entries)
    ensures Content(s.entries, key) + In(s, op, key) == Out(s, op, key) + Content(Apply(s, op).entries, key)
  {
    match op {
      case PushBack(k, element, callback) => PushIsQueue(s, k, element, callback, key);
        Empty(Content(Apply(s, op).entries, key));
      case Pop(accept) => PopIsQueue(s, accept, key);
        Empty(Content(s.entries, key));
      case _ => EditIsQueue(s, op, key);
        Empty(Content(s.entries, key));
    }
  }

  lemma InsertSorted<T>(s: State<T>, k: int)
    requires Sorted(s.entries)
    ensures Sorted(Inserted(s, k).entries)
  {
    var i := Place(s.entries, k);
    if i == |s.entries| || s.entries[i].key != k { SpliceSorted(s.entries[..i], [Entry(k, [])], s.entries[i..]); }
  }

  lemma EraseSorted<T>(s: State<T>, k: int)
    requires Sorted(s.entries)
    ensures Sorted(Erased(s, k).entries)
  {
    var i := Find(s.entries, k);
    if i < |s.entries| { assert s.entries[i + 1..] == s.entries[i..][1..]; }
  }

  lemma SpliceSorted<T>(a: seq<Entry<T>>, m: seq<Entry<T>>, b: seq<Entry<T>>)
    requires Sorted(a) && Sorted(m) && Sorted(b)
    requires forall i, j :: 0 <= i < |a| && 0 <= j < |m| ==> a[i].key < m[j].key
    requires forall i, j :: 0 <= i < |a| && 0 <= j < |b| ==> a[i].key < b[j].key
    requires forall i, j :: 0 <= i < |m| && 0 <= j < |b| ==> m[i].key < b[j].key
    ensures Sorted(a + m + b)
  {
  }

  lemma EditIsQueue<T>(s: State<T>, op: Op<T>, key: int)
    requires Sorted(s.entries) && (op.Add? || op.Remove?) && op != Remove(key)
    ensures Sorted(Apply(s, op).entries) && Content(Apply(s, op).entries, key) == Content(s.entries, key)
    ensures In(s, op, key) == [] && Out(s, op, key) == []
  {
    match op {
      case Add(k) =>
        InsertSorted(s, k);
        InsertKeeps(s, k, key);
      case Remove(k) =>
        EraseSorted(s, k);
        EraseKeeps(s, k, key);
    }
  }

  lemma Empty<T>(x: seq<T>)
    ensures x + [] == x && [] + x == x
  {
  }

  /** Per key the map is a FIFO queue: over any run of pushes, pops, insertions and erasures
      of other keys, what was there and what went in equals what came out and what is left,
      in the same order. */
  lemma {:induction false} PerKeyOrder<T>(s: State<T>, ops: seq<Op<T>>, key: int)
    requires Sorted(s.entries) && Remove(key) !in ops
    ensures Content(s.entries, key) + Ins(s, ops, key) == Outs(s, ops, key) + Content(Exec(s, ops).entries, key)
    decreases |ops|
  {
    if ops != [] {
      var s' := Apply(s, ops[0]);
      StepIsQueue(s, ops[0], key);
      PerKeyOrder(s', ops[1..], key);
      var left := Content(Exec(s, ops).entries, key);
      Regroup(Content(s.entries, key), In(s, ops[0], key), Out(s, ops[0], key), Content(s'.entries, key),
              Ins(s', ops[1..], key), Outs(s', ops[1..], key), left);
    }
  }

  lemma Regroup<T>(c: seq<T>, i: seq<T>, o: seq<T>, c': seq<T>, more: seq<T>, gone: seq<T>, left: seq<T>)
    requires c + i == o + c' && c' + more == gone + left
    ensures c + (i + more) == (o + gone) + left
  {
    assert c + (i + more) == (c + i) + more;
    assert (o + c') + more == o + (c' + more);
    assert o + (gone + left) == (o + gone) + left;
  }

  // ---------------------------------------------------------------- what each operation does

  lemma {:induction false} FindHas<T>(entries: seq<Entry<T>>, key: int)
    ensures Find(entries, key) < |entries| <==> Has(entries, key)
    ensures Content(entries, key) == if Has(entries, key) then entries[Find(entries, key)].deque else []
  {
    if entries != [] {
      FindHas(entries[1..], key);
      if Has(entries[1..], key) {
        var i :| 0 <= i < |entries[1..]| && entries[1..][i].key == key;
        assert entries[i + 1].key == key;
      }
      if i :| 0 <= i < |entries| && entries[i].key == key && entries[0].key != key { assert entries[1..][i - 1].key == key; }
    }
  }

  lemma SameKeysHave<T>(a: seq<Entry<T>>, b: seq<Entry<T>>)
    requires SameKeys(a, b)
    ensures forall key :: Has(a, key) <==> Has(b, key)
  {
    forall key ensures Has(a, key) <==> Has(b, key) {
      if i :| 0 <= i < |a| && a[i].key == key { assert b[i].key == key; }
      if i :| 0 <= i < |b| && b[i].key == key { assert a[i].key == key; }
    }
  }

  /** A push succeeds just when the key exists and the callback returns; its element is then
      the first or the last of the key's deque. Otherwise nothing changes, and nothing ever
      does for another key. */
  lemma PushOutcome<T>(s: State<T>, front: bool, key: int, element: T, callback: Callback)
    requires Sorted(s.entries)
    ensures var (s', ok) := Pushed(s, front, key, element, callback);
      var was := Content(s.entries, key);
      && (ok <==> Has(s.entries, key) && callback == Returns)
      && Content(s'.entries, key) == (if !ok then was else if front then [element] + was else was + [element])
      && (forall k :: k != key ==> Content(s'.entries, k) == Content(s.entries, k))
      && SameKeys(s.entries, s'.entries) && Sorted(s'.entries) && s'.next == s.next
  {
    var i := Find(s.entries, key);
    FindHas(s.entries, key);
    if i < |s.entries| && callback == Returns {
      var deque := s.entries[i].deque;
      var deque' := if front then [element] + deque else deque + [element];
      forall k ensures Content(With(s.entries, i, deque'), k) == if k == key then deque' else Content(s.entries, k) {
        WithKeeps(s.entries, i, deque', k);
      }
      WithKeeps(s.entries, i, deque', key);
    }
  }

  /** A pop offers the front of the first non-empty deque from where the last one stopped, or
      none if there is none up to the end; takes it off just when the callback accepts it; and
      stops behind it. */
  lemma PopOutcome<T>(s: State<T>, accept: T -> bool)
    requires Sorted(s.entries)
    ensures var s', j, start := Popped(s, accept), Offer(s), if s.next < |s.entries| then s.next else 0;
      && (j < |s.entries| <==> exists k :: start <= k < |s.entries| && s.entries[k].deque != [])
      && (forall k :: start <= k < j ==> s.entries[k].deque == [])
      && SameKeys(s.entries, s'.entries) && Sorted(s'.entries)
      && s'.next == (if j < |s.entries| then j + 1 else |s.entries|)
      && (j == |s.entries| ==> s'.entries == s.entries)
      && (j < |s.entries| ==>
            var key, was := s.entries[j].key, Content(s.entries, s.entries[j].key);
            && start <= j && was != []
            && Content(s'.entries, key) == (if accept(was[0]) then was[1..] else was)
            && forall k :: k != key ==> Content(s'.entries, k) == Content(s.entries, k))
  {
    var j := Offer(s);
    if j < |s.entries| {
      var deque := s.entries[j].deque;
      WithKeeps(s.entries, j, deque, s.entries[j].key);
      forall k ensures Content(With(s.entries, j, deque[1..]), k) == if k == s.entries[j].key then deque[1..] else Content(s.entries, k) {
        WithKeeps(s.entries, j, deque[1..], k);
      }
      WithKeeps(s.entries, j, deque[1..], s.entries[j].key);
    }
  }

  /** Afterwards the key exists, with what it held or with nothing; all else is as it was. */
  lemma InsertOutcome<T>(s: State<T>, key: int)
    requires Sorted(s.entries)
    ensures var s' := Inserted(s, key);
      && (forall k :: Has(s'.entries, k) <==> Has(s.entries, k) || k == key)
      && (forall k :: Content(s'.entries, k) == Content(s.entries, k))
      && Sorted(s'.entries) && s'.next == s.next
  {
    var s', i := Inserted(s, key), Place(s.entries, key);
    InsertSorted(s, key);
    forall k ensures Content(s'.entries, k) == Content(s.entries, k) { InsertKeeps(s, key, k); }
    if i == |s.entries| || s.entries[i].key != key {
      assert s.entries == s.entries[..i] + s.entries[i..];
      forall k ensures Has(s'.entries, k) <==> Has(s.entries, k) || k == key {
        HasParts(s.entries[..i], s.entries[i..], k);
        HasParts(s.entries[..i] + [Entry(key, [])], s.entries[i..], k);
        HasParts(s.entries[..i], [Entry(key, [])], k);
        HasOne<T>(Entry(key, []), k);
      }
    } else {
      assert Has(s.entries, key);
    }
  }

  lemma HasParts<T>(a: seq<Entry<T>>, b: seq<Entry<T>>, key: int)
    ensures Has(a + b, key) <==> Has(a, key) || Has(b, key)
  {
    if i :| 0 <= i < |a| && a[i].key == key { assert (a + b)[i].key == key; }
    if i :| 0 <= i < |b| && b[i].key == key { assert (a + b)[|a| + i].key == key; }
  }

  lemma HasOne<T>(e: Entry<T>, key: int)
    ensures Has([e], key) <==> e.key == key
  {
    assert [e][0] == e;
  }

  /** Afterwards the key does not exist; all other keys are as they were. */
  lemma EraseOutcome<T>(s: State<T>, key: int)
    requires Sorted(s.entries)
    ensures var s' := Erased(s, key);
      && (forall k :: Has(s'.entries, k) <==> Has(s.entries, k) && k != key)
      && (forall k :: k != key ==> Content(s'.entries, k) == Content(s.entries, k))
      && Sorted(s'.entries) && s'.next == s.next
  {
    var s', i := Erased(s, key), Find(s.entries, key);
    EraseSorted(s, key);
    FindHas(s.entries, key);
    forall k | k != key ensures Content(s'.entries, k) == Content(s.entries, k) { EraseKeeps(s, key, k); }
    if i < |s.entries| {
      var a, b := s.entries[..i], s.entries[i + 1..];
      assert s.entries == a + [s.entries[i]] + b;
      forall k ensures Has(s'.entries, k) <==> Has(s.entries, k) && k != key {
        HasParts(a, b, k);
        HasParts(a + [s.entries[i]], b, k);
        HasParts(a, [s.entries[i]], k);
        HasOne(s.entries[i], k);
        OnlyThere(s.entries, i, k);
      }
    }
  }

  lemma OnlyThere<T>(entries: seq<Entry<T>>, i: nat, key: int)
    requires Sorted(entries) && i < |entries|
    ensures entries[i].key == key ==> !Has(entries[..i], key) && !Has(entries[i + 1..], key)
  {
  }
}
