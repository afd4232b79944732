/** ThreadLocalCache: a value under a mutex, an atomic update flag, and for every thread a
    copy of the value with the flag it was copied under.

    An update writes the value under the mutex and raises the flag afterwards, outside it; a
    reader looks at the flag, and if it differs copies value and flag under the mutex. Each
    of these accesses is a step, and between two steps of one thread any other may run. */
module ThreadLocalCacheModel {
  import opened Basics

  const WRAP: nat := 0x1_0000_0000

  /** What one thread keeps: its copy and the flag it goes with. */
  datatype Copy<T> = Copy(value: T, flag: nat)

  function Raised(flag: nat): nat { if flag + 1 == WRAP then 0 else flag + 1 }

  // The flag after so many raises
  function FlagAt(first: nat, raises: nat): nat { (first + raises) % WRAP }

  lemma RaisedFlag(first: nat, raises: nat)
    ensures Raised(FlagAt(first, raises)) == FlagAt(first, raises + 1)
  {
  }

  // A thread's copy of the flag: from when it had been raised `at` times, or never made
  predicate CopyFlagOk(first: nat, raises: nat, flag: nat, at: Option<nat>) {
    match at case None => flag == 0 case Some(k) => k <= raises && flag == FlagAt(first, k)
  }

  // No raise since then, or whole cycles; for a copy never made, to zero
  predicate CameRound(first: nat, raises: nat, at: Option<nat>) {
    match at case None => (first + raises) % WRAP == 0 case Some(k) => (raises - k) % WRAP == 0
  }

  lemma CameRoundIff(first: nat, raises: nat, flag: nat, at: Option<nat>)
    requires CopyFlagOk(first, raises, flag, at)
    ensures FlagAt(first, raises) == flag <==> CameRound(first, raises, at)
  {
  }

  /** The accesses to the shared cell and to the calling thread's copy. */
  class ThreadLocalCache<T> {
    var m_Value: T
    var m_ValueUpdateFlag: nat
    var m_Copies: seq<Copy<T>>
    ghost const m_First: nat          // the flag at the start
    ghost var m_Raises: nat           // how often it was raised
    ghost var m_At: seq<Option<nat>>  // and had been when each thread copied it

    ghost predicate Valid()
      reads this
    {
      && 0 < m_First < WRAP && m_ValueUpdateFlag == FlagAt(m_First, m_Raises) && |m_At| == |m_Copies|
      && forall t :: 0 <= t < |m_Copies| ==> CopyFlagOk(m_First, m_Raises, m_Copies[t].flag, m_At[t])
    }

    ghost function View(): Cell<T>
      reads this
    {
      Cell(m_Value, m_ValueUpdateFlag, m_Copies)
    }

    constructor (value: T, flag: nat, threads: nat, empty: T)
      requires 0 < flag < WRAP
      ensures Valid() && m_Raises == 0 && View() == Cell(value, flag, seq(threads, _ => Copy(empty, 0)))
    {
      m_Value, m_ValueUpdateFlag := value, flag;
      m_Copies := seq(threads, _ => Copy(empty, 0));
      m_First, m_Raises, m_At := flag, 0, seq(threads, _ => None);
    }

    method WriteValue(function_: T -> T)
      requires Valid()
      modifies this`m_Value
      ensures Valid() && View() == Written(old(View()), function_)
    {
      m_Value := function_(m_Value);
    }

    method RaiseFlag()
      requires Valid()
      modifies this`m_ValueUpdateFlag, this`m_Raises
      ensures Valid() && View() == Flagged(old(View())) && m_Raises == old(m_Raises) + 1
    {
      RaisedFlag(m_First, m_Raises);
      m_ValueUpdateFlag := Raised(m_ValueUpdateFlag);
      m_Raises := m_Raises + 1;
    }

    /** A copy counts as expired just when the flag has been raised since it was made, but for
        whole cycles of the flag. */
    method IsCacheExpired(t: Tid) returns (expired: bool)
      requires Valid() && t < |m_Copies|
      ensures expired == Expired(View(), t) == !CameRound(m_First, m_Raises, m_At[t])
    {
      CameRoundIff(m_First, m_Raises, m_Copies[t].flag, m_At[t]);
      expired := m_ValueUpdateFlag != m_Copies[t].flag;
    }

    method CopyValue(t: Tid)
      requires Valid() && t < |m_Copies|
      modifies this`m_Copies
      ensures Valid() && View() == Copied(old(View()), t)
    {
      m_Copies := m_Copies[t := m_Copies[t].(value := m_Value)];
    }

    method CopyFlag(t: Tid)
      requires Valid() && t < |m_Copies|
      modifies this`m_Copies, this`m_At
      ensures Valid() && View() == FlagCopied(old(View()), t) && m_At == old(m_At)[t := Some(m_Raises)]
    {
      m_Copies := m_Copies[t := m_Copies[t].(flag := m_ValueUpdateFlag)];
      m_At := m_At[t := Some(m_Raises)];
    }
  }

  datatype Cell<T> = Cell(value: T, flag: nat, copies: seq<Copy<T>>)

  function Written<T>(c: Cell<T>, f: T -> T): Cell<T> { c.(value := f(c.value)) }
  function Flagged<T>(c: Cell<T>): Cell<T> { c.(flag := Raised(c.flag)) }
  predicate Expired<T>(c: Cell<T>, t: Tid)
    requires t < |c.copies|
  {
    c.flag != c.copies[t].flag
  }
  function Copied<T>(c: Cell<T>, t: Tid): Cell<T>
    requires t < |c.copies|
  {
    c.(copies := c.copies[t := c.copies[t].(value := c.value)])
  }
  function FlagCopied<T>(c: Cell<T>, t: Tid): Cell<T>
    requires t < |c.copies|
  {
    c.(copies := c.copies[t := c.copies[t].(flag := c.flag)])
  }

  // ---------------------------------------------------------------- the protocol

  /** Updates are numbered by the order in which they wrote. `floor` is the newest update
      that had returned when a GetCache began. */
  datatype Pc =
    | Idle
    | InUpdate | Wrote(mine: nat) | Unflagged(mine: nat)
    | Started(floor: nat) | Waiting(floor: nat) | Refreshing(floor: nat) | HasValue(floor: nat) | HasBoth(floor: nat)
    | Got(floor: nat, version: Option<nat>, stale: bool)

  /** version: which update the copy holds, None for a default-constructed one; at: how often
      the flag had been raised when it was copied; stale in Got: the flag matched although it
      had been raised since. */
  datatype Local = Local(pc: Pc, version: Option<nat>, at: Option<nat>)

  /** history: every value the master has held; done[k]: the newest update that had returned
      when the flag had been raised k times. */
  datatype State<T> = State(
    cell: Cell<T>, lock: Option<Tid>, ts: seq<Local>, history: seq<T>, done: seq<nat>, first: nat, empty: T)

  datatype Step<!T> =
    | BeginUpdate(t: Tid) | Write(t: Tid, f: T -> T) | Leave(t: Tid) | Raise(t: Tid)
    | BeginGet(t: Tid) | Check(t: Tid) | Enter(t: Tid) | CopyValue(t: Tid) | CopyFlag(t: Tid) | Release(t: Tid)
    | EndGet(t: Tid)

  function Raises<T>(s: State<T>): nat { if s.done == [] then 0 else |s.done| - 1 }
  function Newest<T>(s: State<T>): nat { if s.history == [] then 0 else |s.history| - 1 }
  function Done<T>(s: State<T>): nat { if s.done == [] then 0 else s.done[|s.done| - 1] }

  predicate Ready(l: Local, lock: Option<Tid>, step: Step)
  {
    match step
    case BeginUpdate(_) => l.pc.Idle? && lock.None?
    case Write(_, _) => l.pc.InUpdate?
    case Leave(_) => l.pc.Wrote?
    case Raise(_) => l.pc.Unflagged?
    case BeginGet(_) => l.pc.Idle?
    case Check(_) => l.pc.Started?
    case Enter(_) => l.pc.Waiting? && lock.None?
    case CopyValue(_) => l.pc.Refreshing?
    case CopyFlag(_) => l.pc.HasValue?
    case Release(_) => l.pc.HasBoth?
    case EndGet(_) => l.pc.Got?
  }

  predicate Enabled<T>(s: State<T>, step: Step<T>) {
    step.t < |s.ts| && |s.cell.copies| == |s.ts| && Ready(s.ts[step.t], s.lock, step)
  }

  function Place<T>(s: State<T>, t: Tid, l: Local): State<T>
    requires t < |s.ts|
  {
    s.(ts := s.ts[t := l])
  }

  function Max(a: nat, b: nat): nat { if a < b then b else a }

  function Apply<T>(s: State<T>, step: Step<T>): State<T>
    requires Enabled(s, step)
  {
    var t := step.t;
    var l := s.ts[t];
    match step
    case BeginUpdate(_) => Place(s, t, l.(pc := InUpdate)).(lock := Some(t))
    case Write(_, f) =>
      var c := Written(s.cell, f);
      Place(s, t, l.(pc := Wrote(|s.history|))).(cell := c, history := s.history + [c.value])
    case Leave(_) => Place(s, t, l.(pc := Unflagged(l.pc.mine))).(lock := None)
    case Raise(_) => Place(s, t, l.(pc := Idle)).(cell := Flagged(s.cell), done := s.done + [Max(Done(s), l.pc.mine)])
    case BeginGet(_) => Place(s, t, l.(pc := Started(Done(s))))
    case Check(_) =>
      if Expired(s.cell, t) then Place(s, t, l.(pc := Waiting(l.pc.floor)))
      else Place(s, t, l.(pc := Got(l.pc.floor, l.version, l.at != Some(Raises(s)))))
    case Enter(_) => Place(s, t, l.(pc := Refreshing(l.pc.floor))).(lock := Some(t))
    case CopyValue(_) => Place(s, t, l.(pc := HasValue(l.pc.floor), version := Some(Newest(s)))).(cell := Copied(s.cell, t))
    case CopyFlag(_) => Place(s, t, l.(pc := HasBoth(l.pc.floor), at := Some(Raises(s)))).(cell := FlagCopied(s.cell, t))
    case Release(_) => Place(s, t, l.(pc := Got(l.pc.floor, l.version, false))).(lock := None)
    case EndGet(_) => Place(s, t, l.(pc := Idle))
  }

  // The constructor draws any flag but zero
  ghost predicate Init<T>(s: State<T>) {
    && s.lock.None? && 0 < s.first < WRAP && s.cell.flag == s.first
    && s.history == [s.cell.value] && s.done == [0]
    && |s.cell.copies| == |s.ts|
    && forall t :: 0 <= t < |s.ts| ==> s.ts[t] == Local(Idle, None, None) && s.cell.copies[t] == Copy(s.empty, 0)
  }

  predicate Runs<T>(s: State<T>, steps: seq<Step<T>>)
    decreases |steps|
  {
    steps == [] || (Enabled(s, steps[0]) && Runs(Apply(s, steps[0]), steps[1..]))
  }

  function Exec<T>(s: State<T>, steps: seq<Step<T>>): State<T>
    requires Runs(s, steps)
    decreases |steps|
  {
    if steps == [] then s else Exec(Apply(s, steps[0]), steps[1..])
  }

  // ---------------------------------------------------------------- the invariant

  predicate HoldsLock(pc: Pc) { pc.InUpdate? || pc.Wrote? || pc.Refreshing? || pc.HasValue? || pc.HasBoth? }

  // Not older than
  predicate AtLeast(version: Option<nat>, floor: nat) { version.Some? && version.value >= floor }

  // A copy is the update its version names, and was made no earlier than its flag says
  ghost predicate CopyOk<T>(s: State<T>, c: Copy<T>, l: Local) {
    && (match l.version
        case None => c.value == s.empty
        case Some(v) => v < |s.history| && c.value == s.history[v])
    && (match l.at
        case None => c.flag == 0
        case Some(k) => k < |s.done| && c.flag == FlagAt(s.first, k) && AtLeast(l.version, s.done[k]))
  }

  ghost predicate PcOk<T>(s: State<T>, l: Local) {
    match l.pc
    case Wrote(v) => v <= Newest(s)
    case Unflagged(v) => v <= Newest(s)
    case Started(floor) => floor <= Done(s)
    case Waiting(floor) => floor <= Done(s)
    case Refreshing(floor) => floor <= Done(s)
    case HasValue(floor) => floor <= Done(s) && l.version == Some(Newest(s))
    case HasBoth(floor) => AtLeast(l.version, floor)
    case Got(floor, v, stale) => v == l.version && (!stale ==> AtLeast(v, floor)) && (stale ==> Raises(s) + s.first >= WRAP)
    case _ => true
  }

  ghost predicate Shape<T>(s: State<T>) {
    && s.history != [] && s.done != [] && s.cell.value == s.history[Newest(s)]
    && 0 < s.first < WRAP && s.cell.flag == FlagAt(s.first, Raises(s))
    && (forall k :: 0 <= k < |s.done| ==> s.done[k] <= Done(s))
    && Done(s) <= Newest(s)
    && |s.cell.copies| == |s.ts|
  }

  ghost predicate Inv<T>(s: State<T>) {
    && Shape(s)
    && forall t :: 0 <= t < |s.ts| ==> ThreadOk(s, t)
  }

  ghost predicate ThreadOk<T>(s: State<T>, t: Tid)
    requires t < |s.ts| == |s.cell.copies|
  {
    CopyOk(s, s.cell.copies[t], s.ts[t]) && PcOk(s, s.ts[t]) && (HoldsLock(s.ts[t].pc) <==> s.lock == Some(t))
  }

  /** When the flag matches a copy's: the copy is up to date with the flag, or the flag has
      come round to it - to zero, for a copy never made. */
  lemma FlagMatchesIff<T>(s: State<T>, t: Tid)
    requires Inv(s) && t < |s.ts|
    ensures !Expired(s.cell, t) <==> CameRound(s.first, Raises(s), s.ts[t].at)
    ensures !Expired(s.cell, t) ==> s.ts[t].at == Some(Raises(s)) || s.first + Raises(s) >= WRAP
  {
    assert ThreadOk(s, t);
    CameRoundIff(s.first, Raises(s), s.cell.copies[t].flag, s.ts[t].at);
    if !Expired(s.cell, t) { RoundIsLong(s.first, Raises(s), s.ts[t].at); }
  }

  // Coming round without standing still takes a whole cycle, or what is left to zero
  lemma RoundIsLong(first: nat, raises: nat, at: Option<nat>)
    requires first > 0 && (at.Some? ==> at.value <= raises) && CameRound(first, raises, at)
    ensures at == Some(raises) || first + raises >= WRAP
  {
    var gone := if at.Some? then raises - at.value else first + raises;
    assert gone % 0x1_0000_0000 == 0 ==> gone == 0 || gone >= 0x1_0000_0000;
  }

  lemma StepShape<T>(s: State<T>, step: Step<T>)
    requires Inv(s) && Enabled(s, step)
    ensures Shape(Apply(s, step))
  {
    assert ThreadOk(s, step.t);
    RaisedFlag(s.first, Raises(s));
  }

  lemma StepOwn<T>(s: State<T>, step: Step<T>)
    requires Inv(s) && Enabled(s, step) && Shape(Apply(s, step))
    ensures ThreadOk(Apply(s, step), step.t)
  {
    assert ThreadOk(s, step.t);
    if step.Check? { FlagMatchesIff(s, step.t); }
  }

  // A thread that does not move is unaffected by others' progress
  lemma StillOk<T>(s: State<T>, s': State<T>, u: Tid)
    requires Shape(s) && Shape(s') && u < |s.ts| == |s'.ts| && ThreadOk(s, u)
    requires s'.ts[u] == s.ts[u] && s'.cell.copies[u] == s.cell.copies[u] && s'.first == s.first && s'.empty == s.empty
    requires s.history <= s'.history && s.done <= s'.done && Done(s) <= Done(s')
    requires s.lock == Some(u) <==> s'.lock == Some(u)
    requires s.lock == Some(u) ==> s'.history == s.history
    ensures ThreadOk(s', u)
  {
  }

  lemma StepOther<T>(s: State<T>, step: Step<T>, u: Tid)
    requires Inv(s) && Enabled(s, step) && Shape(Apply(s, step)) && u < |s.ts| && u != step.t
    ensures ThreadOk(Apply(s, step), u)
  {
    assert ThreadOk(s, u) && ThreadOk(s, step.t);
    StillOk(s, Apply(s, step), u);
  }

  lemma InvStep<T>(s: State<T>, step: Step<T>)
    requires Inv(s) && Enabled(s, step)
    ensures Inv(Apply(s, step))
  {
    StepShape(s, step);
    StepOwn(s, step);
    forall u | 0 <= u < |s.ts| && u != step.t ensures ThreadOk(Apply(s, step), u) {
      StepOther(s, step, u);
    }
  }

  lemma {:induction false} InvRun<T>(s: State<T>, steps: seq<Step<T>>)
    requires Inv(s) && Runs(s, steps)
    ensures Inv(Exec(s, steps)) && |Exec(s, steps).ts| == |s.ts| && Exec(s, steps).first == s.first
    decreases |steps|
  {
    if steps != [] {
      InvStep(s, steps[0]);
      InvRun(Apply(s, steps[0]), steps[1..]);
    }
  }

  lemma InvInit<T>(s: State<T>)
    requires Init(s)
    ensures Inv(s)
  {
  }

  // ---------------------------------------------------------------- what a reader gets

  /** What GetCache returns is a value the master has held, or a default-constructed one; it is
      at least as new as every update that had returned when the call began, unless the flag
      came round to the thread's own - which takes it passing zero. */
  lemma GetCacheIsFresh<T>(init: State<T>, steps: seq<Step<T>>, t: Tid)
    requires Init(init) && Runs(init, steps) && t < |init.ts|
    ensures var s := Exec(init, steps);
      && |s.ts| == |s.cell.copies| == |init.ts|
      && (s.ts[t].pc.Got? ==>
            var Got(floor, version, stale) := s.ts[t].pc;
            && (!stale ==> AtLeast(version, floor))
            && (init.first + Raises(s) < WRAP ==> !stale)
            && (version.Some? ==> version.value < |s.history| && s.cell.copies[t].value == s.history[version.value])
            && (version.None? ==> s.cell.copies[t].value == s.empty))
  {
    InvInit(init);
    InvRun(init, steps);
    assert ThreadOk(Exec(init, steps), t);
  }

  /** Updates that had returned when the call began are exactly those the floor counts: an
      update that returns raises it to its own number or finds it higher. */
  lemma ReturnedUpdatesCount<T>(s: State<T>, t: Tid)
    requires Inv(s) && Enabled(s, Raise(t))
    ensures Done(Apply(s, Raise(t))) >= s.ts[t].pc.mine && Done(Apply(s, Raise(t))) >= Done(s)
    ensures Done(Apply(s, Raise(t))) in [s.ts[t].pc.mine, Done(s)]
  {
  }

  function Rank(version: Option<nat>): int { match version case None => -1 case Some(v) => v }

  /** No thread ever sees its copy go back to an older update, wrap or no wrap. */
  lemma {:induction false} CopiesNeverGoBack<T>(s: State<T>, steps: seq<Step<T>>, t: Tid)
    requires Inv(s) && Runs(s, steps) && t < |s.ts|
    ensures |Exec(s, steps).ts| == |s.ts|
    ensures Rank(s.ts[t].version) <= Rank(Exec(s, steps).ts[t].version)
    decreases |steps|
  {
    if steps != [] {
      assert ThreadOk(s, t);
      InvStep(s, steps[0]);
      CopiesNeverGoBack(Apply(s, steps[0]), steps[1..], t);
    }
  }

  // ---------------------------------------------------------------- every call gets there

  ghost predicate Reaches<T>(s: State<T>, steps: seq<Step<T>>, e: State<T>) { Runs(s, steps) && Exec(s, steps) == e }

  lemma ReachesCons<T>(s: State<T>, step: Step<T>, m: State<T>, rest: seq<Step<T>>, e: State<T>)
    requires Enabled(s, step) && Apply(s, step) == m && Reaches(m, rest, e)
    ensures Reaches(s, [step] + rest, e)
  {
    assert ([step] + rest)[1..] == rest;
  }

  // The steps of an update when nobody steps in between, and of a call that refreshes its copy
  function UpdateSteps<T>(t: Tid, f: T -> T): seq<Step<T>> {
    [BeginUpdate(t)] + ([Write(t, f)] + ([Leave(t)] + [Raise(t)]))
  }

  function CopySteps<T>(t: Tid): seq<Step<T>> { [Enter(t)] + ([CopyValue(t)] + ([CopyFlag(t)] + [Release(t)])) }

  function LookSteps<T>(t: Tid): seq<Step<T>> { [BeginGet(t)] + [Check(t)] }

  lemma ReachesTwo<T>(s: State<T>, a: Step<T>, b: Step<T>)
    requires Enabled(s, a) && Enabled(Apply(s, a), b)
    ensures Reaches(s, [a] + [b], Apply(Apply(s, a), b))
  {
    var e := Apply(Apply(s, a), b);
    assert Reaches(e, [], e);
    assert [b] + [] == [b];
    ReachesCons(Apply(s, a), b, e, [], e);
    ReachesCons(s, a, Apply(s, a), [b], e);
  }

  lemma ReachesFour<T>(s: State<T>, a: Step<T>, b: Step<T>, c: Step<T>, d: Step<T>)
    requires Enabled(s, a) && Enabled(Apply(s, a), b) && Enabled(Apply(Apply(s, a), b), c)
    requires Enabled(Apply(Apply(Apply(s, a), b), c), d)
    ensures Reaches(s, [a] + ([b] + ([c] + [d])), Apply(Apply(Apply(Apply(s, a), b), c), d))
  {
    var s1 := Apply(s, a);
    var s2 := Apply(s1, b);
    ReachesTwo(s2, c, d);
    ReachesCons(s1, b, s2, [c] + [d], Apply(Apply(s2, c), d));
    ReachesCons(s, a, s1, [b] + ([c] + [d]), Apply(Apply(s2, c), d));
  }

  // What t alone came to: its copy and its own state, and who holds the mutex
  ghost predicate OnlyOwn<T>(s: State<T>, e: State<T>, t: Tid, copy: Copy<T>, l: Local)
    requires t < |s.ts| == |s.cell.copies|
  {
    && e.ts == s.ts[t := l] && e.cell.copies == s.cell.copies[t := copy]
    && e.lock == s.lock && e.first == s.first && e.empty == s.empty
  }

  /** An update that finds the mutex free, left alone, gets there: the value is what its function
      makes of the last one, the flag is raised, and all that is newest counts as returned. */
  lemma UpdateOutcome<T>(s: State<T>, t: Tid, f: T -> T) returns (e: State<T>)
    requires Inv(s) && t < |s.ts| && s.ts[t].pc.Idle? && s.lock.None?
    ensures Reaches(s, UpdateSteps(t, f), e) && OnlyOwn(s, e, t, s.cell.copies[t], s.ts[t])
    ensures e.cell.value == f(s.cell.value) && e.cell.flag == (s.cell.flag + 1) % 0x1_0000_0000
    ensures e.history == s.history + [f(s.cell.value)]
    ensures Raises(e) == Raises(s) + 1 && Done(e) == Newest(e) == |s.history|
  {
    var s1 := Apply(s, BeginUpdate(t));
    var s2 := Apply(s1, Write(t, f));
    var s3 := Apply(s2, Leave(t));
    e := Apply(s3, Raise(t));
    ReachesFour(s, BeginUpdate(t), Write(t, f), Leave(t), Raise(t));
    assert Done(s) <= Newest(s);
  }

  /** GetCache looks at the flag, whoever holds the mutex: if it is the copy's it returns the copy
      as it is, and otherwise it goes for the mutex. */
  lemma GetLooks<T>(s: State<T>, t: Tid) returns (e: State<T>)
    requires Inv(s) && t < |s.ts| && s.ts[t].pc.Idle?
    ensures Reaches(s, LookSteps(t), e) && e.cell == s.cell && e.history == s.history && e.done == s.done
    ensures var pc := if s.cell.flag == s.cell.copies[t].flag then Got(Done(s), s.ts[t].version, s.ts[t].at != Some(Raises(s)))
                      else Waiting(Done(s));
      OnlyOwn(s, e, t, s.cell.copies[t], s.ts[t].(pc := pc))
  {
    ReachesTwo(s, BeginGet(t), Check(t));
    e := Apply(Apply(s, BeginGet(t)), Check(t));
  }

  /** Once the mutex is free, a call that went for it, left alone, makes the copy the newest value
      with its flag and returns it. */
  lemma GetCopies<T>(s: State<T>, t: Tid) returns (e: State<T>)
    requires Inv(s) && t < |s.ts| && s.ts[t].pc.Waiting? && s.lock.None?
    ensures Reaches(s, CopySteps(t), e) && e.history == s.history && e.done == s.done
    ensures e.cell.value == s.cell.value && e.cell.flag == s.cell.flag
    ensures OnlyOwn(s, e, t, Copy(s.cell.value, s.cell.flag),
                    Local(Got(s.ts[t].pc.floor, Some(Newest(s)), false), Some(Newest(s)), Some(Raises(s))))
  {
    ReachesFour(s, Enter(t), CopyValue(t), CopyFlag(t), Release(t));
    e := Apply(Apply(Apply(Apply(s, Enter(t)), CopyValue(t)), CopyFlag(t)), Release(t));
  }

  // ---------------------------------------------------------------- the condition is needed

  // One thread that makes every update, and one that asks for the value
  function Two(pc: Pc, reader: Pc, lock: Option<Tid>, first: nat, flag: nat, history: seq<int>, done: seq<nat>): State<int>
    requires history != []
  {
    State(Cell(history[|history| - 1], flag, [Copy(0, 0), Copy(0, 0)]), lock,
          [Local(pc, None, None), Local(reader, None, None)], history, done, first, 0)
  }

  // The initial value, then what each of k updates wrote; and the updates by number
  function Values(k: nat): (h: seq<int>)
    ensures |h| == k + 1
  {
    seq(k + 1, i => if i == 0 then 7 else 8)
  }

  function Numbers(k: nat): (d: seq<nat>)
    ensures |d| == k + 1
  {
    seq(k + 1, i => i)
  }

  function AfterUpdates(first: nat, k: nat, reader: Pc): State<int> {
    Two(Idle, reader, None, first, FlagAt(first, k), Values(k), Numbers(k))
  }

  lemma UpdateReaches(first: nat, k: nat, reader: Pc, rest: seq<Step<int>>, e: State<int>) returns (steps: seq<Step<int>>)
    requires Reaches(AfterUpdates(first, k + 1, reader), rest, e)
    ensures Reaches(AfterUpdates(first, k, reader), steps, e)
  {
    var f := (x: int) => 8;
    var flag, values, numbers := FlagAt(first, k), Values(k), Numbers(k);
    assert Values(k + 1) == values + [8] && Numbers(k + 1) == numbers + [k + 1];
    RaisedFlag(first, k);
    var b := Two(InUpdate, reader, Some(0), first, flag, values, numbers);
    var c := Two(Wrote(k + 1), reader, Some(0), first, flag, Values(k + 1), numbers);
    var d := Two(Unflagged(k + 1), reader, None, first, flag, Values(k + 1), numbers);
    ReachesCons(d, Raise(0), AfterUpdates(first, k + 1, reader), rest, e);
    ReachesCons(c, Leave(0), d, [Raise(0)] + rest, e);
    ReachesCons(b, Write(0, f), c, [Leave(0)] + ([Raise(0)] + rest), e);
    steps := [Write(0, f)] + ([Leave(0)] + ([Raise(0)] + rest));
    ReachesCons(AfterUpdates(first, k, reader), BeginUpdate(0), b, steps, e);
    steps := [BeginUpdate(0)] + steps;
  }

  lemma {:induction false} UpdatesReach(first: nat, k: nat, n: nat, reader: Pc, rest: seq<Step<int>>, e: State<int>)
    returns (steps: seq<Step<int>>)
    requires k <= n && Reaches(AfterUpdates(first, n, reader), rest, e)
    ensures Reaches(AfterUpdates(first, k, reader), steps, e)
    decreases n - k
  {
    steps := rest;
    if k < n {
      steps := UpdatesReach(first, k + 1, n, reader, rest, e);
      steps := UpdateReaches(first, k, reader, steps, e);
    }
  }

  lemma GetReaches(first: nat, n: nat, rest: seq<Step<int>>, e: State<int>)
    requires FlagAt(first, n) == 0 && Reaches(AfterUpdates(first, n, Got(n, None, true)), rest, e)
    ensures Reaches(AfterUpdates(first, n, Idle), [BeginGet(1)] + ([Check(1)] + rest), e)
  {
    ReachesCons(AfterUpdates(first, n, Started(n)), Check(1), AfterUpdates(first, n, Got(n, None, true)), rest, e);
    ReachesCons(AfterUpdates(first, n, Idle), BeginGet(1), AfterUpdates(first, n, Started(n)), [Check(1)] + rest, e);
  }

  // A run from some starting flag and with so many raises, and a thread in it that is handed
  // a value older than an update that had returned when it asked
  ghost predicate ServesStale(first: nat, raises: nat, init: State<int>, steps: seq<Step<int>>, s: State<int>, t: Tid) {
    && Init(init) && init.first == first && Reaches(init, steps, s) && Raises(s) == raises
    && t < |s.ts| && s.ts[t].pc.Got? && !AtLeast(s.ts[t].pc.version, s.ts[t].pc.floor)
  }

  /** Whatever flag the cache starts with, so many updates bring it to zero, the flag of a
      copy never made: a GetCache then returns the default-constructed value, however many
      updates follow before it has. */
  lemma WrappedFlagServesNoValue(first: nat, raises: nat)
    requires 0 < first < WRAP && first + raises >= WRAP
    ensures exists init, steps, s :: ServesStale(first, raises, init, steps, s, 1) && s.ts[1].pc == Got(WRAP - first, None, true)
  {
    var n := WRAP - first;
    var got := Got(n, None, true);
    var e := AfterUpdates(first, raises, got);
    assert FlagAt(first, n) == 0;
    assert Reaches(e, [], e);
    var steps := UpdatesReach(first, n, raises, got, [], e);
    GetReaches(first, n, steps, e);
    steps := UpdatesReach(first, 0, n, Idle, [BeginGet(1)] + ([Check(1)] + steps), e);
    assert Values(0) == [7] && Numbers(0) == [0];
    assert ServesStale(first, raises, AfterUpdates(first, 0, Idle), steps, e, 1);
  }

  /** A value can be stale exactly when the flag can have wrapped: for every starting flag and
      number of raises, some run with so many serves one if and only if the two add up to
      the flag's range. */
  lemma StaleIffWrapped(first: nat, raises: nat)
    requires 0 < first < WRAP
    ensures (exists init, steps, s, t :: ServesStale(first, raises, init, steps, s, t)) <==> first + raises >= WRAP
  {
    if first + raises >= WRAP { WrappedFlagServesNoValue(first, raises); }
    forall init, steps, s, t | ServesStale(first, raises, init, steps, s, t) ensures first + raises >= WRAP {
      InvInit(init);
      InvRun(init, steps);
      GetCacheIsFresh(init, steps, t);
    }
  }
}
