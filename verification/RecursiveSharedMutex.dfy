/** RecursiveSharedMutex: a recursive writer lock with shared readers, built from one
    critical section and two condition variables.

    Every stay inside m_CriticalSection is one atomic step, written once as a method of
    the class and once as a function on the three guarded fields. A thread that sleeps
    on a condition leaves the critical section; notifications are sent after leaving it,
    so they are steps of their own and any other thread may run in between. */
module RecursiveSharedMutexModel {
  import opened Basics

  // unsigned long is 32 bits wide on the target platform
  const MAX_NUM_LOCKS: nat := 0xFFFF_FFFF

  datatype Fields = Fields(owner: Option<Tid>, excl: nat, shared: nat)

  /** How a thread leaves the critical section. */
  datatype Exit =
    | Done
    | Refused
    | Threw
    | SleepFirst   // asleep on m_Condition1
    | SleepSecond  // asleep on m_Condition2
    | OweAll       // must still call m_Condition1.NotifyAll
    | OweFirst     // must still call m_Condition1.NotifyOne
    | OweSecond    // must still call m_Condition2.NotifyOne

  // Unsigned decrement, as it behaves when the asserts are compiled out
  function Dec(n: nat): nat { if n == 0 then MAX_NUM_LOCKS else n - 1 }

  function Claim(f: Fields, id: Tid): (Fields, Exit) {
    (Fields(Some(id), 1, f.shared), if f.shared != 0 then SleepSecond else Done)
  }

  function LockResume(f: Fields, id: Tid): (Fields, Exit) {
    if f.excl == 0 then Claim(f, id) else (f, SleepFirst)
  }

  function LockEnter(f: Fields, id: Tid): (Fields, Exit) {
    if f.owner != Some(id) then LockResume(f, id)
    else if f.excl < MAX_NUM_LOCKS then (f.(excl := f.excl + 1), Done)
    else (f, Threw)
  }

  function WriterResume(f: Fields): (Fields, Exit) {
    (f, if f.shared == 0 then Done else SleepSecond)
  }

  function TryLockEnter(f: Fields, id: Tid): (Fields, Exit) {
    if f.owner == Some(id) then
      if f.excl < MAX_NUM_LOCKS then (f.(excl := f.excl + 1), Done) else (f, Refused)
    else if f.excl == 0 && f.shared == 0 then (Fields(Some(id), 1, 0), Done)
    else (f, Refused)
  }

  function UnlockEnter(f: Fields): (Fields, Exit) {
    var left := Dec(f.excl);
    if left == 0 then (Fields(None, 0, f.shared), OweAll) else (f.(excl := left), Done)
  }

  function SharedResume(f: Fields): (Fields, Exit) {
    if f.excl == 0 && f.shared < MAX_NUM_LOCKS then (f.(shared := f.shared + 1), Done)
    else (f, SleepFirst)
  }

  function TrySharedEnter(f: Fields): (Fields, Exit) {
    if f.excl > 0 || f.shared == MAX_NUM_LOCKS then (f, Refused)
    else (f.(shared := f.shared + 1), Done)
  }

  function UnlockSharedEnter(f: Fields): (Fields, Exit) {
    var left := Dec(f.shared);
    (f.(shared := left),
     if f.excl > 0 then (if left == 0 then OweSecond else Done)
     else if left == MAX_NUM_LOCKS - 1 then OweFirst else Done)
  }

  /** The mutex object; each method runs from entering to leaving m_CriticalSection. */
  class RecursiveSharedMutex {
    var m_ExclusiveThreadID: Option<Tid>
    var m_ExclusiveLockCount: nat
    var m_SharedLockCount: nat

    ghost function View(): Fields
      reads this
    {
      Fields(m_ExclusiveThreadID, m_ExclusiveLockCount, m_SharedLockCount)
    }

    // The counters fit the machine's unsigned long
    ghost predicate Valid()
      reads this
    {
      m_ExclusiveLockCount <= MAX_NUM_LOCKS && m_SharedLockCount <= MAX_NUM_LOCKS
    }

    constructor ()
      ensures Valid() && View() == Fields(None, 0, 0)
    {
      m_ExclusiveThreadID := None;
      m_ExclusiveLockCount := 0;
      m_SharedLockCount := 0;
    }

    method Lock(id: Tid) returns (exit: Exit)
      requires Valid()
      modifies this
      ensures Valid() && (View(), exit) == LockEnter(old(View()), id)
    {
      exit := Done;
      if m_ExclusiveThreadID == Some(id) {
        if m_ExclusiveLockCount < MAX_NUM_LOCKS {
          m_ExclusiveLockCount := m_ExclusiveLockCount + 1;
        } else {
          exit := Threw;
        }
      } else if m_ExclusiveLockCount != 0 {
        exit := SleepFirst;
      } else {
        exit := TakeOwnership(id);
      }
    }

    // lock() past its first wait
    method TakeOwnership(id: Tid) returns (exit: Exit)
      requires Valid()
      modifies this
      ensures Valid() && (View(), exit) == Claim(old(View()), id)
    {
      m_ExclusiveThreadID := Some(id);
      m_ExclusiveLockCount := 1;
      exit := if m_SharedLockCount != 0 then SleepSecond else Done;
    }

    // lock() woken from its first wait: the predicate is tested again
    method ResumeLock(id: Tid) returns (exit: Exit)
      requires Valid()
      modifies this
      ensures Valid() && (View(), exit) == LockResume(old(View()), id)
    {
      if m_ExclusiveLockCount == 0 {
        exit := TakeOwnership(id);
      } else {
        exit := SleepFirst;
      }
    }

    // lock() woken from its second wait
    method ResumeWriter() returns (exit: Exit)
      ensures (View(), exit) == WriterResume(View())
    {
      exit := if m_SharedLockCount == 0 then Done else SleepSecond;
    }

    method TryLock(id: Tid) returns (exit: Exit)
      requires Valid()
      modifies this
      ensures Valid() && (View(), exit) == TryLockEnter(old(View()), id)
    {
      exit := Refused;
      if m_ExclusiveThreadID == Some(id) {
        if m_ExclusiveLockCount < MAX_NUM_LOCKS {
          m_ExclusiveLockCount := m_ExclusiveLockCount + 1;
          exit := Done;
        }
      } else if m_ExclusiveLockCount == 0 && m_SharedLockCount == 0 {
        m_ExclusiveThreadID := Some(id);
        m_ExclusiveLockCount := 1;
        exit := Done;
      }
    }

    method Unlock() returns (exit: Exit)
      requires Valid()
      modifies this
      ensures Valid() && (View(), exit) == UnlockEnter(old(View()))
    {
      exit := Done;
      m_ExclusiveLockCount := Dec(m_ExclusiveLockCount);
      if m_ExclusiveLockCount == 0 {
        m_ExclusiveThreadID := None;
        exit := OweAll;
      }
    }

    // lock_shared() tests the same condition on entry and after every wake-up
    method LockShared() returns (exit: Exit)
      requires Valid()
      modifies this
      ensures Valid() && (View(), exit) == SharedResume(old(View()))
    {
      if m_ExclusiveLockCount != 0 || m_SharedLockCount == MAX_NUM_LOCKS {
        exit := SleepFirst;
      } else {
        m_SharedLockCount := m_SharedLockCount + 1;
        exit := Done;
      }
    }

    method TryLockShared() returns (exit: Exit)
      requires Valid()
      modifies this
      ensures Valid() && (View(), exit) == TrySharedEnter(old(View()))
    {
      if m_ExclusiveLockCount > 0 || m_SharedLockCount == MAX_NUM_LOCKS {
        return Refused;
      }
      m_SharedLockCount := m_SharedLockCount + 1;
      exit := Done;
    }

    method UnlockShared() returns (exit: Exit)
      requires Valid()
      modifies this
      ensures Valid() && (View(), exit) == UnlockSharedEnter(old(View()))
    {
      exit := Done;
      m_SharedLockCount := Dec(m_SharedLockCount);
      if m_ExclusiveLockCount > 0 {
        if m_SharedLockCount == 0 {
          exit := OweSecond;
        }
      } else if m_SharedLockCount == MAX_NUM_LOCKS - 1 {
        exit := OweFirst;
      }
    }
  }

  // ---------------------------------------------------------------- the protocol

  /** Where a thread is. `full` remembers that a reader went to sleep because the shared
      counter was full, rather than because of a writer. */
  datatype Pc =
    | Idle
    | AsleepLock | AwakeLock
    | AsleepShared(full: bool) | AwakeShared
    | AsleepWriter | AwakeWriter
    | OwingAll | OwingFirst | OwingSecond

  /** depth: exclusive locks returned and not yet unlocked; shares: shared locks held. */
  datatype Local = Local(pc: Pc, depth: nat, shares: nat)

  datatype State = State(f: Fields, ts: seq<Local>)

  datatype Step =
    | Lock(t: Tid) | TryLock(t: Tid) | Unlock(t: Tid)
    | LockShared(t: Tid) | TryLockShared(t: Tid) | UnlockShared(t: Tid)
    | Spurious(t: Tid)
    | Resume(t: Tid)
    | NotifyAll(t: Tid)
    | NotifyOne(t: Tid, woken: Option<Tid>)

  predicate OnFirst(pc: Pc) { pc.AsleepLock? || pc.AsleepShared? }

  predicate Pending(pc: Pc) { pc.AsleepWriter? || pc.AwakeWriter? }

  function Wake(pc: Pc): Pc {
    match pc
    case AsleepLock => AwakeLock
    case AsleepShared(_) => AwakeShared
    case AsleepWriter => AwakeWriter
    case _ => pc
  }

  function Woken(l: Local): Local { l.(pc := Wake(l.pc)) }

  function WakeFirst(ts: seq<Local>): seq<Local> {
    seq(|ts|, i requires 0 <= i < |ts| => if OnFirst(ts[i].pc) then Woken(ts[i]) else ts[i])
  }

  /** NotifyOne wakes some sleeper of the condition, or nobody if it has none. */
  ghost predicate MayWake(ts: seq<Local>, first: bool, woken: Option<Tid>) {
    match woken
    case Some(w) => w < |ts| && if first then OnFirst(ts[w].pc) else ts[w].pc.AsleepWriter?
    case None => forall i :: 0 <= i < |ts| ==> if first then !OnFirst(ts[i].pc) else !ts[i].pc.AsleepWriter?
  }

  /** A thread starts a call only outside other calls, unlocks only what it holds (the
      two asserted usage rules), and continues a call as its place demands. */
  predicate Ready(l: Local, step: Step) {
    match step
    case Unlock(_) => l.pc.Idle? && l.depth > 0
    case UnlockShared(_) => l.pc.Idle? && l.shares > 0
    case Spurious(_) => OnFirst(l.pc) || l.pc.AsleepWriter?
    case Resume(_) => l.pc.AwakeLock? || l.pc.AwakeShared? || l.pc.AwakeWriter?
    case NotifyAll(_) => l.pc.OwingAll?
    case NotifyOne(_, _) => l.pc.OwingFirst? || l.pc.OwingSecond?
    case _ => l.pc.Idle?
  }

  ghost predicate Enabled(s: State, step: Step) {
    && step.t < |s.ts|
    && Ready(s.ts[step.t], step)
    && (step.NotifyOne? ==> MayWake(s.ts, s.ts[step.t].pc.OwingFirst?, step.woken))
  }

  // Bookkeeping for the caller after a stay inside the critical section

  function AfterLock(l: Local, r: (Fields, Exit)): Local {
    match r.1
    case Done => Local(Idle, l.depth + 1, l.shares)
    case SleepFirst => l.(pc := AsleepLock)
    case SleepSecond => l.(pc := AsleepWriter)
    case _ => l.(pc := Idle)
  }

  function AfterShared(l: Local, r: (Fields, Exit)): Local {
    match r.1
    case Done => Local(Idle, l.depth, l.shares + 1)
    case SleepFirst => l.(pc := AsleepShared(r.0.excl == 0))
    case _ => l.(pc := Idle)
  }

  function Owing(exit: Exit): Pc {
    match exit
    case OweAll => OwingAll
    case OweFirst => OwingFirst
    case OweSecond => OwingSecond
    case _ => Idle
  }

  /** What a step does to the guarded fields and to the thread that takes it. */
  function Body(f: Fields, t: Tid, l: Local, step: Step): (Fields, Local)
    requires Ready(l, step)
  {
    match step
    case Lock(_) => var r := LockEnter(f, t); (r.0, AfterLock(l, r))
    case TryLock(_) => var r := TryLockEnter(f, t); (r.0, AfterLock(l, r))
    case LockShared(_) => var r := SharedResume(f); (r.0, AfterShared(l, r))
    case TryLockShared(_) => var r := TrySharedEnter(f); (r.0, AfterShared(l, r))
    case Unlock(_) => var r := UnlockEnter(f); (r.0, Local(Owing(r.1), l.depth - 1, l.shares))
    case UnlockShared(_) => var r := UnlockSharedEnter(f); (r.0, Local(Owing(r.1), l.depth, l.shares - 1))
    case Resume(_) =>
      if l.pc.AwakeLock? then var r := LockResume(f, t); (r.0, AfterLock(l, r))
      else if l.pc.AwakeShared? then var r := SharedResume(f); (r.0, AfterShared(l, r))
      else var r := WriterResume(f); (r.0, AfterLock(l, r))
    case Spurious(_) => (f, Woken(l))
    case _ => (f, l.(pc := Idle))
  }

  // Who else is woken by a notification
  ghost function Notified(ts: seq<Local>, step: Step): seq<Local>
    requires step.NotifyOne? && step.woken.Some? ==> step.woken.value < |ts|
  {
    match step
    case NotifyAll(_) => WakeFirst(ts)
    case NotifyOne(_, Some(w)) => ts[w := Woken(ts[w])]
    case _ => ts
  }

  ghost function Apply(s: State, step: Step): State
    requires Enabled(s, step)
  {
    var r := Body(s.f, step.t, s.ts[step.t], step);
    State(r.0, Notified(s.ts, step)[step.t := r.1])
  }

  ghost predicate Init(s: State) {
    s.f == Fields(None, 0, 0) && forall i :: 0 <= i < |s.ts| ==> s.ts[i] == Local(Idle, 0, 0)
  }

  /** A run: every step is enabled where it is taken. */
  ghost predicate Runs(s: State, steps: seq<Step>)
    decreases |steps|
  {
    steps == [] || (Enabled(s, steps[0]) && Runs(Apply(s, steps[0]), steps[1..]))
  }

  ghost function Exec(s: State, steps: seq<Step>): State
    requires Runs(s, steps)
    decreases |steps|
  {
    if steps == [] then s else Exec(Apply(s, steps[0]), steps[1..])
  }

  // ---------------------------------------------------------------- the invariant

  function Shares(ts: seq<Local>): seq<nat> { Amounts(ts, (l: Local) => l.shares) }

  ghost predicate OwesAll(ts: seq<Local>) { exists u :: 0 <= u < |ts| && ts[u].pc.OwingAll? }

  ghost predicate OwesSecond(ts: seq<Local>) { exists u :: 0 <= u < |ts| && ts[u].pc.OwingSecond? }

  // The fields agree with what one thread holds
  predicate Agrees(f: Fields, t: Tid, l: Local) {
    && (l.depth > 0 || Pending(l.pc) ==> f.owner == Some(t))
    && (f.owner == Some(t) && Pending(l.pc) ==> l.depth == 0 && f.excl == 1)
    && (f.owner == Some(t) && !Pending(l.pc) ==> l.depth == f.excl && f.shared == 0)
  }

  predicate Counted(f: Fields, n: nat) {
    && f.excl <= MAX_NUM_LOCKS
    && f.shared <= MAX_NUM_LOCKS
    && (f.owner.None? <==> f.excl == 0)
    && (f.owner.Some? ==> f.owner.value < n)
  }

  ghost predicate Safe(s: State) {
    && Counted(s.f, |s.ts|)
    && (forall t :: 0 <= t < |s.ts| ==> Agrees(s.f, t, s.ts[t]))
    && s.f.shared == Sum(Shares(s.ts))
  }

  // Asleep on the first condition for a reason that only an unlock() can end
  predicate WaitsForUnlock(pc: Pc) { pc.AsleepLock? || pc == AsleepShared(false) }

  ghost predicate NoLostWake(s: State) {
    && (s.f.excl == 0 && !OwesAll(s.ts) ==>
          forall t :: 0 <= t < |s.ts| ==> !WaitsForUnlock(s.ts[t].pc))
    && (s.f.shared == 0 && !OwesSecond(s.ts) ==>
          forall t :: 0 <= t < |s.ts| ==> !s.ts[t].pc.AsleepWriter?)
  }

  lemma SharesSame(ts: seq<Local>, us: seq<Local>)
    requires |ts| == |us| && forall i :: 0 <= i < |ts| ==> ts[i].shares == us[i].shares
    ensures Sum(Shares(ts)) == Sum(Shares(us))
  {
    assert Shares(ts) == Shares(us);
  }

  // One thread's own step, seen without the other threads
  lemma BodyKeeps(f: Fields, t: Tid, l: Local, step: Step, n: nat)
    requires Counted(f, n) && t < n && Agrees(f, t, l) && l.shares <= f.shared && Ready(l, step)
    ensures var (f', l') := Body(f, t, l, step);
      && Counted(f', n) && Agrees(f', t, l')
      && f'.shared == f.shared - l.shares + l'.shares
      && (f.excl > 0 ==> f'.shared <= f.shared)
  {
  }

  lemma BodySpares(f: Fields, t: Tid, l: Local, step: Step, n: nat, u: Tid, m: Local)
    requires Counted(f, n) && t < n && Agrees(f, t, l) && l.shares <= f.shared && Ready(l, step)
    requires u != t && Agrees(f, u, m)
    ensures Agrees(Body(f, t, l, step).0, u, m)
  {
  }

  lemma SafeStep(s: State, step: Step)
    requires Safe(s) && Enabled(s, step)
    ensures Safe(Apply(s, step))
    ensures s.f.excl > 0 ==> Apply(s, step).f.shared <= s.f.shared
  {
    var t := step.t;
    var ts := Notified(s.ts, step);
    var r := Body(s.f, t, s.ts[t], step);
    SharesSame(s.ts, ts);
    AmountsPut(s.ts, (l: Local) => l.shares, t, s.ts[t]);
    AmountsPut(ts, (l: Local) => l.shares, t, r.1);
    assert Agrees(s.f, t, s.ts[t]);
    BodyKeeps(s.f, t, s.ts[t], step, |s.ts|);
    forall u | 0 <= u < |ts| && u != t ensures Agrees(r.0, u, ts[u]) {
      assert Agrees(s.f, u, s.ts[u]);
      assert Agrees(s.f, u, ts[u]);
      BodySpares(s.f, t, s.ts[t], step, |s.ts|, u, ts[u]);
    }
  }

  // A step never makes a thread a sleeper that nobody has a reason to wake
  lemma BodySleeps(f: Fields, t: Tid, l: Local, step: Step, n: nat)
    requires Counted(f, n) && t < n && Agrees(f, t, l) && l.shares <= f.shared && Ready(l, step)
    ensures var (f', l') := Body(f, t, l, step);
      && (WaitsForUnlock(l'.pc) ==> f'.excl > 0)
      && (l'.pc.AsleepWriter? ==> f'.shared > 0)
      && (f.excl > 0 && f'.excl == 0 ==> l'.pc.OwingAll?)
      && (f.shared > 0 && f'.shared == 0 && f'.excl > 0 ==> l'.pc.OwingSecond?)
  {
  }

  lemma FirstIsOwed(s: State, step: Step, u: Tid)
    requires Safe(s) && NoLostWake(s) && Enabled(s, step) && u < |s.ts|
    requires Apply(s, step).f.excl == 0 && WaitsForUnlock(Apply(s, step).ts[u].pc)
    ensures OwesAll(Apply(s, step).ts)
  {
    var s', t := Apply(s, step), step.t;
    assert Agrees(s.f, t, s.ts[t]);
    AmountsPut(s.ts, (l: Local) => l.shares, t, s.ts[t]);
    BodySleeps(s.f, t, s.ts[t], step, |s.ts|);
    assert s'.ts[t] == Body(s.f, t, s.ts[t], step).1;
    if s.f.excl == 0 {
      assert WaitsForUnlock(s.ts[u].pc);
      var v :| 0 <= v < |s.ts| && s.ts[v].pc.OwingAll?;
      assert s'.ts[v].pc.OwingAll?;
    }
  }

  lemma SecondIsOwed(s: State, step: Step, u: Tid)
    requires Safe(s) && NoLostWake(s) && Enabled(s, step) && u < |s.ts|
    requires Apply(s, step).f.shared == 0 && Apply(s, step).ts[u].pc.AsleepWriter?
    ensures OwesSecond(Apply(s, step).ts)
  {
    var s', t := Apply(s, step), step.t;
    assert Agrees(s.f, t, s.ts[t]);
    AmountsPut(s.ts, (l: Local) => l.shares, t, s.ts[t]);
    BodyKeeps(s.f, t, s.ts[t], step, |s.ts|);
    BodySleeps(s.f, t, s.ts[t], step, |s.ts|);
    assert s'.ts[t] == Body(s.f, t, s.ts[t], step).1;
    assert u != t && s.ts[u].pc.AsleepWriter? && Agrees(s.f, u, s.ts[u]);
    BodySpares(s.f, t, s.ts[t], step, |s.ts|, u, s.ts[u]);
    if s.f.shared == 0 {
      OneWriter(s, u);
      var v :| 0 <= v < |s.ts| && s.ts[v].pc.OwingSecond?;
      assert s'.ts[v].pc.OwingSecond?;
    }
  }

  // At most one thread is ever between claiming the lock and owning it
  lemma OneWriter(s: State, u: Tid)
    requires Safe(s) && u < |s.ts| && Pending(s.ts[u].pc)
    ensures forall v :: 0 <= v < |s.ts| && Pending(s.ts[v].pc) ==> v == u
  {
    assert Agrees(s.f, u, s.ts[u]);
    forall v | 0 <= v < |s.ts| && Pending(s.ts[v].pc) ensures v == u {
      assert Agrees(s.f, v, s.ts[v]);
    }
  }

  ghost predicate Inv(s: State) { Safe(s) && NoLostWake(s) }

  lemma InvStep(s: State, step: Step)
    requires Inv(s) && Enabled(s, step)
    ensures Inv(Apply(s, step))
  {
    var s' := Apply(s, step);
    SafeStep(s, step);
    forall u | 0 <= u < |s.ts| && s'.f.excl == 0 && WaitsForUnlock(s'.ts[u].pc) ensures OwesAll(s'.ts) {
      FirstIsOwed(s, step, u);
    }
    forall u | 0 <= u < |s.ts| && s'.f.shared == 0 && s'.ts[u].pc.AsleepWriter? ensures OwesSecond(s'.ts) {
      SecondIsOwed(s, step, u);
    }
  }

  lemma InvInit(s: State)
    requires Init(s)
    ensures Inv(s)
  {
    SumZero(Shares(s.ts));
  }

  /** The invariant holds after every run, of any number of threads, in any interleaving. */
  lemma {:induction false} InvRun(s: State, steps: seq<Step>)
    requires Inv(s) && Runs(s, steps)
    ensures Inv(Exec(s, steps))
    decreases |steps|
  {
    if steps != [] {
      InvStep(s, steps[0]);
      InvRun(Apply(s, steps[0]), steps[1..]);
    }
  }

  // ---------------------------------------------------------------- what callers get

  /** A thread whose lock() has returned is the only holder of any kind, nobody is halfway
      into the lock, and its nesting depth is the exclusive counter. The shared counter
      counts the shared locks held, and nobody's unlock can take a counter below zero. */
  lemma ExclusiveHolderIsAlone(init: State, steps: seq<Step>, t: Tid)
    requires Init(init) && Runs(init, steps) && t < |init.ts|
    ensures var s := Exec(init, steps);
      && |s.ts| == |init.ts|
      && s.f.shared == Sum(Shares(s.ts))
      && s.f.excl <= MAX_NUM_LOCKS && s.f.shared <= MAX_NUM_LOCKS
      && (s.ts[t].depth > 0 ==>
            && s.f.owner == Some(t) && s.f.excl == s.ts[t].depth
            && forall u :: 0 <= u < |s.ts| ==>
                 s.ts[u].shares == 0 && (u != t ==> s.ts[u].depth == 0 && !Pending(s.ts[u].pc)))
  {
    InvInit(init);
    InvRun(init, steps);
    RunKeepsThreads(init, steps);
    var s := Exec(init, steps);
    if s.ts[t].depth > 0 {
      assert Agrees(s.f, t, s.ts[t]);
      SumZero(Shares(s.ts));
      forall u | 0 <= u < |s.ts|
        ensures s.ts[u].shares == 0 && (u != t ==> s.ts[u].depth == 0 && !Pending(s.ts[u].pc))
      {
        assert Shares(s.ts)[u] == s.ts[u].shares;
        assert Agrees(s.f, u, s.ts[u]);
      }
    }
  }

  lemma {:induction false} RunKeepsThreads(s: State, steps: seq<Step>)
    requires Runs(s, steps)
    ensures |Exec(s, steps).ts| == |s.ts|
    decreases |steps|
  {
    if steps != [] { RunKeepsThreads(Apply(s, steps[0]), steps[1..]); }
  }

  // Thread t stays between claiming the lock and owning it all through the run
  ghost predicate StaysPending(s: State, steps: seq<Step>, t: Tid)
    requires Runs(s, steps)
    decreases |steps|
  {
    t < |s.ts| && Pending(s.ts[t].pc) && (steps != [] ==> StaysPending(Apply(s, steps[0]), steps[1..], t))
  }

  /** While a writer is pending nobody else acquires anything: the shared count only falls. */
  lemma {:induction false} PendingWriterBlocksReaders(s: State, steps: seq<Step>, t: Tid)
    requires Inv(s) && Runs(s, steps) && StaysPending(s, steps, t)
    ensures var e := Exec(s, steps);
      && e.f.owner == Some(t) && e.f.excl == 1 && e.f.shared <= s.f.shared
      && forall u :: 0 <= u < |e.ts| ==> e.ts[u].depth == 0
    decreases |steps|
  {
    assert Agrees(s.f, t, s.ts[t]);
    if steps == [] {
      forall u | 0 <= u < |s.ts| ensures s.ts[u].depth == 0 { assert Agrees(s.f, u, s.ts[u]); }
    } else {
      InvStep(s, steps[0]);
      SafeStep(s, steps[0]);
      PendingWriterBlocksReaders(Apply(s, steps[0]), steps[1..], t);
    }
  }

  // The side condition, a fact about the run: no state on the way has a full shared counter
  ghost predicate NeverFull(s: State, steps: seq<Step>)
    requires Runs(s, steps)
    decreases |steps|
  {
    s.f.shared < MAX_NUM_LOCKS && (steps != [] ==> NeverFull(Apply(s, steps[0]), steps[1..]))
  }

  ghost predicate NobodyFull(s: State) {
    forall u :: 0 <= u < |s.ts| ==> s.ts[u].pc != AsleepShared(true)
  }

  lemma {:induction false} NeverFullRun(s: State, steps: seq<Step>)
    requires Runs(s, steps) && NeverFull(s, steps) && NobodyFull(s)
    ensures NobodyFull(Exec(s, steps))
    decreases |steps|
  {
    if steps != [] { NeverFullRun(Apply(s, steps[0]), steps[1..]); }
  }

  /** No wake-up is lost. A thread asleep on the first condition while nobody has the
      exclusive lock is still owed a NotifyAll - unless it is a reader that went to sleep on
      a full counter. At most one thread sleeps on the second condition, and if it does
      while no shared lock is held, it is still owed a NotifyOne. */
  lemma NoWakeUpIsLost(init: State, steps: seq<Step>, t: Tid)
    requires Init(init) && Runs(init, steps) && t < |init.ts|
    ensures var s := Exec(init, steps);
      && |s.ts| == |init.ts|
      && (OnFirst(s.ts[t].pc) && s.f.excl == 0 ==> OwesAll(s.ts) || s.ts[t].pc == AsleepShared(true))
      && (OnFirst(s.ts[t].pc) && s.f.excl == 0 && NeverFull(init, steps) ==> OwesAll(s.ts))
      && (s.ts[t].pc.AsleepWriter? && s.f.shared == 0 ==> OwesSecond(s.ts))
      && (s.ts[t].pc.AsleepWriter? ==>
            forall u :: 0 <= u < |s.ts| && s.ts[u].pc.AsleepWriter? ==> u == t)
  {
    InvInit(init);
    InvRun(init, steps);
    RunKeepsThreads(init, steps);
    var s := Exec(init, steps);
    if NeverFull(init, steps) { NeverFullRun(init, steps); }
    if s.ts[t].pc.AsleepWriter? { OneWriter(s, t); }
  }

  /** When every notification has been delivered, a sleeper really is held up by a lock
      somebody has: a writer or a pending writer on the first condition, a reader on the
      second. */
  lemma QuietSleepersWaitForHolders(s: State, t: Tid)
    requires Inv(s) && t < |s.ts|
    requires !OwesAll(s.ts) && !OwesSecond(s.ts)
    ensures WaitsForUnlock(s.ts[t].pc) ==>
              exists u :: 0 <= u < |s.ts| && (s.ts[u].depth > 0 || Pending(s.ts[u].pc))
    ensures s.ts[t].pc.AsleepWriter? ==> exists u :: 0 <= u < |s.ts| && s.ts[u].shares > 0
  {
    if WaitsForUnlock(s.ts[t].pc) {
      var u := s.f.owner.value;
      assert Agrees(s.f, u, s.ts[u]);
    }
    if s.ts[t].pc.AsleepWriter? {
      SumZero(Shares(s.ts));
      var u :| 0 <= u < |s.ts| && Shares(s.ts)[u] != 0;
      assert s.ts[u].shares > 0;
    }
  }

  // ---------------------------------------------------------------- what each call comes to

  // Some thread has the exclusive lock or is halfway into it
  predicate Claims(l: Local) { l.depth > 0 || Pending(l.pc) }

  ghost predicate Claimed(s: State) { exists u :: 0 <= u < |s.ts| && Claims(s.ts[u]) }

  ghost predicate HasReaders(s: State) { exists u :: 0 <= u < |s.ts| && s.ts[u].shares > 0 }

  function SharedLocks(s: State): nat { Sum(Shares(s.ts)) }

  // The guarded fields, told from what the threads hold
  lemma FieldsTell(s: State)
    requires Safe(s)
    ensures s.f.excl > 0 <==> Claimed(s)
    ensures s.f.shared > 0 <==> HasReaders(s)
    ensures forall t :: 0 <= t < |s.ts| ==> (s.f.owner == Some(t) <==> Claims(s.ts[t]))
    ensures forall t :: 0 <= t < |s.ts| && s.ts[t].depth > 0 ==> s.f.excl == s.ts[t].depth
  {
    SumZero(Shares(s.ts));
    forall t | 0 <= t < |s.ts|
      ensures s.f.owner == Some(t) <==> Claims(s.ts[t])
      ensures s.ts[t].depth > 0 ==> s.f.excl == s.ts[t].depth
    {
      assert Agrees(s.f, t, s.ts[t]);
    }
    if s.f.excl > 0 { assert Claims(s.ts[s.f.owner.value]); }
    if s.f.shared > 0 {
      var u :| 0 <= u < |s.ts| && Shares(s.ts)[u] != 0;
      assert s.ts[u].shares > 0;
    }
    if HasReaders(s) {
      var u :| 0 <= u < |s.ts| && s.ts[u].shares > 0;
      assert Shares(s.ts)[u] > 0;
    }
  }

  // Thread t is at l after the step, and no other thread has moved
  ghost predicate Moves(s: State, step: Step, l: Local) {
    && Enabled(s, step) && |Apply(s, step).ts| == |s.ts| && Apply(s, step).ts[step.t] == l
    && forall u :: 0 <= u < |s.ts| && u != step.t ==> Apply(s, step).ts[u] == s.ts[u]
  }

  /** lock(): a thread that has the lock has it once more, while that can be counted. Any other
      sleeps on the first condition while somebody has it or is halfway into it, is halfway
      into it itself while there are readers, and otherwise has it. */
  lemma LockOutcome(s: State, t: Tid)
    requires Safe(s) && t < |s.ts| && s.ts[t].pc == Idle
    ensures var l := s.ts[t];
      Moves(s, Lock(t),
        if l.depth > 0 then (if l.depth < MAX_NUM_LOCKS then l.(depth := l.depth + 1) else l)
        else if Claimed(s) then l.(pc := AsleepLock)
        else if HasReaders(s) then l.(pc := AsleepWriter)
        else l.(depth := 1))
  {
    FieldsTell(s);
  }

  /** try_lock(): the same without sleeping; it is refused where lock() would sleep. */
  lemma TryLockOutcome(s: State, t: Tid)
    requires Safe(s) && t < |s.ts| && s.ts[t].pc == Idle
    ensures var l := s.ts[t];
      Moves(s, TryLock(t),
        if l.depth > 0 then (if l.depth < MAX_NUM_LOCKS then l.(depth := l.depth + 1) else l)
        else if Claimed(s) || HasReaders(s) then l
        else l.(depth := 1))
  {
    FieldsTell(s);
  }

  /** lock_shared(): a reader gets in unless somebody has, or is halfway into, the exclusive
      lock, or no more readers can be counted; then it sleeps. */
  lemma LockSharedOutcome(s: State, t: Tid)
    requires Safe(s) && t < |s.ts| && s.ts[t].pc == Idle
    ensures var l := s.ts[t];
      Moves(s, LockShared(t),
        if Claimed(s) then l.(pc := AsleepShared(false))
        else if SharedLocks(s) == MAX_NUM_LOCKS then l.(pc := AsleepShared(true))
        else l.(shares := l.shares + 1))
  {
    FieldsTell(s);
  }

  lemma TryLockSharedOutcome(s: State, t: Tid)
    requires Safe(s) && t < |s.ts| && s.ts[t].pc == Idle
    ensures var l := s.ts[t];
      Moves(s, TryLockShared(t),
        if Claimed(s) || SharedLocks(s) == MAX_NUM_LOCKS then l else l.(shares := l.shares + 1))
  {
    FieldsTell(s);
  }

  /** A woken sleeper gets what it came for just when what it waited for has come about, and
      sleeps again otherwise. */
  lemma ResumeOutcome(s: State, t: Tid)
    requires Safe(s) && t < |s.ts|
    ensures var l := s.ts[t];
      && (l.pc.AwakeLock? ==>
            Moves(s, Resume(t),
              if Claimed(s) then l.(pc := AsleepLock)
              else if HasReaders(s) then l.(pc := AsleepWriter)
              else l.(pc := Idle, depth := 1)))
      && (l.pc.AwakeWriter? ==>
            Moves(s, Resume(t), if HasReaders(s) then l.(pc := AsleepWriter) else l.(pc := Idle, depth := 1)))
      && (l.pc.AwakeShared? ==>
            Moves(s, Resume(t),
              if Claimed(s) then l.(pc := AsleepShared(false))
              else if SharedLocks(s) == MAX_NUM_LOCKS then l.(pc := AsleepShared(true))
              else l.(pc := Idle, shares := l.shares + 1)))
  {
    FieldsTell(s);
    assert Agrees(s.f, t, s.ts[t]);
  }

  /** unlock() and unlock_shared(): one lock less, and a notification owed just when it was the
      last exclusive one, the last shared one that a pending writer waits for, or the one
      that kept the count full. */
  lemma UnlockOutcome(s: State, t: Tid)
    requires Safe(s) && t < |s.ts| && s.ts[t].pc == Idle
    ensures var l := s.ts[t];
      && (l.depth > 0 ==> Moves(s, Unlock(t), l.(pc := if l.depth == 1 then OwingAll else Idle, depth := l.depth - 1)))
      && (l.shares > 0 ==>
            Moves(s, UnlockShared(t),
              l.(shares := l.shares - 1,
                 pc := if Claimed(s) then (if SharedLocks(s) == 1 then OwingSecond else Idle)
                       else if SharedLocks(s) == MAX_NUM_LOCKS then OwingFirst else Idle)))
  {
    FieldsTell(s);
    SumZero(Shares(s.ts));
    assert Shares(s.ts)[t] == s.ts[t].shares;
    AmountsPut(s.ts, (l: Local) => l.shares, t, s.ts[t]);
  }

  /** A delivered notification wakes everyone on the first condition, or the one chosen. */
  lemma NotifyOutcome(s: State, step: Step)
    requires Enabled(s, step) && (step.NotifyAll? || step.NotifyOne?)
    ensures var ts := Apply(s, step).ts;
      && |ts| == |s.ts| && ts[step.t] == s.ts[step.t].(pc := Idle)
      && forall u :: 0 <= u < |ts| && u != step.t ==>
           ts[u] == if (step.NotifyAll? && OnFirst(s.ts[u].pc)) || (step.NotifyOne? && step.woken == Some(u))
                    then Woken(s.ts[u]) else s.ts[u]
    ensures step.NotifyAll? ==> forall u :: 0 <= u < |s.ts| ==> !OnFirst(Apply(s, step).ts[u].pc)
  {
  }

  // Some run leads there
  ghost predicate Reached(init: State, s: State) { exists steps :: Runs(init, steps) && Exec(init, steps) == s }

  /** All of that holds in every reachable state. */
  lemma ReachableIsSafe(init: State, s: State)
    requires Init(init) && Reached(init, s)
    ensures Safe(s) && |s.ts| == |init.ts|
  {
    var steps :| Runs(init, steps) && Exec(init, steps) == s;
    InvInit(init);
    InvRun(init, steps);
    RunKeepsThreads(init, steps);
  }

  // ---------------------------------------------------------------- when a wake-up is lost

  predicate Owes(pc: Pc) { pc.OwingAll? || pc.OwingFirst? || pc.OwingSecond? }

  /** A thread sleeps on the first condition although the lock is free for readers and
      nobody owes a notification. */
  ghost predicate Lost(s: State) {
    && s.f.excl == 0 && s.f.shared < MAX_NUM_LOCKS
    && (exists t :: 0 <= t < |s.ts| && OnFirst(s.ts[t].pc))
    && forall u :: 0 <= u < |s.ts| ==> !Owes(s.ts[u].pc)
  }

  // No other call is under way
  ghost predicate Quiet(s: State) { forall u :: 0 <= u < |s.ts| ==> s.ts[u].pc.Idle? || OnFirst(s.ts[u].pc) }

  // With two threads: who sleeps on a full counter finds it full, or is owed a NotifyOne
  ghost predicate FullIsOwed(s: State) {
    forall u :: 0 <= u < |s.ts| && s.ts[u].pc == AsleepShared(true) ==>
      s.f.shared == MAX_NUM_LOCKS || exists v :: 0 <= v < |s.ts| && s.ts[v].pc.OwingFirst?
  }

  // One thread's own step, while another sleeps on a full counter
  lemma BodyOwes(f: Fields, t: Tid, l: Local, step: Step, n: nat)
    requires Counted(f, n) && t < n && Agrees(f, t, l) && l.shares <= f.shared == MAX_NUM_LOCKS && Ready(l, step)
    requires f.owner == None || f.owner == Some(t)
    ensures var (f', l') := Body(f, t, l, step); f'.shared == MAX_NUM_LOCKS || l'.pc.OwingFirst?
  {
  }

  lemma TwoStep(s: State, step: Step, u: Tid)
    requires Safe(s) && FullIsOwed(s) && Enabled(s, step) && |s.ts| <= 2 && u < |s.ts|
    requires Apply(s, step).ts[u].pc == AsleepShared(true)
    ensures var s' := Apply(s, step);
      s'.f.shared == MAX_NUM_LOCKS || exists v :: 0 <= v < |s'.ts| && s'.ts[v].pc.OwingFirst?
  {
    var s', t := Apply(s, step), step.t;
    assert Agrees(s.f, t, s.ts[t]);
    AmountsPut(s.ts, (l: Local) => l.shares, t, s.ts[t]);
    assert s'.ts[t] == Body(s.f, t, s.ts[t], step).1;
    if u != t {
      assert s.ts[u].pc == AsleepShared(true) && Agrees(s.f, u, s.ts[u]);
      if s.f.shared == MAX_NUM_LOCKS {
        BodyOwes(s.f, t, s.ts[t], step, |s.ts|);
      }
    }
  }

  lemma {:induction false} TwoRun(s: State, steps: seq<Step>)
    requires Inv(s) && FullIsOwed(s) && |s.ts| <= 2 && Runs(s, steps)
    ensures Inv(Exec(s, steps)) && FullIsOwed(Exec(s, steps))
    decreases |steps|
  {
    if steps != [] {
      var s' := Apply(s, steps[0]);
      InvStep(s, steps[0]);
      forall u | 0 <= u < |s'.ts| && s'.ts[u].pc == AsleepShared(true)
        ensures s'.f.shared == MAX_NUM_LOCKS || exists v :: 0 <= v < |s'.ts| && s'.ts[v].pc.OwingFirst?
      {
        TwoStep(s, steps[0], u);
      }
      TwoRun(s', steps[1..]);
    }
  }

  lemma TwoNeverLose(init: State, steps: seq<Step>)
    requires Init(init) && |init.ts| <= 2 && Runs(init, steps)
    ensures !Lost(Exec(init, steps))
  {
    InvInit(init);
    TwoRun(init, steps);
  }

  // The first three threads, the others, and a free writer side
  function Crowd(shared: nat, a: Local, b: Local, c: Local, others: seq<Local>): State {
    State(Fields(None, 0, shared), [a, b, c] + others)
  }

  const FREE: Local := Local(Idle, 0, 0)

  function Holding(n: nat, others: seq<Local>): State { Crowd(n, Local(Idle, 0, n), FREE, FREE, others) }

  // n lock_shared calls by thread 0, alone
  function Grabs(n: nat): seq<Step> { if n == 0 then [] else [LockShared(0)] + Grabs(n - 1) }

  // The run takes s to e
  ghost predicate Reaches(s: State, steps: seq<Step>, e: State) { Runs(s, steps) && Exec(s, steps) == e }

  lemma ReachesCons(s: State, step: Step, m: State, rest: seq<Step>, e: State)
    requires Enabled(s, step) && Apply(s, step) == m && Reaches(m, rest, e)
    ensures Reaches(s, [step] + rest, e)
  {
    assert ([step] + rest)[1..] == rest;
  }

  lemma Grab(k: nat, others: seq<Local>)
    requires k < MAX_NUM_LOCKS
    ensures Enabled(Holding(k, others), LockShared(0)) && Apply(Holding(k, others), LockShared(0)) == Holding(k + 1, others)
  {
    assert Holding(k, others).ts[0 := Local(Idle, 0, k + 1)] == Holding(k + 1, others).ts;
  }

  lemma {:induction false} GrabsReach(k: nat, n: nat, others: seq<Local>, rest: seq<Step>, e: State)
    requires k + n <= MAX_NUM_LOCKS && Reaches(Holding(k + n, others), rest, e)
    ensures Reaches(Holding(k, others), Grabs(n) + rest, e)
    decreases n
  {
    if n == 0 {
      assert Grabs(0) + rest == rest;
    } else {
      Grab(k, others);
      GrabsReach(k + 1, n - 1, others, rest, e);
      ReachesCons(Holding(k, others), LockShared(0), Holding(k + 1, others), Grabs(n - 1) + rest, e);
      assert Grabs(n) + rest == [LockShared(0)] + (Grabs(n - 1) + rest);
    }
  }

  lemma BlockOnFull(a: Local, b: Local, others: seq<Local>)
    ensures var s, s' := Crowd(MAX_NUM_LOCKS, a, FREE, b, others), Crowd(MAX_NUM_LOCKS, a, Local(AsleepShared(true), 0, 0), b, others);
      Enabled(s, LockShared(1)) && Apply(s, LockShared(1)) == s'
    ensures var s, s' := Crowd(MAX_NUM_LOCKS, a, b, FREE, others), Crowd(MAX_NUM_LOCKS, a, b, Local(AsleepShared(true), 0, 0), others);
      Enabled(s, LockShared(2)) && Apply(s, LockShared(2)) == s'
  {
    var full := Local(AsleepShared(true), 0, 0);
    assert ([a, FREE, b] + others)[1 := full] == [a, full, b] + others;
    assert ([a, b, FREE] + others)[2 := full] == [a, b, full] + others;
  }

  lemma Release(n: nat, b: Local, c: Local, others: seq<Local>)
    requires 0 < n <= MAX_NUM_LOCKS
    ensures var s, s' := Crowd(n, Local(Idle, 0, n), b, c, others),
                Crowd(n - 1, Local(if n == MAX_NUM_LOCKS then OwingFirst else Idle, 0, n - 1), b, c, others);
      Enabled(s, UnlockShared(0)) && Apply(s, UnlockShared(0)) == s'
  {
    var a' := Local(if n == MAX_NUM_LOCKS then OwingFirst else Idle, 0, n - 1);
    assert ([Local(Idle, 0, n), b, c] + others)[0 := a'] == [a', b, c] + others;
  }

  lemma Deliver(n: nat, c: Local, others: seq<Local>)
    ensures var s, s' := Crowd(n, Local(OwingFirst, 0, n), Local(AsleepShared(true), 0, 0), c, others),
                Crowd(n, Local(Idle, 0, n), Local(AwakeShared, 0, 0), c, others);
      Enabled(s, NotifyOne(0, Some(1))) && Apply(s, NotifyOne(0, Some(1))) == s'
  {
    var owing, full, awake := Local(OwingFirst, 0, n), Local(AsleepShared(true), 0, 0), Local(AwakeShared, 0, 0);
    assert ([owing, full, c] + others)[1 := awake][0 := Local(Idle, 0, n)] == [Local(Idle, 0, n), awake, c] + others;
  }

  lemma Enter(n: nat, a: Local, c: Local, others: seq<Local>)
    requires n < MAX_NUM_LOCKS
    ensures var s, s' := Crowd(n, a, Local(AwakeShared, 0, 0), c, others), Crowd(n + 1, a, Local(Idle, 0, 1), c, others);
      Enabled(s, Resume(1)) && Apply(s, Resume(1)) == s'
  {
    assert ([a, Local(AwakeShared, 0, 0), c] + others)[1 := Local(Idle, 0, 1)] == [a, Local(Idle, 0, 1), c] + others;
  }

  // Two readers block, two shared locks are released, one notification is delivered and one
  // reader enters
  const LOSING: seq<Step> :=
    [LockShared(1), LockShared(2), UnlockShared(0), NotifyOne(0, Some(1)), UnlockShared(0), Resume(1)]

  function LostState(others: seq<Local>): State {
    Crowd(MAX_NUM_LOCKS - 1, Local(Idle, 0, MAX_NUM_LOCKS - 2), Local(Idle, 0, 1), Local(AsleepShared(true), 0, 0), others)
  }

  lemma ReleasesLose(others: seq<Local>)
    ensures var full := Local(AsleepShared(true), 0, 0);
      Reaches(Crowd(MAX_NUM_LOCKS, Local(Idle, 0, MAX_NUM_LOCKS), full, full, others), LOSING[2..], LostState(others))
  {
    var m, full, awake, e := MAX_NUM_LOCKS, Local(AsleepShared(true), 0, 0), Local(AwakeShared, 0, 0), LostState(others);
    var s2 := Crowd(m, Local(Idle, 0, m), full, full, others);
    var s3 := Crowd(m - 1, Local(OwingFirst, 0, m - 1), full, full, others);
    var s4 := Crowd(m - 1, Local(Idle, 0, m - 1), awake, full, others);
    var s5 := Crowd(m - 2, Local(Idle, 0, m - 2), awake, full, others);
    Release(m, full, full, others);
    Deliver(m - 1, full, others);
    Release(m - 1, awake, full, others);
    Enter(m - 2, Local(Idle, 0, m - 2), full, others);
    assert Reaches(e, [], e);
    ReachesCons(s5, LOSING[5], e, [], e);
    ReachesCons(s4, LOSING[4], s5, [LOSING[5]], e);
    ReachesCons(s3, LOSING[3], s4, [LOSING[4]] + [LOSING[5]], e);
    ReachesCons(s2, LOSING[2], s3, [LOSING[3]] + ([LOSING[4]] + [LOSING[5]]), e);
    assert LOSING[2..] == [LOSING[2]] + ([LOSING[3]] + ([LOSING[4]] + [LOSING[5]]));
  }

  lemma FullLoses(others: seq<Local>)
    ensures Reaches(Holding(MAX_NUM_LOCKS, others), LOSING, LostState(others))
  {
    var m, full := MAX_NUM_LOCKS, Local(AsleepShared(true), 0, 0);
    var s1 := Crowd(m, Local(Idle, 0, m), full, FREE, others);
    var s2 := Crowd(m, Local(Idle, 0, m), full, full, others);
    ReleasesLose(others);
    BlockOnFull(Local(Idle, 0, m), full, others);
    BlockOnFull(Local(Idle, 0, m), FREE, others);
    ReachesCons(s1, LockShared(2), s2, LOSING[2..], LostState(others));
    ReachesCons(Holding(m, others), LockShared(1), s1, [LockShared(2)] + LOSING[2..], LostState(others));
    assert LOSING == [LockShared(1)] + ([LockShared(2)] + LOSING[2..]);
  }

  lemma LostStateIsLost(others: seq<Local>)
    requires forall i :: 0 <= i < |others| ==> others[i] == FREE
    ensures Lost(LostState(others)) && Quiet(LostState(others))
  {
    assert OnFirst(LostState(others).ts[2].pc);
  }

  ghost predicate LosesBy(s: State, steps: seq<Step>) { Runs(s, steps) && Lost(Exec(s, steps)) }

  lemma ThreeLose(init: State) returns (steps: seq<Step>)
    requires Init(init) && |init.ts| >= 3
    ensures LosesBy(init, steps) && Quiet(Exec(init, steps))
  {
    var others := init.ts[3..];
    FullLoses(others);
    GrabsReach(0, MAX_NUM_LOCKS, others, LOSING, LostState(others));
    assert init.ts == [FREE, FREE, FREE] + others;
    LostStateIsLost(others);
    steps := Grabs(MAX_NUM_LOCKS) + LOSING;
  }

  /** Wake-ups can be lost exactly when there are three threads or more: with a full counter
      two readers go to sleep, two releases send one notification, and one reader sleeps on
      although the lock is free for readers, nobody will ever notify it and no other call is
      under way. With two threads it cannot happen, full counter or not. */
  lemma LosesAWakeUpIff(init: State)
    requires Init(init)
    ensures (exists steps :: LosesBy(init, steps)) <==> |init.ts| >= 3
    ensures |init.ts| >= 3 ==> exists steps :: LosesBy(init, steps) && Quiet(Exec(init, steps))
  {
    if |init.ts| >= 3 {
      var steps := ThreeLose(init);
    }
    forall steps | Runs(init, steps) && |init.ts| <= 2 ensures !LosesBy(init, steps) {
      TwoNeverLose(init, steps);
    }
  }
}
