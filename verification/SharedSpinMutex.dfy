/** SharedSpinMutex: a reader/writer spin lock packed into one 32-bit word, the low bit
    saying that a writer has claimed the lock and the other bits counting its readers.

    Every load and every compare-and-exchange is one atomic step; between a thread's load
    and its exchange any other thread may run, so snapshots can be stale. */
module SharedSpinMutexModel {
  import opened Basics

  const WORD: nat := 0x1_0000_0000
  const HALF: nat := 0x8000_0000
  const MAX_NUM_SHARED_LOCKS: nat := WORD - 2  // ~1 in 32 bits

  // The bit expressions of the source on an unsigned 32-bit word

  function MakeState(excl: bool, count: nat): nat { (count * 2) % WORD + (if excl then 1 else 0) }

  predicate IsExclusiveLocked(w: nat) { w % 2 == 1 }

  function SetExclusiveLocked(w: nat): nat { if w % 2 == 1 then w else w + 1 }

  function UnsetExclusiveLocked(w: nat): nat { if w % 2 == 1 then w - 1 else w }

  function GetSharedLocks(w: nat): nat { w / 2 }

  function Dec(n: nat): nat { if n == 0 then WORD - 1 else n - 1 }

  datatype Op = Lock | TryLock | Unlock | LockShared | TryLockShared | UnlockShared

  // compare_exchange_weak may fail although the word matches
  predicate Weak(op: Op) { op.Lock? || op.Unlock? || op.UnlockShared? }

  // Whether the operation goes on to its exchange after loading w
  predicate Proceeds(op: Op, w: nat) {
    match op
    case Lock => !IsExclusiveLocked(w)
    case TryLock => w == 0
    case LockShared => !IsExclusiveLocked(w) && GetSharedLocks(w) < MAX_NUM_SHARED_LOCKS
    case TryLockShared => !IsExclusiveLocked(w) && GetSharedLocks(w) < MAX_NUM_SHARED_LOCKS
    case _ => true
  }

  function Desired(op: Op, w: nat): nat {
    match op
    case Lock => SetExclusiveLocked(w)
    case TryLock => SetExclusiveLocked(w)
    case Unlock => UnsetExclusiveLocked(w)
    case UnlockShared => MakeState(IsExclusiveLocked(w), Dec(GetSharedLocks(w)))
    case _ => MakeState(IsExclusiveLocked(w), GetSharedLocks(w) + 1)
  }

  /** The atomic word. `spurious` is the environment's choice to fail a weak exchange. */
  class AtomicState {
    var m_State: nat

    constructor ()
      ensures m_State == 0
    {
      m_State := 0;
    }

    method Load() returns (w: nat)
      ensures w == m_State
    {
      w := m_State;
    }

    method CompareExchange(op: Op, expected: nat, spurious: bool) returns (ok: bool, seen: nat)
      modifies this
      ensures ok == Exchanges(old(m_State), op, expected, spurious)
      ensures m_State == (if ok then Desired(op, expected) else old(m_State))
      ensures seen == old(m_State)
    {
      seen := m_State;
      ok := seen == expected && !(spurious && Weak(op));
      if ok {
        m_State := Desired(op, expected);
      }
    }
  }

  predicate Exchanges(w: nat, op: Op, expected: nat, spurious: bool) {
    w == expected && !(spurious && Weak(op))
  }

  // ---------------------------------------------------------------- the protocol

  datatype Pc =
    | Idle
    | Load(op: Op)
    | Cas(cop: Op, snap: nat)
    | DrainFirst | DrainSecond  // lock() waiting for the readers to leave

  /** claimed: this thread set the exclusive flag; inside: its lock() or try_lock() has
      returned; shares: shared locks it holds. */
  datatype Local = Local(pc: Pc, claimed: bool, inside: bool, shares: nat)

  datatype State = State(word: nat, ts: seq<Local>)

  datatype Step = Call(t: Tid, op: Op) | Run(t: Tid, spurious: bool)

  /** Callers unlock only what they hold. */
  predicate Ready(l: Local, step: Step) {
    match step
    case Run(_, _) => !l.pc.Idle?
    case Call(_, Unlock) => l.pc.Idle? && l.inside
    case Call(_, UnlockShared) => l.pc.Idle? && l.shares > 0
    case Call(_, _) => l.pc.Idle?
  }

  function Retry(op: Op): Pc { if op.Lock? || op.LockShared? then Load(op) else Idle }

  function Won(l: Local, op: Op): Local {
    match op
    case Lock => l.(pc := DrainFirst, claimed := true)
    case TryLock => l.(pc := Idle, claimed := true, inside := true)
    case Unlock => l.(pc := Idle, claimed := false, inside := false)
    case UnlockShared => l.(pc := Idle, shares := if l.shares > 0 then l.shares - 1 else 0)
    case _ => l.(pc := Idle, shares := l.shares + 1)
  }

  /** What one atomic access does to the word and to the thread making it. */
  function Body(w: nat, l: Local, step: Step): (nat, Local) {
    match step
    case Call(_, op) => (w, l.(pc := Load(op)))
    case Run(_, spurious) =>
      match l.pc
      case Idle => (w, l)
      case Load(op) => (w, l.(pc := if Proceeds(op, w) then Cas(op, w) else Retry(op)))
      case Cas(op, snap) =>
        if Exchanges(w, op, snap, spurious) then (Desired(op, snap), Won(l, op))
        else if op.Unlock? || op.UnlockShared? then (w, l.(pc := Cas(op, w)))
        else (w, l.(pc := Retry(op)))
      case DrainFirst => (w, l.(pc := if GetSharedLocks(w) == 0 then DrainSecond else DrainFirst))
      case DrainSecond =>
        (w, if GetSharedLocks(w) == 0 then l.(pc := Idle, inside := true) else l.(pc := DrainFirst))
  }

  predicate Enabled(s: State, step: Step) { step.t < |s.ts| && Ready(s.ts[step.t], step) }

  function Apply(s: State, step: Step): State
    requires Enabled(s, step)
  {
    var r := Body(s.word, s.ts[step.t], step);
    State(r.0, s.ts[step.t := r.1])
  }

  predicate Init(s: State) {
    s.word == 0 && forall i :: 0 <= i < |s.ts| ==> s.ts[i] == Local(Idle, false, false, 0)
  }

  predicate Runs(s: State, steps: seq<Step>)
    decreases |steps|
  {
    steps == [] || (Enabled(s, steps[0]) && Runs(Apply(s, steps[0]), steps[1..]))
  }

  function Exec(s: State, steps: seq<Step>): State
    requires Runs(s, steps)
    decreases |steps|
  {
    if steps == [] then s else Exec(Apply(s, steps[0]), steps[1..])
  }

  // ---------------------------------------------------------------- the invariant

  function Shares(ts: seq<Local>): seq<nat> { Amounts(ts, (l: Local) => l.shares) }

  function Readers(s: State): nat { Sum(Shares(s.ts)) }

  function Encode(claimed: bool, readers: nat): nat { readers * 2 + (if claimed then 1 else 0) }

  /** What a thread's place says about the lock, given the number of readers and whether
      this thread is the claimant. Nothing is said about how old a snapshot is. */
  predicate Agrees(n: nat, mine: bool, l: Local) {
    && l.claimed == mine
    && (l.inside ==> mine && n == 0)
    && match l.pc
       case Idle => true
       case Load(op) => (op.Unlock? ==> l.inside) && (op.UnlockShared? ==> l.shares > 0)
       case Cas(op, snap) =>
         Proceeds(op, snap) && (op.Unlock? ==> l.inside) && (op.UnlockShared? ==> l.shares > 0)
       case DrainFirst => mine && !l.inside
       case DrainSecond => mine && !l.inside && n == 0
  }

  ghost predicate InvWith(s: State, writer: Option<Tid>) {
    && s.word == Encode(writer.Some?, Readers(s))
    && (writer.Some? ==> writer.value < |s.ts|)
    && forall t :: 0 <= t < |s.ts| ==> Agrees(Readers(s), writer == Some(t), s.ts[t])
  }

  ghost predicate Inv(s: State) { exists writer :: InvWith(s, writer) }

  function NextWriter(writer: Option<Tid>, t: Tid, l: Local): Option<Tid> {
    if l.claimed then Some(t) else if writer == Some(t) then None else writer
  }

  // What an exchange makes of the word
  lemma ExchangesEncode(claimed: bool, n: nat)
    requires n < HALF
    ensures IsExclusiveLocked(Encode(claimed, n)) == claimed && GetSharedLocks(Encode(claimed, n)) == n
    ensures Desired(Lock, Encode(claimed, n)) == Desired(TryLock, Encode(claimed, n)) == Encode(true, n)
    ensures Desired(Unlock, Encode(claimed, n)) == Encode(false, n)
    ensures n > 0 ==> Desired(UnlockShared, Encode(claimed, n)) == Encode(claimed, n - 1)
    ensures n + 1 < HALF ==>
              Desired(LockShared, Encode(claimed, n)) == Desired(TryLockShared, Encode(claimed, n)) == Encode(claimed, n + 1)
  {
  }

  lemma BodyKeeps(n: nat, writer: Option<Tid>, t: Tid, l: Local, step: Step)
    requires n < HALF && l.shares <= n && Agrees(n, writer == Some(t), l) && Ready(l, step)
    ensures var (w', l') := Body(Encode(writer.Some?, n), l, step);
      var n', writer' := n - l.shares + l'.shares, NextWriter(writer, t, l');
      && (n' < HALF ==> w' == Encode(writer'.Some?, n'))
      && Agrees(n', writer' == Some(t), l')
      && (writer.Some? ==> n' <= n)
      && (writer.Some? && writer'.Some? ==> writer == writer')
  {
    ExchangesEncode(writer.Some?, n);
    var w := Encode(writer.Some?, n);
    if l.pc.Cas? && Exchanges(w, l.pc.cop, l.pc.snap, step.spurious) { assert l.pc.snap == w; }
  }

  lemma InvStep(s: State, step: Step)
    requires Inv(s) && Enabled(s, step) && Readers(s) < HALF && Readers(Apply(s, step)) < HALF
    ensures Inv(Apply(s, step))
    ensures IsExclusiveLocked(s.word) ==> Readers(Apply(s, step)) <= Readers(s)
  {
    var writer: Option<Tid> :| InvWith(s, writer);
    var s', t := Apply(s, step), step.t;
    var writer' := NextWriter(writer, t, s'.ts[t]);
    AmountsPut(s.ts, (l: Local) => l.shares, t, s'.ts[t]);
    assert Agrees(Readers(s), writer == Some(t), s.ts[t]);
    BodyKeeps(Readers(s), writer, t, s.ts[t], step);
    forall u | 0 <= u < |s'.ts| ensures Agrees(Readers(s'), writer' == Some(u), s'.ts[u]) {
      assert Agrees(Readers(s), writer == Some(u), s.ts[u]);
    }
    assert InvWith(s', writer');
  }

  // The side condition: fewer than 2^31 shared locks are held in every state of the run
  predicate Within(s: State, steps: seq<Step>)
    requires Runs(s, steps)
    decreases |steps|
  {
    Readers(s) < HALF && (steps != [] ==> Within(Apply(s, steps[0]), steps[1..]))
  }

  lemma {:induction false} InvRun(s: State, steps: seq<Step>)
    requires Inv(s) && Runs(s, steps) && Within(s, steps)
    ensures Inv(Exec(s, steps)) && |Exec(s, steps).ts| == |s.ts| && Readers(Exec(s, steps)) < HALF
    decreases |steps|
  {
    if steps != [] {
      assert Within(Apply(s, steps[0]), steps[1..]);
      InvStep(s, steps[0]);
      InvRun(Apply(s, steps[0]), steps[1..]);
    }
  }

  lemma InvInit(s: State)
    requires Init(s)
    ensures Inv(s)
  {
    SumZero(Shares(s.ts));
    assert InvWith(s, None);
  }

  /** The word always says exactly whether a writer has claimed the lock and how many
      shared locks are held, and a thread whose lock() or try_lock() has returned excludes
      every other holder and claimant. */
  lemma WordIsExactAndWriterIsAlone(init: State, steps: seq<Step>, t: Tid)
    requires Init(init) && Runs(init, steps) && Within(init, steps) && t < |init.ts|
    ensures var s := Exec(init, steps);
      && |s.ts| == |init.ts|
      && GetSharedLocks(s.word) == Readers(s)
      && (IsExclusiveLocked(s.word) <==> exists u :: 0 <= u < |s.ts| && s.ts[u].claimed)
      && (s.ts[t].inside ==>
            && s.word == 1
            && forall u :: 0 <= u < |s.ts| ==> s.ts[u].shares == 0 && (s.ts[u].claimed ==> u == t))
  {
    InvInit(init);
    InvRun(init, steps);
    var s := Exec(init, steps);
    var writer: Option<Tid> :| InvWith(s, writer);
    assert forall u :: 0 <= u < |s.ts| ==> Agrees(Readers(s), writer == Some(u), s.ts[u]);
    if writer.Some? { assert s.ts[writer.value].claimed; }
    if s.ts[t].inside {
      SumZero(Shares(s.ts));
      forall u | 0 <= u < |s.ts| ensures s.ts[u].shares == 0 { assert Shares(s.ts)[u] == s.ts[u].shares; }
    }
  }

  /** Once a writer has claimed the lock no reader gets in: the reader count only falls
      for as long as the flag stays set. */
  lemma {:induction false} ClaimBlocksReaders(s: State, steps: seq<Step>)
    requires Inv(s) && Runs(s, steps) && Within(s, steps) && StaysClaimed(s, steps)
    ensures Readers(Exec(s, steps)) <= Readers(s)
    decreases |steps|
  {
    if steps != [] {
      assert Within(Apply(s, steps[0]), steps[1..]);
      InvStep(s, steps[0]);
      ClaimBlocksReaders(Apply(s, steps[0]), steps[1..]);
    }
  }

  predicate StaysClaimed(s: State, steps: seq<Step>)
    requires Runs(s, steps)
    decreases |steps|
  {
    IsExclusiveLocked(s.word) && (steps != [] ==> StaysClaimed(Apply(s, steps[0]), steps[1..]))
  }

  // ---------------------------------------------------------------- every call gets there

  // The word, told from what the threads hold
  lemma WordTells(s: State)
    requires Inv(s)
    ensures s.word == Encode(Claimed(s), Readers(s))
    ensures forall t :: 0 <= t < |s.ts| && s.ts[t].inside ==> s.ts[t].claimed
    ensures forall t, u :: 0 <= t < |s.ts| && 0 <= u < |s.ts| && s.ts[t].claimed && s.ts[u].claimed ==> t == u
    ensures forall t :: 0 <= t < |s.ts| ==> s.ts[t].shares <= Readers(s)
  {
    var writer: Option<Tid> :| InvWith(s, writer);
    forall t | 0 <= t < |s.ts| ensures Agrees(Readers(s), writer == Some(t), s.ts[t]) && s.ts[t].shares <= Readers(s) {
      AmountsPut(s.ts, (l: Local) => l.shares, t, s.ts[t]);
    }
    if writer.Some? { assert s.ts[writer.value].claimed; }
  }

  ghost predicate Claimed(s: State) { exists u :: 0 <= u < |s.ts| && s.ts[u].claimed }

  // Thread t alone: it makes a call and then so many steps, no exchange failing without cause
  function Steps(t: Tid, n: nat): seq<Step> { if n == 0 then [] else [Run(t, false)] + Steps(t, n - 1) }

  lemma RunsCons(s: State, step: Step, rest: seq<Step>)
    requires Enabled(s, step) && Runs(Apply(s, step), rest)
    ensures Runs(s, [step] + rest) && Exec(s, [step] + rest) == Exec(Apply(s, step), rest)
  {
    assert ([step] + rest)[1..] == rest;
  }

  // A call, its load and its exchange, uninterrupted
  lemma CallLoadExchange(s: State, t: Tid, op: Op)
    requires t < |s.ts| && s.ts[t].pc == Idle && Ready(s.ts[t], Call(t, op)) && Proceeds(op, s.word)
    ensures Runs(s, [Call(t, op)] + Steps(t, 2))
    ensures Exec(s, [Call(t, op)] + Steps(t, 2)) == State(Desired(op, s.word), s.ts[t := Won(s.ts[t], op)])
  {
    var l := s.ts[t];
    var s1 := State(s.word, s.ts[t := l.(pc := Load(op))]);
    var s2 := State(s.word, s.ts[t := l.(pc := Cas(op, s.word))]);
    var s3 := State(Desired(op, s.word), s.ts[t := Won(l, op)]);
    assert Apply(s, Call(t, op)) == s1;
    assert s1.ts[t := l.(pc := Cas(op, s.word))] == s2.ts && Apply(s1, Run(t, false)) == s2;
    assert s2.ts[t := Won(l, op)] == s3.ts && Apply(s2, Run(t, false)) == s3;
    RunsCons(s2, Run(t, false), []);
    RunsCons(s1, Run(t, false), [Run(t, false)]);
    RunsCons(s, Call(t, op), [Run(t, false)] + [Run(t, false)]);
    assert Steps(t, 1) == [Run(t, false)] && Steps(t, 2) == [Run(t, false)] + [Run(t, false)];
  }

  /** lock(), alone: while nobody claims the lock the thread's second step claims it, and if
      there are no readers its fourth returns with it. */
  lemma LockGetsThere(s: State, t: Tid)
    requires Inv(s) && Readers(s) < HALF && !Claimed(s) && t < |s.ts| && s.ts[t].pc == Idle
    ensures Runs(s, [Call(t, Lock)] + Steps(t, 2))
    ensures var s' := Exec(s, [Call(t, Lock)] + Steps(t, 2));
      && s'.ts == s.ts[t := s.ts[t].(pc := DrainFirst, claimed := true)] && IsExclusiveLocked(s'.word)
      && (Readers(s) == 0 ==>
            && Runs(s', Steps(t, 2))
            && Exec(s', Steps(t, 2)).ts == s.ts[t := s.ts[t].(claimed := true, inside := true)])
  {
    WordTells(s);
    CallLoadExchange(s, t, Lock);
    var s' := Exec(s, [Call(t, Lock)] + Steps(t, 2));
    if Readers(s) == 0 { DrainGetsThere(s', t); }
  }

  lemma DrainGetsThere(s: State, t: Tid)
    requires t < |s.ts| && s.ts[t].pc == DrainFirst && GetSharedLocks(s.word) == 0
    ensures Runs(s, Steps(t, 2))
    ensures Exec(s, Steps(t, 2)) == State(s.word, s.ts[t := s.ts[t].(pc := Idle, inside := true)])
  {
    var l := s.ts[t];
    var s1 := State(s.word, s.ts[t := l.(pc := DrainSecond)]);
    var s2 := State(s.word, s.ts[t := l.(pc := Idle, inside := true)]);
    assert Apply(s, Run(t, false)) == s1;
    assert s1.ts[t := l.(pc := Idle, inside := true)] == s2.ts && Apply(s1, Run(t, false)) == s2;
    RunsCons(s1, Run(t, false), []);
    RunsCons(s, Run(t, false), [Run(t, false)]);
    assert Steps(t, 1) == [Run(t, false)] && Steps(t, 2) == [Run(t, false)] + [Run(t, false)];
  }

  /** lock_shared() and try_lock_shared(), alone: while nobody claims the lock and one more
      reader can be counted, the second step returns with a shared lock. */
  lemma LockSharedGetsThere(s: State, t: Tid, op: Op)
    requires Inv(s) && !Claimed(s) && Readers(s) + 1 < HALF && t < |s.ts| && s.ts[t].pc == Idle
    requires op == LockShared || op == TryLockShared
    ensures Runs(s, [Call(t, op)] + Steps(t, 2))
    ensures var s' := Exec(s, [Call(t, op)] + Steps(t, 2));
      && s'.ts == s.ts[t := s.ts[t].(shares := s.ts[t].shares + 1)]
      && GetSharedLocks(s'.word) == Readers(s) + 1 && !IsExclusiveLocked(s'.word)
  {
    WordTells(s);
    CallLoadExchange(s, t, op);
  }

  /** The unlocks, alone: the flag is clear, or there is one reader fewer. */
  lemma UnlockGetsThere(s: State, t: Tid)
    requires Inv(s) && Readers(s) < HALF && t < |s.ts| && s.ts[t].pc == Idle
    ensures s.ts[t].inside ==>
              && Runs(s, [Call(t, Unlock)] + Steps(t, 2))
              && var s' := Exec(s, [Call(t, Unlock)] + Steps(t, 2));
                 !IsExclusiveLocked(s'.word) && s'.ts == s.ts[t := s.ts[t].(claimed := false, inside := false)]
    ensures s.ts[t].shares > 0 ==>
              && Runs(s, [Call(t, UnlockShared)] + Steps(t, 2))
              && var s' := Exec(s, [Call(t, UnlockShared)] + Steps(t, 2));
                 && GetSharedLocks(s'.word) == Readers(s) - 1 && IsExclusiveLocked(s'.word) == Claimed(s)
                 && s'.ts == s.ts[t := s.ts[t].(shares := s.ts[t].shares - 1)]
  {
    WordTells(s);
    if s.ts[t].inside { CallLoadExchange(s, t, Unlock); }
    if s.ts[t].shares > 0 { CallLoadExchange(s, t, UnlockShared); }
  }

  /** try_lock(), alone: it has the lock just when nobody has or claims it and there are no
      readers; and otherwise has changed nothing. */
  lemma TryLockOutcome(s: State, t: Tid)
    requires Inv(s) && Readers(s) < HALF && t < |s.ts| && s.ts[t].pc == Idle
    ensures if !Claimed(s) && Readers(s) == 0
            then
              && Runs(s, [Call(t, TryLock)] + Steps(t, 2))
              && Exec(s, [Call(t, TryLock)] + Steps(t, 2)) == State(1, s.ts[t := s.ts[t].(claimed := true, inside := true)])
            else Runs(s, [Call(t, TryLock)] + Steps(t, 1)) && Exec(s, [Call(t, TryLock)] + Steps(t, 1)) == s
  {
    WordTells(s);
    if s.word == 0 { CallLoadExchange(s, t, TryLock); } else { CallRefused(s, t, TryLock); }
  }

  /** try_lock_shared(), alone: refused, with nothing changed, while somebody claims the lock. */
  lemma TryLockSharedRefused(s: State, t: Tid)
    requires Inv(s) && Readers(s) < HALF && Claimed(s) && t < |s.ts| && s.ts[t].pc == Idle
    ensures Runs(s, [Call(t, TryLockShared)] + Steps(t, 1)) && Exec(s, [Call(t, TryLockShared)] + Steps(t, 1)) == s
  {
    WordTells(s);
    CallRefused(s, t, TryLockShared);
  }

  lemma CallRefused(s: State, t: Tid, op: Op)
    requires t < |s.ts| && s.ts[t].pc == Idle && Ready(s.ts[t], Call(t, op)) && !Proceeds(op, s.word) && Retry(op) == Idle
    ensures Runs(s, [Call(t, op)] + Steps(t, 1)) && Exec(s, [Call(t, op)] + Steps(t, 1)) == s
  {
    var s1 := State(s.word, s.ts[t := s.ts[t].(pc := Load(op))]);
    assert Apply(s, Call(t, op)) == s1;
    assert s1.ts[t := s.ts[t]] == s.ts && Apply(s1, Run(t, false)) == s;
    RunsCons(s1, Run(t, false), []);
    RunsCons(s, Call(t, op), [Run(t, false)]);
    assert Steps(t, 1) == [Run(t, false)];
  }

  // What an operation other than a try is for
  predicate Achieved(l: Local, l': Local, op: Op) {
    match op
    case Lock => l'.claimed && l'.inside
    case Unlock => !l'.claimed && !l'.inside
    case LockShared => l'.shares == l.shares + 1
    case UnlockShared => l'.shares == l.shares - 1
    case _ => true
  }

  // The operation a thread is in
  function CallOf(pc: Pc): Option<Op> {
    match pc
    case Idle => None
    case Load(op) => Some(op)
    case Cas(op, _) => Some(op)
    case _ => Some(Lock)
  }

  /** However often an exchange fails, a call returns only once it has what it is for; a try
      that returns without has changed nothing. Until then it is the same call. */
  lemma ReturnsOnlyWithSuccess(s: State, step: Step)
    requires Inv(s) && Readers(s) < HALF && Enabled(s, step) && step.Run?
    ensures var l, l' := s.ts[step.t], Apply(s, step).ts[step.t];
      var op := CallOf(l.pc).value;
      if l'.pc == Idle
      then Achieved(l, l', op) && (op.TryLock? || op.TryLockShared? ==> l' == Won(l, op) || (Apply(s, step).word == s.word && l' == l.(pc := Idle)))
      else CallOf(l'.pc) == Some(op)
  {
    var writer: Option<Tid> :| InvWith(s, writer);
    assert Agrees(Readers(s), writer == Some(step.t), s.ts[step.t]);
  }

  // How many steps of a run are a thread's own
  function OwnSteps(steps: seq<Step>, t: Tid): nat {
    if steps == [] then 0 else (if steps[0].t == t then 1 else 0) + OwnSteps(steps[1..], t)
  }

  // The steps a draining thread still has to make
  predicate DrainsIn(pc: Pc, n: nat) { (n == 2 && pc.DrainFirst?) || (n == 1 && pc.DrainSecond?) }

  /** Once the readers have left, a draining writer is in after two more steps of its own,
      whatever the other threads do in between: none of them gets in. */
  lemma {:induction false} DrainEnds(s: State, steps: seq<Step>, t: Tid, n: nat)
    requires Inv(s) && Runs(s, steps) && Within(s, steps) && Readers(s) == 0
    requires t < |s.ts| && DrainsIn(s.ts[t].pc, n) && OwnSteps(steps, t) == n && steps != [] && steps[|steps| - 1].t == t
    ensures t < |Exec(s, steps).ts| && Exec(s, steps).ts[t].inside && Exec(s, steps).ts[t].pc == Idle
    decreases |steps|
  {
    var s' := Apply(s, steps[0]);
    assert Within(s', steps[1..]);
    InvStep(s, steps[0]);
    WordTells(s);
    DrainerClaims(s, t);
    if steps[1..] != [] {
      assert steps[1..][|steps| - 2] == steps[|steps| - 1];
      if steps[0].t == t && n == 1 {
        LastIsOwn(steps[1..], t);
      } else {
        DrainEnds(s', steps[1..], t, if steps[0].t == t then 1 else n);
      }
    }
  }

  lemma DrainerClaims(s: State, t: Tid)
    requires Inv(s) && t < |s.ts| && (s.ts[t].pc.DrainFirst? || s.ts[t].pc.DrainSecond?)
    ensures s.ts[t].claimed
  {
    var writer: Option<Tid> :| InvWith(s, writer);
    assert Agrees(Readers(s), writer == Some(t), s.ts[t]);
  }

  lemma {:induction false} LastIsOwn(steps: seq<Step>, t: Tid)
    requires steps != [] && steps[|steps| - 1].t == t
    ensures OwnSteps(steps, t) > 0
    decreases |steps|
  {
    if |steps| > 1 { LastIsOwn(steps[1..], t); }
  }

  // ---------------------------------------------------------------- the true bound

  /** What the word is for. */
  ghost predicate Exact(s: State) {
    && GetSharedLocks(s.word) == Readers(s)
    && (IsExclusiveLocked(s.word) <==> exists u :: 0 <= u < |s.ts| && s.ts[u].claimed)
  }

  ghost predicate ExactAlong(s: State, steps: seq<Step>)
    requires Runs(s, steps)
    decreases |steps|
  {
    Exact(s) && (steps != [] ==> ExactAlong(Apply(s, steps[0]), steps[1..]))
  }

  // The word and every snapshot of it fit 32 bits, exact or not
  predicate FitsWord(pc: Pc) { pc.Cas? ==> pc.snap < WORD }

  predicate Narrow(s: State) { s.word < WORD && forall u :: 0 <= u < |s.ts| ==> FitsWord(s.ts[u].pc) }

  lemma NarrowStep(s: State, step: Step)
    requires Narrow(s) && Enabled(s, step)
    ensures Narrow(Apply(s, step))
  {
    assert FitsWord(s.ts[step.t].pc);
  }

  lemma InvIsExact(s: State)
    requires Inv(s) && Readers(s) < HALF
    ensures Exact(s)
  {
    var writer: Option<Tid> :| InvWith(s, writer);
    assert forall u :: 0 <= u < |s.ts| ==> Agrees(Readers(s), writer == Some(u), s.ts[u]);
    if writer.Some? { assert s.ts[writer.value].claimed; }
  }

  lemma {:induction false} ExactThenWithin(s: State, steps: seq<Step>)
    requires Narrow(s) && Runs(s, steps) && ExactAlong(s, steps)
    ensures Within(s, steps)
    decreases |steps|
  {
    if steps != [] {
      NarrowStep(s, steps[0]);
      ExactThenWithin(Apply(s, steps[0]), steps[1..]);
    }
  }

  lemma {:induction false} WithinThenExact(s: State, steps: seq<Step>)
    requires Inv(s) && Runs(s, steps) && Within(s, steps)
    ensures ExactAlong(s, steps)
    decreases |steps|
  {
    InvIsExact(s);
    if steps != [] {
      assert Within(Apply(s, steps[0]), steps[1..]);
      InvStep(s, steps[0]);
      WithinThenExact(Apply(s, steps[0]), steps[1..]);
    }
  }

  /** The word is exact in every state of a run if and only if fewer than 2^31 shared locks
      are held in every state of it. */
  lemma ExactIffWithin(init: State, steps: seq<Step>)
    requires Init(init) && Runs(init, steps)
    ensures ExactAlong(init, steps) <==> Within(init, steps)
  {
    InvInit(init);
    if Within(init, steps) { WithinThenExact(init, steps); }
    if ExactAlong(init, steps) { ExactThenWithin(init, steps); }
  }

  /** One more reader is counted exactly when the new count still fits in 31 bits, whatever
      MaxNumSharedLocks promises: the shift in MakeState drops the top bit. */
  lemma CountFitsIff(n: nat)
    requires n < HALF
    ensures GetSharedLocks(Encode(false, n)) < MAX_NUM_SHARED_LOCKS
    ensures Desired(LockShared, Encode(false, n)) == Encode(false, n + 1) <==> n + 1 < HALF
    ensures n + 1 == HALF ==> Desired(LockShared, Encode(false, n)) == 0
  {
  }

  function Two(word: nat, shares: nat, b: Local): State {
    State(word, [Local(Idle, false, false, shares), b])
  }

  const FREE: Local := Local(Idle, false, false, 0)

  ghost predicate Reaches(s: State, steps: seq<Step>, e: State) { Runs(s, steps) && Exec(s, steps) == e }

  lemma ReachesCons(s: State, step: Step, m: State, rest: seq<Step>, e: State)
    requires Enabled(s, step) && Apply(s, step) == m && Reaches(m, rest, e)
    ensures Reaches(s, [step] + rest, e)
  {
    assert ([step] + rest)[1..] == rest;
  }

  // try_lock_shared by thread 0, uninterrupted
  lemma Grab(k: nat, rest: seq<Step>, e: State)
    requires k < HALF && Reaches(Two((2 * (k + 1)) % WORD, k + 1, FREE), rest, e)
    ensures exists steps :: Reaches(Two(2 * k, k, FREE), steps, e)
  {
    var s0 := Two(2 * k, k, FREE);
    var s1 := State(2 * k, [Local(Load(TryLockShared), false, false, k), FREE]);
    var s2 := State(2 * k, [Local(Cas(TryLockShared, 2 * k), false, false, k), FREE]);
    var s3 := Two((2 * (k + 1)) % WORD, k + 1, FREE);
    assert Apply(s2, Run(0, false)) == s3;
    ReachesCons(s2, Run(0, false), s3, rest, e);
    assert Apply(s1, Run(0, false)) == s2;
    ReachesCons(s1, Run(0, false), s2, [Run(0, false)] + rest, e);
    assert Apply(s0, Call(0, TryLockShared)) == s1;
    ReachesCons(s0, Call(0, TryLockShared), s1, [Run(0, false)] + ([Run(0, false)] + rest), e);
  }

  lemma {:induction false} GrabAll(k: nat, rest: seq<Step>, e: State)
    requires k < HALF && Reaches(Two(0, HALF, FREE), rest, e)
    ensures exists steps :: Reaches(Two(2 * k, k, FREE), steps, e)
    decreases HALF - k
  {
    if k + 1 == HALF {
      Grab(k, rest, e);
    } else {
      GrabAll(k + 1, rest, e);
      var steps :| Reaches(Two(2 * (k + 1), k + 1, FREE), steps, e);
      Grab(k, steps, e);
    }
  }

  /** With 2^31 shared locks held the word reads zero, and a writer walks in on them. */
  lemma BoundIsTight()
    ensures exists init: State, steps: seq<Step>, s: State ::
      && Init(init) && Reaches(init, steps, s)
      && |s.ts| == 2 && s.ts[0].shares == HALF && s.ts[1].inside
  {
    var s0 := Two(0, HALF, FREE);
    var s1 := Two(0, HALF, Local(Load(TryLock), false, false, 0));
    var s2 := Two(0, HALF, Local(Cas(TryLock, 0), false, false, 0));
    var s3 := Two(1, HALF, Local(Idle, true, true, 0));
    assert Apply(s2, Run(1, false)) == s3;
    assert Reaches(s3, [], s3);
    ReachesCons(s2, Run(1, false), s3, [], s3);
    assert Apply(s1, Run(1, false)) == s2;
    ReachesCons(s1, Run(1, false), s2, [Run(1, false)] + [], s3);
    assert Apply(s0, Call(1, TryLock)) == s1;
    ReachesCons(s0, Call(1, TryLock), s1, [Run(1, false)] + ([Run(1, false)] + []), s3);
    GrabAll(0, [Call(1, TryLock)] + ([Run(1, false)] + ([Run(1, false)] + [])), s3);
    var steps :| Reaches(Two(0, 0, FREE), steps, s3);
    assert Init(Two(0, 0, FREE));
  }
}
