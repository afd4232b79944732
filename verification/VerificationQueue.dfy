/** The verification of reported public addresses: a set of addresses that are being
    verified, a queue of verifications, and a worker that takes one at a time.

    A reporter puts an address in the set and its verification in the queue while it holds
    the set's lock; the worker takes from the queue under the queue's own lock, and takes the
    set's lock only to erase. Reporters and the worker interleave between these steps. */
module VerificationQueueModel {
  import opened Basics

  datatype Status = Initialized | Verifying | Succeeded | Timedout | Failed

  predicate Terminal(s: Status) { s.Succeeded? || s.Timedout? || s.Failed? }

  function Progress(s: Status): nat { match s case Initialized => 0 case Verifying => 1 case _ => 2 }

  /** What the network does during one Verify: whether the socket could be set up and the
      data sent, what was received, and whether time is up. */
  datatype Reception = Nothing | Expected | Broken
  datatype Outcome = Outcome(sent: bool, received: Reception, late: bool)

  // The status Verify leaves behind
  function Verified(s: Status, o: Outcome): Status {
    if s == Initialized && !o.sent then Failed
    else if Terminal(s) then s
    else if o.received.Expected? then Succeeded
    else if o.received.Broken? then Failed
    else if o.late then Timedout
    else Verifying
  }

  class DataVerificationDetails<A> {
    const m_IPAddress: A
    var m_Status: Status

    constructor (ip: A)
      ensures m_IPAddress == ip && m_Status == Initialized
    {
      m_IPAddress, m_Status := ip, Initialized;
    }

    method Verify(o: Outcome) returns (ok: bool)
      modifies this
      ensures m_Status == Verified(old(m_Status), o)
      ensures ok <==> !m_Status.Failed? && (m_Status.Timedout? ==> old(m_Status).Timedout?)
    {
      if m_Status == Initialized {
        m_Status := if o.sent then Verifying else Failed;
      }
      if m_Status == Verifying {
        if o.received.Expected? {
          m_Status := Succeeded;
        } else if o.received.Broken? {
          m_Status := Failed;
        }
      }
      if m_Status == Verifying && o.late {
        m_Status := Timedout;
        return false;
      }
      if m_Status == Failed {
        return false;
      }
      ok := true;
    }
  }

  /** Status only moves forward, and a verification that has ended stays as it ended. */
  lemma VerifyMovesForward(s: Status, o: Outcome)
    ensures Progress(s) <= Progress(Verified(s, o)) && Verified(s, o) != Initialized
    ensures Terminal(s) ==> Verified(s, o) == s
    ensures Verified(s, o) == Succeeded && s != Succeeded ==> o.received.Expected? && (s == Initialized ==> o.sent)
  {
  }

  /** What an attempt comes to: it fails when the data cannot be sent or the socket breaks, it
      succeeds just on the expected reply, it is over when time is up, and otherwise it goes on. */
  lemma VerifyOutcome(s: Status, o: Outcome)
    requires !Terminal(s)
    ensures s == Initialized && !o.sent ==> Verified(s, o) == Failed
    ensures s == Verifying || o.sent ==>
      && (Verified(s, o) == Succeeded <==> o.received == Expected)
      && (Verified(s, o) == Failed <==> o.received == Broken)
      && (Verified(s, o) == Timedout <==> o.received == Nothing && o.late)
      && (Verified(s, o) == Verifying <==> o.received == Nothing && !o.late)
  {
  }

  // ---------------------------------------------------------------- reporters and the worker

  datatype Item<A> = Item(ip: A, status: Status)

  datatype Worker<A> = Idle | Popped(item: Item<A>) | Checked(item: Item<A>) | Marked(item: Item<A>)

  /** pending: the address a reporter has put in the set but not yet in the queue; it holds
      the set's lock. succeeded: the addresses the worker has marked verified. */
  datatype State<A> = State(inSet: set<A>, queue: seq<Item<A>>, worker: Worker<A>, pending: Option<A>, succeeded: set<A>)

  datatype Step<A> = Emplace(ip: A) | Push | PushFails | Pop | Verify(o: Outcome) | Mark | Finish

  predicate Enabled<A(==)>(s: State<A>, step: Step<A>) {
    match step
    case Emplace(_) => s.pending.None?
    case Push => s.pending.Some?
    case PushFails => s.pending.Some?
    case Pop => s.worker.Idle? && s.queue != []
    case Verify(_) => s.worker.Popped?
    case Mark => s.worker.Checked?
    case Finish => s.worker.Marked? && (s.worker.item.status.Verifying? || s.pending.None?)
  }

  function Apply<A>(s: State<A>, step: Step<A>): State<A>
    requires Enabled(s, step)
  {
    match step
    case Emplace(ip) => if ip in s.inSet then s else s.(inSet := s.inSet + {ip}, pending := Some(ip))
    case Push => s.(queue := s.queue + [Item(s.pending.value, Initialized)], pending := None)
    case PushFails => s.(inSet := s.inSet - {s.pending.value}, pending := None)
    case Pop => s.(worker := Popped(s.queue[0]), queue := s.queue[1..])
    case Verify(o) => s.(worker := Checked(s.worker.item.(status := Verified(s.worker.item.status, o))))
    case Mark =>
      var item := s.worker.item;
      s.(worker := Marked(item), succeeded := if item.status.Succeeded? then s.succeeded + {item.ip} else s.succeeded)
    case Finish =>
      var item := s.worker.item;
      if item.status.Verifying? then s.(worker := Idle, queue := s.queue + [item])
      else s.(worker := Idle, inSet := s.inSet - {item.ip})
  }

  predicate Init<A(==)>(s: State<A>) { s == State({}, [], Idle, None, {}) }

  predicate Runs<A(==)>(s: State<A>, steps: seq<Step<A>>)
    decreases |steps|
  {
    steps == [] || (Enabled(s, steps[0]) && Runs(Apply(s, steps[0]), steps[1..]))
  }

  function Exec<A>(s: State<A>, steps: seq<Step<A>>): State<A>
    requires Runs(s, steps)
    decreases |steps|
  {
    if steps == [] then s else Exec(Apply(s, steps[0]), steps[1..])
  }

  // ---------------------------------------------------------------- the invariant

  // Where an address is being dealt with
  predicate Queued<A(==)>(s: State<A>, ip: A) { exists i :: 0 <= i < |s.queue| && s.queue[i].ip == ip }
  predicate WorkedOn<A(==)>(s: State<A>, ip: A) { !s.worker.Idle? && s.worker.item.ip == ip }
  predicate Pending<A(==)>(s: State<A>, ip: A) { s.pending == Some(ip) }

  ghost predicate Inv<A(!new)>(s: State<A>) {
    && (forall ip :: ip in s.inSet <==> Queued(s, ip) || WorkedOn(s, ip) || Pending(s, ip))
    && (forall i, j :: 0 <= i < j < |s.queue| ==> s.queue[i].ip != s.queue[j].ip)
    && (!s.worker.Idle? ==> !Queued(s, s.worker.item.ip) && !Pending(s, s.worker.item.ip))
    && (s.pending.Some? ==> !Queued(s, s.pending.value))
    && (forall i :: 0 <= i < |s.queue| ==> !Terminal(s.queue[i].status))
    && (s.worker.Popped? ==> !Terminal(s.worker.item.status))
    && (s.worker.Checked? || s.worker.Marked? ==> s.worker.item.status != Initialized)
  }

  lemma QueuedAfterPush<A(!new)>(s: State<A>, item: Item<A>, t: State<A>, ip: A)
    requires t.queue == s.queue + [item]
    ensures Queued(t, ip) <==> Queued(s, ip) || ip == item.ip
  {
    if Queued(s, ip) {
      var i :| 0 <= i < |s.queue| && s.queue[i].ip == ip;
      assert t.queue[i].ip == ip;
    }
    assert t.queue[|s.queue|] == item;
  }

  lemma QueuedAfterPop<A(!new)>(s: State<A>, t: State<A>, ip: A)
    requires s.queue != [] && t.queue == s.queue[1..]
    ensures Queued(s, ip) <==> Queued(t, ip) || ip == s.queue[0].ip
  {
    if Queued(t, ip) {
      var i :| 0 <= i < |t.queue| && t.queue[i].ip == ip;
      assert s.queue[i + 1].ip == ip;
    }
    if Queued(s, ip) {
      var i :| 0 <= i < |s.queue| && s.queue[i].ip == ip;
      if i > 0 { assert t.queue[i - 1].ip == ip; }
    }
  }

  lemma StepKeeps<A(!new)>(s: State<A>, step: Step<A>)
    requires Inv(s) && Enabled(s, step)
    ensures Inv(Apply(s, step))
  {
    var t := Apply(s, step);
    match step {
      case Push => forall ip ensures Queued(t, ip) <==> Queued(s, ip) || ip == s.pending.value {
          QueuedAfterPush(s, Item(s.pending.value, Initialized), t, ip);
        }
      case Pop =>
        forall ip ensures Queued(s, ip) <==> Queued(t, ip) || ip == s.queue[0].ip { QueuedAfterPop(s, t, ip); }
        assert Queued(s, s.queue[0].ip);
        assert forall i :: 0 <= i < |t.queue| ==> t.queue[i] == s.queue[i + 1];
      case Finish =>
        if s.worker.item.status.Verifying? {
          forall ip ensures Queued(t, ip) <==> Queued(s, ip) || ip == s.worker.item.ip {
            QueuedAfterPush(s, s.worker.item, t, ip);
          }
        }
      case _ =>
    }
  }

  lemma {:induction false} RunKeeps<A(!new)>(s: State<A>, steps: seq<Step<A>>)
    requires Inv(s) && Runs(s, steps)
    ensures Inv(Exec(s, steps))
    decreases |steps|
  {
    if steps != [] {
      StepKeeps(s, steps[0]);
      RunKeeps(Apply(s, steps[0]), steps[1..]);
    }
  }

  predicate OnlyOne(a: bool, b: bool, c: bool) { !(a && b) && !(a && c) && !(b && c) }

  /** In every reachable state the set is exactly the addresses queued, being worked on or
      about to be queued, and each is only one of these, and queued only once. */
  lemma SetIsWhatIsInHand<A(!new)>(init: State<A>, steps: seq<Step<A>>, ip: A)
    requires Init(init) && Runs(init, steps)
    ensures var s := Exec(init, steps);
      && (ip in s.inSet <==> Queued(s, ip) || WorkedOn(s, ip) || Pending(s, ip))
      && OnlyOne(Queued(s, ip), WorkedOn(s, ip), Pending(s, ip))
      && forall i, j :: 0 <= i < |s.queue| && 0 <= j < |s.queue| && s.queue[i].ip == s.queue[j].ip ==> i == j
  {
    RunKeeps(init, steps);
  }

  /** An address leaves the set only when its verification has ended, or when it could not be
      queued; and is marked verified only when its verification succeeded. */
  lemma OnlyEndedLeave<A(!new)>(s: State<A>, step: Step<A>, ip: A)
    requires Inv(s) && Enabled(s, step)
    ensures ip in s.inSet && ip !in Apply(s, step).inSet ==>
              (step.PushFails? && Pending(s, ip)) || (step.Finish? && WorkedOn(s, ip) && Terminal(s.worker.item.status))
    ensures ip !in s.succeeded && ip in Apply(s, step).succeeded ==>
              step.Mark? && WorkedOn(s, ip) && s.worker.item.status == Succeeded
  {
  }

  // ---------------------------------------------------------------- every address is served

  // An attempt that sends its data and gets the reply
  const ANSWERED: Outcome := Outcome(true, Expected, false)

  // The worker alone, every attempt of it answered
  predicate WorkerAlone<A(==)>(steps: seq<Step<A>>) {
    forall i :: 0 <= i < |steps| ==> steps[i].Pop? || steps[i] == Verify(ANSWERED) || steps[i].Mark? || steps[i].Finish?
  }

  // Its next step
  function Next<A>(s: State<A>): Step<A> {
    match s.worker case Idle => Pop case Popped(_) => Verify(ANSWERED) case Checked(_) => Mark case Marked(_) => Finish
  }

  function StepsLeft<A>(w: Worker<A>): nat { match w case Popped(_) => 3 case Checked(_) => 2 case Marked(_) => 1 case Idle => 0 }

  // The address is marked verified and out of the set
  predicate Served<A(==)>(s: State<A>, ip: A) { ip !in s.inSet && ip in s.succeeded }

  // An attempt at it is still to come, or has succeeded
  predicate Awaits<A(==)>(s: State<A>, ip: A) {
    || Queued(s, ip)
    || (WorkedOn(s, ip) &&
         match s.worker
         case Checked(item) => item.status == Succeeded
         case Marked(item) => item.status == Succeeded && ip in s.succeeded
         case _ => true)
  }

  // Nothing in the queue or with the worker can go back to the queue
  predicate NoneStays<A(==)>(w: Worker<A>) { w.Checked? || w.Marked? ==> !w.item.status.Verifying? }

  lemma NextServes<A(!new)>(s: State<A>, ip: A)
    requires Inv(s) && s.pending.None? && NoneStays(s.worker) && Awaits(s, ip)
    ensures Enabled(s, Next(s))
    ensures var t := Apply(s, Next(s));
      && t.pending.None? && NoneStays(t.worker) && (Awaits(t, ip) || Served(t, ip))
      && 4 * |t.queue| + StepsLeft(t.worker) < 4 * |s.queue| + StepsLeft(s.worker)
  {
    match s.worker {
      case Idle => QueuedAfterPop(s, Apply(s, Pop), ip);
      case Popped(item) => VerifyOutcome(item.status, ANSWERED);
      case Checked(_) =>
      case Marked(_) =>
    }
  }

  lemma RunsCons<A>(s: State<A>, step: Step<A>, rest: seq<Step<A>>)
    requires Enabled(s, step) && Runs(Apply(s, step), rest)
    ensures Runs(s, [step] + rest) && Exec(s, [step] + rest) == Exec(Apply(s, step), rest)
  {
    assert ([step] + rest)[1..] == rest;
  }

  lemma {:induction false} Serve<A(!new)>(s: State<A>, ip: A) returns (steps: seq<Step<A>>)
    requires Inv(s) && s.pending.None? && NoneStays(s.worker) && (Awaits(s, ip) || Served(s, ip))
    ensures WorkerAlone(steps) && Runs(s, steps) && Served(Exec(s, steps), ip)
    ensures |steps| <= 4 * |s.queue| + StepsLeft(s.worker)
    decreases 4 * |s.queue| + StepsLeft(s.worker)
  {
    steps := [];
    if !Served(s, ip) {
      NextServes(s, ip);
      StepKeeps(s, Next(s));
      steps := Serve(Apply(s, Next(s)), ip);
      RunsCons(s, Next(s), steps);
      steps := [Next(s)] + steps;
    }
  }

  /** Every address in the queue gets its turn: in any reachable state in which the worker is
      idle and no reporter is at work, it is marked verified and leaves the set after at most
      four steps of the worker for each address queued, if the attempts are answered. */
  lemma QueuedIsServed<A(!new)>(init: State<A>, before: seq<Step<A>>, ip: A) returns (steps: seq<Step<A>>)
    requires Init(init) && Runs(init, before)
    requires var s := Exec(init, before); s.worker.Idle? && s.pending.None? && ip in s.inSet
    ensures var s := Exec(init, before);
      && WorkerAlone(steps) && Runs(s, steps) && |steps| <= 4 * |s.queue|
      && ip !in Exec(s, steps).inSet && ip in Exec(s, steps).succeeded
  {
    RunKeeps(init, before);
    steps := Serve(Exec(init, before), ip);
  }

  /** What a reporter adds is queued, and so is what could not be verified yet: it has its turn
      again after all that are queued before it. */
  lemma GoesOn<A(!new)>(s: State<A>, o: Outcome)
    requires Inv(s) && s.worker.Popped? && o.received == Nothing && !o.late && (s.worker.item.status == Initialized ==> o.sent)
    ensures var ip := s.worker.item.ip;
      var t := Apply(Apply(Apply(s, Verify(o)), Mark), Finish);
      t == s.(worker := Idle, queue := s.queue + [Item(ip, Verifying)]) && ip in t.inSet
  {
    VerifyOutcome(s.worker.item.status, o);
  }

  /** And what failed or took too long leaves the set without being marked, so that it can be
      reported again. */
  lemma GivenUp<A(!new)>(s: State<A>, o: Outcome)
    requires Inv(s) && s.worker.Popped? && s.pending.None?
    requires (s.worker.item.status == Initialized && !o.sent) || o.received == Broken || (o.received == Nothing && o.late)
    ensures var ip := s.worker.item.ip;
      var t := Apply(Apply(Apply(s, Verify(o)), Mark), Finish);
      t == s.(worker := Idle, inSet := s.inSet - {ip}) && ip !in t.inSet
  {
    VerifyOutcome(s.worker.item.status, o);
  }

  // An address's verification, where there is one
  function StatusOf<A(==)>(s: State<A>, ip: A): Option<Status> {
    if WorkedOn(s, ip) then Some(s.worker.item.status) else InQueue(s.queue, ip)
  }

  function InQueue<A(==)>(queue: seq<Item<A>>, ip: A): Option<Status> {
    if queue == [] then None else if queue[0].ip == ip then Some(queue[0].status) else InQueue(queue[1..], ip)
  }

  lemma {:induction false} InQueuePush<A>(queue: seq<Item<A>>, item: Item<A>, ip: A)
    ensures InQueue(queue + [item], ip) ==
              if InQueue(queue, ip).Some? then InQueue(queue, ip) else if item.ip == ip then Some(item.status) else None
    decreases |queue|
  {
    if queue != [] {
      InQueuePush(queue[1..], item, ip);
      assert (queue + [item])[1..] == queue[1..] + [item];
    }
  }

  lemma {:induction false} InQueueIff<A(!new)>(s: State<A>, queue: seq<Item<A>>, ip: A)
    requires s.queue == queue
    ensures InQueue(queue, ip).Some? <==> Queued(s, ip)
    decreases |queue|
  {
    if queue != [] {
      var t := s.(queue := queue[1..]);
      InQueueIff(t, queue[1..], ip);
      QueuedAfterPop(s, t, ip);
    }
  }

  /** While an address stays in hand its verification's status never moves back. */
  lemma StatusMovesForward<A(!new)>(s: State<A>, step: Step<A>, ip: A)
    requires Inv(s) && Enabled(s, step)
    ensures StatusOf(s, ip).Some? && StatusOf(Apply(s, step), ip).Some? ==>
              Progress(StatusOf(s, ip).value) <= Progress(StatusOf(Apply(s, step), ip).value)
    ensures StatusOf(s, ip).None? && StatusOf(Apply(s, step), ip).Some? ==> StatusOf(Apply(s, step), ip) == Some(Initialized)
    ensures StatusOf(s, ip).Some? && StatusOf(Apply(s, step), ip).None? ==> Terminal(StatusOf(s, ip).value)
  {
    InQueueIff(s, s.queue, ip);
    match step {
      case Push => InQueuePush(s.queue, Item(s.pending.value, Initialized), ip);
      case Finish => InQueuePush(s.queue, s.worker.item, ip);
      case Pop => assert Queued(s, s.queue[0].ip); InQueueIff(Apply(s, Pop), s.queue[1..], ip);
      case Verify(o) => VerifyMovesForward(s.worker.item.status, o);
      case _ =>
    }
  }

  // ---------------------------------------------------------------- the reporter's side as a whole

  // What adding an address does to the set and the queue
  predicate Adds<A(==)>(inSet: set<A>, queue: seq<Item<A>>, inSet': set<A>, queue': seq<Item<A>>, ip: A, ok: bool) {
    && (ok <==> ip in inSet')
    && inSet' == inSet + (if ok then {ip} else {})
    && queue' == queue + (if ip !in inSet && ok then [Item(ip, Initialized)] else [])
  }

  // The steps of one reporter, the lock being free
  function AddSteps<A(==)>(inSet: set<A>, ip: A, pushFails: bool): seq<Step<A>> {
    if ip in inSet then [Emplace(ip)] else [Emplace(ip)] + [if pushFails then PushFails else Push]
  }

  /** Adding an address as a whole is what the reporter's steps come to when nobody steps in
      between. */
  lemma AddIsSteps<A(!new)>(s: State<A>, ip: A, pushFails: bool)
    requires s.pending.None?
    ensures Runs(s, AddSteps(s.inSet, ip, pushFails))
    ensures var t := Exec(s, AddSteps(s.inSet, ip, pushFails));
      && t == s.(inSet := t.inSet, queue := t.queue)
      && Adds(s.inSet, s.queue, t.inSet, t.queue, ip, ip in s.inSet || !pushFails)
  {
    var t := Apply(s, Emplace(ip));
    if ip in s.inSet {
      assert s.inSet + {ip} == s.inSet && s.queue + [] == s.queue;
    } else {
      var last := if pushFails then PushFails else Push;
      assert AddSteps(s.inSet, ip, pushFails)[1..] == [last];
      assert Runs(Apply(t, last), []);
      assert Runs(t, [last]) && Exec(t, [last]) == Apply(t, last);
      assert s.inSet + {ip} - {ip} == s.inSet + {} && s.queue + [] == s.queue;
    }
  }

  /** The set and the queue as a reporter finds and leaves them. */
  class Verification<A(==)> {
    var m_Set: set<A>
    var m_Queue: seq<Item<A>>

    constructor ()
      ensures m_Set == {} && m_Queue == []
    {
      m_Set, m_Queue := {}, [];
    }

    /** Adds an address unless it is in hand already; a failed push takes it out again. */
    method Add(ip: A, pushFails: bool) returns (ok: bool)
      modifies this
      ensures ok == (ip in old(m_Set) || !pushFails)
      ensures Adds(old(m_Set), old(m_Queue), m_Set, m_Queue, ip, ok)
    {
      if ip !in m_Set {
        m_Set := m_Set + {ip};
        if pushFails {
          m_Set := m_Set - {ip};
          return false;
        }
        m_Queue := m_Queue + [Item(ip, Initialized)];
      }
      ok := true;
    }
  }
}
