/** A stream of pieces, one after the other, that arrives cut anywhere: a receiver that
    recognises each piece hands them on in order, however it is called. */
module ByteStreamModel {
  import opened Basics
  import opened BufferIOModel

  // ---------------------------------------------------------------- the receiving end

  /** What is buffered, how many bytes to skip before the next piece, what was handed on, and
      whether something was wrong. */
  datatype Inbox<T> = Inbox(buffer: seq<byte>, prefix: nat, got: seq<T>, failed: bool)

  datatype Check = NotEnoughData | TooMuchData | CompleteMessage

  // A complete piece taken off the buffer, if there is one and it can be read
  datatype Next<T> = Nothing | Bad(b: Inbox<T>) | One(b: Inbox<T>, item: T)

  type Taker<!T(!new)> = take: Inbox<T> -> Next<T> | forall b :: take(b).One? ==> |take(b).b.buffer| < |b.buffer|
    witness (b: Inbox<T>) => Nothing

  datatype Reader<!T(!new)> = Reader(peek: Inbox<T> -> Check, take: Taker<T>)

  /** How much may be done in one call: it stops after the piece that brings it to the limit,
      counting what each holds. */
  datatype Work<!T> = Work(burst: nat, count: T -> nat)

  function Fed<T>(b: Inbox<T>, chunk: seq<byte>): Inbox<T> { b.(buffer := b.buffer + chunk) }

  // Takes complete pieces while there are any and the limit is not reached
  function Drain<T(!new)>(take: Taker<T>, w: Work<T>, num: nat, b: Inbox<T>): Inbox<T>
    decreases |b.buffer|
  {
    match take(b)
    case Nothing => b
    case Bad(b') => b'
    case One(b', item) => if num + w.count(item) >= w.burst then b' else Drain(take, w, num + w.count(item), b')
  }

  function Process<T(!new)>(r: Reader<T>, w: Work<T>, b: Inbox<T>): Inbox<T> {
    if b.failed then b
    else
      match r.peek(b)
      case CompleteMessage => Drain(r.take, w, 0, b)
      case NotEnoughData => b
      case TooMuchData => b.(failed := true)
  }

  /** One call: what has come in, and how much may be done. */
  datatype Arrival<!T> = Arrival(chunk: seq<byte>, work: Work<T>)

  function Arrive<T(!new)>(r: Reader<T>, b: Inbox<T>, calls: seq<Arrival<T>>): Inbox<T>
    decreases |calls|
  {
    if calls == [] then b else Arrive(r, Process(r, calls[0].work, Fed(b, calls[0].chunk)), calls[1..])
  }

  function Chunks<T>(calls: seq<Arrival<T>>): seq<byte>
    decreases |calls|
  {
    if calls == [] then [] else calls[0].chunk + Chunks(calls[1..])
  }

  // ---------------------------------------------------------------- the pieces

  /** prefix: what the receiver must know beforehand; next: what the piece tells it about the
      one after; item: what is handed on. */
  datatype Piece<T> = Piece(bytes: seq<byte>, prefix: nat, next: nat, item: T)

  function Joined<T>(ps: seq<Piece<T>>): seq<byte>
    decreases |ps|
  {
    if ps == [] then [] else ps[0].bytes + Joined(ps[1..])
  }

  function Items<T>(ps: seq<Piece<T>>): (items: seq<T>)
    ensures |items| == |ps|
    decreases |ps|
  {
    if ps == [] then [] else [ps[0].item] + Items(ps[1..])
  }

  predicate Linked<T>(ps: seq<Piece<T>>, prefix: nat)
    decreases |ps|
  {
    ps != [] ==> ps[0].prefix == prefix && Linked(ps[1..], ps[0].next)
  }

  /** The inbox is between pieces and holds a first part of those to come. */
  predicate Awaits<T>(b: Inbox<T>, ps: seq<Piece<T>>) { Linked(ps, b.prefix) && !b.failed && b.buffer <= Joined(ps) }

  // No whole piece is there
  predicate Short<T>(b: Inbox<T>, ps: seq<Piece<T>>) { ps == [] || |b.buffer| < |ps[0].bytes| }

  function After<T>(b: Inbox<T>, p: Piece<T>): Inbox<T>
    requires |p.bytes| <= |b.buffer|
  {
    Inbox(b.buffer[|p.bytes|..], p.next, b.got + [p.item], false)
  }

  /** The receiver sees a piece just when it is whole, and takes exactly it. */
  ghost predicate RecognisesFirst<T(!new)>(r: Reader<T>, ps: seq<Piece<T>>) {
    forall b {:trigger r.peek(b)} {:trigger r.take(b)} :: Awaits(b, ps) ==>
      if Short(b, ps) then r.peek(b) == NotEnoughData && r.take(b) == Nothing
      else r.peek(b) == CompleteMessage && r.take(b) == One(After(b, ps[0]), ps[0].item)
  }

  ghost predicate Recognises<T(!new)>(r: Reader<T>, ps: seq<Piece<T>>)
    decreases |ps|
  {
    RecognisesFirst(r, ps) && (ps != [] ==> Recognises(r, ps[1..]))
  }

  lemma {:induction false} JoinedJoin<T>(x: seq<Piece<T>>, y: seq<Piece<T>>)
    ensures Joined(x + y) == Joined(x) + Joined(y) && Items(x + y) == Items(x) + Items(y)
    decreases |x|
  {
    if x == [] {
      assert x + y == y;
    } else {
      assert (x + y)[1..] == x[1..] + y;
      JoinedJoin(x[1..], y);
    }
  }

  // ---------------------------------------------------------------- one call

  /** b' is b after handing on just these pieces. */
  ghost predicate Through<T>(b: Inbox<T>, b': Inbox<T>, done: seq<Piece<T>>, rest: seq<Piece<T>>) {
    b'.got == b.got + Items(done) && Awaits(b', rest) && b.buffer == Joined(done) + b'.buffer
  }

  lemma ThroughNone<T>(b: Inbox<T>, ps: seq<Piece<T>>)
    requires Awaits(b, ps)
    ensures Through(b, b, [], ps)
  {
    assert b.got + [] == b.got && [] + b.buffer == b.buffer;
  }

  lemma Assoc<X>(a: seq<X>, b: seq<X>, c: seq<X>)
    ensures a + b + c == a + (b + c)
  {
  }

  lemma ThroughTwice<T>(b: Inbox<T>, b1: Inbox<T>, e: Inbox<T>, x: seq<Piece<T>>, y: seq<Piece<T>>, rest: seq<Piece<T>>)
    requires b1.got == b.got + Items(x) && b.buffer == Joined(x) + b1.buffer && Through(b1, e, y, rest)
    ensures Through(b, e, x + y, rest) && x + y + rest == x + (y + rest)
  {
    JoinedJoin(x, y);
    Assoc(b.got, Items(x), Items(y));
    Assoc(Joined(x), Joined(y), e.buffer);
    Assoc(x, y, rest);
  }

  lemma Single<T>(p: Piece<T>)
    ensures Items([p]) == [p.item] && Joined([p]) == p.bytes
  {
    assert p.bytes + [] == p.bytes;
  }

  // What some pieces count towards the limit
  function Counted<T>(count: T -> nat, ps: seq<Piece<T>>): nat
    decreases |ps|
  {
    if ps == [] then 0 else count(ps[0].item) + Counted(count, ps[1..])
  }

  lemma {:induction false} CountedJoin<T>(count: T -> nat, x: seq<Piece<T>>, y: seq<Piece<T>>)
    ensures Counted(count, x + y) == Counted(count, x) + Counted(count, y)
    decreases |x|
  {
    if x == [] {
      assert x + y == y;
    } else {
      assert (x + y)[1..] == x[1..] + y;
      CountedJoin(count, x[1..], y);
    }
  }

  // The first piece off the buffer
  lemma AfterFirst<T(!new)>(r: Reader<T>, b: Inbox<T>, ps: seq<Piece<T>>)
    requires Recognises(r, ps) && Awaits(b, ps) && !Short(b, ps)
    ensures r.take(b) == One(After(b, ps[0]), ps[0].item) && r.peek(b) == CompleteMessage
    ensures Awaits(After(b, ps[0]), ps[1..]) && b.buffer == ps[0].bytes + After(b, ps[0]).buffer
  {
    var x, y := ps[0].bytes, Joined(ps[1..]);
    assert b.buffer[..|x|] == (x + y)[..|b.buffer|][..|x|] == x;
    assert (x + y)[..|b.buffer|][|x|..] == y[..|b.buffer| - |x|];
  }

  // From the first piece on: all that are whole, or as many as reach the limit
  lemma {:induction false} DrainAll<T(!new)>(r: Reader<T>, w: Work<T>, num: nat, b: Inbox<T>, ps: seq<Piece<T>>)
    returns (done: seq<Piece<T>>, rest: seq<Piece<T>>)
    requires Recognises(r, ps) && Awaits(b, ps) && !Short(b, ps)
    ensures done + rest == ps && done != [] && Through(b, Drain(r.take, w, num, b), done, rest)
    ensures Short(Drain(r.take, w, num, b), rest) || num + Counted(w.count, done) >= w.burst
    decreases |ps|
  {
    AfterFirst(r, b, ps);
    Single(ps[0]);
    var b1, num1 := After(b, ps[0]), num + w.count(ps[0].item);
    var e := Drain(r.take, w, num, b);
    assert ps == [ps[0]] + ps[1..];
    done, rest := [], ps[1..];
    if num1 >= w.burst {
      assert e == b1;
      ThroughNone(b1, rest);
    } else if Short(b1, rest) {
      assert RecognisesFirst(r, rest) && r.take(b1) == Nothing;
      assert e == Drain(r.take, w, num1, b1) == b1;
      ThroughNone(b1, rest);
    } else {
      assert e == Drain(r.take, w, num1, b1);
      done, rest := DrainAll(r, w, num1, b1, rest);
    }
    ThroughTwice(b, b1, e, [ps[0]], done, rest);
    CountedJoin(w.count, [ps[0]], done);
    done := [ps[0]] + done;
  }

  // The last of the pieces handed on were enough to reach the limit of the call
  ghost predicate Hurried<T>(w: Work<T>, done: seq<Piece<T>>) {
    exists k :: 0 <= k < |done| && Counted(w.count, done[k..]) >= w.burst
  }

  /** One call hands on all whole pieces, or as many as reach its limit; at least one if there
      is one. */
  lemma ProcessAll<T(!new)>(r: Reader<T>, w: Work<T>, b: Inbox<T>, ps: seq<Piece<T>>)
    returns (done: seq<Piece<T>>, rest: seq<Piece<T>>)
    requires Recognises(r, ps) && Awaits(b, ps)
    ensures done + rest == ps && Through(b, Process(r, w, b), done, rest)
    ensures Short(Process(r, w, b), rest) || Hurried(w, done)
    ensures !Short(b, ps) ==> done != []
  {
    if Short(b, ps) {
      done, rest := [], ps;
      assert r.peek(b) == NotEnoughData;
      ThroughNone(b, ps);
    } else {
      AfterFirst(r, b, ps);
      done, rest := DrainAll(r, w, 0, b, ps);
      assert done[0..] == done;
    }
  }

  // ---------------------------------------------------------------- any calls

  lemma {:induction false} RestRecognised<T(!new)>(r: Reader<T>, done: seq<Piece<T>>, rest: seq<Piece<T>>)
    requires Recognises(r, done + rest)
    ensures Recognises(r, rest)
    decreases |done|
  {
    if done == [] {
      assert done + rest == rest;
    } else {
      assert (done + rest)[1..] == done[1..] + rest;
      RestRecognised(r, done[1..], rest);
    }
  }

  lemma HurriedAfter<T>(w: Work<T>, x: seq<Piece<T>>, done: seq<Piece<T>>)
    requires Hurried(w, done)
    ensures Hurried(w, x + done)
  {
    var k :| 0 <= k < |done| && Counted(w.count, done[k..]) >= w.burst;
    assert (x + done)[|x| + k..] == done[k..];
  }

  lemma NotHurried<T>(w: Work<T>, done: seq<Piece<T>>, rest: seq<Piece<T>>)
    requires Counted(w.count, done + rest) < w.burst
    ensures !Hurried(w, done)
  {
    CountedJoin(w.count, done, rest);
    forall k | 0 <= k < |done| ensures Counted(w.count, done[k..]) < w.burst {
      CountedJoin(w.count, done[..k], done[k..]);
      assert done[..k] + done[k..] == done;
    }
  }

  // Bytes still to come, once some pieces are through
  lemma StillToCome(before: seq<byte>, through: seq<byte>, buffer: seq<byte>, later: seq<byte>, left: seq<byte>)
    requires before == through + buffer && before + later <= through + left
    ensures buffer + later <= left
  {
    var all := through + left;
    assert (before + later)[|through|..] == buffer + later;
    assert all[..|before + later|][|through|..] == left[..|before + later| - |through|];
  }

  /** However the stream is cut and however much each call may do, nothing fails, and the
      pieces handed on are the first of those sent: what has come in is their bytes and what
      is buffered. No whole piece is left there unless the last call reached its limit. */
  lemma {:induction false} AnyChunking<T(!new)>(r: Reader<T>, b: Inbox<T>, ps: seq<Piece<T>>, calls: seq<Arrival<T>>)
    returns (done: seq<Piece<T>>, rest: seq<Piece<T>>)
    requires Recognises(r, ps) && Awaits(b, ps) && b.buffer + Chunks(calls) <= Joined(ps)
    ensures var e := Arrive(r, b, calls);
      && done + rest == ps && e.got == b.got + Items(done) && Awaits(e, rest)
      && b.buffer + Chunks(calls) == Joined(done) + e.buffer
      && if calls == [] then done == [] else Short(e, rest) || Hurried(calls[|calls| - 1].work, done)
    decreases |calls|
  {
    done, rest := [], ps;
    if calls == [] {
      assert b.got + [] == b.got && b.buffer + [] == b.buffer == [] + b.buffer;
    } else {
      var fed, later := Fed(b, calls[0].chunk), calls[1..];
      assert b.buffer + Chunks(calls) == fed.buffer + Chunks(later);
      var b1 := Process(r, calls[0].work, fed);
      done, rest := ProcessAll(r, calls[0].work, fed, ps);
      JoinedJoin(done, rest);
      StillToCome(fed.buffer, Joined(done), b1.buffer, Chunks(later), Joined(rest));
      if later == [] {
        assert fed.buffer + [] == fed.buffer;
      } else {
        RestRecognised(r, done, rest);
        var next, left := AnyChunking(r, b1, rest, later);
        CallsJoin(b, fed, b1, Arrive(r, b1, later), Chunks(later), done, next, left);
        if Hurried(later[|later| - 1].work, next) { HurriedAfter(later[|later| - 1].work, done, next); }
        done, rest := done + next, left;
      }
    }
  }

  lemma CallsJoin<T>(b: Inbox<T>, fed: Inbox<T>, b1: Inbox<T>, e: Inbox<T>, later: seq<byte>,
                     x: seq<Piece<T>>, y: seq<Piece<T>>, rest: seq<Piece<T>>)
    requires fed.got == b.got && b1.got == fed.got + Items(x) && e.got == b1.got + Items(y)
    requires fed.buffer == Joined(x) + b1.buffer && b1.buffer + later == Joined(y) + e.buffer
    ensures e.got == b.got + Items(x + y) && fed.buffer + later == Joined(x + y) + e.buffer
    ensures x + y + rest == x + (y + rest)
  {
    JoinedJoin(x, y);
    Assoc(b.got, Items(x), Items(y));
    Assoc(Joined(x), b1.buffer, later);
    Assoc(Joined(x), Joined(y), e.buffer);
    Assoc(x, y, rest);
  }

  // No call can reach its limit
  predicate Unhurried<T>(calls: seq<Arrival<T>>, ps: seq<Piece<T>>) {
    forall k :: 0 <= k < |calls| ==> Counted(calls[k].work.count, ps) < calls[k].work.burst
  }

  // ---------------------------------------------------------------- all of it

  // Everything sent has been handed on
  predicate Delivered<T(==)>(b: Inbox<T>, got: seq<T>) { b.got == got && b.buffer == [] && !b.failed }

  lemma AllThrough<T>(b: Inbox<T>, done: seq<Piece<T>>, rest: seq<Piece<T>>)
    requires Awaits(b, rest) && Short(b, rest) && Joined(done) + b.buffer == Joined(done + rest)
    ensures rest == [] && b.buffer == []
  {
    JoinedJoin(done, rest);
    assert |b.buffer| == |Joined(rest)|;
  }

  // Calls that bring nothing new
  predicate Idle<T>(calls: seq<Arrival<T>>) { forall k :: 0 <= k < |calls| ==> calls[k].chunk == [] }

  lemma SameTail(a: seq<byte>, x: seq<byte>, y: seq<byte>)
    requires a + x == a + y
    ensures x == y
  {
    assert (a + x)[|a|..] == x && (a + y)[|a|..] == y;
  }

  lemma IdleCall<T(!new)>(r: Reader<T>, w: Work<T>, b: Inbox<T>, ps: seq<Piece<T>>) returns (rest: seq<Piece<T>>)
    requires Recognises(r, ps) && Awaits(b, ps) && b.buffer == Joined(ps)
    ensures var b1 := Process(r, w, b);
      && Recognises(r, rest) && Awaits(b1, rest) && b1.buffer == Joined(rest)
      && b1.got + Items(rest) == b.got + Items(ps) && (ps != [] ==> |rest| < |ps|)
  {
    var done;
    done, rest := ProcessAll(r, w, b, ps);
    var b1 := Process(r, w, b);
    JoinedJoin(done, rest);
    RestRecognised(r, done, rest);
    SameTail(Joined(done), b1.buffer, Joined(rest));
    Assoc(b.got, Items(done), Items(rest));
    if Short(b, ps) {
      assert [] + b.buffer == b.buffer && [] + ps == ps;
      AllThrough(b, [], ps);
    }
  }

  lemma {:induction false} IdleCallsFinish<T(!new)>(r: Reader<T>, b: Inbox<T>, ps: seq<Piece<T>>, calls: seq<Arrival<T>>)
    requires Recognises(r, ps) && Awaits(b, ps) && b.buffer == Joined(ps)
    requires Idle(calls) && |calls| >= |ps|
    ensures Delivered(Arrive(r, b, calls), b.got + Items(ps))
    decreases |calls|
  {
    if calls == [] {
      assert b.got + [] == b.got;
    } else {
      assert Fed(b, calls[0].chunk).buffer == b.buffer;
      var rest := IdleCall(r, calls[0].work, b, ps);
      IdleCallsFinish(r, Process(r, calls[0].work, b), rest, calls[1..]);
    }
  }

  lemma {:induction false} ArriveJoin<T(!new)>(r: Reader<T>, b: Inbox<T>, x: seq<Arrival<T>>, y: seq<Arrival<T>>)
    ensures Arrive(r, b, x + y) == Arrive(r, Arrive(r, b, x), y)
    decreases |x|
  {
    if x == [] {
      assert x + y == y;
    } else {
      assert (x + y)[1..] == x[1..] + y;
      ArriveJoin(r, Process(r, x[0].work, Fed(b, x[0].chunk)), x[1..], y);
    }
  }

  /** The whole stream, in any chunks and under any limits, delivers everything: at once if no
      limit can be reached, and in any case after as many more calls as there are pieces. */
  lemma WholeStream<T(!new)>(r: Reader<T>, b: Inbox<T>, ps: seq<Piece<T>>, calls: seq<Arrival<T>>, more: seq<Arrival<T>>)
    requires Recognises(r, ps) && Awaits(b, ps) && b.buffer == [] && Chunks(calls) == Joined(ps) && Idle(more)
    ensures Unhurried(calls, ps) && (calls != [] || ps == []) ==> Delivered(Arrive(r, b, calls), b.got + Items(ps))
    ensures |more| >= |ps| ==> Delivered(Arrive(r, b, calls + more), b.got + Items(ps))
  {
    var done, rest := WholeStreamSoFar(r, b, ps, calls);
    if |more| >= |ps| {
      IdleCallsFinish(r, Arrive(r, b, calls), rest, more);
      ArriveJoin(r, b, calls, more);
    }
    if Unhurried(calls, ps) && (calls != [] || ps == []) { NothingLeft(Arrive(r, b, calls), calls, done, rest); }
  }

  lemma WholeStreamSoFar<T(!new)>(r: Reader<T>, b: Inbox<T>, ps: seq<Piece<T>>, calls: seq<Arrival<T>>)
    returns (done: seq<Piece<T>>, rest: seq<Piece<T>>)
    requires Recognises(r, ps) && Awaits(b, ps) && b.buffer == [] && Chunks(calls) == Joined(ps)
    ensures var e := Arrive(r, b, calls);
      && done + rest == ps && Recognises(r, rest) && Awaits(e, rest) && e.buffer == Joined(rest)
      && e.got + Items(rest) == b.got + Items(ps)
      && (calls == [] || Short(e, rest) || Hurried(calls[|calls| - 1].work, done))
  {
    assert [] + Chunks(calls) == Chunks(calls);
    done, rest := AnyChunking(r, b, ps, calls);
    JoinedJoin(done, rest);
    RestRecognised(r, done, rest);
    SameTail(Joined(done), Arrive(r, b, calls).buffer, Joined(rest));
    Assoc(b.got, Items(done), Items(rest));
  }

  lemma NothingLeft<T>(e: Inbox<T>, calls: seq<Arrival<T>>, done: seq<Piece<T>>, rest: seq<Piece<T>>)
    requires Awaits(e, rest) && e.buffer == Joined(rest) && Unhurried(calls, done + rest)
    requires if calls == [] then done + rest == [] else Short(e, rest) || Hurried(calls[|calls| - 1].work, done)
    ensures rest == [] && e.buffer == [] && e.got + Items(rest) == e.got
  {
    if calls != [] {
      NotHurried(calls[|calls| - 1].work, done, rest);
      JoinedJoin(done, rest);
      AllThrough(e, done, rest);
    }
    assert rest == [];
    assert e.got + [] == e.got;
  }
}
