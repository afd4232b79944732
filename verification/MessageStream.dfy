/** Messages over the transport: batches of messages, sent as the data of transport messages
    over a stream cut anywhere, arrive as the same messages. */
module MessageStreamModel {
  import opened Basics
  import opened BufferIOModel
  import M = MessageModel
  import T = MessageTransportModel
  import B = ByteStreamModel

  // The data of each transport message is a batch of written messages
  ghost predicate Carries(codec: M.Codec, items: seq<T.Item>, batches: seq<seq<M.Body>>) {
    && |items| == |batches|
    && forall k :: 0 <= k < |items| ==>
         M.AllWritten(codec, batches[k]) && items[k].t.data == Concat(M.Frames(codec, batches[k]))
  }

  // What a receiver makes of transport data: its frames, each read as a message
  function ReadEach(codec: M.Codec, frames: seq<seq<byte>>): seq<Option<M.Body>>
    decreases |frames|
  {
    if frames == [] then [] else [M.ReadMessage(codec, frames[0])] + ReadEach(codec, frames[1..])
  }

  // A message as it comes out at the other end
  function Arrived(m: M.Body): M.Body { M.Body(M.Sent(m.header), m.data, true, true) }

  function AllArrived(ms: seq<M.Body>): seq<Option<M.Body>> {
    if ms == [] then [] else [Some(Arrived(ms[0]))] + AllArrived(ms[1..])
  }

  lemma {:induction false} BatchReadsBack(codec: M.Codec, ms: seq<M.Body>)
    requires M.Lawful(codec) && M.AllWritten(codec, ms)
    ensures ReadEach(codec, M.Frames(codec, ms)) == AllArrived(ms)
    decreases |ms|
  {
    if ms != [] {
      assert M.Frames(codec, ms)[1..] == M.Frames(codec, ms[1..]);
      M.MessageRoundTrip(codec, ms[0]);
      BatchReadsBack(codec, ms[1..]);
    }
  }

  lemma {:induction false} PayloadAt(items: seq<T.Item>, k: nat)
    requires k < |items|
    ensures T.Payloads(items)[k] == T.Payload(items[k])
    decreases k
  {
    if k > 0 { PayloadAt(items[1..], k - 1); }
  }

  /** Every batch sent arrives, whole and in order, and its messages are the ones sent,
      however the stream is cut and however little each call may do. */
  lemma MessagesArrive(
    codec: M.Codec, mds: T.DataSizeSettings, suite: T.Suite, items: seq<T.Item>, batches: seq<seq<M.Body>>,
    calls: seq<B.Arrival<T.Outcome>>, more: seq<B.Arrival<T.Outcome>>)
    requires M.Lawful(codec) && T.Lawful(suite) && mds.offset <= T.MAX_OFFSET
    requires T.Chained(suite, items, 0) && Carries(codec, items, batches)
    requires B.Chunks(calls) == T.Stream(mds, suite, items) && B.Idle(more) && |more| >= |items|
    ensures var got := B.Arrive(T.ReaderOf(mds, suite), T.FIRST_INBOX, calls + more).got;
      && |got| == |batches|
      && forall k :: 0 <= k < |got| ==>
           got[k].Received? && ReadEach(codec, M.SplitAll(got[k].data)) == AllArrived(batches[k])
  {
    T.StreamRoundTrip(mds, suite, items, calls, more);
    forall k | 0 <= k < |items|
      ensures T.Payloads(items)[k].Received?
      ensures ReadEach(codec, M.SplitAll(T.Payloads(items)[k].data)) == AllArrived(batches[k])
    {
      PayloadAt(items, k);
      M.FramesSplitBack(codec, batches[k]);
      BatchReadsBack(codec, batches[k]);
    }
  }
}
