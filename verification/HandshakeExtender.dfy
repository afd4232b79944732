/** HandshakeExtender: two endpoints agree on a shared key with four messages and then
    chat. The inbound endpoint starts; either side gives up after ten seconds; keys that
    are no longer needed are wiped. */
module HandshakeExtenderModel {
  import opened Basics

  type Key = nat
  type Text = string

  /** The cryptographic functions; the laws they obey are hypotheses (Lawful). */
  datatype Crypto = Crypto(pub: Key -> Key, dh: (Key, Key) -> Key,
                           seal: (Key, nat, Text) -> Text, open: (Key, nat, Text) -> Option<Text>)

  ghost predicate Lawful(c: Crypto) {
    && (forall a, b :: c.dh(a, c.pub(b)) == c.dh(b, c.pub(a)))
    && (forall k, n, text :: c.open(k, n, c.seal(k, n, text)) == Some(text))
  }

  lemma LawsCanHold()
    ensures exists c :: Lawful(c)
  {
    var c := Crypto((k: Key) => k, (a: Key, b: Key) => a + b, (k: Key, n: nat, t: Text) => t, (k: Key, n: nat, t: Text) => Some(t));
    assert Lawful(c);
  }

  datatype ConnectionType = Inbound | Outbound

  datatype Status = Connected | PubKeySent | Ready | Exception

  datatype Message = PublicKeyMessage(key: Key) | ReadyMessage | ChatMessage(nonce: nat, cipher: Text)

  /** A key is None while it is all zeros, before it is made and after it is wiped; misused
      records that a step read such a key. */
  datatype PeerState = PeerState(
    conn: ConnectionType, status: Status,
    publicKey: Option<Key>, privateKey: Option<Key>, peerPublicKey: Option<Key>, sharedKey: Option<Key>,
    connectedAt: int, misused: bool)

  const MAX_HANDSHAKE_DURATION: int := 10

  function Raw(k: Option<Key>): Key { if k.Some? then k.value else 0 }

  // ---------------------------------------------------------------- the handlers

  function Connect(c: Crypto, conn: ConnectionType, secret: Key, generated: bool, now: int): PeerState {
    if generated then PeerState(conn, Connected, Some(c.pub(secret)), Some(secret), None, None, now, false)
    else PeerState(conn, Exception, None, None, None, None, now, false)
  }

  function GenerateSharedKey(c: Crypto, p: PeerState, key: Key): PeerState {
    p.(peerPublicKey := Some(key), sharedKey := Some(c.dh(Raw(p.privateKey), key)),
       misused := p.misused || p.privateKey.None?)
  }

  // SendPublicKey: whether the message leaves is up to the transport
  function SendPublicKey(p: PeerState, sent: bool): (PeerState, seq<Message>) {
    (p.(status := PubKeySent, misused := p.misused || p.publicKey.None?),
     if sent then [PublicKeyMessage(Raw(p.publicKey))] else [])
  }

  function OnPublicKey(c: Crypto, p: PeerState, key: Key, sent: bool): (PeerState, seq<Message>) {
    if p.status == Connected && p.conn == Outbound then SendPublicKey(GenerateSharedKey(c, p, key), sent)
    else if p.status == PubKeySent && p.conn == Inbound then
      (GenerateSharedKey(c, p, key), if sent then [ReadyMessage] else [])
    else (p, [])
  }

  function Wipe(p: PeerState): PeerState { p.(publicKey := None, privateKey := None, peerPublicKey := None) }

  function OnReady(p: PeerState, sent: bool): (PeerState, seq<Message>) {
    var out := p.status == PubKeySent && p.conn == Outbound;
    var p1 := if p.status == PubKeySent && (p.conn == Inbound || sent) then p.(status := Ready) else p;
    (if p1.status == Ready then Wipe(p1) else p1, if out && sent then [ReadyMessage] else [])
  }

  // What DisplayChatMessage shows, if anything
  function OnChat(c: Crypto, p: PeerState, nonce: nat, cipher: Text): (PeerState, Option<Text>) {
    if p.status == Ready then
      (p.(misused := p.misused || p.sharedKey.None?), c.open(Raw(p.sharedKey), nonce, cipher))
    else (p, None)
  }

  function SendChat(c: Crypto, p: PeerState, nonce: nat, text: Text): (PeerState, seq<Message>) {
    if p.status == Ready && text != "" then
      (p.(misused := p.misused || p.sharedKey.None?), [ChatMessage(nonce, c.seal(Raw(p.sharedKey), nonce, text))])
    else (p, [])
  }

  // One pass of the main thread over this peer
  function Tick(p: PeerState, now: int, sent: bool): (PeerState, seq<Message>) {
    if p.status == Exception then (p, [])
    else if p.status != Ready && now - p.connectedAt > MAX_HANDSHAKE_DURATION then (p.(status := Exception), [])
    else if p.conn == Inbound && p.status == Connected then SendPublicKey(p, sent)
    else (p, [])
  }

  function OnMessage(c: Crypto, p: PeerState, m: Message, sent: bool): (PeerState, seq<Message>) {
    match m
    case PublicKeyMessage(key) => OnPublicKey(c, p, key, sent)
    case ReadyMessage => OnReady(p, sent)
    case ChatMessage(nonce, cipher) => (OnChat(c, p, nonce, cipher).0, [])
  }

  /** The peer record the extender keeps and its handlers. */
  class Peer {
    const ConnectionType: ConnectionType
    const ConnectedSteadyTime: int
    var Status: Status
    var PublicKey: Option<Key>
    var PrivateKey: Option<Key>
    var PeerPublicKey: Option<Key>
    var SharedSecretKey: Option<Key>
    ghost var misused: bool

    ghost function View(): PeerState
      reads this
    {
      PeerState(ConnectionType, Status, PublicKey, PrivateKey, PeerPublicKey, SharedSecretKey, ConnectedSteadyTime, misused)
    }

    constructor (c: Crypto, conn: ConnectionType, secret: Key, generated: bool, now: int)
      ensures View() == Connect(c, conn, secret, generated, now)
    {
      ConnectionType, ConnectedSteadyTime := conn, now;
      PublicKey := if generated then Some(c.pub(secret)) else None;
      PrivateKey := if generated then Some(secret) else None;
      Status := if generated then Connected else Exception;
      PeerPublicKey, SharedSecretKey := None, None;
      misused := false;
    }

    method ProcessPublicKeyMessage(c: Crypto, key: Key, sent: bool) returns (out: seq<Message>, success: bool)
      modifies this
      ensures (View(), out) == OnPublicKey(c, old(View()), key, sent)
      ensures success <==> Status != old(Status) || out != []
    {
      out, success := [], false;
      if Status == Connected && ConnectionType == Outbound {
        PeerPublicKey := Some(key);
        misused := misused || PrivateKey.None? || PublicKey.None?;
        SharedSecretKey := Some(c.dh(Raw(PrivateKey), key));
        if sent {
          out := [PublicKeyMessage(Raw(PublicKey))];
        }
        Status := PubKeySent;
        success := true;
      } else if Status == PubKeySent && ConnectionType == Inbound {
        PeerPublicKey := Some(key);
        misused := misused || PrivateKey.None?;
        SharedSecretKey := Some(c.dh(Raw(PrivateKey), key));
        if sent {
          out := [ReadyMessage];
          success := true;
        }
      }
    }

    method ProcessReadyMessage(sent: bool) returns (out: seq<Message>, success: bool)
      modifies this
      ensures (View(), out) == OnReady(old(View()), sent)
      ensures success <==> Status == Ready
    {
      out, success := [], false;
      if Status == PubKeySent && ConnectionType == Outbound {
        if sent {
          out := [ReadyMessage];
          Status := Ready;
        }
      } else if Status == PubKeySent && ConnectionType == Inbound {
        Status := Ready;
      }
      if Status == Ready {
        PublicKey, PrivateKey, PeerPublicKey := None, None, None;
        success := true;
      }
    }

    method ProcessChatMessage(c: Crypto, nonce: nat, cipher: Text) returns (shown: Option<Text>)
      modifies this`misused
      ensures (View(), shown) == OnChat(c, old(View()), nonce, cipher)
    {
      shown := None;
      if Status == Ready {
        misused := misused || SharedSecretKey.None?;
        shown := c.open(Raw(SharedSecretKey), nonce, cipher);
      }
    }

    // The main thread's visit to this peer
    method Visit(now: int, sent: bool) returns (out: seq<Message>)
      modifies this
      ensures (View(), out) == Tick(old(View()), now, sent)
    {
      out := [];
      if Status != Exception {
        if Status != Ready && now - ConnectedSteadyTime > MAX_HANDSHAKE_DURATION {
          Status := Exception;
        } else if ConnectionType == Inbound && Status == Connected {
          misused := misused || PublicKey.None?;
          if sent {
            out := [PublicKeyMessage(Raw(PublicKey))];
          }
          Status := PubKeySent;
        }
      }
    }
  }

  // ---------------------------------------------------------------- two endpoints and a link

  /** Gone: disconnected; its keys, the shared one too, are wiped with its record. */
  datatype Endpoint = Absent | Here(peer: PeerState) | Gone

  /** One connection: the outbound and the inbound endpoint, the secrets they draw, and the
      messages travelling each way. */
  datatype World = World(outSecret: Key, inSecret: Key, out: Endpoint, inb: Endpoint, toOut: seq<Message>, toIn: seq<Message>)

  datatype Step =
    | Join(side: ConnectionType, generated: bool, now: int)
    | Deliver(side: ConnectionType, sent: bool)
    | Lose(side: ConnectionType, i: nat)
    | Visit(side: ConnectionType, now: int, sent: bool)
    | Chat(side: ConnectionType, nonce: nat, text: Text)
    | Leave(side: ConnectionType)

  function End(w: World, side: ConnectionType): Endpoint { if side == Outbound then w.out else w.inb }

  function Inbox(w: World, side: ConnectionType): seq<Message> { if side == Outbound then w.toOut else w.toIn }

  predicate Enabled(w: World, step: Step) {
    match step
    case Join(side, _, _) => End(w, side).Absent?
    case Deliver(side, _) => Inbox(w, side) != []
    case Lose(side, i) => i < |Inbox(w, side)|
    case Visit(side, _, _) => End(w, side).Here?
    case Chat(side, _, _) => End(w, side).Here?
    case Leave(side) => End(w, side).Here?
  }

  // The endpoint's record changes, its inbox shrinks to rest, and it sends
  function Put(w: World, side: ConnectionType, end: Endpoint, rest: seq<Message>, sent: seq<Message>): World {
    if side == Outbound then w.(out := end, toOut := rest, toIn := w.toIn + sent)
    else w.(inb := end, toIn := rest, toOut := w.toOut + sent)
  }

  function Apply(c: Crypto, w: World, step: Step): World
    requires Enabled(w, step)
  {
    var side := step.side;
    var end, box := End(w, side), Inbox(w, side);
    match step
    case Join(_, generated, now) =>
      var secret := if side == Outbound then w.outSecret else w.inSecret;
      Put(w, side, Here(Connect(c, side, secret, generated, now)), box, [])
    case Deliver(_, sent) =>
      if end.Here? then
        var r := OnMessage(c, end.peer, box[0], sent);
        Put(w, side, Here(r.0), box[1..], r.1)
      else Put(w, side, end, box[1..], [])
    case Lose(_, i) => Put(w, side, end, box[..i] + box[i + 1..], [])
    case Visit(_, now, sent) => var r := Tick(end.peer, now, sent); Put(w, side, Here(r.0), box, r.1)
    case Chat(_, nonce, text) => var r := SendChat(c, end.peer, nonce, text); Put(w, side, Here(r.0), box, r.1)
    case Leave(_) => Put(w, side, Gone, box, [])
  }

  predicate Init(w: World) { w.out.Absent? && w.inb.Absent? && w.toOut == [] && w.toIn == [] }

  predicate Runs(c: Crypto, w: World, steps: seq<Step>)
    decreases |steps|
  {
    steps == [] || (Enabled(w, steps[0]) && Runs(c, Apply(c, w, steps[0]), steps[1..]))
  }

  function Exec(c: Crypto, w: World, steps: seq<Step>): World
    requires Runs(c, w, steps)
    decreases |steps|
  {
    if steps == [] then w else Exec(c, Apply(c, w, steps[0]), steps[1..])
  }

  // ---------------------------------------------------------------- the invariant

  /** How far the handshake has come: the number of its messages whose sender has acted.
      1: inbound key, 2: outbound key, 3: inbound ready, 4: outbound ready, 5: completed. */
  predicate OutAt(c: Crypto, n: nat, secret: Key, peerSecret: Key, end: Endpoint) {
    match end
    case Absent => n < 2
    case Gone => true
    case Here(p) =>
      && p.conn == Outbound && !p.misused
      && p.sharedKey == (if n < 2 then None else Some(c.dh(secret, c.pub(peerSecret))))
      && (if n < 2 then p.status == Connected || p.status == Exception
          else if n < 4 then p.status == PubKeySent || p.status == Exception
          else p.status == Ready)
      && KeysAt(c, secret, p)
  }

  predicate InAt(c: Crypto, n: nat, secret: Key, peerSecret: Key, end: Endpoint) {
    match end
    case Absent => n < 1
    case Gone => true
    case Here(p) =>
      && p.conn == Inbound && !p.misused
      && p.sharedKey == (if n < 3 then None else Some(c.dh(secret, c.pub(peerSecret))))
      && (if n < 1 then p.status == Connected || p.status == Exception
          else if n < 5 then p.status == PubKeySent || p.status == Exception
          else p.status == Ready)
      && KeysAt(c, secret, p)
  }

  // The key pair is there while the handshake lasts and wiped when it is done
  predicate KeysAt(c: Crypto, secret: Key, p: PeerState) {
    match p.status
    case Exception => true
    case Ready => p.publicKey == None && p.privateKey == None && p.peerPublicKey == None
    case _ => p.publicKey == Some(c.pub(secret)) && p.privateKey == Some(secret)
  }

  function NotChat(m: Message): seq<Message> { if m.ChatMessage? then [] else [m] }

  // The handshake messages in a queue
  function Handshake(box: seq<Message>): seq<Message> {
    if box == [] then [] else NotChat(box[0]) + Handshake(box[1..])
  }

  // The only handshake message that can be travelling at stage n, and in which direction
  predicate Travelling(c: Crypto, n: nat, outSecret: Key, inSecret: Key, toOut: seq<Message>, toIn: seq<Message>) {
    && (toOut == [] || (n == 1 && toOut == [PublicKeyMessage(c.pub(inSecret))]) || (n == 3 && toOut == [ReadyMessage]))
    && (toIn == [] || (n == 2 && toIn == [PublicKeyMessage(c.pub(outSecret))]) || (n == 4 && toIn == [ReadyMessage]))
  }

  predicate OutboxAt(c: Crypto, n: nat, w: World) {
    Travelling(c, n, w.outSecret, w.inSecret, Handshake(w.toOut), Handshake(w.toIn))
  }

  predicate At(c: Crypto, n: nat, w: World) {
    && n <= 5
    && OutAt(c, n, w.outSecret, w.inSecret, w.out)
    && InAt(c, n, w.inSecret, w.outSecret, w.inb)
    && OutboxAt(c, n, w)
  }

  lemma Associates(a: seq<Message>, b: seq<Message>, d: seq<Message>)
    ensures a + b + d == a + (b + d)
  {
  }

  lemma {:induction false} HandshakeConcat(a: seq<Message>, b: seq<Message>)
    ensures Handshake(a + b) == Handshake(a) + Handshake(b)
  {
    if a == [] {
      assert a + b == b;
    } else {
      HandshakeConcat(a[1..], b);
      assert (a + b)[0] == a[0] && (a + b)[1..] == a[1..] + b;
      Associates(NotChat(a[0]), Handshake(a[1..]), Handshake(b));
    }
  }

  lemma LoseOne(box: seq<Message>, i: nat)
    requires i < |box|
    ensures var left := Handshake(box[..i] + box[i + 1..]);
      left == Handshake(box) || |left| + 1 == |Handshake(box)|
  {
    assert box == box[..i] + ([box[i]] + box[i + 1..]);
    HandshakeConcat(box[..i], [box[i]] + box[i + 1..]);
    HandshakeConcat([box[i]], box[i + 1..]);
    HandshakeConcat(box[..i], box[i + 1..]);
  }

  // The stage after a step of one side
  function NextStage(n: nat, w: World, w': World, side: ConnectionType): nat {
    var p, p' := End(w, side), End(w', side);
    if !p.Here? || !p'.Here? then n
    else if side == Outbound then
      if n == 1 && p.peer.sharedKey.None? && p'.peer.sharedKey.Some? then 2
      else if n == 3 && p.peer.status == PubKeySent && p'.peer.status == Ready then 4 else n
    else
      if n == 0 && p.peer.status == Connected && p'.peer.status == PubKeySent then 1
      else if n == 2 && p.peer.sharedKey.None? && p'.peer.sharedKey.Some? then 3
      else if n == 4 && p.peer.status == PubKeySent && p'.peer.status == Ready then 5 else n
  }

  // What a side may find and send, in handshake messages: nothing new, or the next message
  // once the one before has been taken
  predicate Exchanges(
    c: Crypto, n: nat, n': nat, side: ConnectionType, secret: Key, box: seq<Message>, rest: seq<Message>, sent: seq<Message>)
  {
    if n' == n then (rest == [] || rest == box) && sent == []
    else
      && n' == n + 1 && rest == [] && n' % 2 == (if side == Outbound then 0 else 1)
      && (sent == [] || (n' < 5 && sent == (if n' <= 2 then [PublicKeyMessage(c.pub(secret))] else [ReadyMessage])))
  }

  lemma ExchangeKeeps(c: Crypto, n: nat, n': nat, outSecret: Key, inSecret: Key, toOut: seq<Message>, toIn: seq<Message>,
                      rest: seq<Message>, sent: seq<Message>)
    requires n <= n' <= 5 && Travelling(c, n, outSecret, inSecret, toOut, toIn)
    ensures Exchanges(c, n, n', Outbound, outSecret, toOut, rest, sent) ==> Travelling(c, n', outSecret, inSecret, rest, toIn + sent)
    ensures Exchanges(c, n, n', Inbound, inSecret, toIn, rest, sent) ==> Travelling(c, n', outSecret, inSecret, toOut + sent, rest)
  {
    assert toIn + [] == toIn && toOut + [] == toOut;
    assert [] + sent == sent;
  }

  function Secret(w: World, side: ConnectionType): Key { if side == Outbound then w.outSecret else w.inSecret }

  lemma PutKeeps(c: Crypto, n: nat, n': nat, w: World, side: ConnectionType, end: Endpoint, rest: seq<Message>, sent: seq<Message>)
    requires At(c, n, w) && n <= n' <= 5
    requires side == Outbound ==> OutAt(c, n', w.outSecret, w.inSecret, end) && InAt(c, n', w.inSecret, w.outSecret, w.inb)
    requires side == Inbound ==> OutAt(c, n', w.outSecret, w.inSecret, w.out) && InAt(c, n', w.inSecret, w.outSecret, end)
    requires Exchanges(c, n, n', side, Secret(w, side), Handshake(Inbox(w, side)), Handshake(rest), Handshake(sent))
    ensures At(c, n', Put(w, side, end, rest, sent))
  {
    ExchangeKeeps(c, n, n', w.outSecret, w.inSecret, Handshake(w.toOut), Handshake(w.toIn), Handshake(rest), Handshake(sent));
    if side == Outbound { HandshakeConcat(w.toIn, sent); } else { HandshakeConcat(w.toOut, sent); }
  }

  // Taking the first message of a queue in which at most one handshake message waits
  lemma HeadTaken(box: seq<Message>)
    requires box != [] && |Handshake(box)| <= 1
    ensures if box[0].ChatMessage? then Handshake(box[1..]) == Handshake(box)
            else Handshake(box) == [box[0]] && Handshake(box[1..]) == []
  {
    assert NotChat(box[0]) + Handshake(box[1..]) == Handshake(box);
    if !box[0].ChatMessage? { assert Handshake(box)[0] == box[0]; }
  }

  lemma DeliverOutKeeps(c: Crypto, n: nat, w: World, p: PeerState, sent: bool)
    requires At(c, n, w) && w.toOut != [] && w.out == Here(p)
    ensures var w' := Apply(c, w, Deliver(Outbound, sent));
      At(c, NextStage(n, w, w', Outbound), w')
  {
    var m, rest := w.toOut[0], w.toOut[1..];
    HeadTaken(w.toOut);
    var r := OnMessage(c, p, m, sent);
    var w' := Apply(c, w, Deliver(Outbound, sent));
    PutKeeps(c, n, NextStage(n, w, w', Outbound), w, Outbound, Here(r.0), rest, r.1);
  }

  lemma DeliverInKeeps(c: Crypto, n: nat, w: World, p: PeerState, sent: bool)
    requires At(c, n, w) && w.toIn != [] && w.inb == Here(p)
    ensures var w' := Apply(c, w, Deliver(Inbound, sent));
      At(c, NextStage(n, w, w', Inbound), w')
  {
    var m, rest := w.toIn[0], w.toIn[1..];
    HeadTaken(w.toIn);
    var r := OnMessage(c, p, m, sent);
    var w' := Apply(c, w, Deliver(Inbound, sent));
    PutKeeps(c, n, NextStage(n, w, w', Inbound), w, Inbound, Here(r.0), rest, r.1);
  }

  lemma VisitKeeps(c: Crypto, n: nat, w: World, step: Step)
    requires At(c, n, w) && Enabled(w, step) && step.Visit?
    ensures var w' := Apply(c, w, step);
      At(c, NextStage(n, w, w', step.side), w')
  {
    var w', r := Apply(c, w, step), Tick(End(w, step.side).peer, step.now, step.sent);
    PutKeeps(c, n, NextStage(n, w, w', step.side), w, step.side, Here(r.0), Inbox(w, step.side), r.1);
  }

  // The steps that do not advance the handshake
  predicate Other(w: World, step: Step) { !step.Visit? && (step.Deliver? ==> !End(w, step.side).Here?) }

  lemma OtherStage(c: Crypto, n: nat, w: World, step: Step)
    requires Enabled(w, step) && Other(w, step)
    ensures NextStage(n, w, Apply(c, w, step), step.side) == n
  {
  }

  lemma JoinKeeps(c: Crypto, n: nat, w: World, step: Step)
    requires At(c, n, w) && Enabled(w, step) && step.Join?
    ensures At(c, n, Apply(c, w, step))
  {
    var secret := if step.side == Outbound then w.outSecret else w.inSecret;
    PutKeeps(c, n, n, w, step.side, Here(Connect(c, step.side, secret, step.generated, step.now)), Inbox(w, step.side), []);
  }

  lemma BoxKeeps(c: Crypto, n: nat, w: World, step: Step)
    requires At(c, n, w) && Enabled(w, step) && (step.Lose? || (step.Deliver? && !End(w, step.side).Here?))
    ensures At(c, n, Apply(c, w, step))
  {
    var box := Inbox(w, step.side);
    if step.Lose? {
      LoseOne(box, step.i);
      PutKeeps(c, n, n, w, step.side, End(w, step.side), box[..step.i] + box[step.i + 1..], []);
    } else {
      HeadTaken(box);
      PutKeeps(c, n, n, w, step.side, End(w, step.side), box[1..], []);
    }
  }

  lemma ChatKeeps(c: Crypto, n: nat, w: World, step: Step)
    requires At(c, n, w) && Enabled(w, step) && (step.Chat? || step.Leave?)
    ensures At(c, n, Apply(c, w, step))
  {
    if step.Chat? {
      var r := SendChat(c, End(w, step.side).peer, step.nonce, step.text);
      PutKeeps(c, n, n, w, step.side, Here(r.0), Inbox(w, step.side), r.1);
    } else {
      PutKeeps(c, n, n, w, step.side, Gone, Inbox(w, step.side), []);
    }
  }

  lemma OtherKeeps(c: Crypto, n: nat, w: World, step: Step)
    requires At(c, n, w) && Enabled(w, step) && Other(w, step)
    ensures At(c, n, Apply(c, w, step))
  {
    match step {
      case Join(_, _, _) => JoinKeeps(c, n, w, step);
      case Deliver(_, _) => BoxKeeps(c, n, w, step);
      case Lose(_, _) => BoxKeeps(c, n, w, step);
      case Chat(_, _, _) => ChatKeeps(c, n, w, step);
      case Leave(_) => ChatKeeps(c, n, w, step);
    }
  }

  lemma StepKeeps(c: Crypto, n: nat, w: World, step: Step) returns (n': nat)
    requires At(c, n, w) && Enabled(w, step)
    ensures At(c, n', Apply(c, w, step)) && n <= n'
    ensures n' == NextStage(n, w, Apply(c, w, step), step.side)
  {
    n' := NextStage(n, w, Apply(c, w, step), step.side);
    if step.Visit? { VisitKeeps(c, n, w, step); }
    else if step.Deliver? && End(w, step.side).Here? {
      if step.side == Outbound { DeliverOutKeeps(c, n, w, w.out.peer, step.sent); }
      else { DeliverInKeeps(c, n, w, w.inb.peer, step.sent); }
    } else {
      OtherStage(c, n, w, step);
      OtherKeeps(c, n, w, step);
    }
  }

  lemma {:induction false} RunKeeps(c: Crypto, n: nat, w: World, steps: seq<Step>) returns (n': nat)
    requires At(c, n, w) && Runs(c, w, steps)
    ensures At(c, n', Exec(c, w, steps)) && n <= n'
    ensures Exec(c, w, steps).outSecret == w.outSecret && Exec(c, w, steps).inSecret == w.inSecret
    decreases |steps|
  {
    n' := n;
    if steps != [] {
      var m := StepKeeps(c, n, w, steps[0]);
      n' := RunKeeps(c, m, Apply(c, w, steps[0]), steps[1..]);
    }
  }

  predicate IsReady(e: Endpoint) { e.Here? && e.peer.status == Ready }

  /** After any run over a link that may lose messages, with any timeouts: at most one
      handshake message is travelling, the inbound side is ready only if the outbound side
      is (or has left), a ready side and the other one hold the same shared key, and no
      step has used a wiped key. */
  lemma HandshakeIsSafe(c: Crypto, init: World, steps: seq<Step>)
    requires Lawful(c) && Init(init) && Runs(c, init, steps)
    ensures var w := Exec(c, init, steps);
      && |Handshake(w.toOut)| + |Handshake(w.toIn)| <= 1
      && (IsReady(w.inb) ==> w.out.Gone? || IsReady(w.out))
      && (IsReady(w.out) || IsReady(w.inb) ==>
            && !w.out.Absent? && !w.inb.Absent?
            && (w.out.Here? ==> w.out.peer.sharedKey == Some(c.dh(w.outSecret, c.pub(w.inSecret))))
            && (w.inb.Here? ==> w.inb.peer.sharedKey == Some(c.dh(w.outSecret, c.pub(w.inSecret)))))
      && (w.out.Here? ==> !w.out.peer.misused) && (w.inb.Here? ==> !w.inb.peer.misused)
  {
    var n := RunKeeps(c, 0, init, steps);
  }

  /** Once a side is ready, both shared keys stay what they are until their owner leaves. */
  lemma KeysNeverChange(c: Crypto, init: World, before: seq<Step>, after: seq<Step>)
    requires Lawful(c) && Init(init) && Runs(c, init, before)
    requires Runs(c, Exec(c, init, before), after)
    requires IsReady(Exec(c, init, before).out) || IsReady(Exec(c, init, before).inb)
    ensures var w, w' := Exec(c, init, before), Exec(c, Exec(c, init, before), after);
      && (w'.out.Here? && w.out.Here? ==> w'.out.peer.sharedKey == w.out.peer.sharedKey)
      && (w'.inb.Here? && w.inb.Here? ==> w'.inb.peer.sharedKey == w.inb.peer.sharedKey)
      && (w'.out.Here? && w.inb.Here? ==> w'.out.peer.sharedKey == w.inb.peer.sharedKey)
      && (w'.inb.Here? && w.out.Here? ==> w'.inb.peer.sharedKey == w.out.peer.sharedKey)
  {
    var n := RunKeeps(c, 0, init, before);
    var m := RunKeeps(c, n, Exec(c, init, before), after);
  }

  /** A chat message sealed by a ready side at any time is shown, as it was written, by the
      other side whenever that is ready later on. */
  lemma ChatIsUnderstood(c: Crypto, init: World, before: seq<Step>, after: seq<Step>, side: ConnectionType, nonce: nat, text: Text)
    requires Lawful(c) && Init(init) && Runs(c, init, before)
    requires Runs(c, Exec(c, init, before), after) && text != ""
    requires IsReady(End(Exec(c, init, before), side))
    requires IsReady(End(Exec(c, Exec(c, init, before), after), if side == Outbound then Inbound else Outbound))
    ensures var sender := End(Exec(c, init, before), side).peer;
      var receiver := End(Exec(c, Exec(c, init, before), after), if side == Outbound then Inbound else Outbound).peer;
      var sent := SendChat(c, sender, nonce, text).1;
      |sent| == 1 && sent[0].ChatMessage? && OnChat(c, receiver, sent[0].nonce, sent[0].cipher).1 == Some(text)
  {
    var n := RunKeeps(c, 0, init, before);
    var m := RunKeeps(c, n, Exec(c, init, before), after);
  }

  // ---------------------------------------------------------------- what each message comes to

  /** A public key is taken by an outbound side that has just connected and by an inbound side
      that has sent its own; the shared key is made from it. If the answer cannot be sent the
      outbound side goes on as if it had been, and the inbound side has said nothing. */
  lemma PublicKeyOutcome(c: Crypto, p: PeerState, key: Key, sent: bool)
    ensures var (p', out) := OnMessage(c, p, PublicKeyMessage(key), sent);
      if (p.conn == Outbound && p.status == Connected) || (p.conn == Inbound && p.status == PubKeySent) then
        && p'.status == PubKeySent && p'.peerPublicKey == Some(key)
        && p'.publicKey == p.publicKey && p'.privateKey == p.privateKey
        && (p.privateKey.Some? ==> p'.sharedKey == Some(c.dh(p.privateKey.value, key)))
        && (out == [] <==> !sent)
        && (sent && p.conn == Inbound ==> out == [ReadyMessage])
        && (sent && p.conn == Outbound && p.publicKey.Some? ==> out == [PublicKeyMessage(p.publicKey.value)])
      else p' == p && out == []
  {
  }

  /** A ready message makes a side that has sent its key ready, the outbound side only if it can
      send its own; a side that is ready keeps of its keys the shared one alone. */
  lemma ReadyOutcome(c: Crypto, p: PeerState, sent: bool)
    ensures var (p', out) := OnMessage(c, p, ReadyMessage, sent);
      && (p'.status == Ready <==> p.status == Ready || (p.status == PubKeySent && (p.conn == Inbound || sent)))
      && (p'.status != Ready ==> p' == p)
      && (p'.status == Ready ==> p'.publicKey == p'.privateKey == p'.peerPublicKey == None && p'.sharedKey == p.sharedKey)
      && out == if p.status == PubKeySent && p.conn == Outbound && sent then [ReadyMessage] else []
  {
  }

  /** What is said between sides that share a key is shown as it was said, just when both are
      ready and there is something to say; neither side's record changes. */
  lemma ChatOutcome(c: Crypto, p: PeerState, q: PeerState, nonce: nat, text: Text)
    requires Lawful(c) && p.sharedKey == q.sharedKey != None
    ensures var (p', out) := SendChat(c, p, nonce, text);
      && p' == p && (out == [] <==> p.status != Ready || text == "") && |out| <= 1
      && forall cipher :: out == [ChatMessage(nonce, cipher)] ==>
           && OnChat(c, q, nonce, cipher) == (q, if q.status == Ready then Some(text) else None)
           && OnMessage(c, q, ChatMessage(nonce, cipher), true) == (q, [])
    ensures SendChat(c, p, nonce, text).1 != [] ==> SendChat(c, p, nonce, text).1[0].ChatMessage?
  {
  }

  // ---------------------------------------------------------------- it times out

  function Across(side: ConnectionType): ConnectionType { if side == Outbound then Inbound else Outbound }

  /** A side that joins has ten seconds from then, and an exception if it could not make keys. */
  lemma JoinOutcome(c: Crypto, w: World, side: ConnectionType, generated: bool, now: int)
    requires End(w, side).Absent?
    ensures var w' := Apply(c, w, Join(side, generated, now));
      && End(w', side).Here? && Inbox(w', side) == Inbox(w, side) && Inbox(w', Across(side)) == Inbox(w, Across(side))
      && var p := End(w', side).peer;
         && p.conn == side && p.connectedAt == now && p.status == (if generated then Connected else Exception)
         && (generated ==> p.privateKey == Some(Secret(w, side)) && p.publicKey == Some(c.pub(Secret(w, side))))
  {
    assert Inbox(w, Across(side)) + [] == Inbox(w, Across(side));
  }

  predicate Fails(e: Endpoint) { e.Gone? || (e.Here? && e.peer.status == Exception) }

  // The end is as it was, or has left, and has sent nothing
  predicate StaysOut(w: World, w': World, side: ConnectionType) {
    && (End(w', side) == End(w, side) || End(w', side).Gone?)
    && multiset(Inbox(w', Across(side))) <= multiset(Inbox(w, Across(side)))
  }

  lemma OneLess(box: seq<Message>, i: nat)
    requires i < |box|
    ensures multiset(box[..i] + box[i + 1..]) <= multiset(box)
    ensures multiset(box[1..]) <= multiset(box)
  {
    assert box == box[..i] + ([box[i]] + box[i + 1..]);
    assert box == [box[0]] + box[1..];
  }

  // Another side's change, or one that leaves the side out and sends nothing
  lemma PutStaysOut(w: World, actor: ConnectionType, end: Endpoint, rest: seq<Message>, sent: seq<Message>, side: ConnectionType)
    requires Fails(End(w, side)) && multiset(rest) <= multiset(Inbox(w, actor))
    requires actor == side ==> (end == End(w, side) || end.Gone?) && sent == []
    ensures Fails(End(Put(w, actor, end, rest, sent), side)) && StaysOut(w, Put(w, actor, end, rest, sent), side)
  {
    if actor == side { assert Inbox(w, Across(side)) + [] == Inbox(w, Across(side)); }
  }

  lemma DeliverStaysOut(c: Crypto, w: World, actor: ConnectionType, sent: bool, side: ConnectionType)
    requires Inbox(w, actor) != [] && Fails(End(w, side))
    ensures var w' := Apply(c, w, Deliver(actor, sent));
      Fails(End(w', side)) && StaysOut(w, w', side)
  {
    var end, box := End(w, actor), Inbox(w, actor);
    OneLess(box, 0);
    if end.Here? {
      var r := OnMessage(c, end.peer, box[0], sent);
      PutStaysOut(w, actor, Here(r.0), box[1..], r.1, side);
    } else {
      PutStaysOut(w, actor, end, box[1..], [], side);
    }
  }

  lemma OutStep(c: Crypto, w: World, step: Step, side: ConnectionType)
    requires Enabled(w, step) && Fails(End(w, side))
    ensures Fails(End(Apply(c, w, step), side)) && StaysOut(w, Apply(c, w, step), side)
  {
    var end, box := End(w, step.side), Inbox(w, step.side);
    match step {
      case Join(_, generated, now) => PutStaysOut(w, step.side, End(Apply(c, w, step), step.side), box, [], side);
      case Deliver(_, sent) => DeliverStaysOut(c, w, step.side, sent, side);
      case Lose(_, i) => OneLess(box, i); PutStaysOut(w, step.side, end, box[..i] + box[i + 1..], [], side);
      case Visit(_, now, sent) =>
        var r := Tick(end.peer, now, sent);
        PutStaysOut(w, step.side, Here(r.0), box, r.1, side);
      case Chat(_, nonce, text) =>
        var r := SendChat(c, end.peer, nonce, text);
        PutStaysOut(w, step.side, Here(r.0), box, r.1, side);
      case Leave(_) => PutStaysOut(w, step.side, Gone, box, [], side);
    }
  }

  /** An exception is for good: whatever the link, the clock and the other side do, the record
      stays as it is until it is gone, and nothing more is sent. */
  lemma {:induction false} ExceptionIsFinal(c: Crypto, w: World, steps: seq<Step>, side: ConnectionType)
    requires Runs(c, w, steps) && Fails(End(w, side))
    ensures StaysOut(w, Exec(c, w, steps), side)
    decreases |steps|
  {
    if steps != [] {
      OutStep(c, w, steps[0], side);
      ExceptionIsFinal(c, Apply(c, w, steps[0]), steps[1..], side);
    }
  }

  /** The main thread's visit gives up a side that is not ready more than ten seconds after it
      connected, without sending anything, and never one that is ready or in time; an inbound
      side that has just connected is made to begin. */
  lemma VisitOutcome(c: Crypto, w: World, side: ConnectionType, now: int, sent: bool)
    requires End(w, side).Here?
    ensures var w' := Apply(c, w, Visit(side, now, sent));
      var p := End(w, side).peer;
      var late, begins := p.status != Ready && now > p.connectedAt + 10, p.conn == Inbound && p.status == Connected;
      && End(w', side).Here?
      && (late ==> End(w', side) == Here(p.(status := Exception)))
      && (!late && begins ==> End(w', side).peer.status == PubKeySent)
      && (!late && begins && p.publicKey.Some? ==> End(w', side) == Here(p.(status := PubKeySent)))
      && (!late && !begins ==> End(w', side) == Here(p))
      && Inbox(w', side) == Inbox(w, side)
      && (if !late && begins && sent then
            Inbox(w', Across(side)) == Inbox(w, Across(side)) + [PublicKeyMessage(Raw(p.publicKey))]
          else Inbox(w', Across(side)) == Inbox(w, Across(side)))
  {
    assert Inbox(w, Across(side)) + [] == Inbox(w, Across(side));
  }

  lemma {:induction false} ClockStays(c: Crypto, w: World, steps: seq<Step>, side: ConnectionType)
    requires Runs(c, w, steps) && End(w, side).Here?
    ensures End(Exec(c, w, steps), side).Gone?
         || (End(Exec(c, w, steps), side).Here? && End(Exec(c, w, steps), side).peer.connectedAt == End(w, side).peer.connectedAt)
    decreases |steps|
  {
    if steps != [] {
      var w' := Apply(c, w, steps[0]);
      if End(w', side).Here? { ClockStays(c, w', steps[1..], side); } else { ExceptionIsFinal(c, w', steps[1..], side); }
    }
  }

  /** A handshake takes ten seconds at most: a side that joined at some time and is visited more
      than ten seconds later is ready by then, or never will be and sends nothing any more. */
  lemma HandshakeTimesOut(c: Crypto, w: World, side: ConnectionType, generated: bool, joined: int, between: seq<Step>,
                          now: int, sent: bool, after: seq<Step>)
    requires End(w, side).Absent? && now > joined + 10
    requires Runs(c, Apply(c, w, Join(side, generated, joined)), between)
    requires End(Exec(c, Apply(c, w, Join(side, generated, joined)), between), side).Here?
    requires Runs(c, Apply(c, Exec(c, Apply(c, w, Join(side, generated, joined)), between), Visit(side, now, sent)), after)
    ensures var w1 := Exec(c, Apply(c, w, Join(side, generated, joined)), between);
      var w2 := Exec(c, Apply(c, w1, Visit(side, now, sent)), after);
      IsReady(End(w1, side)) || (!IsReady(End(w2, side)) && multiset(Inbox(w2, Across(side))) <= multiset(Inbox(w1, Across(side))))
  {
    var w0 := Apply(c, w, Join(side, generated, joined));
    var w1 := Exec(c, w0, between);
    JoinOutcome(c, w, side, generated, joined);
    ClockStays(c, w0, between, side);
    VisitOutcome(c, w1, side, now, sent);
    if !IsReady(End(w1, side)) { ExceptionIsFinal(c, Apply(c, w1, Visit(side, now, sent)), after, side); }
  }

  // ---------------------------------------------------------------- it can finish

  // Neither end has left, timed out or failed to make keys
  predicate Alive(w: World) { !Fails(w.out) && !Fails(w.inb) }

  // The step lost no message: none on the link, none to an end that is not there, and none
  // that could not be sent
  predicate LosesNothing(c: Crypto, w: World, step: Step)
    requires Enabled(w, step)
  {
    match step
    case Lose(_, _) => false
    case Deliver(side, _) => End(w, side).Here? && Apply(c, w, step) == Apply(c, w, Deliver(side, true))
    case Visit(side, now, _) => Apply(c, w, step) == Apply(c, w, Visit(side, now, true))
    case _ => true
  }

  predicate NothingLost(c: Crypto, w: World, steps: seq<Step>)
    requires Runs(c, w, steps)
    decreases |steps|
  {
    steps == [] || (LosesNothing(c, w, steps[0]) && NothingLost(c, Apply(c, w, steps[0]), steps[1..]))
  }

  // The next message of the handshake is travelling
  predicate OnItsWay(c: Crypto, n: nat, outSecret: Key, inSecret: Key, toOut: seq<Message>, toIn: seq<Message>) {
    && toOut == (if n == 1 then [PublicKeyMessage(c.pub(inSecret))] else if n == 3 then [ReadyMessage] else [])
    && toIn == (if n == 2 then [PublicKeyMessage(c.pub(outSecret))] else if n == 4 then [ReadyMessage] else [])
  }

  predicate InFlight(c: Crypto, n: nat, w: World) {
    OnItsWay(c, n, w.outSecret, w.inSecret, Handshake(w.toOut), Handshake(w.toIn))
  }

  lemma AliveBefore(c: Crypto, w: World, step: Step)
    requires Enabled(w, step) && Alive(Apply(c, w, step))
    ensures Alive(w)
  {
  }

  // The first message of an inbox taken; whether the next stage's message flies is seen from
  // the handshake messages
  lemma OutAnswers(c: Crypto, n: nat, secret: Key, peerSecret: Key, p: PeerState, m: Message)
    requires OutAt(c, n, secret, peerSecret, Here(p)) && p.status != Exception && n <= 5
    requires m == ReadyMessage ==> n == 3
    requires m.PublicKeyMessage? ==> n == 1
    ensures var (p', sent) := OnMessage(c, p, m, true);
      && p'.status != Exception
      && (m.ChatMessage? ==> sent == [] && p'.sharedKey == p.sharedKey && p'.status == p.status)
      && (m == ReadyMessage ==> sent == [ReadyMessage] && p.status == PubKeySent && p'.status == Ready)
      && (m.PublicKeyMessage? ==> sent == [PublicKeyMessage(c.pub(secret))] && p.sharedKey.None? && p'.sharedKey.Some?)
  {
  }

  lemma InAnswers(c: Crypto, n: nat, secret: Key, peerSecret: Key, p: PeerState, m: Message)
    requires InAt(c, n, secret, peerSecret, Here(p)) && p.status != Exception && n <= 5
    requires m == ReadyMessage ==> n == 4
    requires m.PublicKeyMessage? ==> n == 2
    ensures var (p', sent) := OnMessage(c, p, m, true);
      && p'.status != Exception
      && (m.ChatMessage? ==> sent == [] && p'.sharedKey == p.sharedKey && p'.status == p.status)
      && (m == ReadyMessage ==> sent == [] && p.status == PubKeySent && p'.status == Ready)
      && (m.PublicKeyMessage? ==> sent == [ReadyMessage] && p.status == PubKeySent && p.sharedKey.None? && p'.sharedKey.Some?)
  {
  }

  lemma DeliverOutFlies(c: Crypto, n: nat, w: World, p: PeerState)
    requires At(c, n, w) && InFlight(c, n, w) && Alive(w) && w.toOut != [] && w.out == Here(p)
    ensures var w' := Apply(c, w, Deliver(Outbound, true));
      && InFlight(c, NextStage(n, w, w', Outbound), w') && Alive(w') && w'.out.Here? && w'.inb == w.inb
      && NextStage(n, w, w', Outbound) == (if w.toOut[0].ChatMessage? then n else n + 1)
      && |w'.toOut| == |w.toOut| - 1 && (w.toOut[0].ChatMessage? ==> w'.toIn == w.toIn)
  {
    var m := w.toOut[0];
    HeadTaken(w.toOut);
    OutAnswers(c, n, w.outSecret, w.inSecret, p, m);
    if m.ChatMessage? {
      assert w.toIn + [] == w.toIn;
    } else {
      HandshakeConcat(w.toIn, [OnMessage(c, p, m, true).1[0]]);
    }
  }

  lemma DeliverInFlies(c: Crypto, n: nat, w: World, p: PeerState)
    requires At(c, n, w) && InFlight(c, n, w) && Alive(w) && w.toIn != [] && w.inb == Here(p)
    ensures var w' := Apply(c, w, Deliver(Inbound, true));
      && InFlight(c, NextStage(n, w, w', Inbound), w') && Alive(w') && w'.inb.Here? && w'.out == w.out
      && NextStage(n, w, w', Inbound) == (if w.toIn[0].ChatMessage? then n else n + 1)
      && |w'.toIn| == |w.toIn| - 1 && (w.toIn[0].ChatMessage? ==> w'.toOut == w.toOut)
  {
    var m := w.toIn[0];
    HeadTaken(w.toIn);
    InAnswers(c, n, w.inSecret, w.outSecret, p, m);
    var (p', sent) := OnMessage(c, p, m, true);
    var w' := Apply(c, w, Deliver(Inbound, true));
    assert w' == Put(w, Inbound, Here(p'), w.toIn[1..], sent);
    if m.PublicKeyMessage? {
      HandshakeConcat(w.toOut, [ReadyMessage]);
    } else {
      assert w.toOut + [] == w.toOut;
      assert w'.toOut == w.toOut;
    }
  }

  lemma VisitOutFlies(c: Crypto, n: nat, w: World, now: int)
    requires At(c, n, w) && InFlight(c, n, w) && w.out.Here?
    ensures var w' := Apply(c, w, Visit(Outbound, now, true));
      w'.toOut == w.toOut && w'.toIn == w.toIn && NextStage(n, w, w', Outbound) == n
  {
    assert w.toIn + [] == w.toIn;
  }

  lemma VisitInFlies(c: Crypto, n: nat, w: World, p: PeerState, now: int)
    requires At(c, n, w) && InFlight(c, n, w) && w.inb == Here(p)
    ensures var w' := Apply(c, w, Visit(Inbound, now, true));
      Alive(w') ==> InFlight(c, NextStage(n, w, w', Inbound), w')
  {
    VisitOutcome(c, w, Inbound, now, true);
    if p.status == Connected && now <= p.connectedAt + 10 {
      assert n == 0;
      HandshakeConcat(w.toOut, [PublicKeyMessage(c.pub(w.inSecret))]);
    }
  }

  lemma VisitFlies(c: Crypto, n: nat, w: World, side: ConnectionType, now: int)
    requires At(c, n, w) && InFlight(c, n, w) && End(w, side).Here?
    ensures var w' := Apply(c, w, Visit(side, now, true));
      Alive(w') ==> InFlight(c, NextStage(n, w, w', side), w')
  {
    if side == Outbound { VisitOutFlies(c, n, w, now); } else { VisitInFlies(c, n, w, w.inb.peer, now); }
  }

  lemma OtherFlies(c: Crypto, n: nat, w: World, step: Step)
    requires At(c, n, w) && InFlight(c, n, w) && Alive(w) && Enabled(w, step) && (step.Join? || step.Chat? || step.Leave?)
    ensures InFlight(c, n, Apply(c, w, step)) && NextStage(n, w, Apply(c, w, step), step.side) == n
  {
    OtherStage(c, n, w, step);
    var sent := if step.Chat? then SendChat(c, End(w, step.side).peer, step.nonce, step.text).1 else [];
    HandshakeConcat(w.toOut, sent);
    HandshakeConcat(w.toIn, sent);
  }

  lemma StepFlies(c: Crypto, n: nat, w: World, step: Step)
    requires At(c, n, w) && InFlight(c, n, w) && Enabled(w, step) && LosesNothing(c, w, step) && Alive(Apply(c, w, step))
    ensures InFlight(c, NextStage(n, w, Apply(c, w, step), step.side), Apply(c, w, step))
  {
    AliveBefore(c, w, step);
    match step {
      case Deliver(side, _) =>
        if side == Outbound { DeliverOutFlies(c, n, w, w.out.peer); } else { DeliverInFlies(c, n, w, w.inb.peer); }
      case Visit(side, now, _) => VisitFlies(c, n, w, side, now);
      case _ => OtherFlies(c, n, w, step);
    }
  }

  lemma {:induction false} RunFlies(c: Crypto, n: nat, w: World, steps: seq<Step>) returns (n': nat)
    requires At(c, n, w) && Runs(c, w, steps) && NothingLost(c, w, steps)
    requires Alive(w) ==> InFlight(c, n, w)
    ensures At(c, n', Exec(c, w, steps)) && (Alive(Exec(c, w, steps)) ==> InFlight(c, n', Exec(c, w, steps)))
    decreases |steps|
  {
    n' := n;
    if steps != [] {
      var w' := Apply(c, w, steps[0]);
      var m := StepKeeps(c, n, w, steps[0]);
      if Alive(w') {
        AliveBefore(c, w, steps[0]);
        StepFlies(c, n, w, steps[0]);
      }
      n' := RunFlies(c, m, w', steps[1..]);
    }
  }

  predicate BothHere(w: World) { w.out.Here? && w.inb.Here? && Alive(w) }

  predicate OnlyDeliveries(steps: seq<Step>) { forall i :: 0 <= i < |steps| ==> steps[i].Deliver? && steps[i].sent }

  lemma RunsCons(c: Crypto, w: World, step: Step, rest: seq<Step>)
    requires Enabled(w, step) && Runs(c, Apply(c, w, step), rest)
    ensures Runs(c, w, [step] + rest) && Exec(c, w, [step] + rest) == Exec(c, Apply(c, w, step), rest)
  {
    assert ([step] + rest)[1..] == rest;
  }

  // One delivery towards the end whose turn it is
  lemma DeliverNext(c: Crypto, n: nat, w: World) returns (side: ConnectionType, n': nat)
    requires At(c, n, w) && InFlight(c, n, w) && BothHere(w) && 1 <= n < 5
    ensures Inbox(w, side) != []
    ensures var w' := Apply(c, w, Deliver(side, true));
      && At(c, n', w') && InFlight(c, n', w') && BothHere(w')
      && (n' == n + 1 || (n' == n && |w'.toOut| + |w'.toIn| < |w.toOut| + |w.toIn|))
  {
    if n % 2 == 1 {
      side := Outbound;
      DeliverOutKeeps(c, n, w, w.out.peer, true);
      DeliverOutFlies(c, n, w, w.out.peer);
    } else {
      side := Inbound;
      DeliverInKeeps(c, n, w, w.inb.peer, true);
      DeliverInFlies(c, n, w, w.inb.peer);
    }
    n' := NextStage(n, w, Apply(c, w, Deliver(side, true)), side);
  }

  lemma {:induction false} DeliveriesComplete(c: Crypto, n: nat, w: World) returns (steps: seq<Step>)
    requires At(c, n, w) && InFlight(c, n, w) && BothHere(w) && 1 <= n
    ensures OnlyDeliveries(steps) && Runs(c, w, steps)
    ensures IsReady(Exec(c, w, steps).out) && IsReady(Exec(c, w, steps).inb)
    decreases 5 - n, |w.toOut| + |w.toIn|
  {
    steps := [];
    if n < 5 {
      var side, n' := DeliverNext(c, n, w);
      steps := DeliveriesComplete(c, n', Apply(c, w, Deliver(side, true)));
      RunsCons(c, w, Deliver(side, true), steps);
      steps := [Deliver(side, true)] + steps;
    }
  }

  /** However far it has come, the handshake can be finished as long as nothing has been lost
      and both ends are there: after one visit of the main thread, if it has not begun yet,
      a run of deliveries makes both sides ready. */
  lemma HandshakeCompletes(c: Crypto, init: World, before: seq<Step>) returns (steps: seq<Step>)
    requires Init(init) && Runs(c, init, before) && NothingLost(c, init, before) && BothHere(Exec(c, init, before))
    ensures OnlyDeliveries(steps) || (steps != [] && steps[0].Visit? && OnlyDeliveries(steps[1..]))
    ensures var w := Exec(c, init, before);
      Runs(c, w, steps) && IsReady(Exec(c, w, steps).out) && IsReady(Exec(c, w, steps).inb)
  {
    var w := Exec(c, init, before);
    var n := RunFlies(c, 0, init, before);
    if n == 0 {
      var now := w.inb.peer.connectedAt;
      var w' := Apply(c, w, Visit(Inbound, now, true));
      VisitKeeps(c, 0, w, Visit(Inbound, now, true));
      VisitFlies(c, 0, w, Inbound, now);
      steps := DeliveriesComplete(c, 1, w');
      RunsCons(c, w, Visit(Inbound, now, true), steps);
      var rest := steps;
      steps := [Visit(Inbound, now, true)] + steps;
      assert steps[1..] == rest;
    } else {
      steps := DeliveriesComplete(c, n, w);
    }
  }

  /** And two ends can be there: each joins with a key pair. */
  lemma BothCanBeHere(c: Crypto, outSecret: Key, inSecret: Key)
    ensures var init := World(outSecret, inSecret, Absent, Absent, [], []);
      var joins := [Join(Outbound, true, 0)] + [Join(Inbound, true, 0)];
      Init(init) && Runs(c, init, joins) && NothingLost(c, init, joins) && BothHere(Exec(c, init, joins))
  {
    var w0 := World(outSecret, inSecret, Absent, Absent, [], []);
    var w1 := Apply(c, w0, Join(Outbound, true, 0));
    assert Runs(c, Apply(c, w1, Join(Inbound, true, 0)), []);
    RunsCons(c, w1, Join(Inbound, true, 0), []);
    RunsCons(c, w0, Join(Outbound, true, 0), [Join(Inbound, true, 0)]);
    assert ([Join(Outbound, true, 0)] + [Join(Inbound, true, 0)])[1..] == [Join(Inbound, true, 0)];
    assert NothingLost(c, w1, [Join(Inbound, true, 0)]);
  }
}
