/**
 * End to end: what a client reassembles from the bytes the server sent for it is the list of
 * messages the server meant, in order and never interleaved.
 */
module ResponseStream {
  import opened Basics
  import opened Packets
  import opened Datagrams
  import opened Server
  import opened Registry
  import opened Runs

  // ---- the receiver ----

  /** The messages a client has put together, and the fragments of the one that is not complete. */
  datatype Inbox = Inbox(messages: seq<seq<byte>>, part: seq<byte>)

  /** Fragments are joined in the order they arrive; number 0 completes a message. */
  function Accept(r: Inbox, p: QPacket): Inbox {
    if p.packetType != DATA || IsAck(p) then r
    else if p.fragmentId == Some(0) then Inbox(r.messages + [r.part + p.payload], [])
    else Inbox(r.messages, r.part + p.payload)
  }

  function AcceptAll(r: Inbox, ps: seq<QPacket>): Inbox
    decreases |ps|
  {
    if ps == [] then r else AcceptAll(Accept(r, ps[0]), ps[1..])
  }

  /** What client `i` has after parsing, checking and joining all datagrams that were sent for it. */
  function Received(ctx: Context, sent: seq<Sent>, i: nat): Inbox {
    if sent == [] then Inbox([], []) else
    var before := Received(ctx, sent[..|sent| - 1], i);
    var last := sent[|sent| - 1];
    if last.client == i then AcceptAll(before, Split(ctx, last.data)) else before
  }

  function MessagesFor(messages: seq<Message>, i: nat): seq<seq<byte>> {
    if messages == [] then [] else
    var before := MessagesFor(messages[..|messages| - 1], i);
    var last := messages[|messages| - 1];
    if last.client == i then before + [last.data] else before
  }

  /** Client `i` has received exactly its messages, and `part` of another one. */
  predicate UpToDate(ctx: Context, s: State, i: nat, part: seq<byte>) {
    Received(ctx, s.sent, i) == Inbox(MessagesFor(s.messages, i), part)
  }

  // ---- single packets ----

  lemma ReceivedSnoc(ctx: Context, sent: seq<Sent>, x: Sent, i: nat)
    ensures Received(ctx, sent + [x], i) ==
            if x.client == i then AcceptAll(Received(ctx, sent, i), Split(ctx, x.data)) else Received(ctx, sent, i)
  {
    assert (sent + [x])[..|sent|] == sent;
  }

  lemma MessagesSnoc(messages: seq<Message>, m: Message, i: nat)
    ensures MessagesFor(messages + [m], i) ==
            if m.client == i then MessagesFor(messages, i) + [m.data] else MessagesFor(messages, i)
  {
    assert (messages + [m])[..|messages|] == messages;
  }

  lemma SplitNothing(ctx: Context)
    ensures Split(ctx, []) == []
  {}

  lemma SplitOne(ctx: Context, p: QPacket)
    requires Arrives(ctx, p)
    requires HasSize(p)
    ensures Split(ctx, Serialize(ctx, p).value) == [Arrived(ctx, p)]
  {
    hide Serialize, Arrives, Arrived, Split;
    ArrivesSerializes(ctx, p);
    SplitFirst(ctx, p, []);
    SplitNothing(ctx);
    assert Serialize(ctx, p).value + [] == Serialize(ctx, p).value;
    assert [Arrived(ctx, p)] + Split(ctx, []) == [Arrived(ctx, p)];
  }

  lemma AcceptOne(r: Inbox, p: QPacket)
    ensures AcceptAll(r, [p]) == Accept(r, p)
  {
    assert [p][1..] == [];
  }

  lemma AcceptNothing(r: Inbox)
    ensures AcceptAll(r, []) == r
  {}

  lemma SmallRatio(z: Zlib, payload: seq<byte>)
    requires ZlibSound(z) && |payload| <= MAX_PAYLOAD_SIZE
    ensures Ratio(z, payload) != 0
  {
    var n := |z.deflate(payload)|;
    assert z.inflate(z.deflate(payload)) == Some(payload) && n >= 6;
    assert |payload| / n <= |payload| / 6 by { SmallQuotient(|payload|, n); }
  }

  lemma SmallQuotient(a: nat, n: nat)
    requires n >= 6
    ensures a / n <= a / 6
  {
    var q := a / n;
    assert q * n <= a;
    assert q * 6 <= q * n;
  }

  /** A packet with at most 1000 bytes of payload can always be serialised and opened. */
  lemma SmallArrives(ctx: Context, p: QPacket)
    requires ValidContext(ctx) && Specific(p).Ok? && HasSize(p) && |p.payload| <= MAX_PAYLOAD_SIZE
    ensures Arrives(ctx, p)
    ensures Arrived(ctx, p).flags == p.flags && Arrived(ctx, p).sequence == p.sequence
    ensures Arrived(ctx, p).packetType == p.packetType
    ensures Secure(p) ==> Arrived(ctx, p).payload == p.payload
    ensures p.packetType == DATA ==> Arrived(ctx, p).fragmentId == Some(p.fragmentId.value % 256)
  {
    hide ZlibSound;
    SmallSerializes(ctx, p);
    SmallRatio(ctx.zlib, p.payload);
    if Secure(p) {
      TransparentArrives(ctx, p);
    }
  }

  lemma SmallSerializes(ctx: Context, p: QPacket)
    requires ValidContext(ctx) && Specific(p).Ok? && HasSize(p) && |p.payload| <= MAX_PAYLOAD_SIZE
    ensures Serialize(ctx, p).Ok?
  {
    assert ctx.zlib.inflate(ctx.zlib.deflate(p.payload)) == Some(p.payload);
    assert |Frame(ctx.zlib, p)| <= 2001;
  }

  lemma AckFields(p: QPacket, c: Client, keep: bool)
    requires HasConnSignature(p.packetType) ==> p.connSignature.Some?
    ensures var ack := Outgoing(AckPacket(p, c, keep));
            && Specific(ack).Ok? && HasSize(ack) && IsAck(ack)
            && ack.payload == (if keep then p.payload else [])
  {}

  /** An acknowledgement leaves every inbox as it is. */
  lemma AckUnseen(ctx: Context, s: State, to: Address, p: QPacket, client: nat, keep: bool, i: nat)
    requires ValidContext(ctx) && client < |s.objects|
    requires HasConnSignature(p.packetType) ==> p.connSignature.Some?
    requires keep ==> |p.payload| <= MAX_PAYLOAD_SIZE
    ensures var t := SendAck(ctx, s, to, p, client, keep);
            Received(ctx, t.sent, i) == Received(ctx, s.sent, i) && t.messages == s.messages
  {
    hide Serialize, Arrives, Arrived, Received, AckPacket, Outgoing, ValidContext;
    AckFields(p, s.objects[client], keep);
    var ack := Outgoing(AckPacket(p, s.objects[client], keep));
    SmallArrives(ctx, ack);
    SmallSerializes(ctx, ack);
    SplitOne(ctx, ack);
    AcceptOne(Received(ctx, s.sent, i), Arrived(ctx, ack));
    ReceivedSnoc(ctx, s.sent, Sent(client, Ack, to, ack, Serialize(ctx, ack).value), i);
  }

  // ---- fragments ----

  /** The part of a response its first `n` fragments carry. */
  function Prefix(response: seq<byte>, n: nat): seq<byte> {
    response[..Min(n * MAX_PAYLOAD_SIZE, |response|)]
  }

  lemma ChunkExtends(response: seq<byte>, i: nat)
    requires i < FragmentCount(|response|)
    ensures i * MAX_PAYLOAD_SIZE < |response|
    ensures 0 < |Chunk(response, i)| <= MAX_PAYLOAD_SIZE
    ensures Prefix(response, i) + Chunk(response, i) == Prefix(response, i + 1)
    ensures i + 1 == FragmentCount(|response|) ==> Prefix(response, i + 1) == response
  {}

  /** All fragments but the last have 1000 bytes, and the last has the rest; an empty response has none. */
  lemma FragmentSizes(response: seq<byte>, i: nat)
    requires i < FragmentCount(|response|)
    ensures 1000 * (FragmentCount(|response|) - 1) < |response| <= 1000 * FragmentCount(|response|)
    ensures Chunk(response, i) == response[1000 * i..if i + 1 < FragmentCount(|response|) then 1000 * (i + 1)
                                                     else |response|]
  {}

  lemma NothingToSend(ctx: Context, s: State, call: Call)
    requires call.client < |s.objects|
    ensures SendMessage(ctx, s, call, []) == s
  {}

  predicate SecureCall(call: Call) {
    call.destination.streamType == RVSEC
  }

  const MAX_RESPONSE := 256 * MAX_PAYLOAD_SIZE

  /** The fragment that is sent arrives with its number and its bytes, as long as the number fits a byte. */
  lemma FragmentArrives(ctx: Context, call: Call, c: Client, response: seq<byte>, i: nat)
    requires ValidContext(ctx) && SecureCall(call) && i < FragmentCount(|response|)
    ensures var p := Outgoing(ResponsePacket(call, c, response, i));
            && Arrives(ctx, p) && HasSize(p)
            && Arrived(ctx, p).packetType == DATA && !IsAck(Arrived(ctx, p))
            && Arrived(ctx, p).payload == Chunk(response, i)
            && Arrived(ctx, p).fragmentId == Some((FragmentCount(|response|) - 1 - i) % 256)
            && Arrived(ctx, p).sequence == c.serverSequenceId
  {
    hide Serialize, Arrives, Arrived;
    ChunkExtends(response, i);
    SmallArrives(ctx, Outgoing(ResponsePacket(call, c, response, i)));
  }

  lemma FragmentReceived(ctx: Context, s: State, call: Call, response: seq<byte>, n: nat, i: nat)
    requires ValidContext(ctx) && SecureCall(call) && call.client < |s.objects| && n < FragmentCount(|response|)
    ensures var t := SendFragment(ctx, s, call, response, n);
            var before := Received(ctx, s.sent, i);
            && t.messages == s.messages
            && Received(ctx, t.sent, i) ==
               if i != call.client then before
               else if (FragmentCount(|response|) - 1 - n) % 256 == 0
               then Inbox(before.messages + [before.part + Chunk(response, n)], [])
               else Inbox(before.messages, before.part + Chunk(response, n))
  {
    hide Serialize, Arrives, Arrived, Received, ResponsePacket, Outgoing;
    var c := s.objects[call.client];
    var p := Outgoing(ResponsePacket(call, c, response, n));
    FragmentArrives(ctx, call, c, response, n);
    ArrivesSerializes(ctx, p);
    SplitOne(ctx, p);
    AcceptOne(Received(ctx, s.sent, i), Arrived(ctx, p));
    ReceivedSnoc(ctx, s.sent, Sent(call.client, Response, call.from, p, Serialize(ctx, p).value), i);
  }

  lemma ArrivesSerializes(ctx: Context, p: QPacket)
    requires Arrives(ctx, p)
    ensures Serialize(ctx, p).Ok?
  {}

  /** The inbox after `n` fragments of a response: their bytes besides the messages, until all are there. */
  function Partial(messages: seq<seq<byte>>, response: seq<byte>, n: nat): Inbox {
    if n == 0 then Inbox(messages, [])
    else if n < FragmentCount(|response|) then Inbox(messages, Prefix(response, n))
    else Inbox(messages + [response], [])
  }

  lemma PartialStep(messages: seq<seq<byte>>, response: seq<byte>, n: nat)
    requires n < FragmentCount(|response|) && |response| <= MAX_RESPONSE
    ensures var before := Partial(messages, response, n);
            Partial(messages, response, n + 1) ==
            if (FragmentCount(|response|) - 1 - n) % 256 == 0
            then Inbox(before.messages + [before.part + Chunk(response, n)], [])
            else Inbox(before.messages, before.part + Chunk(response, n))
  {
    hide Chunk, Prefix, FragmentCount;
    ChunkExtends(response, n);
    PrefixStarts(response);
    LastNumber(|response|, n);
  }

  /** A client not concerned stays up to date; the one the response is for gets it fragment by fragment. */
  lemma {:induction false} FragmentsReceived(ctx: Context, s: State, call: Call, response: seq<byte>, n: nat, i: nat)
    requires ValidContext(ctx) && SecureCall(call) && call.client < |s.objects|
    requires n <= FragmentCount(|response|) && |response| <= MAX_RESPONSE
    requires UpToDate(ctx, s, i, [])
    ensures var t := SendFragments(ctx, s, call, response, n);
            && t.messages == s.messages
            && Received(ctx, t.sent, i) ==
               if i != call.client then Inbox(MessagesFor(s.messages, i), [])
               else Partial(MessagesFor(s.messages, i), response, n)
    decreases n
  {
    hide SendFragment, Received, Chunk, Partial, FragmentCount, MessagesFor, ValidContext;
    if n == 0 {
      NoFragments(MessagesFor(s.messages, i), response);
    } else {
      FragmentsReceived(ctx, s, call, response, n - 1, i);
      var t := SendFragments(ctx, s, call, response, n - 1);
      OneMoreReceived(ctx, t, call, response, n - 1, i, MessagesFor(s.messages, i));
    }
  }

  lemma OneMoreReceived(ctx: Context, s: State, call: Call, response: seq<byte>, n: nat, i: nat,
                        messages: seq<seq<byte>>)
    requires ValidContext(ctx) && SecureCall(call) && call.client < |s.objects|
    requires n < FragmentCount(|response|) && |response| <= MAX_RESPONSE
    requires Received(ctx, s.sent, i) ==
             if i != call.client then Inbox(messages, []) else Partial(messages, response, n)
    ensures var t := SendFragment(ctx, s, call, response, n);
            && t.messages == s.messages
            && Received(ctx, t.sent, i) ==
               if i != call.client then Inbox(messages, []) else Partial(messages, response, n + 1)
  {
    hide SendFragment, Received, Chunk, Partial, FragmentCount, ValidContext;
    FragmentReceived(ctx, s, call, response, n, i);
    PartialStep(messages, response, n);
  }

  lemma NoFragments(messages: seq<seq<byte>>, response: seq<byte>)
    ensures Partial(messages, response, 0) == Inbox(messages, [])
  {}

  lemma PrefixStarts(response: seq<byte>)
    ensures Prefix(response, 0) == []
  {}

  /** With at most 256 fragments, only the last one has a number that is 0 modulo 256. */
  lemma LastNumber(size: nat, i: nat)
    requires size <= MAX_RESPONSE && i < FragmentCount(size)
    ensures (FragmentCount(size) - 1 - i) % 256 == 0 <==> i + 1 == FragmentCount(size)
  {}

  lemma MessageReceived(ctx: Context, s: State, call: Call, response: seq<byte>, i: nat)
    requires ValidContext(ctx) && SecureCall(call) && call.client < |s.objects|
    requires |response| <= MAX_RESPONSE && UpToDate(ctx, s, i, [])
    ensures UpToDate(ctx, SendMessage(ctx, s, call, response), i, [])
  {
    hide Received, SendFragments;
    FragmentsReceived(ctx, s, call, response, FragmentCount(|response|), i);
    MessagesSnoc(s.messages, Message(call.client, response), i);
  }

  // ---- server requests ----

  /**
   * The payload of a compressed DATA packet arrives as it was: on a secure stream it inflates within
   * the limit, unless its ratio byte passes it off as not compressed. In that case, and with its
   * ratio byte on any other stream, it arrives as it is on the wire.
   */
  predicate Undamaged(z: Zlib, p: QPacket) {
    p.payload != [] ==>
      if p.source.streamType != RVSEC then [Ratio(z, p.payload)] + z.deflate(p.payload) == p.payload
      else if Ratio(z, p.payload) == 0 then z.deflate(p.payload) == p.payload
      else |p.payload| <= MAX_DECOMPRESSED_SIZE
  }

  /** The requests that reach a client as messages of their own. */
  predicate CleanRequest(ctx: Context, p: QPacket) {
    && p.packetType == DATA && !IsAck(p) && (p.fragmentId.None? || p.fragmentId.value % 256 == 0)
    && Undamaged(ctx.zlib, p)
  }

  lemma CompressedOpens(ctx: Context, q: QPacket)
    requires ValidContext(ctx) && Serialize(ctx, q).Ok? && q.packetType == DATA && q.useCompression
    ensures var unsealed := OpenPayload(ctx, Secure(q), SealPayload(ctx, q).value);
            unsealed.Ok? && unsealed.value.0 == q.payload <==> Undamaged(ctx.zlib, q)
  {
    hide Ratio, SealPayload, OpenPayload, Unframe, Frame, Undamaged;
    OpenSealed(ctx, q);
    SealsOnlyIf(ctx, q);
    UnframeCompressed(ctx.zlib, q);
  }

  lemma SealsOnlyIf(ctx: Context, q: QPacket)
    requires Serialize(ctx, q).Ok?
    ensures SealPayload(ctx, q).Ok?
  {}

  lemma UnframeCompressed(z: Zlib, q: QPacket)
    requires ZlibSound(z) && q.packetType == DATA && q.useCompression
    ensures var frame := Frame(z, q);
            (if Secure(q) then Unframe(z, frame).Ok? && Unframe(z, frame).value.0 == q.payload else frame == q.payload)
            <==> Undamaged(z, q)
  {
    hide Ratio;
    if q.payload != [] {
      assert z.inflate(z.deflate(q.payload)) == if |q.payload| <= MAX_DECOMPRESSED_SIZE then Some(q.payload) else None;
      assert Frame(z, q)[1..] == z.deflate(q.payload);
    }
  }

  /** A datagram whose payload cannot be opened brings nothing. */
  lemma UnopenedIsLost(ctx: Context, p: QPacket)
    requires Serialize(ctx, p).Ok? && !Arrives(ctx, p) && HasSize(p)
    ensures Split(ctx, Serialize(ctx, p).value) == []
  {
    hide Serialize, Parse, SealPayload, OpenPayload, OnWire;
    ParseSerialized(ctx, p, []);
    assert Serialize(ctx, p).value + [] == Serialize(ctx, p).value;
  }

  lemma ArrivedFields(ctx: Context, p: QPacket)
    requires Arrives(ctx, p)
    ensures var q := Arrived(ctx, p);
            && q.packetType == p.packetType && q.flags == p.flags
            && q.payload == OpenPayload(ctx, Secure(p), SealPayload(ctx, p).value).value.0
            && (p.packetType == DATA && p.fragmentId.Some? ==> q.fragmentId == Some(p.fragmentId.value % 256))
  {
    hide OpenPayload, SealPayload, Seal;
  }

  lemma RequestFields(c: Client, p: QPacket)
    ensures var q := Outgoing(RequestPacket(c, p));
            && q.packetType == p.packetType && IsAck(q) == IsAck(p) && HasSize(q)
            && q.payload == p.payload && q.source == p.source
            && (p.packetType == DATA ==>
                  q.useCompression && q.fragmentId == if p.fragmentId.None? then Some(0) else p.fragmentId)
  {}

  /** What a client makes of the datagram of a request: one message with its payload exactly when it is clean. */
  lemma RequestAccepted(ctx: Context, r: Inbox, c: Client, p: QPacket)
    requires ValidContext(ctx) && r.part == [] && Serialize(ctx, Outgoing(RequestPacket(c, p))).Ok?
    ensures var ps := Split(ctx, Serialize(ctx, Outgoing(RequestPacket(c, p))).value);
            AcceptAll(r, ps) == Inbox(r.messages + [p.payload], []) <==> CleanRequest(ctx, p)
  {
    hide Serialize, Arrives, Arrived, RequestPacket, Outgoing, Split, OpenPayload, SealPayload, Undamaged, Secure;
    hide Accept, AcceptAll, ValidContext;
    var q := Outgoing(RequestPacket(c, p));
    RequestFields(c, p);
    SameDamage(ctx.zlib, p, q);
    if q.packetType == DATA {
      CompressedOpens(ctx, q);
    }
    ArrivesWhen(ctx, q);
    if Arrives(ctx, q) {
      SplitOne(ctx, q);
      ArrivedFields(ctx, q);
      AcceptOne(r, Arrived(ctx, q));
      AcceptedWhen(r, Arrived(ctx, q), p.payload);
    } else {
      UnopenedIsLost(ctx, q);
      AcceptNothing(r);
      LastMessage(r.messages, [], p.payload);
    }
  }

  /** A packet completes a message that is its payload. */
  lemma AcceptedWhen(r: Inbox, q: QPacket, payload: seq<byte>)
    requires r.part == []
    ensures Accept(r, q) == Inbox(r.messages + [payload], []) <==>
            q.packetType == DATA && !IsAck(q) && q.fragmentId == Some(0) && q.payload == payload
  {
    assert [] + q.payload == q.payload;
    LastMessage(r.messages, q.payload, payload);
  }

  lemma ArrivesWhen(ctx: Context, q: QPacket)
    requires Serialize(ctx, q).Ok?
    ensures Arrives(ctx, q) <==> OpenPayload(ctx, Secure(q), SealPayload(ctx, q).value).Ok?
  {}

  lemma SameDamage(z: Zlib, p: QPacket, q: QPacket)
    requires q.payload == p.payload && q.source == p.source
    ensures Undamaged(z, q) == Undamaged(z, p)
  {}

  lemma LastMessage(messages: seq<seq<byte>>, a: seq<byte>, b: seq<byte>)
    ensures messages + [a] == messages + [b] <==> a == b
    ensures messages != messages + [b]
  {
    if messages + [a] == messages + [b] {
      assert (messages + [a])[|messages|] == a;
    }
  }

  /**
   * A request of the server reaches its client as a message of its own exactly when it is a DATA
   * packet numbered as a last fragment whose payload is undamaged; others are left as they were.
   */
  lemma RequestReceived(ctx: Context, s: State, client: nat, p: QPacket, i: nat)
    requires ValidContext(ctx) && client < |s.objects| && UpToDate(ctx, s, i, [])
    ensures UpToDate(ctx, SendRequest(ctx, s, client, p), i, []) <==>
            i != client || CleanRequest(ctx, p) || Serialize(ctx, Outgoing(RequestPacket(s.objects[client], p))).Err?
  {
    hide Serialize, Received, CleanRequest, RequestPacket, Outgoing, MessagesFor, Split;
    var q := Outgoing(RequestPacket(s.objects[client], p));
    if Serialize(ctx, q).Ok? {
      var before := Received(ctx, s.sent, i);
      RequestAccepted(ctx, before, s.objects[client], p);
      ReceivedSnoc(ctx, s.sent, Sent(client, ServerRequest, s.objects[client].address, q, Serialize(ctx, q).value), i);
      MessagesSnoc(s.messages, Message(client, p.payload), i);
    }
  }

  // ---- steps and runs ----

  predicate SecurePorts(ports: set<byte>) {
    forall b :: b in ports ==> b / 16 == RVSEC
  }

  predicate SecureCalls(s: State) {
    forall i :: 0 <= i < |s.pending| ==> SecureCall(s.pending[i])
  }

  /** Handlers respond with at most 256 fragments, and requests are clean. */
  ghost predicate Modest(ctx: Context, e: Event) {
    match e
    case Incoming(_, _, env) =>
      forall payload :: env.handler(payload).Returns? ==> |env.handler(payload).response| <= MAX_RESPONSE
    case Completed(_, response) => response.Some? ==> |response.value| <= MAX_RESPONSE
    case Requested(_, p) => CleanRequest(ctx, p)
    case _ => true
  }

  /** Every client is up to date between steps. */
  ghost predicate Synced(ctx: Context, s: State) {
    SecureCalls(s) && forall i: nat :: UpToDate(ctx, s, i, [])
  }

  lemma SameOutput(ctx: Context, s: State, t: State)
    requires Synced(ctx, s) && t.messages == s.messages && SecureCalls(t)
    requires forall i: nat :: Received(ctx, t.sent, i) == Received(ctx, s.sent, i)
    ensures Synced(ctx, t)
  {
    forall i: nat ensures UpToDate(ctx, t, i, []) {
      assert UpToDate(ctx, s, i, []);
    }
  }

  lemma AckSynced(ctx: Context, s: State, to: Address, p: QPacket, client: nat, keep: bool)
    requires ValidContext(ctx) && client < |s.objects| && Synced(ctx, s)
    requires HasConnSignature(p.packetType) ==> p.connSignature.Some?
    requires keep ==> |p.payload| <= MAX_PAYLOAD_SIZE
    ensures Synced(ctx, SendAck(ctx, s, to, p, client, keep))
  {
    hide Received, Serialize;
    var t := SendAck(ctx, s, to, p, client, keep);
    forall i: nat ensures Received(ctx, t.sent, i) == Received(ctx, s.sent, i) && t.messages == s.messages {
      AckUnseen(ctx, s, to, p, client, keep, i);
    }
    SameOutput(ctx, s, t);
  }

  lemma MessageSynced(ctx: Context, s: State, call: Call, response: seq<byte>)
    requires ValidContext(ctx) && SecureCall(call) && call.client < |s.objects| && |response| <= MAX_RESPONSE
    requires Synced(ctx, s)
    ensures Synced(ctx, SendMessage(ctx, s, call, response))
  {
    hide UpToDate, SendMessage;
    SendMessageQuiet(ctx, s, call, response);
    forall i: nat ensures UpToDate(ctx, SendMessage(ctx, s, call, response), i, []) {
      MessageReceived(ctx, s, call, response, i);
    }
  }

  lemma DeliverSynced(ctx: Context, s: State, ports: set<byte>, p: QPacket, from: Address, client: nat,
                      payload: seq<byte>, env: Env)
    requires ValidContext(ctx) && SecurePorts(ports) && Synced(ctx, s) && client < |s.objects|
    requires env.handler(payload).Returns? ==> |env.handler(payload).response| <= MAX_RESPONSE
    ensures Synced(ctx, Deliver(ctx, s, ports, p, from, client, payload, env))
  {
    hide SendMessage, UpToDate;
    if VPortToByte(p.destination) in ports {
      var call := Call(client, from, p.source, p.destination);
      var s' := s.(deliveries := s.deliveries + [Delivery(client, payload)]);
      SameSent(ctx, s, s');
      assert SecureCall(call);
      match env.handler(payload) {
        case Returns(response) => MessageSynced(ctx, s', call, response);
        case Promises => SameSent(ctx, s, s'.(pending := s'.pending + [call]));
        case Throws =>
      }
    }
  }

  lemma SameSent(ctx: Context, s: State, t: State)
    requires Synced(ctx, s) && t.sent == s.sent && t.messages == s.messages && SecureCalls(t)
    ensures Synced(ctx, t)
  {
    assert forall i: nat :: UpToDate(ctx, t, i, []) == UpToDate(ctx, s, i, []);
  }

  lemma DataSynced(ctx: Context, s: State, ports: set<byte>, p: QPacket, from: Address, env: Env)
    requires ValidContext(ctx) && SecurePorts(ports) && Synced(ctx, s) && Closed(s)
    requires !HasConnSignature(p.packetType)
    requires p.signature in s.clients ==>
               var message := CompletedMessage(s.objects[s.clients[p.signature]], p);
               message.Some? && env.handler(message.value).Returns? ==>
                 |env.handler(message.value).response| <= MAX_RESPONSE
    ensures Synced(ctx, HandleData(ctx, s, ports, p, from, env))
  {
    hide SendAck, Deliver, Synced, Store, Assemble, UpToDate;
    if p.signature in s.clients {
      var client := s.clients[p.signature];
      var c := s.objects[client].(lastSeen := env.now);
      var s0 := Update(s, client, c);
      SyncedCalls(ctx, s);
      SameSent(ctx, s, s0);
      var s1 := SendAck(ctx, s0, from, p, client, false);
      AckSynced(ctx, s0, from, p, client, false);
      AckKeepsCalls(ctx, s0, from, p, client, false);
      if p.fragmentId.None? {
        DeliverSynced(ctx, s1, ports, p, from, client, p.payload, env);
      } else if p.fragmentId.value % 256 != 0 {
        SameSent(ctx, s1, HandleData(ctx, s, ports, p, from, env));
      } else {
        var s2 := Update(s1, client, c.(packetFragments := map[]));
        SameSent(ctx, s1, s2);
        var message := Assemble(c.packetFragments, p.payload);
        if message.Some? {
          DeliverSynced(ctx, s2, ports, p, from, client, message.value, env);
        }
      }
    }
  }

  lemma SyncedCalls(ctx: Context, s: State)
    requires Synced(ctx, s)
    ensures SecureCalls(s)
  {}

  lemma AckKeepsCalls(ctx: Context, s: State, to: Address, p: QPacket, client: nat, keep: bool)
    requires client < |s.objects|
    ensures var t := SendAck(ctx, s, to, p, client, keep);
            t.pending == s.pending && t.objects == s.objects && (SecureCalls(s) ==> SecureCalls(t))
  {
    hide Serialize;
  }

  lemma SynSynced(ctx: Context, s: State, p: QPacket, from: Address, env: Env)
    requires ValidContext(ctx) && Synced(ctx, s)
    ensures Synced(ctx, HandleSyn(ctx, s, p, from, env))
  {
    hide SendAck, UpToDate;
    var t := WithNew(s, NewClient(from, env.signature, env.now));
    SameSent(ctx, s, t);
    AckSynced(ctx, t, from, p.(connSignature := Some(env.signature)), |s.objects|, false);
  }

  lemma AcceptTicketOutput(ctx: Context, s: State, client: nat, signature: u32, data: seq<byte>, now: int)
    requires client < |s.objects|
    ensures var (t, reply) := AcceptTicket(ctx, s, client, signature, data, now);
            && t.sent == s.sent && t.messages == s.messages && t.pending == s.pending
            && |t.objects| == |s.objects| && |reply| <= 8
  {
    hide PresentedTicket, Challenge;
  }

  lemma ConnectSynced(ctx: Context, s: State, p: QPacket, from: Address, env: Env)
    requires ValidContext(ctx) && Synced(ctx, s) && Closed(s)
    ensures Synced(ctx, HandleConnect(ctx, s, p, from, env))
  {
    hide SendAck, UpToDate, AcceptTicket;
    if p.connSignature.Some? && p.signature in s.newClients {
      var client := s.newClients[p.signature];
      var c := s.objects[client].(clientSignature := p.connSignature, serverSession := env.session,
                                  clientSession := p.sessionId);
      var s1 := Promoted(s, p.signature, c);
      AcceptTicketOutput(ctx, s1, client, p.signature, p.payload, env.now);
      var (s2, reply) := if p.payload == [] then (s1, [])
                         else AcceptTicket(ctx, s1, client, p.signature, p.payload, env.now);
      SameSent(ctx, s, s2);
      AckSynced(ctx, s2, from, p.(connSignature := Some(0), payload := reply), client, reply != []);
    }
  }

  lemma DisconnectSynced(ctx: Context, s: State, p: QPacket, from: Address)
    requires ValidContext(ctx) && Synced(ctx, s) && Closed(s) && p.packetType == DISCONNECT
    ensures Synced(ctx, HandleDisconnect(ctx, s, p, from))
  {
    hide SendAck, UpToDate;
    if p.signature in s.clients {
      var removed := RemoveClient(s, p.signature);
      var client := s.clients[p.signature];
      SameSent(ctx, s, removed);
      AckSynced(ctx, removed, from, p, client, false);
      SameSent(ctx, SendAck(ctx, removed, from, p, client, false), HandleDisconnect(ctx, s, p, from));
    }
  }

  lemma PingSynced(ctx: Context, s: State, p: QPacket, from: Address, now: int)
    requires ValidContext(ctx) && Synced(ctx, s) && Closed(s) && p.packetType == PING
    ensures Synced(ctx, HandlePing(ctx, s, p, from, now))
  {
    hide SendAck, UpToDate;
    if p.signature in s.clients {
      var client := s.clients[p.signature];
      var t := Update(s, client, s.objects[client].(lastSeen := now));
      SameSent(ctx, s, t);
      AckSynced(ctx, t, from, p, client, false);
    }
  }

  lemma ModestReplies(ctx: Context, p: QPacket, from: Address, env: Env)
    requires Modest(ctx, Incoming(p, from, env))
    ensures forall payload :: env.handler(payload).Returns? ==> |env.handler(payload).response| <= MAX_RESPONSE
  {}

  lemma PacketSynced(ctx: Context, s: State, ports: set<byte>, p: QPacket, from: Address, env: Env)
    requires ValidContext(ctx) && SecurePorts(ports) && Synced(ctx, s) && Closed(s)
    requires Modest(ctx, Incoming(p, from, env))
    ensures Synced(ctx, HandlePacket(ctx, ports, s, p, from, env))
  {
    hide HandleSyn, HandleConnect, HandleData, HandleDisconnect, HandlePing, Synced, Modest;
    if IsAck(p) {
    } else if p.packetType == SYN {
      SynSynced(ctx, s, p, from, env);
    } else if p.packetType == CONNECT {
      ConnectSynced(ctx, s, p, from, env);
    } else if p.packetType == DATA {
      ModestReplies(ctx, p, from, env);
      DataSynced(ctx, s, ports, p, from, env);
    } else if p.packetType == DISCONNECT {
      DisconnectSynced(ctx, s, p, from);
    } else if p.packetType == PING {
      PingSynced(ctx, s, p, from, env.now);
    }
  }

  lemma CompleteSynced(ctx: Context, s: State, k: nat, response: Option<seq<byte>>)
    requires ValidContext(ctx) && Synced(ctx, s) && Closed(s)
    requires response.Some? ==> |response.value| <= MAX_RESPONSE
    ensures Synced(ctx, Complete(ctx, s, k, response))
  {
    hide SendMessage, UpToDate;
    if k < |s.pending| {
      var t := s.(pending := s.pending[..k] + s.pending[k + 1..]);
      SameSent(ctx, s, t);
      if response.Some? {
        MessageSynced(ctx, t, s.pending[k], response.value);
      }
    }
  }

  lemma RequestSynced(ctx: Context, s: State, client: nat, p: QPacket)
    requires ValidContext(ctx) && Synced(ctx, s) && CleanRequest(ctx, p) && client < |s.objects|
    ensures Synced(ctx, SendRequest(ctx, s, client, p))
  {
    hide UpToDate, Serialize;
    forall i: nat ensures UpToDate(ctx, SendRequest(ctx, s, client, p), i, []) {
      RequestReceived(ctx, s, client, p, i);
    }
  }

  lemma StepSynced(ctx: Context, ports: set<byte>, s: State, e: Event)
    requires ValidContext(ctx) && SecurePorts(ports) && Synced(ctx, s) && Closed(s) && Modest(ctx, e)
    ensures Synced(ctx, Step(ctx, ports, s, e))
  {
    hide HandlePacket, Complete, SendRequest, UpToDate, CleanRequest;
    match e
    case Incoming(p, from, env) => PacketSynced(ctx, s, ports, p, from, env);
    case Completed(k, response) => CompleteSynced(ctx, s, k, response);
    case Requested(client, p) =>
      if client < |s.objects| {
        RequestSynced(ctx, s, client, p);
      }
    case LoggedIn(client, userId) =>
      if client < |s.objects| {
        SameSent(ctx, s, Step(ctx, ports, s, e));
      }
    case Tick(now) => SameSent(ctx, s, Step(ctx, ports, s, e));
  }

  lemma {:induction false} RunSynced(ctx: Context, ports: set<byte>, s: State, es: seq<Event>)
    requires ValidContext(ctx) && SecurePorts(ports) && Closed(s) && Synced(ctx, s)
    requires forall e :: e in es ==> Modest(ctx, e)
    ensures Synced(ctx, Run(ctx, ports, s, es))
    decreases |es|
  {
    hide Step, Synced, Modest, Closed;
    if es == [] {
    } else {
      var before := Run(ctx, ports, s, es[..|es| - 1]);
      assert es[|es| - 1] in es;
      RunSynced(ctx, ports, s, es[..|es| - 1]);
      StepSynced(ctx, ports, before, es[|es| - 1]);
    }
  }

  /**
   * Whatever packets arrive and in whatever order handlers finish: parsing, checking and joining the
   * datagrams that were sent for a client gives exactly its responses and server requests, in the
   * order they were sent, with no message broken up by another.
   */
  lemma StreamIsExact(ctx: Context, ports: set<byte>, es: seq<Event>, i: nat)
    requires ValidContext(ctx) && SecurePorts(ports)
    requires forall e :: e in es ==> Modest(ctx, e)
    ensures var s := Run(ctx, ports, Initial(), es);
            Received(ctx, s.sent, i) == Inbox(MessagesFor(s.messages, i), [])
  {
    hide Run, Modest;
    InitialSynced(ctx);
    RunSynced(ctx, ports, Initial(), es);
    assert UpToDate(ctx, Run(ctx, ports, Initial(), es), i, []);
  }

  lemma InitialSynced(ctx: Context)
    ensures Synced(ctx, Initial())
  {}
}
