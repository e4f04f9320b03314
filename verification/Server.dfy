/**
 * The PRUDP server as a state and the steps it takes. A step is one packet of a datagram, the end
 * of an asynchronous handler, a request of the server's own, a login, or a tick of the timer.
 * Clients are objects shared by the tables and by calls in progress; here an object is its index
 * in `objects`.
 */
module Server {
  import opened Basics
  import opened Packets
  import opened Datagrams
  import opened Kerberos
  import Rc4
  import C = Codecs

  const MAX_REASSEMBLED_SIZE := 0x10_0000
  const SESSION_TIMEOUT_MS := 60_000
  const FIRST_CONNECTION_ID: u32 := 0x3aaa_aaaa

  datatype Address = Address(host: string, port: u16)

  datatype Client = Client(
    address: Address, serverSignature: u32, clientSignature: Option<u32>,
    serverSequenceId: u16, clientSequenceId: u16, serverSession: byte, clientSession: byte,
    packetFragments: map<byte, seq<byte>>, lastSeen: int,
    connectionId: Option<u32>, userId: Option<u32>)

  function NewClient(address: Address, signature: u32, now: int): Client {
    Client(address, signature, None, 1, 1, 0, 0, map[], now, None, None)
  }

  /** A handler that has been called and has not answered yet. */
  datatype Call = Call(client: nat, from: Address, source: VPort, destination: VPort)

  datatype Kind = Ack | Response | ServerRequest

  /** A datagram handed to the transport, and the client it was sent for. */
  datatype Sent = Sent(client: nat, kind: Kind, to: Address, packet: QPacket, data: seq<byte>)

  /** A message as a whole: a handler's response or a request of the server. */
  datatype Message = Message(client: nat, data: seq<byte>)

  /** The payload a handler was called with. */
  datatype Delivery = Delivery(client: nat, payload: seq<byte>)

  datatype State = State(
    objects: seq<Client>,
    newClients: map<u32, nat>,        // by server signature, SYN but no CONNECT yet
    clients: map<u32, nat>,           // by server signature, connected
    connectionIds: map<u32, u32>,     // connection id to server signature
    nextConnectionId: u32,
    pending: seq<Call>,
    // what the rest of the world has seen
    sent: seq<Sent>,
    deliveries: seq<Delivery>,
    disconnected: multiset<nat>,      // reported to onDisconnect
    expired: multiset<nat>,           // reported to onExpiredClient
    // history
    messages: seq<Message>,
    accepted: nat)                    // tickets accepted so far

  function Initial(): State {
    State([], map[], map[], map[], FIRST_CONNECTION_ID, [], [], [], multiset{}, multiset{}, [], 0)
  }

  /** How a handler takes a call: it throws, returns its response, or returns a promise. */
  datatype Reply = Throws | Returns(response: seq<byte>) | Promises

  /** The clock, the random numbers and the handler a packet meets. */
  datatype Env = Env(now: int, signature: u32, session: byte, handler: seq<byte> -> Reply)

  datatype Event =
    | Incoming(packet: QPacket, from: Address, env: Env)
    | Completed(call: nat, response: Option<seq<byte>>)   // None when the promise is rejected
    | Requested(client: nat, packet: QPacket)
    | LoggedIn(client: nat, userId: u32)                  // by a handler of the authentication service
    | Tick(now: int)

  // ---- sending ----

  function WithHasSize(f: Flags): Flags {
    if f >= 8 then f else f + 8
  }

  /** NeedAck, Reliable and HasSize set. */
  function Reliable(f: Flags): Flags {
    f % 2 + 14
  }

  /** A packet as it is handed to the serialiser. */
  function Outgoing(p: QPacket): QPacket {
    var q := if p.packetType == DATA
             then p.(useCompression := true, fragmentId := if p.fragmentId.None? then Some(0) else p.fragmentId)
             else p;
    q.(flags := WithHasSize(q.flags))
  }

  /** Nothing is sent when serialising throws. */
  function SendPacket(ctx: Context, s: State, client: nat, kind: Kind, to: Address, p: QPacket): State {
    match Serialize(ctx, Outgoing(p))
    case Ok(data) => s.(sent := s.sent + [Sent(client, kind, to, Outgoing(p), data)])
    case Err(_) => s
  }

  function AckPacket(p: QPacket, c: Client, keepPayload: bool): QPacket {
    p.(source := p.destination, destination := p.source, flags := 9,
       signature := if c.clientSignature.Some? then c.clientSignature.value else 0,
       sessionId := c.serverSession,
       payload := if keepPayload then p.payload else [])
  }

  function SendAck(ctx: Context, s: State, to: Address, p: QPacket, client: nat, keepPayload: bool): State
    requires client < |s.objects|
  {
    SendPacket(ctx, s, client, Ack, to, AckPacket(p, s.objects[client], keepPayload))
  }

  function FragmentCount(n: nat): nat {
    (n + MAX_PAYLOAD_SIZE - 1) / MAX_PAYLOAD_SIZE
  }

  function Min(a: nat, b: nat): nat {
    if a < b then a else b
  }

  function Chunk(data: seq<byte>, i: nat): seq<byte>
    requires i * MAX_PAYLOAD_SIZE <= |data|
  {
    data[i * MAX_PAYLOAD_SIZE..Min((i + 1) * MAX_PAYLOAD_SIZE, |data|)]
  }

  /** Fragment `i` of a response: numbered down, so that 0 marks the last one. */
  function ResponsePacket(call: Call, c: Client, response: seq<byte>, i: nat): QPacket
    requires i < FragmentCount(|response|)
  {
    QPacket(call.destination, call.source, DATA, Reliable(0), c.serverSession,
            if c.clientSignature.Some? then c.clientSignature.value else 0, c.serverSequenceId,
            Some(FragmentCount(|response|) - 1 - i), None, Chunk(response, i), 0, false)
  }

  function SendFragment(ctx: Context, s: State, call: Call, response: seq<byte>, i: nat): State
    requires call.client < |s.objects| && i < FragmentCount(|response|)
  {
    var c := s.objects[call.client];
    var s' := s.(objects := s.objects[call.client := c.(serverSequenceId := (c.serverSequenceId + 1) % 0x1_0000)]);
    SendPacket(ctx, s', call.client, Response, call.from, ResponsePacket(call, c, response, i))
  }

  /** The first `n` fragments of a response. */
  function SendFragments(ctx: Context, s: State, call: Call, response: seq<byte>, n: nat): (s': State)
    requires call.client < |s.objects| && n <= FragmentCount(|response|)
    ensures |s'.objects| == |s.objects|
  {
    if n == 0 then s else
    SendFragment(ctx, SendFragments(ctx, s, call, response, n - 1), call, response, n - 1)
  }

  /** An empty response has no fragments: nothing is sent for it. */
  function SendMessage(ctx: Context, s: State, call: Call, response: seq<byte>): State
    requires call.client < |s.objects|
  {
    var s' := SendFragments(ctx, s, call, response, FragmentCount(|response|));
    if response == [] then s' else s'.(messages := s'.messages + [Message(call.client, response)])
  }

  /** A request of the server, numbered and signed for the connection it goes to. */
  function RequestPacket(c: Client, p: QPacket): QPacket {
    p.(sequence := c.clientSequenceId, flags := Reliable(p.flags), signature := c.serverSignature,
       sessionId := c.clientSession)
  }

  function SendRequest(ctx: Context, s: State, client: nat, p: QPacket): State
    requires client < |s.objects|
  {
    var c := s.objects[client];
    var q := RequestPacket(c, p);
    var s' := s.(objects := s.objects[client := c.(clientSequenceId := (c.clientSequenceId + 1) % 0x1_0000)],
                 messages := if Serialize(ctx, Outgoing(q)).Ok? then s.messages + [Message(client, p.payload)]
                             else s.messages);
    SendPacket(ctx, s', client, ServerRequest, c.address, q)
  }

  // ---- handshake ----

  function HandleSyn(ctx: Context, s: State, p: QPacket, from: Address, env: Env): State {
    var client := |s.objects|;
    var s' := s.(objects := s.objects + [NewClient(from, env.signature, env.now)],
                 newClients := s.newClients[env.signature := client]);
    SendAck(ctx, s', from, p.(connSignature := Some(env.signature)), client, false)
  }

  datatype ConnectData = ConnectData(userPid: u32, connectionId: u32, challenge: u32)

  function ParseConnectData(bs: seq<byte>): Result<ConnectData> {
    Widths();
    var (userPid, rest1) :- ReadUnsigned(bs, 4);
    var (connectionId, rest2) :- ReadUnsigned(rest1, 4);
    var (challenge, _) :- ReadUnsigned(rest2, 4);
    Ok(ConnectData(userPid, connectionId, challenge))
  }

  /** The answer to a challenge: its successor, in a buffer. */
  function ChallengeReply(challenge: u32): seq<byte> {
    Le(4, 4) + Le((challenge + 1) % 0x1_0000_0000, 4)
  }

  /** The ticket and the encrypted challenge in a CONNECT payload. */
  function SplitTicket(data: seq<byte>): Result<(seq<byte>, seq<byte>)> {
    var (ticket, rest) :- C.ReadBuffer(data, 4);
    var (requestData, _) :- C.ReadBuffer(rest, 4);
    Ok((ticket, requestData))
  }

  /** The content of the ticket in a CONNECT payload, if the server can open it. */
  function PresentedTicket(ctx: Context, data: seq<byte>): Result<TicketInternal> {
    var (ticket, _) :- SplitTicket(data);
    OpenTicket(ctx.box, ticket, ctx.ticketKey)
  }

  /** The login takes effect before the challenge is decrypted, which may still fail. */
  function AcceptTicket(ctx: Context, s: State, client: nat, signature: u32, data: seq<byte>, now: int)
    : (State, seq<byte>)
    requires client < |s.objects|
  {
    match PresentedTicket(ctx, data)
    case Err(_) => (s, [])
    case Ok(internal) =>
      if internal.validUntil < now / 1000 then (s, []) else
      var id := s.nextConnectionId;
      var c := s.objects[client].(userId := Some(internal.principleId), connectionId := Some(id));
      var s' := s.(objects := s.objects[client := c], connectionIds := s.connectionIds[id := signature],
                   nextConnectionId := (id + 1) % 0x1_0000_0000, accepted := s.accepted + 1);
      match Challenge(internal, SplitTicket(data).value.1)
      case Ok(challenge) => (s', ChallengeReply(challenge))
      case Err(_) => (s', [])
  }

  function Challenge(internal: TicketInternal, requestData: seq<byte>): Result<u32> {
    var plain :- Rc4.Crypt(internal.sessionKey, requestData);
    var data :- ParseConnectData(plain);
    Ok(data.challenge)
  }

  function HandleConnect(ctx: Context, s: State, p: QPacket, from: Address, env: Env): State
    requires forall sig :: sig in s.newClients ==> s.newClients[sig] < |s.objects|
  {
    if p.connSignature.None? || p.signature !in s.newClients then s else
    var client := s.newClients[p.signature];
    var c := s.objects[client].(clientSignature := p.connSignature, serverSession := env.session,
                                clientSession := p.sessionId);
    var s1 := s.(objects := s.objects[client := c], newClients := s.newClients - {p.signature},
                 clients := s.clients[p.signature := client]);
    var (s2, reply) := if p.payload == [] then (s1, [])
                       else AcceptTicket(ctx, s1, client, p.signature, p.payload, env.now);
    SendAck(ctx, s2, from, p.(connSignature := Some(0), payload := reply), client, reply != [])
  }

  // ---- data ----

  /** Bytes in the fragments numbered below `n`. */
  function Buffered(fragments: map<byte, seq<byte>>, n: nat): nat
    requires n <= 256
  {
    if n == 0 then 0 else
    Buffered(fragments, n - 1) + if n - 1 in fragments then |fragments[n - 1]| else 0
  }

  /** Storing a fragment other than the last one; over the limit, everything is dropped. */
  function Store(fragments: map<byte, seq<byte>>, id: byte, data: seq<byte>): map<byte, seq<byte>> {
    if Buffered(fragments - {id}, 256) + |data| > MAX_REASSEMBLED_SIZE then map[] else fragments[id := data]
  }

  datatype Fragment = Fragment(id: nat, data: seq<byte>)

  /** The buffer after one more fragment: number 0 empties it, whether it completes a message or not. */
  function Feed(fragments: map<byte, seq<byte>>, f: Fragment): map<byte, seq<byte>> {
    if f.id % 256 == 0 then map[] else Store(fragments, f.id % 256, f.data)
  }

  function FeedPacket(fragments: map<byte, seq<byte>>, p: QPacket): map<byte, seq<byte>> {
    if p.fragmentId.None? then fragments else Feed(fragments, Fragment(p.fragmentId.value, p.payload))
  }

  /** The fragments 1 to `n`, in order. */
  function Joined(fragments: map<byte, seq<byte>>, n: nat): Option<seq<byte>>
    requires n < 256
  {
    if n == 0 then Some([]) else
    var init := Joined(fragments, n - 1);
    if init.None? || n !in fragments then None else Some(init.value + fragments[n])
  }

  /** The message that ends with `last`; None when a fragment is missing. */
  function Assemble(fragments: map<byte, seq<byte>>, last: seq<byte>): Option<seq<byte>> {
    if |fragments| >= 256 then None else
    match Joined(fragments, |fragments|)
    case None => None
    case Some(parts) => Some(parts + last)
  }

  function Update(s: State, client: nat, c: Client): State
    requires client < |s.objects|
  {
    s.(objects := s.objects[client := c])
  }

  /** A complete message reaches the handler of its port, if there is one. */
  function Deliver(ctx: Context, s: State, ports: set<byte>, p: QPacket, from: Address, client: nat,
                   payload: seq<byte>, env: Env): State
    requires client < |s.objects|
  {
    if VPortToByte(p.destination) !in ports then s else
    var call := Call(client, from, p.source, p.destination);
    var s' := s.(deliveries := s.deliveries + [Delivery(client, payload)]);
    match env.handler(payload)
    case Throws => s'
    case Returns(response) => SendMessage(ctx, s', call, response)
    case Promises => s'.(pending := s'.pending + [call])
  }

  /** The message a DATA packet completes for the client it belongs to. */
  function CompletedMessage(c: Client, p: QPacket): Option<seq<byte>> {
    if p.fragmentId.None? then Some(p.payload)
    else if p.fragmentId.value % 256 != 0 then None
    else Assemble(c.packetFragments, p.payload)
  }

  function HandleData(ctx: Context, s: State, ports: set<byte>, p: QPacket, from: Address, env: Env): State
    requires forall sig :: sig in s.clients ==> s.clients[sig] < |s.objects|
  {
    if p.signature !in s.clients then s else
    var client := s.clients[p.signature];
    var c := s.objects[client].(lastSeen := env.now);
    var s1 := SendAck(ctx, Update(s, client, c), from, p, client, false);
    if p.fragmentId.None? then Deliver(ctx, s1, ports, p, from, client, p.payload, env)
    else if p.fragmentId.value % 256 != 0 then
      Update(s1, client, c.(packetFragments := Store(c.packetFragments, p.fragmentId.value % 256, p.payload)))
    else
      var s2 := Update(s1, client, c.(packetFragments := map[]));
      match Assemble(c.packetFragments, p.payload)
      case None => s2
      case Some(payload) => Deliver(ctx, s2, ports, p, from, client, payload, env)
  }

  // ---- leaving ----

  function RemoveClient(s: State, signature: u32): State
    requires signature in s.clients && s.clients[signature] < |s.objects|
  {
    var id := s.objects[s.clients[signature]].connectionId;
    s.(clients := s.clients - {signature},
       connectionIds := if id.Some? then s.connectionIds - {id.value} else s.connectionIds)
  }

  function HandleDisconnect(ctx: Context, s: State, p: QPacket, from: Address): State
    requires forall sig :: sig in s.clients ==> s.clients[sig] < |s.objects|
  {
    if p.signature !in s.clients then s else
    var client := s.clients[p.signature];
    var s1 := SendAck(ctx, RemoveClient(s, p.signature), from, p, client, false);
    s1.(disconnected := s1.disconnected + multiset{client})
  }

  function HandlePing(ctx: Context, s: State, p: QPacket, from: Address, now: int): State
    requires forall sig :: sig in s.clients ==> s.clients[sig] < |s.objects|
  {
    if p.signature !in s.clients then s else
    var client := s.clients[p.signature];
    var c := s.objects[client].(lastSeen := now);
    SendAck(ctx, Update(s, client, c), from, p, client, false)
  }

  predicate Silent(c: Client, now: int) {
    now - c.lastSeen > SESSION_TIMEOUT_MS
  }

  /** The signatures of the connected clients that have been silent for too long. */
  function SilentClients(s: State, now: int): (gone: set<u32>)
    requires forall sig :: sig in s.clients ==> s.clients[sig] < |s.objects|
    ensures gone <= s.clients.Keys
  {
    set sig | sig in s.clients && Silent(s.objects[s.clients[sig]], now)
  }

  function IdsOf(s: State, gone: set<u32>): set<u32>
    requires gone <= s.clients.Keys && forall sig :: sig in s.clients ==> s.clients[sig] < |s.objects|
  {
    set sig | sig in gone && s.objects[s.clients[sig]].connectionId.Some?
      :: s.objects[s.clients[sig]].connectionId.value
  }

  function IndicesOf(s: State, gone: set<u32>): set<nat>
    requires gone <= s.clients.Keys
  {
    set sig | sig in gone :: s.clients[sig]
  }

  function ExpireClients(s: State, now: int): State
    requires forall sig :: sig in s.clients ==> s.clients[sig] < |s.objects|
    requires forall sig :: sig in s.newClients ==> s.newClients[sig] < |s.objects|
  {
    var gone := SilentClients(s, now);
    s.(clients := s.clients - gone, connectionIds := s.connectionIds - IdsOf(s, gone),
       newClients := map sig | sig in s.newClients && !Silent(s.objects[s.newClients[sig]], now) :: s.newClients[sig],
       expired := s.expired + multiset(IndicesOf(s, gone)))
  }

  // ---- steps and runs ----

  /** Tables only hold clients that exist, and so do calls in progress. */
  ghost predicate Closed(s: State) {
    && (forall sig :: sig in s.newClients ==> s.newClients[sig] < |s.objects|)
    && (forall sig :: sig in s.clients ==> s.clients[sig] < |s.objects|)
    && (forall i :: 0 <= i < |s.pending| ==> s.pending[i].client < |s.objects|)
  }

  function HandlePacket(ctx: Context, ports: set<byte>, s: State, p: QPacket, from: Address, env: Env): State
    requires Closed(s)
  {
    if IsAck(p) then s
    else if p.packetType == SYN then HandleSyn(ctx, s, p, from, env)
    else if p.packetType == CONNECT then HandleConnect(ctx, s, p, from, env)
    else if p.packetType == DATA then HandleData(ctx, s, ports, p, from, env)
    else if p.packetType == DISCONNECT then HandleDisconnect(ctx, s, p, from)
    else if p.packetType == PING then HandlePing(ctx, s, p, from, env.now)
    else s
  }

  function Complete(ctx: Context, s: State, i: nat, response: Option<seq<byte>>): State
    requires Closed(s)
  {
    if i >= |s.pending| then s else
    var s' := s.(pending := s.pending[..i] + s.pending[i + 1..]);
    if response.None? then s' else SendMessage(ctx, s', s.pending[i], response.value)
  }

  function Step(ctx: Context, ports: set<byte>, s: State, e: Event): State
    requires Closed(s)
  {
    match e
    case Incoming(p, from, env) => HandlePacket(ctx, ports, s, p, from, env)
    case Completed(i, response) => Complete(ctx, s, i, response)
    case Requested(client, p) => if client < |s.objects| then SendRequest(ctx, s, client, p) else s
    case LoggedIn(client, userId) =>
      if client < |s.objects| then Update(s, client, s.objects[client].(userId := Some(userId))) else s
    case Tick(now) => ExpireClients(s, now)
  }
}
