/** A remote call from end to end: its fragments, the dispatcher, and the response its client receives. */
module Calls {
  import opened Basics
  import Rc4
  import opened Packets
  import opened Datagrams
  import opened Server
  import opened Frames
  import opened Registry
  import opened Runs
  import opened ResponseStream
  import opened Reassembly
  import Streams
  import R = Rmc
  import D = Dispatch

  // ---- how a client cuts a message ----

  /** The chunks before the last one, which are numbered from 1; the last one is numbered 0. */
  function FirstChunks(payload: seq<byte>): seq<seq<byte>> {
    if payload == [] then [] else
    seq(FragmentCount(|payload|) - 1, i requires 0 <= i < FragmentCount(|payload|) - 1 => Chunk(payload, i))
  }

  function LastChunk(payload: seq<byte>): seq<byte> {
    if payload == [] then [] else Chunk(payload, FragmentCount(|payload|) - 1)
  }

  lemma {:induction false} ChunksJoin(payload: seq<byte>, n: nat)
    requires n <= |FirstChunks(payload)|
    ensures Streams.Concat(FirstChunks(payload)[..n]) == Prefix(payload, n)
    decreases n
  {
    if n == 0 {
    } else {
      ChunksJoin(payload, n - 1);
      assert FirstChunks(payload)[..n][..n - 1] == FirstChunks(payload)[..n - 1];
      ChunkExtends(payload, n - 1);
    }
  }

  /** The chunks make up the message, and up to 256,000 bytes there are few enough of them to be numbered. */
  lemma CutMessage(payload: seq<byte>)
    ensures Streams.Concat(FirstChunks(payload)) + LastChunk(payload) == payload
    ensures |FirstChunks(payload)| < 256 <==> |payload| <= 256_000
    ensures forall k :: 0 <= k < |FirstChunks(payload)| ==> |FirstChunks(payload)[k]| == 1000
    ensures |LastChunk(payload)| <= 1000 && (payload != [] ==> LastChunk(payload) != [])
  {
    if payload != [] {
      var n := FragmentCount(|payload|) - 1;
      ChunksJoin(payload, n);
      assert FirstChunks(payload)[..n] == FirstChunks(payload);
      ChunkExtends(payload, n);
    }
  }

  // ---- what is said in answer to a packet ----

  /** A packet with fragment number 0 that completes a message is answered with the handler's reply to it. */
  lemma LastFragmentSays(ctx: Context, s: State, ports: set<byte>, p: QPacket, from: Address, env: Env,
                         message: seq<byte>)
    requires Rc4.ValidKey(ctx.cryptoKey)
    requires Closed(s) && p.signature in s.clients && p.fragmentId == Some(0) && VPortToByte(p.destination) in ports
    requires Assemble(s.objects[s.clients[p.signature]].packetFragments, p.payload) == Some(message)
    ensures var t := HandleData(ctx, s, ports, p, from, env);
            var client := s.clients[p.signature];
            && t.messages == s.messages + Said(client, env.handler(message))
            && t.pending == s.pending + Awaited(Call(client, from, p.source, p.destination), env.handler(message))
            && t.deliveries == s.deliveries + [Delivery(client, message)]
  {
    hide HandleData, FeedPacket, Assemble, Said, Awaited;
    DataFrame(ctx, s, ports, p, from, env);
  }

  // ---- the dispatcher as a handler ----

  /** The message is a request whose method answers through a promise. */
  predicate Awaits(protocols: map<u32, D.Methods>, bytes: seq<byte>) {
    && R.ParsePacket(bytes).Ok? && R.ParsePacket(bytes).value.IsRequest?
    && D.Invoke(protocols, R.ParsePacket(bytes).value.request).Ok?
    && D.Invoke(protocols, R.ParsePacket(bytes).value.request).value.Later?
  }

  function ReplyTo(protocols: map<u32, D.Methods>, bytes: seq<byte>): Reply {
    if Awaits(protocols, bytes) then Promises
    else match D.Handle(protocols, bytes)
      case Ok(response) => Returns(response)
      case Err(_) => Throws
  }

  lemma AnswersAreLong(protocols: map<u32, D.Methods>, request: R.Request, bytes: seq<byte>)
    requires D.Answers(protocols, request, bytes)
    ensures bytes != []
  {
    hide D.Deserves;
  }

  lemma EncodedIsParsed(request: R.Request, bytes: seq<byte>)
    requires R.EncodeRequest(request) == Ok(bytes) && R.RequestIdSurvives(request.protocolId)
    ensures R.ParsePacket(bytes) == Ok(R.IsRequest(request))
  {
    hide R.EncodeRequest, R.ParsePacket;
    R.RequestRoundTrip(request);
  }

  /** What the dispatcher replies: to a request a response, at once or promised, and to nothing else. */
  lemma RepliesToRequests(protocols: map<u32, D.Methods>, bytes: seq<byte>)
    ensures var isRequest := R.ParsePacket(bytes).Ok? && R.ParsePacket(bytes).value.IsRequest?;
            ReplyTo(protocols, bytes) != Throws <==> isRequest
    ensures ReplyTo(protocols, bytes).Returns? ==> ReplyTo(protocols, bytes).response != []
  {
    hide R.ParsePacket, D.Parameters, D.Finish, D.Succeed, D.Fail;
    if R.ParsePacket(bytes).Ok? && R.ParsePacket(bytes).value.IsRequest? {
      var request := R.ParsePacket(bytes).value.request;
      D.ParsedProtocolIds(bytes);
      forall e: Error ensures D.Fail(request, e).Ok? && D.Fail(request, e).value != [] {
        FailureIsLong(request, e);
      }
      forall data: seq<byte> | D.Succeed(request, data).Ok? ensures D.Succeed(request, data).value != [] {
        SuccessIsLong(request, data);
      }
    }
  }

  lemma FailureIsLong(request: R.Request, e: Error)
    requires request.protocolId <= 0xffff
    ensures D.Fail(request, e).Ok? && D.Fail(request, e).value != []
  {
    hide R.ParsePacket, R.ParseResponse, R.ParseRequest, D.ErrorCode;
    D.FailCarries(request, e);
  }

  lemma SuccessIsLong(request: R.Request, data: seq<byte>)
    requires D.Succeed(request, data).Ok?
    ensures D.Succeed(request, data).value != []
  {
    hide R.ResponseProtocol, R.OutcomeBytes;
  }

  /**
   * With the dispatcher behind a port, a complete message makes exactly one response due, said at once
   * or awaited, when it is a request, and none otherwise: responses and malformed messages are only
   * acknowledged.
   */
  lemma OnlyRequestsAreAnswered(ctx: Context, s: State, ports: set<byte>, p: QPacket, from: Address, env: Env,
                                message: seq<byte>, protocols: map<u32, D.Methods>)
    requires Rc4.ValidKey(ctx.cryptoKey)
    requires Closed(s) && p.signature in s.clients && p.fragmentId == Some(0) && VPortToByte(p.destination) in ports
    requires Assemble(s.objects[s.clients[p.signature]].packetFragments, p.payload) == Some(message)
    requires env.handler(message) == ReplyTo(protocols, message)
    ensures var t := HandleData(ctx, s, ports, p, from, env);
            var isRequest := R.ParsePacket(message).Ok? && R.ParsePacket(message).value.IsRequest?;
            |t.messages| + |t.pending| == |s.messages| + |s.pending| + if isRequest then 1 else 0
  {
    hide HandleData, Assemble, ReplyTo, R.ParsePacket;
    RepliesToRequests(protocols, message);
    LastFragmentSays(ctx, s, ports, p, from, env, message);
  }

  // ---- calls in progress ----

  /** Where call `k` in progress is after event `e`; None when the event settles it. */
  function Moved(e: Event, k: nat): Option<nat> {
    if e.Completed? && e.call == k then None
    else if e.Completed? && e.call < k then Some(k - 1)
    else Some(k)
  }

  function MovedAll(es: seq<Event>, k: nat): Option<nat> {
    if es == [] then Some(k) else
    var before := MovedAll(es[..|es| - 1], k);
    if before.None? then None else Moved(es[|es| - 1], before.value)
  }

  /** A call stays in progress, with the client and the ports it is for, until it is settled itself. */
  lemma StepKeepsCall(ctx: Context, ports: set<byte>, s: State, e: Event, k: nat)
    requires Closed(s) && k < |s.pending| && Moved(e, k).Some?
    ensures var t := Step(ctx, ports, s, e);
            Moved(e, k).value < |t.pending| && t.pending[Moved(e, k).value] == s.pending[k]
  {
    hide Step, ClientFramed, CarriesData, Brought;
    StepFrame(ctx, ports, s, e);
  }

  lemma {:induction false} RunKeepsCall(ctx: Context, ports: set<byte>, s: State, es: seq<Event>, k: nat)
    requires Closed(s) && k < |s.pending| && MovedAll(es, k).Some?
    ensures var t := Run(ctx, ports, s, es);
            MovedAll(es, k).value < |t.pending| && t.pending[MovedAll(es, k).value] == s.pending[k]
    decreases |es|
  {
    hide Step, Closed, Moved;
    if es == [] {
    } else {
      var init := es[..|es| - 1];
      RunKeepsCall(ctx, ports, s, init, k);
      StepKeepsCall(ctx, ports, Run(ctx, ports, s, init), es[|es| - 1], MovedAll(init, k).value);
    }
  }

  // ---- a call from end to end ----

  /**
   * A connected client with an empty buffer sends a message in fragments, all but the last in any
   * order, repeated at will and among whatever else happens on the server, and then the last one to
   * a port that has a handler.
   */
  ghost predicate Sends(ctx: Context, ports: set<byte>, s: State, es: seq<Event>, p: QPacket, i: nat,
                        parts: seq<seq<byte>>)
    requires Closed(s)
  {
    && Inv(s) && FreshRun(ctx, ports, s, es) && Run(ctx, ports, s, es).accepted <= WRAP
    && i < |s.objects| && IsConnected(s, i) && IsConnected(Run(ctx, ports, s, es), i)
    && s.objects[i].packetFragments == map[]
    && |parts| < 256 && |Streams.Concat(parts)| <= MAX_REASSEMBLED_SIZE
    && Among(FragmentsFor(es, s.objects[i].serverSignature), parts)
    && Covers(FragmentsFor(es, s.objects[i].serverSignature), parts)
    && !IsAck(p) && p.packetType == DATA && p.signature == s.objects[i].serverSignature
    && p.fragmentId == Some(0) && VPortToByte(p.destination) in ports
  }

  /** The handler is the dispatcher, and its response to the message can be sent. */
  ghost predicate Dispatched(protocols: map<u32, D.Methods>, request: R.Request, message: seq<byte>, reply: Reply) {
    && R.EncodeRequest(request) == Ok(message) && R.RequestIdSurvives(request.protocolId) && D.Registered(protocols)
    && reply == ReplyTo(protocols, message) && !D.Lost(protocols, request)
    && (D.Handle(protocols, message).Ok? ==> |D.Handle(protocols, message).value| <= MAX_RESPONSE)
  }

  /** What the dispatcher makes of such a message: a response to exactly that request, at once or promised. */
  lemma DispatchedAnswers(protocols: map<u32, D.Methods>, request: R.Request, message: seq<byte>, reply: Reply)
    requires Dispatched(protocols, request, message, reply)
    ensures var response := D.Handle(protocols, message);
            && response.Ok? && D.Answers(protocols, request, response.value)
            && response.value != [] && |response.value| <= MAX_RESPONSE
            && reply == if Awaits(protocols, message) then Promises else Returns(response.value)
  {
    hide R.EncodeRequest, R.ParsePacket, D.Handle, D.Answers, D.Lost, D.Registered, Awaits;
    EncodedIsParsed(request, message);
    D.EveryRequestIsAnswered(protocols, message, request);
    AnswersAreLong(protocols, request, D.Handle(protocols, message).value);
  }

  /** The step that handles the last fragment: the reply is said at once, or the call is put in progress. */
  lemma LastStep(ctx: Context, ports: set<byte>, s: State, es: seq<Event>, p: QPacket, from: Address, env: Env,
                 i: nat, parts: seq<seq<byte>>)
    requires ValidContext(ctx) && SecurePorts(ports) && Closed(s) && Synced(ctx, s)
    requires Sends(ctx, ports, s, es, p, i, parts) && forall e :: e in es ==> Modest(ctx, e)
    requires var reply := env.handler(Streams.Concat(parts) + p.payload);
             reply.Returns? ==> |reply.response| <= MAX_RESPONSE
    ensures var before, asked := Run(ctx, ports, s, es), Run(ctx, ports, s, es + [Incoming(p, from, env)]);
            var reply := env.handler(Streams.Concat(parts) + p.payload);
            && Synced(ctx, before) && Synced(ctx, asked)
            && asked.messages == before.messages + Said(i, reply)
            && asked.pending == before.pending + Awaited(Call(i, from, p.source, p.destination), reply)
  {
    hide Inv, FreshRun, Step, HandleData, Among, Covers, FeedAll, Assemble, Streams.Concat, Modest, Advances, Synced;
    hide Said, Awaited;
    var before := Run(ctx, ports, s, es);
    var message := Streams.Concat(parts) + p.payload;
    RunSnoc(ctx, ports, s, es, Incoming(p, from, env));
    Reassembles(ctx, ports, s, es, i, parts, p.payload);
    ConnectedIs(before, i);
    LastFragmentSays(ctx, before, ports, p, from, env, message);
    DataIsHandled(ctx, ports, before, p, from, env);
    StepIsHandle(ctx, ports, before, Incoming(p, from, env));
    RunSynced(ctx, ports, s, es);
    DataSynced(ctx, before, ports, p, from, env);
  }

  lemma RunSnoc(ctx: Context, ports: set<byte>, s: State, es: seq<Event>, e: Event)
    requires Closed(s)
    ensures Run(ctx, ports, s, es + [e]) == Step(ctx, ports, Run(ctx, ports, s, es), e)
  {
    hide Step;
    assert (es + [e])[..|es|] == es;
  }

  /**
   * A remote call from end to end. A client sends an encoded request as above, to the dispatcher. The
   * response is a response to exactly that call: it carries the data the method produced, or the code
   * of the error that prevented it. When the method answers at once, the response is the next message
   * the client has received. When it promises an answer, nothing is said at first; the call stays in
   * progress through whatever happens later, and when its promise is settled, the response is the next
   * message the client has received.
   */
  lemma CallIsAnswered(ctx: Context, ports: set<byte>, s: State, es: seq<Event>, p: QPacket, from: Address, env: Env,
                       i: nat, parts: seq<seq<byte>>, protocols: map<u32, D.Methods>, request: R.Request,
                       later: seq<Event>)
    requires ValidContext(ctx) && SecurePorts(ports) && Closed(s) && Synced(ctx, s)
    requires Sends(ctx, ports, s, es, p, i, parts)
    requires (forall e :: e in es ==> Modest(ctx, e)) && (forall e :: e in later ==> Modest(ctx, e))
    requires var message := Streams.Concat(parts) + p.payload;
             Dispatched(protocols, request, message, env.handler(message))
    ensures var before, asked := Run(ctx, ports, s, es), Run(ctx, ports, s, es + [Incoming(p, from, env)]);
            var message := Streams.Concat(parts) + p.payload;
            var response := D.Handle(protocols, message);
            && response.Ok? && D.Answers(protocols, request, response.value)
            && if !Awaits(protocols, message) then
                 Received(ctx, asked.sent, i) == Inbox(Received(ctx, before.sent, i).messages + [response.value], [])
               else
                 var call, until := MovedAll(later, |before.pending|), Run(ctx, ports, asked, later);
                 && Received(ctx, asked.sent, i) == Received(ctx, before.sent, i)
                 && (call.Some? ==>
                       Received(ctx, Complete(ctx, until, call.value, Some(response.value)).sent, i) ==
                       Inbox(Received(ctx, until.sent, i).messages + [response.value], []))
  {
    hide Inv, Sends, Dispatched, Synced, Modest, Received, Run, Complete, D.Handle, D.Answers, Awaits, MovedAll;
    hide Streams.Concat;
    var before, asked := Run(ctx, ports, s, es), Run(ctx, ports, s, es + [Incoming(p, from, env)]);
    var message := Streams.Concat(parts) + p.payload;
    DispatchedAnswers(protocols, request, message, env.handler(message));
    var response := D.Handle(protocols, message).value;
    LastStep(ctx, ports, s, es, p, from, env, i, parts);
    if Awaits(protocols, message) {
      assert asked.messages == before.messages;
      SameInbox(ctx, before, asked, i);
      if MovedAll(later, |before.pending|).Some? {
        PromisedIsAnswered(ctx, ports, asked, later, |before.pending|, i, response);
      }
    } else {
      NextMessage(ctx, before, asked, i, response);
    }
  }

  /** Whatever happens until a promise is settled, its response is the next message of the client of its call. */
  lemma PromisedIsAnswered(ctx: Context, ports: set<byte>, s: State, later: seq<Event>, k: nat, i: nat,
                           response: seq<byte>)
    requires ValidContext(ctx) && SecurePorts(ports) && Closed(s) && Synced(ctx, s)
    requires k < |s.pending| && s.pending[k].client == i && MovedAll(later, k).Some?
    requires (forall e :: e in later ==> Modest(ctx, e)) && response != [] && |response| <= MAX_RESPONSE
    ensures var until := Run(ctx, ports, s, later);
            Received(ctx, Complete(ctx, until, MovedAll(later, k).value, Some(response)).sent, i) ==
            Inbox(Received(ctx, until.sent, i).messages + [response], [])
  {
    hide Synced, Modest, Received, Run, Complete, MovedAll;
    RunKeepsCall(ctx, ports, s, later, k);
    RunSynced(ctx, ports, s, later);
    PromiseIsKept(ctx, Run(ctx, ports, s, later), MovedAll(later, k).value, response);
  }

  lemma SameInbox(ctx: Context, s: State, t: State, i: nat)
    requires Synced(ctx, s) && Synced(ctx, t) && t.messages == s.messages
    ensures Received(ctx, t.sent, i) == Received(ctx, s.sent, i)
  {
    hide Received, MessagesFor;
    assert UpToDate(ctx, s, i, []) && UpToDate(ctx, t, i, []);
  }

  lemma ConnectedIs(s: State, i: nat)
    requires IsConnected(s, i)
    ensures s.objects[i].serverSignature in s.clients && s.clients[s.objects[i].serverSignature] == i
  {}

  /** While its client stays connected, the buffer has the message when the last fragment comes. */
  lemma Reassembles(ctx: Context, ports: set<byte>, s: State, es: seq<Event>, i: nat, parts: seq<seq<byte>>,
                    last: seq<byte>)
    requires Rc4.ValidKey(ctx.cryptoKey)
    requires Closed(s) && Inv(s) && FreshRun(ctx, ports, s, es) && Run(ctx, ports, s, es).accepted <= WRAP
    requires i < |s.objects| && IsConnected(s, i) && IsConnected(Run(ctx, ports, s, es), i)
    requires s.objects[i].packetFragments == map[]
    requires |parts| < 256 && |Streams.Concat(parts)| <= MAX_REASSEMBLED_SIZE
    requires Among(FragmentsFor(es, s.objects[i].serverSignature), parts)
    requires Covers(FragmentsFor(es, s.objects[i].serverSignature), parts)
    ensures var c := Run(ctx, ports, s, es).objects[i];
            && c.serverSignature == s.objects[i].serverSignature
            && Assemble(c.packetFragments, last) == Some(Streams.Concat(parts) + last)
  {
    hide Inv, FreshRun, Among, Covers, FeedAll, Assemble, Streams.Concat;
    RunFeeds(ctx, ports, s, es, i);
    AnyOrder(FragmentsFor(es, s.objects[i].serverSignature), parts, last);
  }

  lemma NextMessage(ctx: Context, s: State, t: State, i: nat, message: seq<byte>)
    requires Synced(ctx, s) && Synced(ctx, t) && t.messages == s.messages + [Message(i, message)]
    ensures Received(ctx, t.sent, i) == Inbox(Received(ctx, s.sent, i).messages + [message], [])
  {
    hide Received, MessagesFor;
    assert UpToDate(ctx, s, i, []) && UpToDate(ctx, t, i, []);
    MessagesSnoc(s.messages, Message(i, message), i);
  }

  /** A response that was promised is the next message its client receives, whenever it comes. */
  lemma PromiseIsKept(ctx: Context, s: State, k: nat, response: seq<byte>)
    requires ValidContext(ctx) && Closed(s) && Synced(ctx, s) && k < |s.pending|
    requires response != [] && |response| <= MAX_RESPONSE
    ensures var t := Complete(ctx, s, k, Some(response));
            var i := s.pending[k].client;
            Received(ctx, t.sent, i) == Inbox(Received(ctx, s.sent, i).messages + [response], [])
            && t.pending == s.pending[..k] + s.pending[k + 1..]
  {
    hide Received, Synced, SendMessage;
    var s' := s.(pending := s.pending[..k] + s.pending[k + 1..]);
    CompleteSynced(ctx, s, k, Some(response));
    MessageFrame(ctx, s', s.pending[k], response);
    NextMessage(ctx, s, Complete(ctx, s, k, Some(response)), s.pending[k].client, response);
  }

  /** A promise that is rejected ends its call and sends nothing. */
  lemma RejectedIsSilent(ctx: Context, s: State, k: nat)
    requires Closed(s) && k < |s.pending|
    ensures Complete(ctx, s, k, None) == s.(pending := s.pending[..k] + s.pending[k + 1..])
  {
    hide SendMessage;
  }

  // ---- from the client's datagrams ----

  /** What a client fills into its packets; its numbering of packets starts at `first` for this message. */
  datatype Connection = Connection(source: VPort, destination: VPort, sessionId: byte, signature: u32, first: u16)

  /** The packet with chunk `k` of a message. */
  function ChunkPacket(c: Connection, payload: seq<byte>, k: nat): QPacket
    requires k <= |FirstChunks(payload)|
  {
    var isLast := k == |FirstChunks(payload)|;
    QPacket(c.source, c.destination, DATA, Reliable(0), c.sessionId, c.signature, (c.first + k) % 0x1_0000,
            Some(if isLast then 0 else k + 1), None,
            if isLast then LastChunk(payload) else FirstChunks(payload)[k], 0, false)
  }

  /** The packets the server gets out of the datagram with chunk `k`. */
  function Carried(ctx: Context, c: Connection, payload: seq<byte>, k: nat): seq<QPacket>
    requires k <= |FirstChunks(payload)|
  {
    var data := Serialize(ctx, ChunkPacket(c, payload, k));
    if data.Err? then [] else Split(ctx, data.value)
  }

  /** Each datagram brings one packet to the server: its chunk, under its number. */
  lemma ChunkArrives(ctx: Context, c: Connection, payload: seq<byte>, k: nat)
    requires ValidContext(ctx) && c.source.streamType == RVSEC
    requires |payload| <= MAX_RESPONSE && k <= |FirstChunks(payload)|
    ensures var p := ChunkPacket(c, payload, k);
            var ps := Carried(ctx, c, payload, k);
            && |ps| == 1 && ps[0].packetType == DATA && !IsAck(ps[0]) && ps[0].signature == c.signature
            && ps[0].fragmentId == p.fragmentId && ps[0].payload == p.payload
            && VPortToByte(ps[0].destination) == VPortToByte(c.destination)
  {
    hide Serialize, Arrives, Arrived, Split, FirstChunks, LastChunk, ChunkPacket, ValidContext;
    var p := ChunkPacket(c, payload, k);
    ChunkFields(c, payload, k);
    SmallSerializes(ctx, p);
    SmallArrives(ctx, p);
    SplitOne(ctx, p);
    ArrivedAddress(ctx, p);
  }

  lemma ChunkFields(c: Connection, payload: seq<byte>, k: nat)
    requires c.source.streamType == RVSEC && |payload| <= MAX_RESPONSE && k <= |FirstChunks(payload)|
    ensures var p := ChunkPacket(c, payload, k);
            && Specific(p).Ok? && HasSize(p) && Secure(p) && !IsAck(p) && p.packetType == DATA
            && |p.payload| <= MAX_PAYLOAD_SIZE && p.signature == c.signature && p.destination == c.destination
            && p.fragmentId.Some? && p.fragmentId.value < 256
  {
    hide FirstChunks, LastChunk;
    CutMessage(payload);
    if k < |FirstChunks(payload)| {
      ChunkFits(payload, k);
    }
  }

  lemma ChunkFits(payload: seq<byte>, k: nat)
    requires k < |FirstChunks(payload)|
    ensures |FirstChunks(payload)[k]| <= MAX_PAYLOAD_SIZE
  {
    ChunkExtends(payload, k);
  }

  lemma ArrivedAddress(ctx: Context, p: QPacket)
    requires Arrives(ctx, p)
    ensures Arrived(ctx, p).signature == p.signature
    ensures VPortToByte(Arrived(ctx, p).destination) == VPortToByte(p.destination)
  {
    hide Serialize, OpenPayload, SealPayload, Seal, DataBytes, VPortToByte;
    PortByte(p.destination);
  }

  lemma PortByte(v: VPort)
    ensures VPortToByte(VPort(v.port % 16, v.streamType)) == VPortToByte(v)
  {}

  /** Event `e` is a packet of the datagram with chunk `k`. */
  predicate Brings(ctx: Context, e: Event, c: Connection, payload: seq<byte>, k: nat)
    requires k <= |FirstChunks(payload)|
  {
    e.Incoming? && e.packet in Carried(ctx, c, payload, k)
  }

  ghost predicate Reaches(ctx: Context, es: seq<Event>, c: Connection, payload: seq<byte>, k: nat)
    requires k <= |FirstChunks(payload)|
  {
    exists e :: e in es && Brings(ctx, e, c, payload, k)
  }

  /**
   * The datagrams with all chunks but the last have reached the server, in any order and any number of
   * times, and nothing else with data under the client's signature has.
   */
  ghost predicate DatagramsArrive(ctx: Context, es: seq<Event>, c: Connection, payload: seq<byte>) {
    && (forall k: nat :: k < |FirstChunks(payload)| ==> Reaches(ctx, es, c, payload, k))
    && (forall e :: e in es && e.Incoming? && !IsAck(e.packet) && e.packet.packetType == DATA
                    && e.packet.signature == c.signature ==>
          exists k: nat :: k < |FirstChunks(payload)| && Brings(ctx, e, c, payload, k))
  }

  /** A packet with data under the signature. */
  predicate HasFragment(e: Event, signature: u32) {
    && e.Incoming? && !IsAck(e.packet) && e.packet.packetType == DATA && e.packet.signature == signature
    && e.packet.fragmentId.Some?
  }

  /** The fragments under a signature are those of the packets with data under it. */
  lemma {:induction false} FragmentsFrom(es: seq<Event>, signature: u32, f: Fragment)
    ensures f in FragmentsFor(es, signature) <==>
            exists e :: e in es && HasFragment(e, signature)
                        && f == Fragment(e.packet.fragmentId.value, e.packet.payload)
    decreases |es|
  {
    if es == [] {
    } else {
      var init, last := es[..|es| - 1], es[|es| - 1];
      FragmentsFrom(init, signature, f);
      assert forall e :: e in es <==> e in init || e == last;
    }
  }

  lemma FragmentArrives(ctx: Context, e: Event, c: Connection, payload: seq<byte>, k: nat)
    requires ValidContext(ctx) && c.source.streamType == RVSEC && |payload| <= MAX_RESPONSE
    requires k < |FirstChunks(payload)| && Brings(ctx, e, c, payload, k)
    ensures HasFragment(e, c.signature)
    ensures e.packet.fragmentId.value == k + 1 && e.packet.payload == FirstChunks(payload)[k]
  {
    hide FirstChunks, LastChunk, Carried;
    ChunkArrives(ctx, c, payload, k);
  }

  lemma DatagramsAmong(ctx: Context, es: seq<Event>, c: Connection, payload: seq<byte>)
    requires ValidContext(ctx) && c.source.streamType == RVSEC && |payload| <= MAX_RESPONSE
    requires DatagramsArrive(ctx, es, c, payload)
    ensures Among(FragmentsFor(es, c.signature), FirstChunks(payload))
  {
    hide FirstChunks, LastChunk, FragmentsFor, Brings, ValidContext;
    forall f | f in FragmentsFor(es, c.signature)
      ensures 1 <= f.id <= |FirstChunks(payload)| && f.data == FirstChunks(payload)[f.id - 1]
    {
      FragmentsFrom(es, c.signature, f);
      var e :| e in es && HasFragment(e, c.signature) && f == Fragment(e.packet.fragmentId.value, e.packet.payload);
      var k: nat :| k < |FirstChunks(payload)| && Brings(ctx, e, c, payload, k);
      FragmentArrives(ctx, e, c, payload, k);
    }
  }

  lemma DatagramsCover(ctx: Context, es: seq<Event>, c: Connection, payload: seq<byte>)
    requires ValidContext(ctx) && c.source.streamType == RVSEC && |payload| <= MAX_RESPONSE
    requires DatagramsArrive(ctx, es, c, payload)
    ensures Covers(FragmentsFor(es, c.signature), FirstChunks(payload))
  {
    hide FirstChunks, LastChunk, FragmentsFor, Brings, ValidContext;
    var parts := FirstChunks(payload);
    forall k | 1 <= k <= |parts| ensures Part(parts, k) in FragmentsFor(es, c.signature) {
      assert Reaches(ctx, es, c, payload, k - 1);
      var e :| e in es && Brings(ctx, e, c, payload, k - 1);
      FragmentArrives(ctx, e, c, payload, k - 1);
      FragmentsFrom(es, c.signature, Part(parts, k));
    }
  }

  /**
   * So a client that cuts a message of at most 256,000 bytes into datagrams sends that message in the
   * sense of the results above: the chunks are its parts, and the last datagram brings the last packet.
   */
  lemma DatagramsSend(ctx: Context, ports: set<byte>, s: State, es: seq<Event>, i: nat, c: Connection,
                      payload: seq<byte>)
    requires ValidContext(ctx) && c.source.streamType == RVSEC && VPortToByte(c.destination) in ports
    requires Closed(s) && Inv(s) && FreshRun(ctx, ports, s, es) && Run(ctx, ports, s, es).accepted <= WRAP
    requires i < |s.objects| && IsConnected(s, i) && IsConnected(Run(ctx, ports, s, es), i)
    requires s.objects[i].packetFragments == map[] && c.signature == s.objects[i].serverSignature
    requires |payload| <= MAX_RESPONSE && DatagramsArrive(ctx, es, c, payload)
    ensures var ps := Carried(ctx, c, payload, |FirstChunks(payload)|);
            && |ps| == 1 && Sends(ctx, ports, s, es, ps[0], i, FirstChunks(payload))
            && Streams.Concat(FirstChunks(payload)) + ps[0].payload == payload
  {
    hide FirstChunks, LastChunk, Carried, FragmentsFor, DatagramsArrive, Among, Covers, Inv, FreshRun, Run;
    CutMessage(payload);
    DatagramsAmong(ctx, es, c, payload);
    DatagramsCover(ctx, es, c, payload);
    ChunkArrives(ctx, c, payload, |FirstChunks(payload)|);
  }
}
