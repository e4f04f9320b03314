/** What each handler changes, field by field, and what a step as a whole does to clients, calls and deliveries. */
module Frames {
  import opened Basics
  import opened Packets
  import opened Server

  // ---- sending ----

  lemma PacketFrame(ctx: Context, s: State, client: nat, kind: Kind, to: Address, p: QPacket)
    ensures var t := SendPacket(ctx, s, client, kind, to, p);
            t == s.(sent := t.sent) && |s.sent| <= |t.sent|
  {
    hide Serialize;
  }

  lemma AckFrame(ctx: Context, s: State, to: Address, p: QPacket, client: nat, keep: bool)
    requires client < |s.objects|
    ensures var t := SendAck(ctx, s, to, p, client, keep);
            t == s.(sent := t.sent) && |s.sent| <= |t.sent|
  {
    hide SendPacket;
    PacketFrame(ctx, s, client, Ack, to, AckPacket(p, s.objects[client], keep));
  }

  /** The clients of `s` with the response counter client `i` has in `t`. */
  function WithCounter(s: State, t: State, i: nat): seq<Client>
    requires i < |s.objects| && i < |t.objects|
  {
    s.objects[i := s.objects[i].(serverSequenceId := t.objects[i].serverSequenceId)]
  }

  lemma FragmentFrame(ctx: Context, s: State, call: Call, response: seq<byte>, i: nat)
    requires call.client < |s.objects| && i < FragmentCount(|response|)
    ensures var t := SendFragment(ctx, s, call, response, i);
            |t.objects| == |s.objects| && t == s.(objects := WithCounter(s, t, call.client), sent := t.sent)
  {
    hide SendPacket, ResponsePacket;
    var c := s.objects[call.client];
    var s' := s.(objects := s.objects[call.client := c.(serverSequenceId := (c.serverSequenceId + 1) % 0x1_0000)]);
    PacketFrame(ctx, s', call.client, Response, call.from, ResponsePacket(call, c, response, i));
  }

  lemma {:induction false} FragmentsFrame(ctx: Context, s: State, call: Call, response: seq<byte>, n: nat)
    requires call.client < |s.objects| && n <= FragmentCount(|response|)
    ensures var t := SendFragments(ctx, s, call, response, n);
            |t.objects| == |s.objects| && t == s.(objects := WithCounter(s, t, call.client), sent := t.sent)
    decreases n
  {
    hide SendFragment;
    if n == 0 {
      assert s.objects == WithCounter(s, s, call.client);
    } else {
      var t := SendFragments(ctx, s, call, response, n - 1);
      FragmentsFrame(ctx, s, call, response, n - 1);
      FragmentFrame(ctx, t, call, response, n - 1);
      CountersCompose(s, t, SendFragment(ctx, t, call, response, n - 1), call.client);
    }
  }

  lemma CountersCompose(s: State, t: State, u: State, i: nat)
    requires i < |s.objects| && |t.objects| == |s.objects| && |u.objects| == |s.objects|
    requires t.objects == WithCounter(s, t, i)
    ensures WithCounter(t, u, i) == WithCounter(s, u, i)
  {
    assert t.objects[i] == s.objects[i].(serverSequenceId := t.objects[i].serverSequenceId);
  }

  /** The message a reply of a handler sends at once. */
  function Said(client: nat, reply: Reply): seq<Message> {
    if reply.Returns? && reply.response != [] then [Message(client, reply.response)] else []
  }

  lemma MessageFrame(ctx: Context, s: State, call: Call, response: seq<byte>)
    requires call.client < |s.objects|
    ensures var t := SendMessage(ctx, s, call, response);
            && |t.objects| == |s.objects|
            && t == s.(objects := WithCounter(s, t, call.client), sent := t.sent,
                       messages := s.messages + Said(call.client, Returns(response)))
  {
    hide SendFragments;
    FragmentsFrame(ctx, s, call, response, FragmentCount(|response|));
    assert s.messages + [] == s.messages;
  }

  lemma RequestFrame(ctx: Context, s: State, client: nat, p: QPacket)
    requires client < |s.objects|
    ensures var t := SendRequest(ctx, s, client, p);
            var c := s.objects[client];
            && t == s.(objects := s.objects[client := c.(clientSequenceId := (c.clientSequenceId + 1) % 0x1_0000)],
                       sent := t.sent, messages := t.messages)
            && |s.sent| <= |t.sent|
  {
    hide Serialize;
  }

  // ---- data ----

  /** The call a reply leaves in progress. */
  function Awaited(call: Call, reply: Reply): seq<Call> {
    if reply.Promises? then [call] else []
  }

  lemma DeliverFrame(ctx: Context, s: State, ports: set<byte>, p: QPacket, from: Address, client: nat,
                     payload: seq<byte>, env: Env)
    requires client < |s.objects| && VPortToByte(p.destination) in ports
    ensures var t := Deliver(ctx, s, ports, p, from, client, payload, env);
            var reply := env.handler(payload);
            && |t.objects| == |s.objects|
            && t == s.(objects := WithCounter(s, t, client), sent := t.sent,
                       messages := s.messages + Said(client, reply),
                       pending := s.pending + Awaited(Call(client, from, p.source, p.destination), reply),
                       deliveries := s.deliveries + [Delivery(client, payload)])
  {
    hide SendMessage;
    var call := Call(client, from, p.source, p.destination);
    var s' := s.(deliveries := s.deliveries + [Delivery(client, payload)]);
    assert s.objects == WithCounter(s, s, client);
    assert s.messages + [] == s.messages && s.pending + [] == s.pending;
    match env.handler(payload) {
      case Returns(response) => MessageFrame(ctx, s', call, response);
      case _ =>
    }
  }

  /** The message a DATA packet brings to the handler of its port. */
  function Brought(ports: set<byte>, c: Client, p: QPacket): Option<seq<byte>> {
    if VPortToByte(p.destination) in ports then CompletedMessage(c, p) else None
  }

  /** What that does to the rest of the state: nothing, or a delivery and the reply to it. */
  function Taken(s: State, client: nat, p: QPacket, from: Address, message: Option<seq<byte>>, env: Env): State {
    if message.None? then s else
    var reply := env.handler(message.value);
    s.(messages := s.messages + Said(client, reply),
       pending := s.pending + Awaited(Call(client, from, p.source, p.destination), reply),
       deliveries := s.deliveries + [Delivery(client, message.value)])
  }

  /** The state in which a DATA packet has been acknowledged and buffered. */
  function Fed(ctx: Context, s: State, p: QPacket, from: Address, now: int): State
    requires Closed(s) && p.signature in s.clients
  {
    var client := s.clients[p.signature];
    var c := s.objects[client];
    s.(objects := s.objects[client := c.(lastSeen := now, packetFragments := FeedPacket(c.packetFragments, p))],
       sent := SendAck(ctx, Update(s, client, c.(lastSeen := now)), from, p, client, false).sent)
  }

  lemma DataIsFed(ctx: Context, s: State, ports: set<byte>, p: QPacket, from: Address, env: Env)
    requires Closed(s) && p.signature in s.clients
    ensures var client := s.clients[p.signature];
            var message := CompletedMessage(s.objects[client], p);
            var fed := Fed(ctx, s, p, from, env.now);
            && |fed.objects| == |s.objects|
            && HandleData(ctx, s, ports, p, from, env) ==
               if message.Some? then Deliver(ctx, fed, ports, p, from, client, message.value, env) else fed
  {
    hide SendAck, Deliver, Store, Assemble;
    var client := s.clients[p.signature];
    var c := s.objects[client].(lastSeen := env.now);
    var s0 := Update(s, client, c);
    AckFrame(ctx, s0, from, p, client, false);
    assert Fed(ctx, s, p, from, env.now).objects ==
           s0.objects[client := c.(packetFragments := FeedPacket(c.packetFragments, p))];
  }

  lemma NoHandler(ctx: Context, s: State, ports: set<byte>, p: QPacket, from: Address, client: nat,
                  payload: seq<byte>, env: Env)
    requires client < |s.objects| && VPortToByte(p.destination) !in ports
    ensures Deliver(ctx, s, ports, p, from, client, payload, env) == s
  {}

  /** A DATA packet changes its client, the output, and what its message brings about; nothing else. */
  lemma DataFrame(ctx: Context, s: State, ports: set<byte>, p: QPacket, from: Address, env: Env)
    requires Closed(s) && p.signature in s.clients
    ensures var t := HandleData(ctx, s, ports, p, from, env);
            var client := s.clients[p.signature];
            var c := s.objects[client];
            && |t.objects| == |s.objects|
            && t == Taken(s, client, p, from, Brought(ports, c, p), env).(
                      objects := s.objects[client := c.(lastSeen := env.now,
                                                        packetFragments := FeedPacket(c.packetFragments, p),
                                                        serverSequenceId := t.objects[client].serverSequenceId)],
                      sent := t.sent)
  {
    hide HandleData, SendAck, Deliver, FeedPacket, CompletedMessage, Said, Awaited;
    var client := s.clients[p.signature];
    var fed := Fed(ctx, s, p, from, env.now);
    var message := CompletedMessage(s.objects[client], p);
    DataIsFed(ctx, s, ports, p, from, env);
    if message.Some? && VPortToByte(p.destination) in ports {
      DeliverFrame(ctx, fed, ports, p, from, client, message.value, env);
    } else if message.Some? {
      NoHandler(ctx, fed, ports, p, from, client, message.value, env);
    }
  }

  lemma DataIsHandled(ctx: Context, ports: set<byte>, s: State, p: QPacket, from: Address, env: Env)
    requires Closed(s) && !IsAck(p) && p.packetType == DATA
    ensures HandlePacket(ctx, ports, s, p, from, env) == HandleData(ctx, s, ports, p, from, env)
  {}

  lemma UnknownData(ctx: Context, s: State, ports: set<byte>, p: QPacket, from: Address, env: Env)
    requires Closed(s) && p.signature !in s.clients
    ensures HandleData(ctx, s, ports, p, from, env) == s
  {}

  // ---- steps ----

  /** Event `e` is a DATA packet of a connected client. */
  predicate CarriesData(s: State, e: Event) {
    e.Incoming? && !IsAck(e.packet) && e.packet.packetType == DATA && e.packet.signature in s.clients
  }

  /** Event `e` is a DATA or PING packet of a connected client. */
  predicate IsHeard(s: State, e: Event) {
    && e.Incoming? && !IsAck(e.packet) && (e.packet.packetType == DATA || e.packet.packetType == PING)
    && e.packet.signature in s.clients
  }

  /** Client `i` after event `e`: who it is, how often it was asked, when it was seen, what it has buffered. */
  ghost predicate ClientFramed(s: State, e: Event, i: nat, c: Client)
    requires i < |s.objects|
  {
    && c.address == s.objects[i].address && c.serverSignature == s.objects[i].serverSignature
    && c.clientSequenceId == (if e.Requested? && e.client == i then (s.objects[i].clientSequenceId + 1) % 0x1_0000
                              else s.objects[i].clientSequenceId)
    && c.lastSeen == (if IsHeard(s, e) && s.clients[e.packet.signature] == i then e.env.now else s.objects[i].lastSeen)
    && c.packetFragments == if CarriesData(s, e) && s.clients[e.packet.signature] == i
                            then FeedPacket(s.objects[i].packetFragments, e.packet) else s.objects[i].packetFragments
  }

  /** The calls in progress after event `e`: one less when one is settled, one more when a handler promises. */
  function CallsAfter(ports: set<byte>, s: State, e: Event): seq<Call>
    requires Closed(s)
  {
    if e.Completed? && e.call < |s.pending| then s.pending[..e.call] + s.pending[e.call + 1..]
    else if CarriesData(s, e) then
      var client := s.clients[e.packet.signature];
      Taken(s, client, e.packet, e.from, Brought(ports, s.objects[client], e.packet), e.env).pending
    else s.pending
  }

  function DeliveriesAfter(ports: set<byte>, s: State, e: Event): seq<Delivery>
    requires Closed(s)
  {
    if CarriesData(s, e) then
      var client := s.clients[e.packet.signature];
      Taken(s, client, e.packet, e.from, Brought(ports, s.objects[client], e.packet), e.env).deliveries
    else s.deliveries
  }

  ghost predicate Framed(ports: set<byte>, s: State, e: Event, t: State)
    requires Closed(s)
  {
    && |s.objects| <= |t.objects|
    && (forall i: nat :: i < |s.objects| ==> ClientFramed(s, e, i, t.objects[i]))
    && (forall i: nat :: |s.objects| <= i < |t.objects| ==> t.objects[i].packetFragments == map[])
    && t.pending == CallsAfter(ports, s, e) && t.deliveries == DeliveriesAfter(ports, s, e)
  }

  lemma DataFramed(ctx: Context, ports: set<byte>, s: State, p: QPacket, from: Address, env: Env)
    requires Closed(s) && CarriesData(s, Incoming(p, from, env))
    ensures Framed(ports, s, Incoming(p, from, env), HandleData(ctx, s, ports, p, from, env))
  {
    hide HandleData, FeedPacket, Brought, Said, Awaited;
    DataFrame(ctx, s, ports, p, from, env);
  }

  /** A state that differs in no more than the tables, the sessions and the output. */
  lemma SameClients(ports: set<byte>, s: State, e: Event, t: State)
    requires Closed(s) && !IsHeard(s, e) && !e.Completed? && !e.Requested? && |s.objects| <= |t.objects|
    requires forall i: nat :: i < |s.objects| ==>
               && t.objects[i].address == s.objects[i].address && t.objects[i].lastSeen == s.objects[i].lastSeen
               && t.objects[i].serverSignature == s.objects[i].serverSignature
               && t.objects[i].clientSequenceId == s.objects[i].clientSequenceId
               && t.objects[i].packetFragments == s.objects[i].packetFragments
    requires forall i: nat :: |s.objects| <= i < |t.objects| ==> t.objects[i].packetFragments == map[]
    requires t.pending == s.pending && t.deliveries == s.deliveries
    ensures Framed(ports, s, e, t)
  {}

  lemma ConnectFramed(ctx: Context, ports: set<byte>, s: State, p: QPacket, from: Address, env: Env)
    requires Closed(s) && p.packetType == CONNECT
    ensures Framed(ports, s, Incoming(p, from, env), HandleConnect(ctx, s, p, from, env))
  {
    hide SendAck, PresentedTicket, Challenge, Framed;
    if p.connSignature.Some? && p.signature in s.newClients {
      var client := s.newClients[p.signature];
      var c := s.objects[client].(clientSignature := p.connSignature, serverSession := env.session,
                                  clientSession := p.sessionId);
      var s1 := s.(objects := s.objects[client := c], newClients := s.newClients - {p.signature},
                   clients := s.clients[p.signature := client]);
      var (s2, reply) := if p.payload == [] then (s1, [])
                         else AcceptTicket(ctx, s1, client, p.signature, p.payload, env.now);
      AckFrame(ctx, s2, from, p.(connSignature := Some(0), payload := reply), client, reply != []);
    }
    SameClients(ports, s, Incoming(p, from, env), HandleConnect(ctx, s, p, from, env));
  }

  lemma SynFramed(ctx: Context, ports: set<byte>, s: State, p: QPacket, from: Address, env: Env)
    requires Closed(s) && p.packetType == SYN
    ensures Framed(ports, s, Incoming(p, from, env), HandleSyn(ctx, s, p, from, env))
  {
    hide SendAck, Framed;
    var s' := s.(objects := s.objects + [NewClient(from, env.signature, env.now)],
                 newClients := s.newClients[env.signature := |s.objects|]);
    AckFrame(ctx, s', from, p.(connSignature := Some(env.signature)), |s.objects|, false);
    SameClients(ports, s, Incoming(p, from, env), HandleSyn(ctx, s, p, from, env));
  }

  lemma DisconnectFramed(ctx: Context, ports: set<byte>, s: State, p: QPacket, from: Address, env: Env)
    requires Closed(s) && p.packetType == DISCONNECT
    ensures Framed(ports, s, Incoming(p, from, env), HandleDisconnect(ctx, s, p, from))
  {
    hide SendAck, Framed;
    if p.signature in s.clients {
      AckFrame(ctx, RemoveClient(s, p.signature), from, p, s.clients[p.signature], false);
    }
    SameClients(ports, s, Incoming(p, from, env), HandleDisconnect(ctx, s, p, from));
  }

  lemma PingFramed(ctx: Context, ports: set<byte>, s: State, p: QPacket, from: Address, env: Env)
    requires Closed(s) && p.packetType == PING && !IsAck(p)
    ensures Framed(ports, s, Incoming(p, from, env), HandlePing(ctx, s, p, from, env.now))
  {
    hide SendAck;
    if p.signature in s.clients {
      var client := s.clients[p.signature];
      AckFrame(ctx, Update(s, client, s.objects[client].(lastSeen := env.now)), from, p, client, false);
    }
  }

  lemma PacketFramed(ctx: Context, ports: set<byte>, s: State, p: QPacket, from: Address, env: Env)
    requires Closed(s)
    ensures Framed(ports, s, Incoming(p, from, env), HandlePacket(ctx, ports, s, p, from, env))
  {
    hide HandleSyn, HandleConnect, HandleData, HandleDisconnect, HandlePing, Framed;
    if !IsAck(p) && p.packetType == SYN {
      SynFramed(ctx, ports, s, p, from, env);
    } else if !IsAck(p) && p.packetType == CONNECT {
      ConnectFramed(ctx, ports, s, p, from, env);
    } else if !IsAck(p) && p.packetType == DATA {
      DataIsHandled(ctx, ports, s, p, from, env);
      if p.signature in s.clients {
        DataFramed(ctx, ports, s, p, from, env);
      } else {
        UnknownData(ctx, s, ports, p, from, env);
        SameClients(ports, s, Incoming(p, from, env), s);
      }
    } else if !IsAck(p) && p.packetType == DISCONNECT {
      DisconnectFramed(ctx, ports, s, p, from, env);
    } else if !IsAck(p) && p.packetType == PING {
      PingFramed(ctx, ports, s, p, from, env);
    } else {
      SameClients(ports, s, Incoming(p, from, env), s);
    }
  }

  lemma CompleteFramed(ctx: Context, ports: set<byte>, s: State, k: nat, response: Option<seq<byte>>)
    requires Closed(s)
    ensures Framed(ports, s, Completed(k, response), Complete(ctx, s, k, response))
  {
    hide SendMessage, Said;
    if k < |s.pending| && response.Some? {
      MessageFrame(ctx, s.(pending := s.pending[..k] + s.pending[k + 1..]), s.pending[k], response.value);
    }
  }

  lemma RequestFramed(ctx: Context, ports: set<byte>, s: State, client: nat, p: QPacket)
    requires Closed(s)
    ensures Framed(ports, s, Requested(client, p), if client < |s.objects| then SendRequest(ctx, s, client, p) else s)
  {
    hide SendRequest;
    if client < |s.objects| {
      RequestFrame(ctx, s, client, p);
    }
  }

  /** Every step: who clients are never changes, and only their own DATA and PING packets touch buffers and times. */
  lemma StepFrame(ctx: Context, ports: set<byte>, s: State, e: Event)
    requires Closed(s)
    ensures Framed(ports, s, e, Step(ctx, ports, s, e))
  {
    hide HandlePacket, Complete, SendRequest, Framed;
    match e
    case Incoming(p, from, env) => PacketFramed(ctx, ports, s, p, from, env);
    case Completed(k, response) => CompleteFramed(ctx, ports, s, k, response);
    case Requested(client, p) => RequestFramed(ctx, ports, s, client, p);
    case _ => SameClients(ports, s, e, Step(ctx, ports, s, e));
  }
}
